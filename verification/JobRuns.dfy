/** Runs of the queue made of the worker's own steps only: how they are composed, and the run that
    executes and acknowledges one entry, whatever its handler does. */
module JobRuns {
  import opened Prelude
  import opened JobRows
  import opened JobQueue

  // The worker's own steps: no new request, no duplicate, no cancellation, no crash.
  predicate OwnStep(a: Action) {
    a.Poll? || a.Publish? || a.Claim? || a.Read? || a.Begin? || a.Settle? || a.Announce? || a.Ack?
  }

  predicate OwnSteps(path: seq<Action>) {
    forall i :: 0 <= i < |path| ==> OwnStep(path[i])
  }

  ghost predicate Leads(s: State, path: seq<Action>, t: State) {
    Legal(s, path) && OwnSteps(path) && After(s, path) == t
  }

  lemma Stop(s: State)
    ensures Leads(s, [], s)
  {
  }

  lemma Then(s: State, path: seq<Action>, t: State, a: Action)
    requires Leads(s, path, t) && OwnStep(a) && Enabled(t, a)
    ensures Leads(s, path + [a], Next(t, a))
  {
    assert After(t, [a]) == Next(t, a);
    AfterConcat(s, path, [a]);
  }

  lemma Join(s: State, p: seq<Action>, t: State, q: seq<Action>, u: State)
    requires Leads(s, p, t) && Leads(t, q, u)
    ensures Leads(s, p + q, u)
  {
    AfterConcat(s, p, q);
  }

  lemma OneStep(s: State, a: Action)
    requires Enabled(s, a)
    ensures Legal(s, [a]) && After(s, [a]) == Next(s, a)
  {
    assert After(Next(s, a), [a][1..]) == Next(s, a);
  }

  function ExecutedRow(jobs: Rows, id: JobId, now: int, run: HandlerRun): Rows {
    if id in jobs then jobs[id := Executed(jobs[id], now, now, run)] else jobs
  }

  // A worker has one thing to do at a time: of its steps, those enabled in a state are of one kind.
  lemma OneKindAtATime(s: State, a: Action, b: Action)
    requires OwnStep(a) && OwnStep(b) && Enabled(s, a) && Enabled(s, b)
    ensures a.Poll? == b.Poll? && a.Publish? == b.Publish? && a.Claim? == b.Claim? && a.Read? == b.Read?
    ensures a.Begin? == b.Begin? && a.Settle? == b.Settle? && a.Announce? == b.Announce? && a.Ack? == b.Ack?
  {
  }

  ghost predicate ClaimsInTurn(s: State) {
    s.worker.Up? && s.worker.phase.Claiming? ==> s.worker.iteration % 6 == 0
  }

  lemma {:induction false} EverySixthClaims(s: State, actions: seq<Action>)
    requires Legal(s, actions) && ClaimsInTurn(s)
    ensures ClaimsInTurn(After(s, actions))
    decreases |actions|
  {
    if actions != [] {
      StepClaimsInTurn(s, actions[0]);
      EverySixthClaims(Next(s, actions[0]), actions[1..]);
    }
  }

  lemma StepClaimsInTurn(s: State, a: Action)
    requires Enabled(s, a) && ClaimsInTurn(s)
    ensures ClaimsInTurn(Next(s, a))
  {
    hide IdleFrom;
  }

  // In every run a worker claims only in iterations whose number is a multiple of six.
  lemma ClaimsEverySixthIteration(now: int, actions: seq<Action>)
    requires Legal(Empty(now), actions) && Enabled(After(Empty(now), actions), Claim)
    ensures After(Empty(now), actions).worker.iteration % 6 == 0
  {
    EverySixthClaims(Empty(now), actions);
  }

  // What a worker takes: a read the next ten entries of the stream, or all that are left, and a claim the hundred
  // lowest pending entries that have been idle for a minute, or all there are.
  lemma WorkerTakes(s: State, batch: seq<nat>)
    requires s.delivered <= |s.stream|
    ensures Enabled(s, Read) && Next(s, Read).worker == Up(s.worker.iteration, Working(batch, true, Ready)) ==>
              && 1 <= |batch| <= 10 && forall i :: 0 <= i < |batch| ==> batch[i] == s.delivered + i
    ensures Enabled(s, Read) ==>
              Next(s, Read).delivered == |s.stream| || Next(s, Read).delivered == s.delivered + 10
    ensures Enabled(s, Claim) && Next(s, Claim).worker == Up(s.worker.iteration, Working(batch, false, Ready)) ==>
              && 1 <= |batch| <= 100
              && (forall m :: m in batch ==> m in s.pending && s.now - s.pending[m] >= 60)
              && (forall m :: 0 <= m < |s.stream| && m in s.pending && s.now - s.pending[m] >= 60 && m !in batch ==>
                    |batch| == 100 && forall i :: 0 <= i < |batch| ==> batch[i] < m)
  {
    IdleFromFacts(s, 0, CLAIM_LIMIT);
    hide IdleFrom;
  }

  // A cancelled job is over, and a submitted one waits in the queue to be polled.
  lemma RequestsAreSeen(s: State, id: JobId)
    ensures id in s.jobs ==> Next(s, Cancel(id)).jobs[id].Terminal()
    ensures id !in s.jobs ==> Due(Next(s, Submit(id)).jobs[id], s.now)
  {
    if id in s.jobs {
      match s.jobs[id].status
      case Queued =>
      case Running =>
      case _ =>
    }
  }

  // --- one entry, whatever its handler does ----------------------------------------------

  // The steps that follow Begin when the handler has run.
  function Ending(run: HandlerRun): seq<Action> {
    match run
    case Unsupported => [Settle(Raises(true, "unsupported job kind"))]
    case Returned => [Settle(Returns), Announce(None)]
    case ReturnedUnannounced(permanent, message) => [Settle(Returns), Announce(Some(Failure(permanent, message)))]
    case AskedToDefer(delay) => [Settle(Defers(delay))]
    case Raised(permanent, message) => [Settle(Raises(permanent, message))]
  }

  lemma EndingSettles(s: State, before: Job, run: HandlerRun)
    requires AtHead(s, Executing) && CanBegin(before, s.now) && s.jobs[HeadJob(s)] == Begun(before, s.now)
    ensures Leads(s, Ending(run), WithHead(s, Executed(before, s.now, s.now, run), Acking))
  {
    var first := Ending(run)[0];
    OneStep(s, first);
    if |Ending(run)| == 2 {
      OneStep(Next(s, first), Ending(run)[1]);
      AfterConcat(s, [first], [Ending(run)[1]]);
      assert [first] + [Ending(run)[1]] == Ending(run);
    } else {
      assert [first] == Ending(run);
    }
  }

  lemma EntryIsARun(s: State, run: HandlerRun) returns (path: seq<Action>, t: State)
    requires AtHead(s, Ready)
    ensures Leads(s, path, t)
    ensures t == s.(jobs := ExecutedRow(s.jobs, HeadJob(s), s.now, run),
                    pending := s.pending - {s.worker.phase.batch[0]},
                    worker := WorkingOr(s.worker.iteration, s.worker.phase.batch[1..], s.worker.phase.fromRead))
  {
    var job := s.jobs[HeadJob(s)];
    var begun := Next(s, Begin);
    OneStep(s, Begin);
    path, t := [Begin], begun;
    if CanBegin(job, s.now) {
      EndingSettles(begun, job, run);
      t := WithHead(begun, Executed(job, s.now, s.now, run), Acking);
      Join(s, path, begun, Ending(run), t);
      path := path + Ending(run);
    }
    assert t == WithHead(s, Executed(job, s.now, s.now, run), Acking);
    Then(s, path, t, Ack);
    path, t := path + [Ack], Next(t, Ack);
  }
}
