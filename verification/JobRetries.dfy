/** The retry budget of one job under any number of overlapping executions.

    An execution lives from its first transaction to its last. Executions of the same job
    may overlap (a slow worker, a claimed entry, a duplicate stream entry), may crash at any
    point, and may interleave with the poll and with cancellation. The history of re-queues
    made by failures is recorded beside the row. */
module JobRetries {
  import opened Prelude
  import opened JobRows

  // requeues: the delay of each re-queue made by a failed execution, oldest first.
  // executing: executions past their first transaction and before their last.
  datatype World = World(now: int, job: Job, executing: nat, requeues: seq<int>)

  datatype Event =
    | Wait(seconds: nat)
    | Poll
    | Cancel
    | Begin
    | Crash
    | Finish
    | EndAnnounced
    | Defer(delay: int)
    | Fail(permanent: bool, message: string)

  predicate Possible(w: World, e: Event) {
    match e
    case Wait(_) => true
    case Poll => Due(w.job, w.now)
    case Cancel => true
    case Begin => true
    case Crash => w.executing > 0
    case Finish => w.executing > 0
    case EndAnnounced => w.executing > 0
    case Defer(_) => w.executing > 0
    case Fail(_, _) => w.executing > 0
  }

  // Finish commits the result; the execution ends when its event is announced, or in Fail
  // when announcing raises. A skipped row lock is a Begin that changes nothing, and needs no event.
  function Next(w: World, e: Event): World
    requires Possible(w, e)
  {
    match e
    case Wait(seconds) => w.(now := w.now + seconds)
    case Poll => w.(job := Locked(w.job, w.now))
    case Cancel => w.(job := CancelledRow(w.job, w.now))
    case Begin => w.(job := Begun(w.job, w.now),
                     executing := if CanBegin(w.job, w.now) then w.executing + 1 else w.executing)
    case Crash => w.(executing := w.executing - 1)
    case Finish => w.(job := Finished(w.job, w.now))
    case EndAnnounced => w.(executing := w.executing - 1)
    case Defer(delay) => w.(job := Deferred(w.job, w.now, delay), executing := w.executing - 1)
    case Fail(permanent, message) =>
      w.(job := FailedOrRetried(w.job, w.now, permanent, message),
         executing := w.executing - 1,
         requeues := if Requeues(w.job, permanent) then w.requeues + [RetryDelay(w.job.attempts)] else w.requeues)
  }

  predicate Legal(w: World, events: seq<Event>)
    decreases |events|
  {
    events == [] || (Possible(w, events[0]) && Legal(Next(w, events[0]), events[1..]))
  }

  function After(w: World, events: seq<Event>): World
    requires Legal(w, events)
    decreases |events|
  {
    if events == [] then w else After(Next(w, events[0]), events[1..])
  }

  function Fresh(now: int): World {
    World(now, Submitted(now), 0, [])
  }

  predicate Ascending(delays: seq<int>) {
    forall i, j :: 0 <= i < j < |delays| ==> delays[i] <= delays[j]
  }

  // Each execution still running, and each re-queue already made, consumed its own attempt.
  predicate Budgeted(w: World) {
    && |w.requeues| + w.executing <= w.job.attempts
    && |w.requeues| <= |RETRY_SECONDS|
    && Ascending(w.requeues)
    && (forall d :: d in w.requeues ==>
          d in RETRY_SECONDS && (1 <= w.job.attempts <= |RETRY_SECONDS| ==> d <= RetryDelay(w.job.attempts)))
  }

  lemma StepKeepsBudget(w: World, e: Event)
    requires Budgeted(w) && Possible(w, e)
    ensures Budgeted(Next(w, e))
    ensures e.Fail? && Requeues(w.job, e.permanent) ==> 1 <= w.job.attempts <= |RETRY_SECONDS|
  {
    if e.Fail? && Requeues(w.job, e.permanent) {
      assert forall i :: 0 <= i < |w.requeues| ==> w.requeues[i] in w.requeues;
    }
  }

  // Main result: over the whole life of a job, failures re-queue it at most three times, the
  // retry table is only ever indexed inside its range, and the delays never decrease.
  lemma {:induction false} RetriesAreBounded(w: World, events: seq<Event>)
    requires Budgeted(w) && Legal(w, events)
    ensures Budgeted(After(w, events))
    ensures forall i :: 0 <= i < |events| && events[i].Fail? ==>
              Legal(w, events[..i]) && After(w, events[..i]).job.attempts >= 1
    decreases |events|
  {
    if events != [] {
      StepKeepsBudget(w, events[0]);
      var rest := events[1..];
      RetriesAreBounded(Next(w, events[0]), rest);
      forall i | 0 <= i < |events| && events[i].Fail?
        ensures Legal(w, events[..i]) && After(w, events[..i]).job.attempts >= 1
      {
        if i > 0 {
          assert events[..i][1..] == rest[..i - 1];
          assert rest[i - 1].Fail?;
        }
      }
    }
  }

  lemma RetriesOfAJob(now: int, events: seq<Event>)
    requires Legal(Fresh(now), events)
    ensures var w := After(Fresh(now), events);
            |w.requeues| <= 3 && Ascending(w.requeues) && |w.requeues| <= w.job.attempts
  {
    RetriesAreBounded(Fresh(now), events);
  }

  // How many executions are started along a run.
  function Starts(w: World, events: seq<Event>): nat
    requires Legal(w, events)
    decreases |events|
  {
    if events == [] then 0
    else (if events[0].Begin? && CanBegin(w.job, w.now) then 1 else 0) + Starts(Next(w, events[0]), events[1..])
  }

  // Attempts count starts, whatever ends them.
  lemma {:induction false} AttemptsCountStarts(w: World, events: seq<Event>)
    requires Legal(w, events)
    ensures After(w, events).job.attempts == w.job.attempts + Starts(w, events)
    decreases |events|
  {
    if events != [] {
      AttemptsCountStarts(Next(w, events[0]), events[1..]);
    }
  }

  // Over every run of a new job a failure re-queues it exactly when it is transient and at most three
  // executions have been started, whether those before failed, were deferred or died.
  lemma FailureEndsExactlyWhen(now: int, events: seq<Event>, permanent: bool, message: string)
    requires Legal(Fresh(now), events) && After(Fresh(now), events).executing > 0
    ensures var w := After(Fresh(now), events);
            Next(w, Fail(permanent, message)).job.status ==
            if !permanent && Starts(Fresh(now), events) <= |RETRY_SECONDS| then Queued else Failed
  {
    AttemptsCountStarts(Fresh(now), events);
  }

  // How many executions end along a run, and how many failures put the job back.
  function Ends(events: seq<Event>): nat {
    if events == [] then 0
    else
      (if events[0].Crash? || events[0].EndAnnounced? || events[0].Defer? || events[0].Fail? then 1 else 0)
      + Ends(events[1..])
  }

  function PutBacks(w: World, events: seq<Event>): nat
    requires Legal(w, events)
    decreases |events|
  {
    if events == [] then 0
    else
      (if events[0].Fail? && Next(w, events[0]).job.status == Queued then 1 else 0)
      + PutBacks(Next(w, events[0]), events[1..])
  }

  // Executions under way are those started and not ended, and the history records each failure that put the
  // job back.
  lemma {:induction false} NothingGoesUncounted(w: World, events: seq<Event>)
    requires Legal(w, events)
    ensures After(w, events).executing + Ends(events) == w.executing + Starts(w, events)
    ensures |After(w, events).requeues| == |w.requeues| + PutBacks(w, events)
    decreases |events|
  {
    if events != [] {
      NothingGoesUncounted(Next(w, events[0]), events[1..]);
    }
  }

  lemma {:induction false} StaysOver(w: World, events: seq<Event>)
    requires Legal(w, events) && w.job.Terminal() && w.executing == 0
    ensures After(w, events).job == w.job && Starts(w, events) == 0
    decreases |events|
  {
    if events != [] {
      StaysOver(Next(w, events[0]), events[1..]);
    }
  }

  ghost predicate OverForGood(w: World) {
    forall events :: Legal(w, events) ==> After(w, events).job.Terminal()
  }

  // A job that is cancelled, completed or failed is so for good exactly when no execution of it is under way: a
  // deferral or a transient failure re-queues it whatever its status.
  lemma OverForGoodExactlyWhen(w: World)
    requires w.job.Terminal()
    ensures OverForGood(w) <==> w.executing == 0
  {
    if w.executing == 0 {
      forall events | Legal(w, events) ensures After(w, events).job.Terminal() {
        StaysOver(w, events);
      }
    } else {
      var events := [Defer(0)];
      assert events[1..] == [];
      assert Legal(w, events) && After(w, events) == Next(w, Defer(0));
    }
  }

  // A job once completed is over whatever it was, and one once polled is not polled again for 300 seconds.
  lemma FinishAndPollLeave(w: World, t: int)
    ensures w.executing > 0 ==> Next(w, Finish).job.status == Completed
    ensures Possible(w, Poll) ==>
              var polled := Next(w, Poll).job;
              (Due(polled, t) <==> CanBegin(w.job, t) && t > w.now + 300) && polled.status == w.job.status
  {
  }

  // A cancellation ends a queued or running job, and changes no other.
  lemma CancelEnds(w: World)
    ensures var t := Next(w, Cancel);
            && t.job.Terminal() && t.executing == w.executing
            && (w.job.Terminal() ==> t == w)
            && (!w.job.Terminal() ==> t.job == w.job.(status := Cancelled, completedAt := Some(w.now)))
  {
    match w.job.status
    case Queued =>
    case Running =>
    case _ =>
  }

  // How long a deferral or a failure that re-queues holds the job back.
  function Delay(w: World, e: Event): int
    requires e.Defer? || e.Fail?
  {
    if e.Defer? then e.delay
    else if w.job.attempts == 1 then 15
    else if w.job.attempts == 2 then 60
    else 300
  }

  predicate HoldsBack(w: World, e: Event) {
    e.Defer? || (e.Fail? && !e.permanent && 1 <= w.job.attempts <= 3)
  }

  // No other execution is under way, or none of them defers or fails.
  predicate Undisturbed(w: World, events: seq<Event>) {
    w.executing == 0 || forall i :: 0 <= i < |events| ==> !events[i].Defer? && !events[i].Fail?
  }

  // While the job waits undisturbed nothing starts it.
  lemma {:induction false} NothingStartsBefore(w: World, events: seq<Event>, until: int)
    requires Legal(w, events) && Undisturbed(w, events) && After(w, events).now < until
    requires w.job.Terminal() || until <= w.job.availableAt
    ensures Starts(w, events) == 0
    decreases |events|
  {
    if events != [] {
      TimeRunsOn(Next(w, events[0]), events[1..]);
      NothingStartsBefore(Next(w, events[0]), events[1..], until);
    }
  }

  // How much time passes along a run.
  function Waited(events: seq<Event>): nat {
    if events == [] then 0 else (if events[0].Wait? then events[0].seconds else 0) + Waited(events[1..])
  }

  lemma {:induction false} TimeRunsOn(w: World, events: seq<Event>)
    requires Legal(w, events)
    ensures After(w, events).now == w.now + Waited(events)
    decreases |events|
  {
    if events != [] {
      TimeRunsOn(Next(w, events[0]), events[1..]);
    }
  }

  // Over every run: after a deferral or a failure that re-queues the job, no execution is started before its
  // delay is over, whatever polls, entries, cancellations and ends of other executions come in between, unless
  // another execution defers or fails too; and one may be started as soon as it is over.
  lemma DelaysAreKept(now: int, events: seq<Event>, e: Event, more: seq<Event>)
    requires Legal(Fresh(now), events)
    requires var w := After(Fresh(now), events);
             && Possible(w, e) && HoldsBack(w, e) && Legal(Next(w, e), more) && Undisturbed(Next(w, e), more)
    ensures var w := After(Fresh(now), events);
            && (After(Next(w, e), more).now < w.now + Delay(w, e) ==> Starts(Next(w, e), more) == 0)
            && CanBegin(Next(w, e).job, w.now + Delay(w, e))
  {
    var w := After(Fresh(now), events);
    if After(Next(w, e), more).now < w.now + Delay(w, e) {
      NothingStartsBefore(Next(w, e), more, w.now + Delay(w, e));
    }
  }

  // Attempts count starts, not failures: a job deferred three times has no retry left, and its
  // first transient failure ends it.
  lemma DeferralsConsumeTheRetries(now: int)
    ensures var events := [Begin, Defer(0), Begin, Defer(0), Begin, Defer(0), Begin, Fail(false, "timeout")];
            && Legal(Fresh(now), events)
            && After(Fresh(now), events).job.status == Failed
            && After(Fresh(now), events).requeues == []
  {
    var w0 := Fresh(now);
    var w1 := Next(Next(w0, Begin), Defer(0));
    var w2 := Next(Next(w1, Begin), Defer(0));
    var w3 := Next(Next(w2, Begin), Defer(0));
    var w4 := Next(w3, Begin);
    assert w4.job.attempts == 4;
    Chain(w0, Begin, Defer(0), [Begin, Defer(0), Begin, Defer(0), Begin, Fail(false, "timeout")]);
    Chain(w1, Begin, Defer(0), [Begin, Defer(0), Begin, Fail(false, "timeout")]);
    Chain(w2, Begin, Defer(0), [Begin, Fail(false, "timeout")]);
    Chain(w3, Begin, Fail(false, "timeout"), []);
    assert [Begin, Defer(0)] + [Begin, Defer(0), Begin, Defer(0), Begin, Fail(false, "timeout")]
        == [Begin, Defer(0), Begin, Defer(0), Begin, Defer(0), Begin, Fail(false, "timeout")];
    assert [Begin, Defer(0)] + [Begin, Defer(0), Begin, Fail(false, "timeout")]
        == [Begin, Defer(0), Begin, Defer(0), Begin, Fail(false, "timeout")];
    assert [Begin, Defer(0)] + [Begin, Fail(false, "timeout")] == [Begin, Defer(0), Begin, Fail(false, "timeout")];
    assert [Begin, Fail(false, "timeout")] + [] == [Begin, Fail(false, "timeout")];
  }

  lemma Chain(w: World, a: Event, b: Event, rest: seq<Event>)
    requires Possible(w, a) && Possible(Next(w, a), b)
    requires Legal(Next(Next(w, a), b), rest)
    ensures Legal(w, [a, b] + rest) && After(w, [a, b] + rest) == After(Next(Next(w, a), b), rest)
  {
    var events := [a, b] + rest;
    assert events[1..][1..] == rest;
  }
}
