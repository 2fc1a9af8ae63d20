/** The durable job queue: job rows, the Redis stream behind them, and one worker process.

    Each transaction of services/worker/ecoroute_worker/main.py, each Redis command and each
    return of a handler is one atomic step, so a crash may fall between any two of them. The worker
    follows the order of its main loop. At most one worker is alive at a time: a crashed worker
    never acts again, and a new one may start only after it. */
module JobQueue {
  import opened Prelude
  import opened JobRows

  // Where the worker is with the entry at the head of its batch.
  datatype Stage = Ready | Executing | Announcing | Acking

  datatype Phase =
    | Polling
    | Publishing(due: seq<JobId>)
    | Claiming
    | Reading
    | Working(batch: seq<nat>, fromRead: bool, stage: Stage)

  datatype Worker = Down | Up(iteration: nat, phase: Phase)

  // stream[m] is the job of message m. Messages below delivered have been handed to the group;
  // those not acknowledged since are in pending, with the time of their last delivery.
  datatype State = State(
    now: int,
    jobs: Rows,
    stream: seq<JobId>,
    delivered: nat,
    pending: map<nat, int>,
    worker: Worker)

  const CLAIM_IDLE_SECONDS := 60
  const CLAIM_LIMIT := 100
  const READ_LIMIT := 10
  const CLAIM_EVERY := 6

  datatype Outcome = Returns | Defers(delay: int) | Raises(permanent: bool, message: string)

  datatype Failure = Failure(permanent: bool, message: string)

  datatype Action =
    | Tick(seconds: nat)
    | Submit(id: JobId)
    | AddEntry(id: JobId)
    | Cancel(id: JobId)
    | Start
    | Crash
    | Poll(due: seq<JobId>)
    | Publish
    | Claim
    | Read
    | Begin
    | Settle(outcome: Outcome)
    | Announce(failure: Option<Failure>)
    | Ack

  function AfterPublishing(iteration: nat): Worker {
    Up(iteration, if iteration % CLAIM_EVERY == 0 then Claiming else Reading)
  }

  function PublishingOr(iteration: nat, due: seq<JobId>): Worker {
    if due == [] then AfterPublishing(iteration) else Up(iteration, Publishing(due))
  }

  function WorkingOr(iteration: nat, batch: seq<nat>, fromRead: bool): Worker {
    if batch != [] then Up(iteration, Working(batch, fromRead, Ready))
    else if fromRead then Up(iteration + 1, Polling)
    else Up(iteration, Reading)
  }

  // The pending messages from m on that have been idle long enough, lowest first, at most room of them.
  function IdleFrom(s: State, m: nat, room: nat): seq<nat>
    decreases |s.stream| - m
  {
    if m >= |s.stream| || room == 0 then []
    else if m in s.pending && s.now - s.pending[m] >= CLAIM_IDLE_SECONDS
      then [m] + IdleFrom(s, m + 1, room - 1)
      else IdleFrom(s, m + 1, room)
  }

  function Redelivered(pending: map<nat, int>, batch: seq<nat>, now: int): map<nat, int> {
    map m | m in pending.Keys + (set x | x in batch) :: if m in batch then now else pending[m]
  }

  function Upto(from: nat, n: nat): (r: seq<nat>)
    ensures |r| == n && forall i :: 0 <= i < n ==> r[i] == from + i
  {
    seq(n, i requires i >= 0 => from + i)
  }

  predicate AtHead(s: State, stage: Stage) {
    && s.worker.Up? && s.worker.phase.Working? && s.worker.phase.stage == stage
    && s.worker.phase.batch != []
    && s.worker.phase.batch[0] < |s.stream|
    && s.stream[s.worker.phase.batch[0]] in s.jobs
  }

  function HeadJob(s: State): JobId
    requires s.worker.Up? && s.worker.phase.Working? && AtHead(s, s.worker.phase.stage)
  {
    s.stream[s.worker.phase.batch[0]]
  }

  ghost predicate Enabled(s: State, a: Action) {
    match a
    case Tick(_) => true
    case Submit(id) => id !in s.jobs
    case AddEntry(id) => id in s.jobs
    case Cancel(id) => id in s.jobs
    case Start => s.worker.Down?
    case Crash => s.worker.Up?
    case Poll(due) => s.worker.Up? && s.worker.phase.Polling? && PollSelects(s.jobs, s.now, due)
    case Publish => s.worker.Up? && s.worker.phase.Publishing? && s.worker.phase.due != []
    case Claim => s.worker.Up? && s.worker.phase.Claiming?
    case Read => s.worker.Up? && s.worker.phase.Reading? && s.delivered <= |s.stream|
    case Begin => AtHead(s, Ready)
    case Settle(_) => AtHead(s, Executing)
    case Announce(_) => AtHead(s, Announcing)
    case Ack => AtHead(s, Acking)
  }

  function WithHead(s: State, job: Job, stage: Stage): State
    requires s.worker.Up? && s.worker.phase.Working? && AtHead(s, s.worker.phase.stage)
  {
    s.(jobs := s.jobs[HeadJob(s) := job],
       worker := Up(s.worker.iteration, s.worker.phase.(stage := stage)))
  }

  ghost function Next(s: State, a: Action): State
    requires Enabled(s, a)
  {
    match a
    case Tick(seconds) => s.(now := s.now + seconds)
    case Submit(id) => s.(jobs := s.jobs[id := Submitted(s.now)])
    case AddEntry(id) => s.(stream := s.stream + [id])
    case Cancel(id) => s.(jobs := s.jobs[id := CancelledRow(s.jobs[id], s.now)])
    case Start => s.(worker := Up(0, Polling))
    case Crash => s.(worker := Down)
    case Poll(due) =>
      s.(jobs := LockAll(s.jobs, due, s.now), worker := PublishingOr(s.worker.iteration, due))
    case Publish =>
      var due := s.worker.phase.due;
      s.(stream := s.stream + [due[0]], worker := PublishingOr(s.worker.iteration, due[1..]))
    case Claim =>
      var batch := IdleFrom(s, 0, CLAIM_LIMIT);
      s.(pending := Redelivered(s.pending, batch, s.now), worker := WorkingOr(s.worker.iteration, batch, false))
    case Read =>
      var n := Min(READ_LIMIT, |s.stream| - s.delivered);
      var batch := Upto(s.delivered, n);
      s.(pending := Redelivered(s.pending, batch, s.now), delivered := s.delivered + n,
         worker := WorkingOr(s.worker.iteration, batch, true))
    case Begin =>
      var job := s.jobs[HeadJob(s)];
      WithHead(s, Begun(job, s.now), if CanBegin(job, s.now) then Executing else Acking)
    case Settle(outcome) =>
      var job := s.jobs[HeadJob(s)];
      (match outcome
       case Returns => WithHead(s, Finished(job, s.now), Announcing)
       case Defers(delay) => WithHead(s, Deferred(job, s.now, delay), Acking)
       case Raises(permanent, message) =>
         WithHead(s, FailedOrRetried(job, s.now, permanent, message), Acking))
    case Announce(failure) =>
      var job := s.jobs[HeadJob(s)];
      if failure.None? then WithHead(s, job, Acking)
      else WithHead(s, FailedOrRetried(job, s.now, failure.value.permanent, failure.value.message), Acking)
    case Ack =>
      var w := s.worker.phase;
      s.(pending := s.pending - {w.batch[0]}, worker := WorkingOr(s.worker.iteration, w.batch[1..], w.fromRead))
  }

  ghost predicate Legal(s: State, actions: seq<Action>)
    decreases |actions|
  {
    actions == [] || (Enabled(s, actions[0]) && Legal(Next(s, actions[0]), actions[1..]))
  }

  ghost function After(s: State, actions: seq<Action>): State
    requires Legal(s, actions)
    decreases |actions|
  {
    if actions == [] then s else After(Next(s, actions[0]), actions[1..])
  }

  lemma {:induction false} AfterConcat(s: State, p: seq<Action>, q: seq<Action>)
    requires Legal(s, p) && Legal(After(s, p), q)
    ensures Legal(s, p + q) && After(s, p + q) == After(After(s, p), q)
    decreases |p|
  {
    if p == [] {
      assert p + q == q;
    } else {
      AfterConcat(Next(s, p[0]), p[1..], q);
      assert (p + q)[1..] == p[1..] + q;
    }
  }

  function Empty(now: int): State {
    State(now, map[], [], 0, map[], Down)
  }

  ghost predicate Unacked(s: State, id: JobId) {
    exists m :: m in s.pending && m < |s.stream| && s.stream[m] == id
  }

  // No job is lost: an unfinished job is queued, or it is running and an entry for it is
  // still owed an acknowledgement.
  ghost predicate NoJobLost(s: State) {
    forall id :: id in s.jobs ==> s.jobs[id].Terminal() || s.jobs[id].status == Queued || Unacked(s, id)
  }

  ghost predicate RowsSane(s: State) {
    forall id :: id in s.jobs ==>
      && (s.jobs[id].lockedAt.Some? ==> s.jobs[id].lockedAt.value <= s.now)
      && (s.jobs[id].status == Running ==> s.jobs[id].availableAt <= s.now)
  }

  ghost predicate StreamSane(s: State) {
    && s.delivered <= |s.stream|
    && (forall i :: 0 <= i < |s.stream| ==> s.stream[i] in s.jobs)
    && (forall m :: m in s.pending ==> m < s.delivered && s.pending[m] <= s.now)
  }

  ghost predicate WorkerSane(s: State)
    requires StreamSane(s)
  {
    s.worker.Up? ==>
      match s.worker.phase
      case Publishing(due) => due != [] && forall i :: 0 <= i < |due| ==> due[i] in s.jobs
      case Working(batch, fromRead, stage) =>
        && batch != []
        && (forall i, j :: 0 <= i < j < |batch| ==> batch[i] != batch[j])
        && (forall i :: 0 <= i < |batch| ==> batch[i] in s.pending)
        && (stage == Announcing || stage == Acking ==> s.jobs[s.stream[batch[0]]].status != Running)
      case _ => true
  }

  ghost predicate Inv(s: State) {
    StreamSane(s) && RowsSane(s) && WorkerSane(s) && NoJobLost(s)
  }

  lemma {:induction false} IdleFromFacts(s: State, from: nat, room: nat)
    ensures var b := IdleFrom(s, from, room);
            && |b| <= room
            && (forall i :: 0 <= i < |b| ==>
                  from <= b[i] < |s.stream| && b[i] in s.pending && s.now - s.pending[b[i]] >= CLAIM_IDLE_SECONDS)
            && (forall i, j :: 0 <= i < j < |b| ==> b[i] < b[j])
            && (forall m :: from <= m < |s.stream| && m in s.pending && s.now - s.pending[m] >= CLAIM_IDLE_SECONDS ==>
                  m in b || (|b| == room && forall i :: 0 <= i < |b| ==> b[i] < m))
    decreases |s.stream| - from
  {
    if from < |s.stream| && room > 0 {
      if from in s.pending && s.now - s.pending[from] >= CLAIM_IDLE_SECONDS {
        IdleFromFacts(s, from + 1, room - 1);
      } else {
        IdleFromFacts(s, from + 1, room);
      }
    }
  }

  lemma UnackedStays(s: State, t: State, id: JobId)
    requires Unacked(s, id)
    requires s.pending.Keys <= t.pending.Keys && s.stream <= t.stream
    ensures Unacked(t, id)
  {
    var m :| m in s.pending && m < |s.stream| && s.stream[m] == id;
    assert t.stream[m] == id;
  }

  // Any step that drops no pending entry and makes no job running keeps every job.
  lemma StepKeepsJobs(s: State, a: Action)
    requires Inv(s) && Enabled(s, a) && !a.Ack? && !a.Begin?
    ensures NoJobLost(Next(s, a))
  {
    var t := Next(s, a);
    if a.Claim? {
      IdleFromFacts(s, 0, CLAIM_LIMIT);
    }
    forall id | id in t.jobs && t.jobs[id].status == Running
      ensures Unacked(t, id)
    {
      assert id in s.jobs && s.jobs[id].status == Running;
      UnackedStays(s, t, id);
    }
  }

  lemma BeginKeepsJobs(s: State)
    requires Inv(s) && Enabled(s, Begin)
    ensures NoJobLost(Next(s, Begin))
  {
    var t := Next(s, Begin);
    var m := s.worker.phase.batch[0];
    forall id | id in t.jobs && t.jobs[id].status == Running
      ensures Unacked(t, id)
    {
      if id == HeadJob(s) {
        assert m in t.pending && t.stream[m] == id;
      } else {
        UnackedStays(s, t, id);
      }
    }
  }

  lemma AckKeepsJobs(s: State)
    requires Inv(s) && Enabled(s, Ack)
    ensures NoJobLost(Next(s, Ack))
  {
    var t := Next(s, Ack);
    var head := s.worker.phase.batch[0];
    forall id | id in t.jobs && t.jobs[id].status == Running
      ensures Unacked(t, id)
    {
      var m :| m in s.pending && m < |s.stream| && s.stream[m] == id;
      assert m != head;
      assert m in t.pending;
    }
  }

  lemma StepKeepsStream(s: State, a: Action)
    requires Inv(s) && Enabled(s, a)
    ensures StreamSane(Next(s, a))
  {
    if a.Claim? {
      IdleFromFacts(s, 0, CLAIM_LIMIT);
    }
  }

  lemma StepKeepsRows(s: State, a: Action)
    requires Inv(s) && Enabled(s, a)
    ensures RowsSane(Next(s, a))
  {
    hide StreamSane, WorkerSane, NoJobLost, IdleFrom;
  }

  lemma ClaimKeepsWorker(s: State)
    requires Inv(s) && Enabled(s, Claim)
    ensures StreamSane(Next(s, Claim)) && WorkerSane(Next(s, Claim))
  {
    StepKeepsStream(s, Claim);
    IdleFromFacts(s, 0, CLAIM_LIMIT);
    hide NoJobLost, RowsSane, IdleFrom;
  }

  lemma AckKeepsWorker(s: State)
    requires Inv(s) && Enabled(s, Ack)
    ensures StreamSane(Next(s, Ack)) && WorkerSane(Next(s, Ack))
  {
    StepKeepsStream(s, Ack);
    hide NoJobLost, RowsSane;
    var batch := s.worker.phase.batch;
    forall i | 0 <= i < |batch[1..]| ensures batch[1..][i] in s.pending - {batch[0]} {
      assert batch[i + 1] != batch[0];
    }
  }

  lemma StepKeepsWorker(s: State, a: Action)
    requires Inv(s) && Enabled(s, a)
    ensures StreamSane(Next(s, a)) && WorkerSane(Next(s, a))
  {
    if a.Claim? {
      ClaimKeepsWorker(s);
    } else if a.Ack? {
      AckKeepsWorker(s);
    } else {
      StepKeepsStream(s, a);
      hide NoJobLost, RowsSane;
      if s.worker.Up? && s.worker.phase.Working? && a.AddEntry? {
        assert Next(s, a).stream[s.worker.phase.batch[0]] == s.stream[s.worker.phase.batch[0]];
      }
    }
  }

  lemma StepKeepsInv(s: State, a: Action)
    requires Inv(s) && Enabled(s, a)
    ensures Inv(Next(s, a))
  {
    StepKeepsWorker(s, a);
    StepKeepsRows(s, a);
    if a.Ack? {
      AckKeepsJobs(s);
    } else if a.Begin? {
      BeginKeepsJobs(s);
    } else {
      StepKeepsJobs(s, a);
    }
  }

  lemma {:induction false} RunKeepsInv(s: State, actions: seq<Action>)
    requires Inv(s) && Legal(s, actions)
    ensures Inv(After(s, actions))
    decreases |actions|
  {
    if actions != [] {
      StepKeepsInv(s, actions[0]);
      RunKeepsInv(Next(s, actions[0]), actions[1..]);
    }
  }

  // Main safety result: whatever requests, duplicates, cancellations, failures and crashes occur,
  // no job is ever lost.
  lemma NoJobIsEverLost(now: int, actions: seq<Action>)
    requires Legal(Empty(now), actions)
    ensures NoJobLost(After(Empty(now), actions))
  {
    RunKeepsInv(Empty(now), actions);
  }
}
