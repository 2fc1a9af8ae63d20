/** Recovery: from every reachable state of the queue, an unfinished job can be started again
    by nothing but the passing of time and the worker's own loop, followed in its own order. */
module JobRecovery {
  import opened Prelude
  import opened JobRows
  import opened JobQueue
  import opened JobRuns

  // The worker is executing the job, on a fresh attempt.
  ghost predicate Restarted(s: State, t: State, id: JobId)
    requires id in s.jobs
  {
    && AtHead(t, Executing) && HeadJob(t) == id
    && t.jobs[id].status == Running && t.jobs[id].attempts == s.jobs[id].attempts + 1
  }

  ghost predicate Startable(s: State, id: JobId) {
    id in s.jobs && CanBegin(s.jobs[id], s.now)
  }

  function DueJobs(s: State): set<JobId> {
    set id | id in s.jobs && Due(s.jobs[id], s.now)
  }

  // What holds of any stretch of the loop during which the job has not been restarted.
  ghost predicate Waits(s: State, t: State, id: JobId) {
    && Inv(s) && Inv(t) && t.now == s.now
    && s.stream <= t.stream && s.delivered <= t.delivered
    && Startable(s, id) && Startable(t, id)
    && t.jobs[id].attempts == s.jobs[id].attempts && t.jobs[id].status == s.jobs[id].status
    && DueJobs(t) <= DueJobs(s)
  }

  predicate AtTop(s: State) {
    s.worker.Up? && s.worker.phase.Polling?
  }

  // Nothing newly delivered is left unacknowledged, and nothing pending was delivered again.
  ghost predicate Drained(s: State, t: State) {
    forall m :: m in t.pending ==> m in s.pending && t.pending[m] == s.pending[m]
  }

  // --- one entry -------------------------------------------------------------------------

  lemma SettleEntry(s: State, id: JobId) returns (path: seq<Action>, t: State)
    requires Inv(s) && Startable(s, id) && AtHead(s, Ready)
    ensures Leads(s, path, t) && Inv(t)
    ensures HeadJob(s) == id ==> Restarted(s, t, id)
    ensures HeadJob(s) != id ==>
              && Waits(s, t, id) && t.jobs[id] == s.jobs[id]
              && t.stream == s.stream && t.delivered == s.delivered
              && t.pending == s.pending - {s.worker.phase.batch[0]}
              && t.worker == WorkingOr(s.worker.iteration, s.worker.phase.batch[1..], s.worker.phase.fromRead)
  {
    if HeadJob(s) != id {
      path, t := EntryIsARun(s, Returned);
    } else {
      OneStep(s, Begin);
      path, t := [Begin], Next(s, Begin);
    }
    RunKeepsInv(s, path);
  }

  // --- a whole batch ---------------------------------------------------------------------

  ghost predicate Holds(s: State, batch: seq<nat>, id: JobId) {
    exists i :: 0 <= i < |batch| && batch[i] < |s.stream| && s.stream[batch[i]] == id
  }

  lemma HeldInTheTail(s: State, t: State, batch: seq<nat>, id: JobId)
    requires t.stream == s.stream && batch != [] && batch[0] < |s.stream| && s.stream[batch[0]] != id
    ensures Holds(s, batch, id) <==> Holds(t, batch[1..], id)
  {
    assert forall i :: 0 < i < |batch| ==> batch[i] == batch[1..][i - 1];
    if Holds(s, batch, id) {
      var i :| 0 <= i < |batch| && batch[i] < |s.stream| && s.stream[batch[i]] == id;
      assert batch[1..][i - 1] == batch[i];
    }
  }

  lemma DrainBatch(s: State, id: JobId) returns (path: seq<Action>, t: State)
    requires Inv(s) && Startable(s, id)
    requires s.worker.Up? && s.worker.phase.Working? && s.worker.phase.stage == Ready
    ensures Leads(s, path, t) && Inv(t)
    ensures Holds(s, s.worker.phase.batch, id) ==> Restarted(s, t, id)
    ensures !Holds(s, s.worker.phase.batch, id) ==>
              && Waits(s, t, id) && t.jobs[id] == s.jobs[id]
              && t.stream == s.stream && t.delivered == s.delivered
              && t.pending == s.pending - (set m | m in s.worker.phase.batch)
              && t.worker == WorkingOr(s.worker.iteration, [], s.worker.phase.fromRead)
    decreases |s.worker.phase.batch|
  {
    var batch := s.worker.phase.batch;
    path, t := SettleEntry(s, id);
    if HeadJob(s) == id {
      assert s.stream[batch[0]] == id;
    } else {
      assert forall m :: m in batch <==> m == batch[0] || m in batch[1..];
      if batch[1..] != [] {
        HeldInTheTail(s, t, batch, id);
        hide Leads, NoJobLost, RowsSane;
        var more, u := DrainBatch(t, id);
        Join(s, path, t, more, u);
        path, t := path + more, u;
      } else {
        assert |batch| == 1;
      }
    }
  }

  // --- the poll --------------------------------------------------------------------------

  lemma {:induction false} Earliest(rows: Rows, left: set<JobId>) returns (first: JobId)
    requires left != {} && left <= rows.Keys
    ensures first in left && forall id :: id in left ==> rows[first].availableAt <= rows[id].availableAt
    decreases |left|
  {
    var some :| some in left;
    first := some;
    if left != {some} {
      var other := Earliest(rows, left - {some});
      first := if rows[some].availableAt <= rows[other].availableAt then some else other;
    }
  }

  lemma {:induction false} Select(rows: Rows, left: set<JobId>, room: nat) returns (due: seq<JobId>)
    requires left <= rows.Keys
    ensures |due| <= room
    ensures forall i, j :: 0 <= i < j < |due| ==> due[i] != due[j]
    ensures forall i :: 0 <= i < |due| ==> due[i] in left
    ensures forall id :: id in left && id !in due ==>
              |due| == room && forall i :: 0 <= i < |due| ==> rows[due[i]].availableAt <= rows[id].availableAt
    decreases room
  {
    if room == 0 || left == {} {
      due := [];
    } else {
      var first := Earliest(rows, left);
      var rest := Select(rows, left - {first}, room - 1);
      due := [first] + rest;
    }
  }

  lemma SomePoll(s: State) returns (due: seq<JobId>)
    ensures PollSelects(s.jobs, s.now, due)
  {
    due := Select(s.jobs, DueJobs(s), POLL_LIMIT);
  }

  lemma PublishAll(s: State) returns (path: seq<Action>, t: State)
    requires Inv(s) && s.worker.Up? && s.worker.phase.Publishing?
    ensures Leads(s, path, t) && Inv(t)
    ensures t == s.(stream := s.stream + s.worker.phase.due, worker := AfterPublishing(s.worker.iteration))
    decreases |s.worker.phase.due|
  {
    var due := s.worker.phase.due;
    t := Next(s, Publish);
    StepKeepsInv(s, Publish);
    Stop(s);
    Then(s, [], s, Publish);
    path := [] + [Publish];
    if due[1..] != [] {
      var more, u := PublishAll(t);
      Join(s, path, t, more, u);
      assert s.stream + [due[0]] + due[1..] == s.stream + due;
      path, t := path + more, u;
    } else {
      assert [due[0]] == due;
    }
  }

  // The poll and its stream entries. The job is published if it was selected; if it was due and was
  // not, a full page of other due jobs was locked ahead of it.
  lemma PollPhase(s: State, id: JobId) returns (path: seq<Action>, t: State)
    requires Inv(s) && Startable(s, id) && AtTop(s)
    ensures Leads(s, path, t) && Waits(s, t, id)
    ensures t.pending == s.pending && t.delivered == s.delivered
    ensures t.worker == AfterPublishing(s.worker.iteration)
    ensures id in DueJobs(s) ==>
              || (exists i :: |s.stream| <= i < |t.stream| && t.stream[i] == id)
              || (id in DueJobs(t) && DueJobs(t) < DueJobs(s))
  {
    var due := SomePoll(s);
    path, t := PublishPolled(s, due);
    PolledWaits(s, due, id);
    hide Leads, Waits, Inv, PollSelects;
  }

  // The state a poll leaves once its entries are published.
  function PolledState(s: State, due: seq<JobId>): State
    requires AtTop(s) && forall i :: 0 <= i < |due| ==> due[i] in s.jobs
  {
    s.(jobs := LockAll(s.jobs, due, s.now), stream := s.stream + due, worker := AfterPublishing(s.worker.iteration))
  }

  lemma PublishPolled(s: State, due: seq<JobId>) returns (path: seq<Action>, t: State)
    requires Inv(s) && AtTop(s) && PollSelects(s.jobs, s.now, due)
    ensures Leads(s, path, t) && Inv(t) && t == PolledState(s, due)
  {
    var polled := Next(s, Poll(due));
    StepKeepsInv(s, Poll(due));
    Stop(s);
    Then(s, [], s, Poll(due));
    path, t := [] + [Poll(due)], polled;
    if due != [] {
      var more, u := PublishAll(polled);
      Join(s, path, polled, more, u);
      path, t := path + more, u;
    } else {
      assert s.stream + due == s.stream;
    }
    hide Leads, Inv, PollSelects;
  }

  lemma PolledWaits(s: State, due: seq<JobId>, id: JobId)
    requires Inv(s) && Startable(s, id) && AtTop(s) && PollSelects(s.jobs, s.now, due) && Inv(PolledState(s, due))
    ensures var t := PolledState(s, due);
            && Waits(s, t, id)
            && (id in DueJobs(s) ==>
                  || (exists i :: |s.stream| <= i < |t.stream| && t.stream[i] == id)
                  || (id in DueJobs(t) && DueJobs(t) < DueJobs(s)))
  {
    hide Inv;
    var t := PolledState(s, due);
    assert DueJobs(t) == DueJobs(s) - (set x | x in due);
    if id in DueJobs(s) {
      if id in due {
        var i :| 0 <= i < |due| && due[i] == id;
        assert t.stream[|s.stream| + i] == id;
      } else {
        assert due[0] in DueJobs(s) && due[0] !in DueJobs(t);
      }
    }
  }

  // --- claiming and reading --------------------------------------------------------------

  lemma ClaimPhase(s: State, id: JobId) returns (path: seq<Action>, t: State, restarted: bool)
    requires Inv(s) && Startable(s, id) && s.worker.Up? && s.worker.phase.Claiming?
    ensures Leads(s, path, t) && Inv(t)
    ensures restarted ==> Restarted(s, t, id)
    ensures !restarted ==>
              && Waits(s, t, id) && t.jobs[id] == s.jobs[id]
              && t.stream == s.stream && t.delivered == s.delivered
              && Drained(s, t) && t.worker == Up(s.worker.iteration, Reading)
              && ((exists m :: m in s.pending && s.now - s.pending[m] >= CLAIM_IDLE_SECONDS) ==>
                    t.pending.Keys < s.pending.Keys)
  {
    var batch := IdleFrom(s, 0, CLAIM_LIMIT);
    IdleFromFacts(s, 0, CLAIM_LIMIT);
    var claimed := Next(s, Claim);
    StepKeepsInv(s, Claim);
    Stop(s);
    Then(s, [], s, Claim);
    path, t, restarted := [] + [Claim], claimed, false;
    if batch != [] {
      var more, u := DrainBatch(claimed, id);
      Join(s, path, claimed, more, u);
      path, t := path + more, u;
      restarted := Holds(claimed, batch, id);
      if !restarted {
        assert batch[0] in s.pending && batch[0] !in t.pending;
      }
    }
  }

  lemma ReadPhase(s: State, id: JobId) returns (path: seq<Action>, t: State, restarted: bool)
    requires Inv(s) && Startable(s, id) && s.worker.Up? && s.worker.phase.Reading?
    ensures Leads(s, path, t) && Inv(t)
    ensures restarted ==> Restarted(s, t, id)
    ensures !restarted ==>
              && Waits(s, t, id) && t.jobs[id] == s.jobs[id]
              && t.stream == s.stream && t.pending == s.pending
              && t.worker == Up(s.worker.iteration + 1, Polling)
              && (s.delivered < |s.stream| ==> s.delivered < t.delivered)
              && (forall m :: s.delivered <= m < t.delivered ==> s.stream[m] != id)
  {
    var n := Min(READ_LIMIT, |s.stream| - s.delivered);
    var batch := Upto(s.delivered, n);
    var read := Next(s, Read);
    WhatIsRead(s, id);
    hide Inv, Leads, Next, Enabled;
    path, t, restarted := [Read], read, false;
    Acknowledged(s.pending, batch, s.now);
    if batch != [] {
      var more, u := DrainBatch(read, id);
      Join(s, path, read, more, u);
      path, t := path + more, u;
      restarted := Holds(read, batch, id);
      if !restarted {
        NoneIsRead(read, s.delivered, n, id);
      }
    }
  }

  lemma Acknowledged(pending: map<nat, int>, batch: seq<nat>, now: int)
    requires forall m :: m in pending ==> m !in batch
    ensures Redelivered(pending, batch, now) - (set m | m in batch) == pending
    ensures batch == [] ==> Redelivered(pending, batch, now) == pending
  {
  }

  lemma NoneIsRead(s: State, from: nat, n: nat, id: JobId)
    requires from + n <= |s.stream| && !Holds(s, Upto(from, n), id)
    ensures forall m :: from <= m < from + n ==> s.stream[m] != id
  {
    forall m | from <= m < from + n ensures s.stream[m] != id {
      assert Upto(from, n)[m - from] == m;
    }
  }

  // A read delivers the next entries and touches nothing else.
  lemma WhatIsRead(s: State, id: JobId)
    requires Inv(s) && Startable(s, id) && s.worker.Up? && s.worker.phase.Reading?
    ensures Enabled(s, Read) && Leads(s, [Read], Next(s, Read)) && Waits(s, Next(s, Read), id)
    ensures var n := Min(READ_LIMIT, |s.stream| - s.delivered);
            var batch := Upto(s.delivered, n);
            && (forall m :: m in s.pending ==> m !in batch)
            && Next(s, Read) == s.(pending := Redelivered(s.pending, batch, s.now), delivered := s.delivered + n,
                                   worker := WorkingOr(s.worker.iteration, batch, true))
  {
    StepKeepsInv(s, Read);
    OneStep(s, Read);
    hide NoJobLost, RowsSane;
  }

  // --- one iteration of the main loop ----------------------------------------------------

  lemma Iteration(s: State, id: JobId) returns (path: seq<Action>, t: State, restarted: bool)
    requires Inv(s) && Startable(s, id) && AtTop(s)
    ensures Leads(s, path, t) && Inv(t)
    ensures restarted ==> Restarted(s, t, id)
    ensures !restarted ==>
              && Waits(s, t, id) && AtTop(t) && t.worker.iteration == s.worker.iteration + 1
              && Drained(s, t)
              && (s.delivered < |s.stream| ==> s.delivered < t.delivered)
              && (forall m :: s.delivered <= m < t.delivered ==> t.stream[m] != id)
              && (id in DueJobs(s) ==>
                    || (exists i :: t.delivered <= i < |t.stream| && t.stream[i] == id)
                    || (id in DueJobs(t) && DueJobs(t) < DueJobs(s)))
              && (s.worker.iteration % CLAIM_EVERY == 0
                    && (exists m :: m in s.pending && s.now - s.pending[m] >= CLAIM_IDLE_SECONDS) ==>
                  t.pending.Keys < s.pending.Keys)
  {
    var polled;
    path, polled := PollPhase(s, id);
    var reading := polled;
    restarted := false;
    if s.worker.iteration % CLAIM_EVERY == 0 {
      var more;
      more, reading, restarted := ClaimPhase(polled, id);
      Join(s, path, polled, more, reading);
      path := path + more;
    }
    t := reading;
    if !restarted {
      var more;
      more, t, restarted := ReadPhase(reading, id);
      Join(s, path, reading, more, t);
      path := path + more;
      if !restarted && id in DueJobs(s) && id !in DueJobs(polled) {
        var i :| |s.stream| <= i < |polled.stream| && polled.stream[i] == id;
        assert t.stream[i] == id;
        assert i >= t.delivered;
      }
    }
  }

  // --- driving a job to its next start ---------------------------------------------------

  // An entry for the job still to be read is reached by reading on.
  lemma ReadOn(s: State, id: JobId, i: nat) returns (path: seq<Action>, t: State)
    requires Inv(s) && Startable(s, id) && AtTop(s)
    requires s.delivered <= i < |s.stream| && s.stream[i] == id
    ensures Leads(s, path, t) && Restarted(s, t, id)
    decreases i - s.delivered
  {
    var restarted;
    path, t, restarted := Iteration(s, id);
    if !restarted {
      assert t.stream[i] == id;
      var more, u := ReadOn(t, id, i);
      Join(s, path, t, more, u);
      path, t := path + more, u;
    }
  }

  lemma SmallerSet<T>(a: set<T>, b: set<T>)
    requires a < b
    ensures |a| < |b|
  {
    var x :| x in b && x !in a;
    SubsetSize(a, b - {x});
  }

  lemma {:induction false} SubsetSize<T>(a: set<T>, b: set<T>)
    requires a <= b
    ensures |a| <= |b|
    decreases a
  {
    if a != {} {
      var x :| x in a;
      SubsetSize(a - {x}, b - {x});
    }
  }

  // A due job is reached by polling on: every poll locks a full page of the jobs ahead of it.
  lemma PollOn(s: State, id: JobId) returns (path: seq<Action>, t: State)
    requires Inv(s) && Startable(s, id) && AtTop(s) && id in DueJobs(s)
    ensures Leads(s, path, t) && Restarted(s, t, id)
    decreases |DueJobs(s)|
  {
    var restarted;
    path, t, restarted := Iteration(s, id);
    if !restarted {
      var more, u;
      if i: nat :| t.delivered <= i < |t.stream| && t.stream[i] == id {
        more, u := ReadOn(t, id, i);
      } else {
        SmallerSet(DueJobs(t), DueJobs(s));
        more, u := PollOn(t, id);
      }
      Join(s, path, t, more, u);
      path, t := path + more, u;
    }
  }

  function ToNextClaim(iteration: nat): nat {
    (CLAIM_EVERY - iteration % CLAIM_EVERY) % CLAIM_EVERY
  }

  ghost predicate AllIdle(s: State) {
    forall m :: m in s.pending ==> s.now - s.pending[m] >= CLAIM_IDLE_SECONDS
  }

  lemma HasIdleEntry(s: State, id: JobId)
    requires Inv(s) && id in s.jobs && s.jobs[id].status == Running && AllIdle(s)
    ensures exists m :: m in s.pending && s.now - s.pending[m] >= CLAIM_IDLE_SECONDS
  {
    var m :| m in s.pending && m < |s.stream| && s.stream[m] == id;
  }

  lemma ClaimsComeNearer(iteration: nat)
    requires iteration % CLAIM_EVERY != 0
    ensures ToNextClaim(iteration + 1) < ToNextClaim(iteration)
  {
  }

  // An iteration leaves fewer entries pending, or as many and the next claim nearer.
  lemma NearsTheClaim(s: State, t: State)
    requires s.worker.Up? && t.worker.Up? && t.worker.iteration == s.worker.iteration + 1
    requires Drained(s, t) && AllIdle(s) && t.now == s.now
    requires s.worker.iteration % CLAIM_EVERY == 0 ==> t.pending.Keys < s.pending.Keys
    ensures AllIdle(t)
    ensures |t.pending.Keys| <= |s.pending.Keys|
    ensures |t.pending.Keys| < |s.pending.Keys| || ToNextClaim(t.worker.iteration) < ToNextClaim(s.worker.iteration)
  {
    hide ToNextClaim;
    assert t.pending.Keys <= s.pending.Keys;
    if s.worker.iteration % CLAIM_EVERY == 0 {
      SmallerSet(t.pending.Keys, s.pending.Keys);
    } else {
      SubsetSize(t.pending.Keys, s.pending.Keys);
      ClaimsComeNearer(s.worker.iteration);
    }
  }

  // A running job is reached by claiming on: every claim acknowledges entries ahead of its own.
  lemma ClaimOn(s: State, id: JobId) returns (path: seq<Action>, t: State)
    requires Inv(s) && Startable(s, id) && AtTop(s) && AllIdle(s) && s.jobs[id].status == Running
    ensures Leads(s, path, t) && Restarted(s, t, id)
    decreases |s.pending.Keys|, ToNextClaim(s.worker.iteration)
  {
    hide Inv, Leads, Drained, AllIdle, ToNextClaim;
    HasIdleEntry(s, id);
    var restarted;
    path, t, restarted := Iteration(s, id);
    if !restarted {
      NearsTheClaim(s, t);
      var more, u := ClaimOn(t, id);
      Join(s, path, t, more, u);
      path, t := path + more, u;
    }
  }

  // Long enough for the job to fall due, its lock to go stale and every pending entry to go idle.
  function Pause(s: State, id: JobId): nat
    requires id in s.jobs
  {
    Max(0, s.jobs[id].availableAt - s.now) + LEASE_SECONDS + 1
  }

  // --- from anywhere in the loop to its top ----------------------------------------------

  // The steps that finish an entry already begun, when its handler ends as given.
  function Finish(s: State, outcome: Outcome): seq<Action> {
    if s.worker.Up? && s.worker.phase.Working? then
      match s.worker.phase.stage
      case Ready => []
      case Executing => if outcome.Returns? then [Settle(outcome), Announce(None), Ack] else [Settle(outcome), Ack]
      case Announcing => [Announce(None), Ack]
      case Acking => [Ack]
    else []
  }

  // No entry is half done.
  predicate BetweenEntries(s: State) {
    s.worker.Up? && (s.worker.phase.Working? ==> s.worker.phase.stage == Ready)
  }

  // Only the job whose handler was running may have ended, and no job was started.
  ghost predicate OnlyTheHeadEnds(s: State, t: State) {
    && s.jobs.Keys == t.jobs.Keys
    && forall id :: id in s.jobs ==>
         && t.jobs[id].attempts == s.jobs[id].attempts
         && (t.jobs[id].Terminal() && !s.jobs[id].Terminal() ==> AtHead(s, Executing) && HeadJob(s) == id)
  }

  lemma AckEnds(s: State)
    requires Inv(s) && AtHead(s, Acking)
    ensures Leads(s, [Ack], Next(s, Ack)) && BetweenEntries(Next(s, Ack))
    ensures Next(s, Ack).jobs == s.jobs && Next(s, Ack).now == s.now
  {
    hide Inv;
    OneStep(s, Ack);
  }

  lemma AnnouncedEnds(s: State)
    requires Inv(s) && AtHead(s, Announcing)
    ensures var t := Next(Next(s, Announce(None)), Ack);
            Leads(s, [Announce(None), Ack], t) && BetweenEntries(t) && t.jobs == s.jobs && t.now == s.now
  {
    var t := Next(s, Announce(None));
    StepKeepsInv(s, Announce(None));
    AckEnds(t);
    hide Inv;
    OneStep(s, Announce(None));
    Join(s, [Announce(None)], t, [Ack], Next(t, Ack));
    assert [Announce(None)] + [Ack] == [Announce(None), Ack];
    assert t.jobs == s.jobs;
  }

  lemma FinishHead(s: State, outcome: Outcome) returns (t: State)
    requires Inv(s) && s.worker.Up?
    ensures Leads(s, Finish(s, outcome), t) && Inv(t)
    ensures BetweenEntries(t) && OnlyTheHeadEnds(s, t) && t.now == s.now
  {
    t := s;
    if s.worker.phase.Working? {
      match s.worker.phase.stage
      case Ready =>
      case Acking => AckEnds(s); t := Next(s, Ack);
      case Announcing => AnnouncedEnds(s); t := Next(Next(s, Announce(None)), Ack);
      case Executing => t := SettledEnds(s, outcome);
    }
    RunKeepsInv(s, Finish(s, outcome));
  }

  lemma SettleStep(s: State, outcome: Outcome)
    requires Inv(s) && AtHead(s, Executing)
    ensures var t := Next(s, Settle(outcome));
            && Leads(s, [Settle(outcome)], t) && AtHead(t, if outcome.Returns? then Announcing else Acking)
            && OnlyTheHeadEnds(s, t) && t.now == s.now
  {
    OneStep(s, Settle(outcome));
    hide NoJobLost;
  }

  lemma SettledEnds(s: State, outcome: Outcome) returns (t: State)
    requires Inv(s) && AtHead(s, Executing)
    ensures Leads(s, Finish(s, outcome), t)
    ensures BetweenEntries(t) && OnlyTheHeadEnds(s, t) && t.now == s.now
  {
    var settled := Next(s, Settle(outcome));
    var rest := if outcome.Returns? then [Announce(None), Ack] else [Ack];
    assert Finish(s, outcome) == [Settle(outcome)] + rest;
    StepKeepsInv(s, Settle(outcome));
    SettleStep(s, outcome);
    hide Finish, Inv, Leads, OnlyTheHeadEnds;
    if outcome.Returns? {
      AnnouncedEnds(settled);
      t := Next(Next(settled, Announce(None)), Ack);
    } else {
      AckEnds(settled);
      t := Next(settled, Ack);
    }
    hide Next, AtHead;
    Join(s, [Settle(outcome)], settled, rest, t);
    SameRowsEnd(s, settled, t);
  }

  lemma SameRowsEnd(s: State, settled: State, t: State)
    requires OnlyTheHeadEnds(s, settled) && t.jobs == settled.jobs
    ensures OnlyTheHeadEnds(s, t)
  {
  }

  // What holds of any stretch that neither restarts the job nor touches it.
  ghost predicate Nears(s: State, t: State, id: JobId) {
    Inv(t) && t.now == s.now && id in s.jobs && id in t.jobs && t.jobs[id] == s.jobs[id] && Drained(s, t)
  }

  lemma ReadToTop(s: State, id: JobId) returns (path: seq<Action>, t: State, restarted: bool)
    requires Inv(s) && Startable(s, id) && s.worker.Up? && s.worker.phase.Reading?
    ensures Leads(s, path, t)
    ensures if restarted then Restarted(s, t, id) else Nears(s, t, id) && AtTop(t)
  {
    path, t, restarted := ReadPhase(s, id);
  }

  lemma ClaimToTop(s: State, id: JobId) returns (path: seq<Action>, t: State, restarted: bool)
    requires Inv(s) && Startable(s, id) && s.worker.Up? && (s.worker.phase.Claiming? || s.worker.phase.Reading?)
    ensures Leads(s, path, t)
    ensures if restarted then Restarted(s, t, id) else Nears(s, t, id) && AtTop(t)
  {
    if s.worker.phase.Reading? {
      path, t, restarted := ReadToTop(s, id);
    } else {
      path, t, restarted := ClaimPhase(s, id);
      if !restarted {
        var more, u;
        more, u, restarted := ReadToTop(t, id);
        Join(s, path, t, more, u);
        path, t := path + more, u;
      }
    }
  }

  lemma DrainToTop(s: State, id: JobId) returns (path: seq<Action>, t: State, restarted: bool)
    requires Inv(s) && Startable(s, id)
    requires s.worker.Up? && s.worker.phase.Working? && s.worker.phase.stage == Ready
    ensures Leads(s, path, t)
    ensures if restarted then Restarted(s, t, id) else Nears(s, t, id) && AtTop(t)
  {
    path, t := DrainBatch(s, id);
    restarted := Holds(s, s.worker.phase.batch, id);
    if !restarted && !s.worker.phase.fromRead {
      var more, u;
      more, u, restarted := ReadToTop(t, id);
      Join(s, path, t, more, u);
      path, t := path + more, u;
    }
  }

  // A live worker reaches the top of its loop, unless it restarts the job on the way.
  lemma ReachTop(s: State, id: JobId) returns (path: seq<Action>, t: State, restarted: bool)
    requires Inv(s) && Startable(s, id) && BetweenEntries(s)
    ensures Leads(s, path, t)
    ensures if restarted then Restarted(s, t, id) else Nears(s, t, id) && AtTop(t)
  {
    match s.worker.phase
    case Polling => path, t, restarted := [], s, false;
    case Publishing(_) =>
      path, t := PublishAll(s);
      var more, u;
      more, u, restarted := ClaimToTop(t, id);
      Join(s, path, t, more, u);
      path, t := path + more, u;
    case Working(_, _, _) => path, t, restarted := DrainToTop(s, id);
    case _ => path, t, restarted := ClaimToTop(s, id);
  }

  // --- driving any unfinished job to its next start --------------------------------------

  // After a pause, the worker's own loop starts the job from wherever it stands.
  lemma StartsAfterPause(s: State, id: JobId) returns (path: seq<Action>)
    requires Inv(s) && BetweenEntries(s) && id in s.jobs && !s.jobs[id].Terminal()
    ensures OwnSteps(path) && Legal(s, [Tick(Pause(s, id))] + path)
    ensures Restarted(s, After(s, [Tick(Pause(s, id))] + path), id)
  {
    var tick := [Tick(Pause(s, id))];
    var rested := Next(s, Tick(Pause(s, id)));
    OneStep(s, Tick(Pause(s, id)));
    StepKeepsInv(s, Tick(Pause(s, id)));
    assert Startable(rested, id) && AllIdle(rested);
    assert s.jobs[id].status == Queued ==> id in DueJobs(rested);
    var t, restarted;
    path, t, restarted := ReachTop(rested, id);
    if !restarted {
      var more, u;
      assert Startable(t, id);
      if s.jobs[id].status == Queued {
        more, u := PollOn(t, id);
      } else {
        more, u := ClaimOn(t, id);
      }
      Join(rested, path, t, more, u);
      path, t := path + more, u;
    }
    AfterConcat(s, tick, path);
  }

  // Main liveness result for a live worker: in every reachable state, whatever the handler that may be
  // running does, the worker's own steps and one pause start an unfinished job again, unless that handler
  // is the job's own and ends it.
  lemma LiveWorkerStartsItAgain(s: State, id: JobId, outcome: Outcome) returns (t: State, path: seq<Action>)
    requires Inv(s) && s.worker.Up? && id in s.jobs && !s.jobs[id].Terminal()
    ensures Leads(s, Finish(s, outcome), t) && id in t.jobs
    ensures t.jobs[id].Terminal() ==> AtHead(s, Executing) && HeadJob(s) == id
    ensures !t.jobs[id].Terminal() ==>
              && OwnSteps(path) && Legal(t, [Tick(Pause(t, id))] + path)
              && Restarted(s, After(t, [Tick(Pause(t, id))] + path), id)
  {
    t := FinishHead(s, outcome);
    path := [];
    if !t.jobs[id].Terminal() {
      path := StartsAfterPause(t, id);
    }
  }

  // The worker's own steps, and the passing of time.
  predicate Unaided(actions: seq<Action>) {
    forall i :: 0 <= i < |actions| ==> OwnStep(actions[i]) || actions[i].Tick?
  }

  // Main liveness result. In every reachable state an unfinished job is started again by nothing but time
  // and the worker's own steps, after a start of the worker if none is alive.
  lemma UnfinishedJobStartsAgain(s: State, id: JobId) returns (actions: seq<Action>)
    requires Inv(s) && id in s.jobs && !s.jobs[id].Terminal()
    ensures if s.worker.Up? then Unaided(actions) else actions != [] && actions[0] == Start && Unaided(actions[1..])
    ensures Legal(s, actions) && Restarted(s, After(s, actions), id)
  {
    if s.worker.Up? {
      var finish := Finish(s, Defers(0));
      var t, path := LiveWorkerStartsItAgain(s, id, Defers(0));
      DeferringEndsNothing(s, id);
      var rest := [Tick(Pause(t, id))] + path;
      AfterConcat(s, finish, rest);
      actions := finish + rest;
    } else {
      var up := Next(s, Start);
      OneStep(s, Start);
      StepKeepsInv(s, Start);
      var path := StartsAfterPause(up, id);
      var rest := [Tick(Pause(up, id))] + path;
      AfterConcat(s, [Start], rest);
      actions := [Start] + rest;
      assert actions[1..] == rest;
    }
  }

  // A handler that asks to be deferred does not end its job.
  lemma DeferringEndsNothing(s: State, id: JobId)
    requires Inv(s) && s.worker.Up? && id in s.jobs && !s.jobs[id].Terminal()
    requires Legal(s, Finish(s, Defers(0)))
    ensures id in After(s, Finish(s, Defers(0))).jobs && !After(s, Finish(s, Defers(0))).jobs[id].Terminal()
  {
    var t := FinishHead(s, Defers(0));
    if AtHead(s, Executing) {
      var settled := Next(s, Settle(Defers(0)));
      OneStep(settled, Ack);
      assert [Settle(Defers(0)), Ack][1..] == [Ack];
    }
  }

  lemma EveryUnfinishedJobStartsAgain(now: int, before: seq<Action>, id: JobId) returns (actions: seq<Action>)
    requires Legal(Empty(now), before)
    requires var s := After(Empty(now), before); id in s.jobs && !s.jobs[id].Terminal()
    ensures var s := After(Empty(now), before);
            && (if s.worker.Up? then Unaided(actions)
                else actions != [] && actions[0] == Start && Unaided(actions[1..]))
            && Legal(s, actions) && Restarted(s, After(s, actions), id)
  {
    RunKeepsInv(Empty(now), before);
    actions := UnfinishedJobStartsAgain(After(Empty(now), before), id);
  }
}
