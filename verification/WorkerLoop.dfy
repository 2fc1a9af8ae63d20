/** The worker's main loop, in place: one iteration polls, claims every sixth time, reads, and
    executes and acknowledges the entries it obtained. An uninterrupted iteration is proved to be
    a run of the queue's own steps, so everything proved of those runs holds of it. */
module WorkerLoop {
  import opened Prelude
  import opened JobRows
  import opened JobQueue
  import opened JobRuns
  import opened JobRecovery

  // What the handler does with each message.
  type Handlers = nat -> HandlerRun

  function ExecutedAll(jobs: Rows, stream: seq<JobId>, batch: seq<nat>, now: int, runs: Handlers): Rows
    requires forall i :: 0 <= i < |batch| ==> batch[i] < |stream|
    decreases |batch|
  {
    if batch == [] then jobs
    else ExecutedAll(ExecutedRow(jobs, stream[batch[0]], now, runs(batch[0])), stream, batch[1..], now, runs)
  }

  function MessageSet(batch: seq<nat>): set<nat> {
    set m | m in batch
  }

  // The state once a batch has been executed and acknowledged.
  function Processed(s: State, runs: Handlers): State
    requires EntriesKnown(s)
    requires s.worker.Up? && s.worker.phase.Working?
    requires forall i :: 0 <= i < |s.worker.phase.batch| ==> s.worker.phase.batch[i] < |s.stream|
  {
    var batch := s.worker.phase.batch;
    s.(jobs := ExecutedAll(s.jobs, s.stream, batch, s.now, runs), pending := s.pending - MessageSet(batch),
       worker := WorkingOr(s.worker.iteration, [], s.worker.phase.fromRead))
  }

  predicate EntriesKnown(s: State) {
    forall i :: 0 <= i < |s.stream| ==> s.stream[i] in s.jobs
  }

  lemma BatchIsARun(s: State, runs: Handlers) returns (path: seq<Action>)
    requires EntriesKnown(s)
    requires s.worker.Up? && s.worker.phase.Working? && s.worker.phase.stage == Ready && s.worker.phase.batch != []
    requires forall i :: 0 <= i < |s.worker.phase.batch| ==> s.worker.phase.batch[i] < |s.stream|
    ensures Leads(s, path, Processed(s, runs))
    decreases |s.worker.phase.batch|
  {
    var batch := s.worker.phase.batch;
    var t;
    path, t := EntryIsARun(s, runs(batch[0]));
    assert s.pending - MessageSet(batch) == s.pending - {batch[0]} - MessageSet(batch[1..]) by {
      assert MessageSet(batch) == {batch[0]} + MessageSet(batch[1..]) by {
        assert batch == [batch[0]] + batch[1..];
      }
    }
    if batch[1..] != [] {
      var more := BatchIsARun(t, runs);
      Join(s, path, t, more, Processed(t, runs));
      path := path + more;
    } else {
      assert ExecutedAll(t.jobs, s.stream, batch[1..], s.now, runs) == t.jobs;
      assert MessageSet(batch[1..]) == {};
      assert t.pending == s.pending - MessageSet(batch);
      assert t.worker == WorkingOr(s.worker.iteration, [], s.worker.phase.fromRead);
      assert t == Processed(s, runs);
    }
  }

  // --- a whole iteration -----------------------------------------------------------------

  ghost function Obtained(s: State, a: Action, runs: Handlers): State
    requires Inv(s) && (a.Claim? || a.Read?) && Enabled(s, a)
  {
    StepKeepsInv(s, a);
    var t := Next(s, a);
    if t.worker.phase.Working? then Processed(t, runs) else t
  }

  lemma ReadObtains(s: State, runs: Handlers)
    requires Inv(s) && Enabled(s, Read)
    ensures s.delivered <= |s.stream|
    ensures var n := Min(READ_LIMIT, |s.stream| - s.delivered);
            var batch := Upto(s.delivered, n);
            && (forall i :: 0 <= i < |batch| ==> s.stream[batch[i]] in s.jobs)
            && Obtained(s, Read, runs) ==
               s.(jobs := ExecutedAll(s.jobs, s.stream, batch, s.now, runs), delivered := s.delivered + n,
                  pending := Redelivered(s.pending, batch, s.now) - MessageSet(batch),
                  worker := Up(s.worker.iteration + 1, Polling))
  {
    hide NoJobLost, RowsSane;
    assert MessageSet([]) == {};
  }

  lemma ClaimObtains(s: State, runs: Handlers)
    requires Inv(s) && Enabled(s, Claim)
    ensures var batch := IdleFrom(s, 0, CLAIM_LIMIT);
            && (forall i :: 0 <= i < |batch| ==> batch[i] < |s.stream| && s.stream[batch[i]] in s.jobs)
            && Obtained(s, Claim, runs) ==
               s.(jobs := ExecutedAll(s.jobs, s.stream, batch, s.now, runs),
                  pending := Redelivered(s.pending, batch, s.now) - MessageSet(batch),
                  worker := Up(s.worker.iteration, Reading))
  {
    IdleFromFacts(s, 0, CLAIM_LIMIT);
    hide NoJobLost, RowsSane, IdleFrom;
    assert MessageSet([]) == {};
  }

  ghost function Looped(s: State, due: seq<JobId>, runs: Handlers): State
    requires Inv(s) && AtTop(s) && PollSelects(s.jobs, s.now, due)
  {
    PolledIsARun(s, due);
    var polled := PolledState(s, due);
    if polled.worker.phase.Claiming? then
      ObtainedIsARun(polled, Claim, runs);
      Obtained(Obtained(polled, Claim, runs), Read, runs)
    else
      Obtained(polled, Read, runs)
  }

  lemma PolledIsARun(s: State, due: seq<JobId>)
    requires Inv(s) && AtTop(s) && PollSelects(s.jobs, s.now, due)
    ensures Inv(PolledState(s, due)) && exists path :: Leads(s, path, PolledState(s, due))
  {
    var path, t := PublishPolled(s, due);
  }

  lemma ObtainedIsARun(s: State, a: Action, runs: Handlers)
    requires Inv(s) && (a.Claim? || a.Read?) && Enabled(s, a)
    ensures Inv(Obtained(s, a, runs)) && exists path :: Leads(s, path, Obtained(s, a, runs))
    ensures a.Claim? ==> Obtained(s, a, runs).worker == Up(s.worker.iteration, Reading)
    ensures a.Read? ==> Obtained(s, a, runs).worker == Up(s.worker.iteration + 1, Polling)
  {
    var t := Next(s, a);
    StepKeepsInv(s, a);
    OneStep(s, a);
    var path := [a];
    if t.worker.phase.Working? {
      var more := BatchIsARun(t, runs);
      Join(s, path, t, more, Processed(t, runs));
      path := path + more;
    }
    RunKeepsInv(s, path);
    assert Leads(s, path, Obtained(s, a, runs));
  }

  // Main result for the loop: an uninterrupted iteration is a run of the queue that ends at the
  // top of the next one.
  lemma IterationIsARun(s: State, due: seq<JobId>, runs: Handlers)
    requires Inv(s) && AtTop(s) && PollSelects(s.jobs, s.now, due)
    ensures Inv(Looped(s, due, runs)) && exists path :: Leads(s, path, Looped(s, due, runs))
    ensures Looped(s, due, runs).worker == Up(s.worker.iteration + 1, Polling)
  {
    hide NoJobLost, RowsSane, WorkerSane, Leads, Processed, LockAll;
    PolledIsARun(s, due);
    var t := PolledState(s, due);
    var path :| Leads(s, path, t);
    if t.worker.phase.Claiming? {
      ObtainedIsARun(t, Claim, runs);
      var u := Obtained(t, Claim, runs);
      var more :| Leads(t, more, u);
      Join(s, path, t, more, u);
      path, t := path + more, u;
    }
    ObtainedIsARun(t, Read, runs);
    var last :| Leads(t, last, Obtained(t, Read, runs));
    Join(s, path, t, last, Obtained(t, Read, runs));
    assert Leads(s, path + last, Looped(s, due, runs));
  }

  // --- in place --------------------------------------------------------------------------

  class WorkerProcess {
    const table: JobTable
    var stream: seq<JobId>
    var delivered: nat
    var pending: map<nat, int>
    var iteration: nat

    constructor (table: JobTable, stream: seq<JobId>, delivered: nat, pending: map<nat, int>)
      ensures this.table == table && this.stream == stream && this.delivered == delivered
      ensures this.pending == pending && iteration == 0
    {
      this.table := table;
      this.stream := stream;
      this.delivered := delivered;
      this.pending := pending;
      this.iteration := 0;
    }

    function View(now: int, phase: Phase): State
      reads this, table
    {
      State(now, table.rows, stream, delivered, pending, Up(iteration, phase))
    }

    // for message_id, fields in entries: execute, then acknowledge.
    method Process(now: int, batch: seq<nat>, runs: Handlers)
      requires forall i :: 0 <= i < |batch| ==> batch[i] < |stream|
      modifies this`pending, table
      ensures table.rows == ExecutedAll(old(table.rows), stream, batch, now, runs)
      ensures pending == old(pending) - MessageSet(batch)
    {
      var i := 0;
      assert batch[0..] == batch;
      while i < |batch|
        invariant 0 <= i <= |batch|
        invariant ExecutedAll(table.rows, stream, batch[i..], now, runs)
               == ExecutedAll(old(table.rows), stream, batch, now, runs)
        invariant pending == old(pending) - MessageSet(batch[..i])
      {
        table.ExecuteJob(stream[batch[i]], now, now, runs(batch[i]));
        pending := pending - {batch[i]};
        assert batch[i..][1..] == batch[i + 1..];
        assert batch[..i + 1] == batch[..i] + [batch[i]];
        assert MessageSet(batch[..i + 1]) == MessageSet(batch[..i]) + {batch[i]};
        i := i + 1;
      }
      assert batch[..i] == batch;
    }

    method RecoverPending(now: int, runs: Handlers)
      requires Inv(View(now, Claiming))
      modifies this`pending, table
      ensures View(now, Reading) == Obtained(old(View(now, Claiming)), Claim, runs)
    {
      ClaimObtains(View(now, Claiming), runs);
      hide Inv, Obtained;
      var batch := IdleFrom(View(now, Claiming), 0, CLAIM_LIMIT);
      pending := Redelivered(pending, batch, now);
      Process(now, batch, runs);
    }

    method ReadAndProcess(now: int, runs: Handlers)
      requires Inv(View(now, Reading))
      modifies this, table
      ensures View(now, Polling) == Obtained(old(View(now, Reading)), Read, runs)
    {
      ReadObtains(View(now, Reading), runs);
      hide Inv, Obtained;
      var n := Min(READ_LIMIT, |stream| - delivered);
      var batch := Upto(delivered, n);
      pending := Redelivered(pending, batch, now);
      delivered := delivered + n;
      Process(now, batch, runs);
      iteration := iteration + 1;
    }

    method Iterate(now: int, due: seq<JobId>, runs: Handlers)
      requires Inv(View(now, Polling)) && PollSelects(table.rows, now, due)
      modifies this, table
      ensures View(now, Polling) == Looped(old(View(now, Polling)), due, runs)
      ensures Inv(View(now, Polling))
    {
      ghost var top := View(now, Polling);
      PolledIsARun(top, due);
      IterationIsARun(top, due, runs);
      stream := table.EnqueueDueJobs(due, now, stream);
      if iteration % CLAIM_EVERY == 0 {
        assert View(now, Claiming) == PolledState(top, due);
        ObtainedIsARun(PolledState(top, due), Claim, runs);
        RecoverPending(now, runs);
      } else {
        assert View(now, Reading) == PolledState(top, due);
      }
      ReadAndProcess(now, runs);
    }
  }
}
