/** One row of the durable job table and the statements the worker runs on it.

    Times are whole seconds. Every function here is one committed transaction of
    services/worker/ecoroute_worker/main.py; the class below performs the same
    transactions in place and is proved to compute exactly these functions. */
module JobRows {
  import opened Prelude

  type JobId = nat

  datatype Status = Queued | Running | Completed | Cancelled | Failed

  datatype Job = Job(
    status: Status,
    attempts: nat,
    availableAt: int,
    lockedAt: Option<int>,
    completedAt: Option<int>,
    error: Option<string>)
  {
    predicate Terminal() {
      status in {Completed, Cancelled, Failed}
    }
  }

  type Rows = map<JobId, Job>

  const RETRY_SECONDS: seq<int> := [15, 60, 300]
  const POLL_LIMIT := 100
  const LEASE_SECONDS := 300

  // The index is attempts - 1, and a negative index counts from the end of the tuple.
  function RetryDelay(attempts: nat): (delay: int)
    requires attempts <= |RETRY_SECONDS|
    ensures delay in {15, 60, 300} && (attempts == 0 ==> delay == 300)
  {
    if attempts == 0 then RETRY_SECONDS[|RETRY_SECONDS| - 1] else RETRY_SECONDS[attempts - 1]
  }

  // A row as it is inserted, by a request or by the periodic schedule.
  function Submitted(now: int): Job {
    Job(Queued, 0, now, None, None, None)
  }

  predicate CanBegin(job: Job, now: int) {
    !job.Terminal() && job.availableAt <= now
  }

  // The first transaction of an execution.
  function Begun(job: Job, now: int): Job {
    if job.Terminal() then job
    else if job.availableAt > now then job.(lockedAt := None)
    else job.(status := Running, lockedAt := Some(now), attempts := job.attempts + 1)
  }

  function Finished(job: Job, now: int): Job {
    job.(status := Completed, error := None, lockedAt := None, completedAt := Some(now))
  }

  function Deferred(job: Job, now: int, delay: int): Job {
    job.(status := Queued, lockedAt := None, availableAt := now + delay)
  }

  predicate Requeues(job: Job, permanent: bool) {
    !permanent && job.attempts <= |RETRY_SECONDS|
  }

  function FailedOrRetried(job: Job, now: int, permanent: bool, message: string): Job {
    var noted := job.(error := Some(message), lockedAt := None);
    if Requeues(job, permanent)
    then noted.(status := Queued, availableAt := now + RetryDelay(job.attempts))
    else noted.(status := Failed, completedAt := Some(now))
  }

  function CancelledRow(job: Job, now: int): Job {
    if job.status in {Queued, Running} then job.(status := Cancelled, completedAt := Some(now)) else job
  }

  // The filter of the poll: queued, due, and unlocked or locked longer than the lease.
  predicate Due(job: Job, now: int) {
    && job.status == Queued
    && job.availableAt <= now
    && (job.lockedAt.None? || job.lockedAt.value < now - LEASE_SECONDS)
  }

  function Locked(job: Job, now: int): Job {
    job.(lockedAt := Some(now))
  }

  function LockAll(rows: Rows, due: seq<JobId>, now: int): (r: Rows)
    requires forall i :: 0 <= i < |due| ==> due[i] in rows
  {
    map id | id in rows :: if id in due then Locked(rows[id], now) else rows[id]
  }

  // The rows a poll may lock: due, each once, at most POLL_LIMIT, earliest first,
  // and all of them when there are fewer than POLL_LIMIT.
  ghost predicate PollSelects(rows: Rows, now: int, due: seq<JobId>) {
    && |due| <= POLL_LIMIT
    && (forall i, j :: 0 <= i < j < |due| ==> due[i] != due[j])
    && (forall i :: 0 <= i < |due| ==> due[i] in rows && Due(rows[due[i]], now))
    && (forall id :: id in rows && Due(rows[id], now) && id !in due ==>
          |due| == POLL_LIMIT && forall i :: 0 <= i < |due| ==> rows[due[i]].availableAt <= rows[id].availableAt)
  }

  // What the handler of an execution did, and whether announcing its success failed.
  datatype HandlerRun =
    | Unsupported
    | Returned
    | ReturnedUnannounced(permanent: bool, message: string)
    | AskedToDefer(delay: int)
    | Raised(permanent: bool, message: string)

  // A whole execution with no other transaction in between.
  function Executed(job: Job, start: int, end: int, run: HandlerRun): Job {
    if !CanBegin(job, start) then Begun(job, start)
    else
      var running := Begun(job, start);
      match run
      case Unsupported => FailedOrRetried(running, end, true, "unsupported job kind")
      case Returned => Finished(running, end)
      case ReturnedUnannounced(permanent, message) =>
        FailedOrRetried(Finished(running, end), end, permanent, message)
      case AskedToDefer(delay) => Deferred(running, end, delay)
      case Raised(permanent, message) => FailedOrRetried(running, end, permanent, message)
  }

  // An uninterrupted execution starts the job exactly when it may, never leaves it running
  // or locked, and touches a finished job not at all.
  lemma ExecutionSettles(job: Job, start: int, end: int, run: HandlerRun)
    ensures var done := Executed(job, start, end, run);
            && (job.Terminal() ==> done == job)
            && (CanBegin(job, start) ==>
                  && done.attempts == job.attempts + 1
                  && done.status != Running && done.lockedAt.None?
                  && (done.status == Queued <==>
                        || run.AskedToDefer?
                        || ((run.Raised? || run.ReturnedUnannounced?) && !run.permanent && job.attempts < 3)))
            && (!CanBegin(job, start) ==> done.attempts == job.attempts && done.status == job.status)
  {
  }

  // What an execution writes beside the status: when the job ended, and the error of its failure.
  lemma ExecutionRecords(job: Job, start: int, end: int, run: HandlerRun)
    requires CanBegin(job, start)
    ensures var done := Executed(job, start, end, run);
            && (done.status == Completed ==> done.completedAt == Some(end) && done.error == None)
            && (done.status == Failed ==> done.completedAt == Some(end) && done.error.Some?)
            && (run.Raised? || run.ReturnedUnannounced? ==> done.error == Some(run.message))
            && (done.status == Completed <==> run.Returned?)
            && (run.Unsupported? ==> done.status == Failed)
            && done.status != Cancelled
    ensures !job.Terminal() ==> Begun(job, job.availableAt - 1) == job.(lockedAt := None)
  {
  }

  // A poll locks a job for 300 seconds: it is not polled again before, and is after, while it stays queued.
  lemma LockHolds(job: Job, locked: int, t: int)
    requires Due(job, locked)
    ensures Due(Locked(job, locked), t) <==> t >= job.availableAt && t > locked + 300
    ensures Locked(job, locked) == job.(lockedAt := Some(locked))
  {
  }

  // A poll takes at most a hundred jobs, each once, and leaves a due one out only for a hundred no later ones.
  lemma PollTakes(rows: Rows, now: int, due: seq<JobId>, left: JobId)
    requires PollSelects(rows, now, due)
    ensures |due| <= 100 && forall i, j :: 0 <= i < |due| && 0 <= j < |due| && due[i] == due[j] ==> i == j
    ensures left in rows && Due(rows[left], now) && left !in due ==>
              |due| == 100 && forall id :: id in due ==> rows[id].availableAt <= rows[left].availableAt
  {
  }

  // A transient failure: the handler raised, or announcing its success did.
  predicate FailsInPassing(run: HandlerRun) {
    (run.Raised? || run.ReturnedUnannounced?) && !run.permanent
  }

  // When an execution lets the job start again: after the delay it asked for, after 15, 60 and 300 seconds
  // for a transient failure of the first, second and third start, and never otherwise. What holds of a
  // start holds of the poll that leads to it.
  lemma ExecutionHoldsBack(job: Job, start: int, end: int, run: HandlerRun, t: int)
    requires CanBegin(job, start)
    ensures var done := Executed(job, start, end, run);
            && (CanBegin(done, t) <==> Due(done, t))
            && (run.AskedToDefer? ==> (CanBegin(done, t) <==> t >= end + run.delay))
            && (FailsInPassing(run) && job.attempts == 0 ==> (CanBegin(done, t) <==> t >= end + 15))
            && (FailsInPassing(run) && job.attempts == 1 ==> (CanBegin(done, t) <==> t >= end + 60))
            && (FailsInPassing(run) && job.attempts == 2 ==> (CanBegin(done, t) <==> t >= end + 300))
            && (!run.AskedToDefer? && !(FailsInPassing(run) && job.attempts <= 2) ==> !CanBegin(done, t))
  {
  }

  // The job table, changed in place by the worker.
  class JobTable {
    var rows: Rows

    constructor ()
      ensures rows == map[]
    {
      rows := map[];
    }

    method FinishJob(id: JobId, now: int) returns (found: bool)
      modifies this
      ensures found == (id in old(rows))
      ensures rows == if found then old(rows)[id := Finished(old(rows)[id], now)] else old(rows)
    {
      if id !in rows {
        return false;
      }
      var job := rows[id];
      job := job.(status := Completed);
      job := job.(error := None);
      job := job.(lockedAt := None);
      job := job.(completedAt := Some(now));
      rows := rows[id := job];
      found := true;
    }

    method DeferJob(id: JobId, now: int, delay: int)
      modifies this
      ensures rows == if id in old(rows) then old(rows)[id := Deferred(old(rows)[id], now, delay)] else old(rows)
    {
      if id !in rows {
        return;
      }
      var job := rows[id];
      job := job.(status := Queued);
      job := job.(lockedAt := None);
      job := job.(availableAt := now + delay);
      rows := rows[id := job];
    }

    method FailOrRetry(id: JobId, now: int, permanent: bool, message: string) returns (found: bool)
      modifies this
      ensures found == (id in old(rows))
      ensures rows == if found then old(rows)[id := FailedOrRetried(old(rows)[id], now, permanent, message)]
                      else old(rows)
    {
      if id !in rows {
        return false;
      }
      var job := rows[id];
      job := job.(error := Some(message));
      job := job.(lockedAt := None);
      if !permanent && job.attempts <= |RETRY_SECONDS| {
        var delay := RetryDelay(job.attempts);
        job := job.(status := Queued);
        job := job.(availableAt := now + delay);
      } else {
        job := job.(status := Failed);
        job := job.(completedAt := Some(now));
      }
      rows := rows[id := job];
      found := true;
    }

    method ExecuteJob(id: JobId, start: int, end: int, run: HandlerRun)
      modifies this
      ensures rows == if id in old(rows) then old(rows)[id := Executed(old(rows)[id], start, end, run)]
                      else old(rows)
    {
      if id !in rows || rows[id].status in {Completed, Cancelled, Failed} {
        return;
      }
      var job := rows[id];
      if job.availableAt > start {
        job := job.(lockedAt := None);
        rows := rows[id := job];
        return;
      }
      job := job.(status := Running);
      job := job.(lockedAt := Some(start));
      job := job.(attempts := job.attempts + 1);
      rows := rows[id := job];
      match run {
        case Unsupported =>
          var _ := FailOrRetry(id, end, true, "unsupported job kind");
        case AskedToDefer(delay) =>
          DeferJob(id, end, delay);
        case Returned =>
          var _ := FinishJob(id, end);
        case ReturnedUnannounced(permanent, message) =>
          var _ := FinishJob(id, end);
          var _ := FailOrRetry(id, end, permanent, message);
        case Raised(permanent, message) =>
          var _ := FailOrRetry(id, end, permanent, message);
      }
    }

    // The locking transaction of the poll and the stream entries added after it.
    method EnqueueDueJobs(due: seq<JobId>, now: int, stream: seq<JobId>) returns (published: seq<JobId>)
      requires PollSelects(rows, now, due)
      modifies this
      ensures rows == LockAll(old(rows), due, now)
      ensures published == stream + due
      ensures forall id :: id in due ==> !Due(rows[id], now)
    {
      var i := 0;
      while i < |due|
        invariant 0 <= i <= |due|
        invariant rows.Keys == old(rows).Keys
        invariant forall id :: id in rows ==>
                    rows[id] == if id in due[..i] then Locked(old(rows)[id], now) else old(rows)[id]
      {
        var job := rows[due[i]];
        job := job.(lockedAt := Some(now));
        rows := rows[due[i] := job];
        i := i + 1;
      }
      assert due[..|due|] == due;
      assert rows == LockAll(old(rows), due, now);
      published := stream;
      i := 0;
      while i < |due|
        invariant 0 <= i <= |due|
        invariant published == stream + due[..i]
      {
        published := published + [due[i]];
        i := i + 1;
      }
    }
  }
}
