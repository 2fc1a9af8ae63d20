/** What sharing an entry costs: whenever a worker claims the only entry of a job from another that still
    holds it, the two can go on so that the job is left running and is never started again. */
module JobSharing {
  import opened Prelude
  import opened JobRows
  import opened JobQueue
  import opened JobRuns
  import opened JobLoss

  // No worker of the crew will start the job again.
  ghost predicate StuckAmong(t: Team, id: JobId) {
    t.crew != map[] && forall i :: i in t.crew ==> Stuck(View(t, i), id)
  }

  lemma NothingAdded(s: State, a: Action, id: JobId)
    requires Stuck(s, id) && Enabled(s, a) && a != AddEntry(id)
    ensures var t := Next(s, a);
            |s.stream| <= |t.stream|
            && forall m :: 0 <= m < |t.stream| && t.stream[m] == id ==> m < |s.stream| && s.stream[m] == id
  {
    hide IdleFrom;
  }

  lemma TurnLeavesStuck(t: Team, turn: Turn, id: JobId)
    requires StuckAmong(t, id) && CanTake(t, turn) && turn.action != AddEntry(id) && turn.action != Cancel(id)
    ensures StuckAmong(Taken(t, turn), id) && Taken(t, turn).queue.jobs[id] == t.queue.jobs[id]
  {
    var s, u := View(t, turn.who), Taken(t, turn);
    StepLeavesStuck(s, turn.action, id);
    NothingAdded(s, turn.action, id);
    hide Next, Enabled;
    forall i | i in u.crew ensures Stuck(View(u, i), id) {
      assert i != turn.who ==> Stuck(View(t, i), id);
    }
  }

  // Whatever the whole crew does, a stuck job's row does not change again, unless somebody adds an entry
  // for it or cancels it.
  lemma {:induction false} StuckAmongForGood(t: Team, turns: seq<Turn>, id: JobId)
    requires StuckAmong(t, id) && Playable(t, turns)
    requires forall k :: 0 <= k < |turns| ==> turns[k].action != AddEntry(id) && turns[k].action != Cancel(id)
    ensures StuckAmong(Played(t, turns), id) && Played(t, turns).queue.jobs[id] == t.queue.jobs[id]
    decreases |turns|
  {
    if turns != [] {
      TurnLeavesStuck(t, turns[0], id);
      StuckAmongForGood(Taken(t, turns[0]), turns[1..], id);
    }
  }

  // --- a worker on its way through its batch ---------------------------------------------

  // The entry is in the worker's batch, and is its only one for a job that is not finished.
  ghost predicate Holds(s: State, m: nat) {
    && s.worker.Up? && s.worker.phase.Working? && m in s.worker.phase.batch
    && (forall i, j :: 0 <= i < j < |s.worker.phase.batch| ==> s.worker.phase.batch[i] != s.worker.phase.batch[j])
    && (forall b :: b in s.worker.phase.batch ==> b < |s.stream|)
    && (forall b :: 0 <= b < |s.stream| ==> s.stream[b] in s.jobs)
    && (forall b :: b in s.worker.phase.batch && b != m ==> s.stream[b] != s.stream[m])
    && !s.jobs[s.stream[m]].Terminal()
  }

  function StageOf(s: State): Stage
    requires s.worker.Up? && s.worker.phase.Working?
  {
    s.worker.phase.stage
  }

  // The step to take next, with a handler that asks to be deferred.
  function Forward(stage: Stage): Action {
    match stage
    case Ready => Begin
    case Executing => Settle(Defers(0))
    case Announcing => Announce(None)
    case Acking => Ack
  }

  function Remaining(stage: Stage): nat {
    match stage
    case Ready => 3
    case Executing => 2
    case Announcing => 1
    case Acking => 0
  }

  // What a worker leaves alone on its way to the entry.
  ghost predicate Spares(s: State, t: State, m: nat) {
    && t.stream == s.stream && t.delivered == s.delivered && t.now == s.now
    && t.jobs.Keys == s.jobs.Keys && t.pending.Keys <= s.pending.Keys
    && (forall b :: b in Batch(t.worker) ==> b in Batch(s.worker))
    && Holds(t, m)
  }

  predicate Headed(s: State, m: nat) {
    s.worker.Up? && s.worker.phase.Working? && s.worker.phase.batch != [] && s.worker.phase.batch[0] == m
  }

  lemma AckOn(s: State, m: nat)
    requires Holds(s, m) && StageOf(s) == Acking && !Headed(s, m)
    ensures Enabled(s, Ack)
    ensures var t := Next(s, Ack);
            && Spares(s, t, m) && t.jobs == s.jobs && StageOf(t) == Ready
            && |t.worker.phase.batch| < |s.worker.phase.batch|
  {
    var batch := s.worker.phase.batch;
    assert batch[0] in batch;
    assert forall i :: 0 <= i < |batch[1..]| ==> batch[1..][i] == batch[i + 1];
    assert m in batch[1..] by {
      var i :| 0 <= i < |batch| && batch[i] == m;
      assert batch[1..][i - 1] == m;
    }
    forall b | b in batch[1..] ensures b in batch {
    }
  }

  lemma StepOn(s: State, m: nat)
    requires Holds(s, m) && StageOf(s) != Acking
    ensures Enabled(s, Forward(StageOf(s)))
    ensures var t := Next(s, Forward(StageOf(s)));
            && Spares(s, t, m) && t.worker.phase.batch == s.worker.phase.batch
            && Remaining(StageOf(t)) < Remaining(StageOf(s))
            && (!Headed(s, m) ==> t.jobs[s.stream[m]] == s.jobs[s.stream[m]])
  {
    assert s.worker.phase.batch[0] in s.worker.phase.batch;
  }

  // A worker gets to the entry, and if wished past its execution, by its own steps alone.
  lemma Advance(s: State, m: nat, past: bool) returns (path: seq<Action>, t: State)
    requires Holds(s, m)
    ensures Leads(s, path, t) && Spares(s, t, m) && Headed(t, m)
    ensures past ==> StageOf(t) == Acking
    ensures !past && (Headed(s, m) ==> StageOf(s) == Ready) ==>
              StageOf(t) == Ready && t.jobs[s.stream[m]] == s.jobs[s.stream[m]]
    decreases |s.worker.phase.batch|, Remaining(StageOf(s))
  {
    if Headed(s, m) && (!past || StageOf(s) == Acking) {
      path, t := [], s;
      Stop(s);
    } else {
      var a := Forward(StageOf(s));
      if StageOf(s) == Acking {
        AckOn(s, m);
      } else {
        StepOn(s, m);
      }
      var next := Next(s, a);
      OneStep(s, a);
      hide Next, Enabled;
      var more;
      more, t := Advance(next, m, past);
      Join(s, [a], next, more, t);
      path := [a] + more;
    }
  }

  // --- two workers with one entry --------------------------------------------------------

  // What one worker does is done by the crew.
  lemma {:induction false} Lift(t: Team, who: nat, path: seq<Action>) returns (turns: seq<Turn>)
    requires who in t.crew && t.queue.worker == Down && Legal(View(t, who), path)
    ensures var s := After(View(t, who), path);
            Gets(t, turns, Team(s.(worker := Down), t.crew[who := s.worker]))
    decreases |path|
  {
    if path == [] {
      turns := [];
      assert t.crew[who := t.crew[who]] == t.crew;
    } else {
      var turn := Turn(who, path[0]);
      var u := Taken(t, turn);
      assert View(u, who) == Next(View(t, who), path[0]);
      var more := Lift(u, who, path[1..]);
      var s := After(View(t, who), path);
      assert u.crew[who := s.worker] == t.crew[who := s.worker];
      OneTurn(t, turn);
      PlayOn(t, [turn], u, more, Team(s.(worker := Down), t.crew[who := s.worker]));
      turns := [turn] + more;
    }
  }

  // No other entry for the job is undelivered or pending, and none is being published.
  ghost predicate OnlyEntry(t: Team, m: nat) {
    && m < |t.queue.stream| && t.queue.stream[m] in t.queue.jobs && !t.queue.jobs[t.queue.stream[m]].Terminal()
    && (forall n :: 0 <= n < |t.queue.stream| && t.queue.stream[n] == t.queue.stream[m] && n != m ==>
          n !in t.queue.pending && n < t.queue.delivered)
    && (forall i :: i in t.crew && t.crew[i].Up? && t.crew[i].phase.Publishing? ==>
          t.queue.stream[m] !in t.crew[i].phase.due)
  }

  // The worker neither publishes an entry for the job of m nor holds one.
  predicate Apart(queue: State, w: Worker, m: nat)
    requires m < |queue.stream|
  {
    && (w.Up? && w.phase.Publishing? ==> queue.stream[m] !in w.phase.due)
    && forall b :: b in Batch(w) && b < |queue.stream| ==> queue.stream[b] != queue.stream[m]
  }

  // Both workers hold the entry, nobody else does, and it is the only one.
  ghost predicate Shared(t: Team, i: nat, j: nat, m: nat) {
    && i in t.crew && j in t.crew && i != j && t.queue.worker == Down
    && m < t.queue.delivered && OnlyEntry(t, m)
    && Holds(View(t, i), m) && Holds(View(t, j), m)
    && forall k :: k in t.crew && k != i && k != j ==> Apart(t.queue, t.crew[k], m)
  }

  // A batch of pending entries, each once, holds the only entry if it is among them.
  lemma PendingHolds(s: State, m: nat)
    requires StreamSane(s) && BatchSane(s, s.worker) && m in Batch(s.worker) && !s.jobs[s.stream[m]].Terminal()
    requires forall n :: 0 <= n < |s.stream| && s.stream[n] == s.stream[m] && n != m ==> n !in s.pending
    ensures Holds(s, m)
  {
  }

  lemma PendingKeeps(t: Team, k: nat, i: nat, m: nat)
    requires TeamInv(t) && k in t.crew && i in t.crew && k != i && m in Batch(t.crew[i]) && OnlyEntry(t, m)
    ensures Apart(t.queue, t.crew[k], m)
  {
    hide RowsSane;
    assert BatchSane(t.queue, t.crew[k]) && Disjoint(t.crew[k], t.crew[i]);
  }

  // What the claim leaves: the same entries pending, and a batch of its own.
  lemma ClaimedState(s: State)
    requires Sound(s) && Enabled(s, Claim)
    ensures var t := Next(s, Claim);
            && t.stream == s.stream && t.jobs == s.jobs && t.delivered == s.delivered && t.now == s.now
            && t.pending.Keys == s.pending.Keys && Batch(t.worker) == IdleFrom(s, 0, CLAIM_LIMIT)
            && StreamSane(t) && BatchSane(t, t.worker)
  {
    ClaimedBatch(s);
    SoundStream(s, Claim);
    IdleFromFacts(s, 0, CLAIM_LIMIT);
    hide IdleFrom, RowsSane, StreamSane;
    assert forall b :: b in IdleFrom(s, 0, CLAIM_LIMIT) ==> b in s.pending;
  }

  lemma TeamIsSound(t: Team, k: nat)
    requires TeamInv(t) && k in t.crew
    ensures Sound(View(t, k))
  {
  }

  // The queue with the same entries pending, as the worker that claimed some leaves it.
  ghost predicate SameEntries(t: Team, s: State) {
    && s.stream == t.queue.stream && s.jobs == t.queue.jobs && s.delivered == t.queue.delivered
    && s.pending.Keys == t.queue.pending.Keys
  }

  lemma HolderHolds(t: Team, i: nat, m: nat, s: State)
    requires TeamInv(t) && i in t.crew && m in Batch(t.crew[i]) && OnlyEntry(t, m) && SameEntries(t, s)
    ensures Holds(s.(worker := t.crew[i]), m) && m < s.delivered
  {
    TeamIsSound(t, i);
    PendingHolds(View(t, i), m);
  }

  lemma OnlyEntryStays(t: Team, j: nat, m: nat, s: State)
    requires OnlyEntry(t, m) && SameEntries(t, s) && s.worker.Up? && !s.worker.phase.Publishing?
    ensures OnlyEntry(Team(s.(worker := Down), t.crew[j := s.worker]), m)
  {
  }

  lemma ClaimShares(t: Team, i: nat, j: nat, m: nat)
    requires TeamInv(t) && j in t.crew && Enabled(View(t, j), Claim)
    requires i in t.crew && i != j && m in Batch(t.crew[i])
    requires m in IdleFrom(t.queue, 0, CLAIM_LIMIT) && OnlyEntry(t, m)
    ensures CanTake(t, Turn(j, Claim)) && Shared(Taken(t, Turn(j, Claim)), i, j, m)
    ensures var u := Taken(t, Turn(j, Claim)); StageOf(View(u, j)) == Ready && u.queue.stream == t.queue.stream
  {
    var s := Next(View(t, j), Claim);
    var u := Team(s.(worker := Down), t.crew[j := s.worker]);
    assert Taken(t, Turn(j, Claim)) == u;
    IdleSeesTheQueue(t, j);
    TeamIsSound(t, j);
    ClaimedState(View(t, j));
    assert s.worker == WorkingOr(t.crew[j].iteration, IdleFrom(t.queue, 0, CLAIM_LIMIT), false) by {
      hide Sound, TeamInv, OnlyEntry;
    }
    hide Next, Enabled, Taken, CanTake, IdleFrom, Sound;
    HolderHolds(t, i, m, s);
    OnlyEntryStays(t, j, m, s);
    PendingHolds(s, m);
    assert View(u, j) == s && View(u, i) == s.(worker := t.crew[i]);
    hide Holds, StreamSane, BatchSane, OnlyEntry;
    forall k | k in u.crew && k != i && k != j ensures Apart(u.queue, u.crew[k], m) {
      PendingKeeps(t, k, i, m);
    }
  }

  // When one of the two moves on towards the entry, they still share it.
  lemma StillShared(t: Team, i: nat, j: nat, m: nat, s: State)
    requires Shared(t, i, j, m) && Spares(View(t, i), s, m)
    ensures Shared(Team(s.(worker := Down), t.crew[i := s.worker]), i, j, m)
  {
    var u := Team(s.(worker := Down), t.crew[i := s.worker]);
    assert View(u, i) == s;
    forall k | k in u.crew && k != i && k != j ensures Apart(u.queue, u.crew[k], m) {
      assert Apart(t.queue, t.crew[k], m);
    }
  }

  lemma SharedIsSymmetric(t: Team, i: nat, j: nat, m: nat)
    requires Shared(t, i, j, m)
    ensures Shared(t, j, i, m)
  {
  }

  // The one about to acknowledge, after the other has begun and died.
  lemma LosesIt(t: Team, i: nat, j: nat, m: nat) returns (turns: seq<Turn>, u: Team)
    requires Shared(t, i, j, m) && CanBegin(t.queue.jobs[t.queue.stream[m]], t.queue.now)
    requires Headed(View(t, i), m) && StageOf(View(t, i)) == Acking
    requires Headed(View(t, j), m) && StageOf(View(t, j)) == Ready
    ensures Gets(t, turns, u) && StuckAmong(u, t.queue.stream[m])
  {
    var t1 := Taken(t, Turn(j, Begin));
    var t2 := Taken(t1, Turn(i, Ack));
    u := Taken(t2, Turn(j, Crash));
    OneTurn(t, Turn(j, Begin));
    OneTurn(t1, Turn(i, Ack));
    OneTurn(t2, Turn(j, Crash));
    PlayOn(t1, [Turn(i, Ack)], t2, [Turn(j, Crash)], u);
    PlayOn(t, [Turn(j, Begin)], t1, [Turn(i, Ack)] + [Turn(j, Crash)], u);
    turns := [Turn(j, Begin)] + ([Turn(i, Ack)] + [Turn(j, Crash)]);
    var batch := t.crew[i].phase.batch;
    forall b | b in batch[1..] ensures b in batch && b != m {
      var k :| 0 <= k < |batch[1..]| && batch[1..][k] == b;
      assert batch[k + 1] == b;
    }
    assert i in u.crew;
    forall k | k in u.crew ensures Stuck(View(u, k), t.queue.stream[m]) {
      assert k != i && k != j ==> Apart(t.queue, t.crew[k], m);
    }
  }

  // Main result: a claim that takes the only entry of an unfinished job from another worker that still
  // holds it can be continued, by the two of them and time, to a job that is stuck for good.
  lemma SharedEntryCanLoseItsJob(t: Team, i: nat, j: nat, m: nat) returns (turns: seq<Turn>, u: Team)
    requires TeamInv(t) && j in t.crew && Enabled(View(t, j), Claim)
    requires i in t.crew && i != j && m in Batch(t.crew[i])
    requires m in IdleFrom(t.queue, 0, CLAIM_LIMIT) && OnlyEntry(t, m)
    ensures Gets(t, [Turn(j, Claim)] + turns, u) && StuckAmong(u, t.queue.stream[m])
  {
    var t1 := Taken(t, Turn(j, Claim));
    ClaimShares(t, i, j, m);
    OneTurn(t, Turn(j, Claim));
    turns, u := SharersCanLoseIt(t1, i, j, m);
    hide *;
    PlayOn(t, [Turn(j, Claim)], t1, turns, u);
  }

  lemma SharersCanLoseIt(t1: Team, i: nat, j: nat, m: nat) returns (turns: seq<Turn>, u: Team)
    requires Shared(t1, i, j, m) && StageOf(View(t1, j)) == Ready
    ensures Gets(t1, turns, u) && StuckAmong(u, t1.queue.stream[m])
  {
    var id := t1.queue.stream[m];
    var path1, s2 := Advance(View(t1, i), m, true);
    var t2 := Team(s2.(worker := Down), t1.crew[i := s2.worker]);
    StillShared(t1, i, j, m, s2);
    var turns1 := Lift(t1, i, path1);
    var wait := Max(0, t2.queue.jobs[id].availableAt - t2.queue.now);
    var t3 := Taken(t2, Turn(j, Tick(wait)));
    OneTurn(t2, Turn(j, Tick(wait)));
    WaitingShares(t2, i, j, m, wait);
    var path3, s4 := Advance(View(t3, j), m, false);
    var t4 := Team(s4.(worker := Down), t3.crew[j := s4.worker]);
    SharedIsSymmetric(t3, i, j, m);
    StillShared(t3, j, i, m, s4);
    SharedIsSymmetric(t4, j, i, m);
    var turns3 := Lift(t3, j, path3);
    var turns4;
    turns4, u := LosesIt(t4, i, j, m);
    turns := turns1 + ([Turn(j, Tick(wait))] + (turns3 + turns4));
    hide *;
    PlayOn(t3, turns3, t4, turns4, u);
    PlayOn(t2, [Turn(j, Tick(wait))], t3, turns3 + turns4, u);
    PlayOn(t1, turns1, t2, [Turn(j, Tick(wait))] + (turns3 + turns4), u);
  }

  lemma WaitingShares(t: Team, i: nat, j: nat, m: nat, seconds: nat)
    requires Shared(t, i, j, m)
    ensures CanTake(t, Turn(j, Tick(seconds)))
    ensures var u := Taken(t, Turn(j, Tick(seconds)));
            && Shared(u, i, j, m) && u.crew == t.crew && u.queue == t.queue.(now := t.queue.now + seconds)
  {
    assert t.crew[j := t.crew[j]] == t.crew;
  }
}
