/** Several live workers on one queue. A job left running without an entry is never started again; two
    workers that share an entry can leave one so, and workers that never share one cannot. */
module JobLoss {
  import opened Prelude
  import opened JobRows
  import opened JobQueue

  // Running, with no entry pending, undelivered, or about to be published or executed.
  ghost predicate Stuck(s: State, id: JobId) {
    && id in s.jobs && s.jobs[id].status == Running
    && (forall m :: 0 <= m < |s.stream| && s.stream[m] == id ==> m !in s.pending && m < s.delivered)
    && (s.worker.Up? && s.worker.phase.Publishing? ==> id !in s.worker.phase.due)
    && (s.worker.Up? && s.worker.phase.Working? ==>
          forall m :: m in s.worker.phase.batch && m < |s.stream| ==> s.stream[m] != id)
  }

  lemma ClaimLeavesStuck(s: State, id: JobId)
    requires Stuck(s, id) && Enabled(s, Claim)
    ensures Stuck(Next(s, Claim), id)
  {
    IdleFromFacts(s, 0, CLAIM_LIMIT);
    hide IdleFrom;
  }

  lemma StepLeavesStuck(s: State, a: Action, id: JobId)
    requires Stuck(s, id) && Enabled(s, a) && a != AddEntry(id) && a != Cancel(id)
    ensures Stuck(Next(s, a), id) && Next(s, a).jobs[id] == s.jobs[id]
  {
    match a
    case Claim => ClaimLeavesStuck(s, id);
    case Publish => PublishLeavesStuck(s, id);
    case AddEntry(_) =>
      assert forall m :: 0 <= m < |s.stream| ==> Next(s, a).stream[m] == s.stream[m];
    case _ => hide IdleFrom;
  }

  lemma PublishLeavesStuck(s: State, id: JobId)
    requires Stuck(s, id) && Enabled(s, Publish)
    ensures Stuck(Next(s, Publish), id)
  {
    var due := s.worker.phase.due;
    assert due[0] != id;
    assert forall d :: d in due[1..] ==> d in due;
  }

  // Whatever the worker does, however often it is restarted and however long one waits, a stuck job's row
  // does not change again, unless somebody adds an entry for it or cancels it.
  lemma {:induction false} StuckForGood(s: State, actions: seq<Action>, id: JobId)
    requires Stuck(s, id) && Legal(s, actions)
    requires AddEntry(id) !in actions && Cancel(id) !in actions
    ensures Stuck(After(s, actions), id) && After(s, actions).jobs[id] == s.jobs[id]
    decreases |actions|
  {
    if actions != [] {
      StepLeavesStuck(s, actions[0], id);
      StuckForGood(Next(s, actions[0]), actions[1..], id);
    }
  }

  // With one live worker at a time no reachable state is stuck.
  lemma OneWorkerNeverSticks(now: int, actions: seq<Action>, id: JobId)
    requires Legal(Empty(now), actions)
    ensures !Stuck(After(Empty(now), actions), id)
  {
    RunKeepsInv(Empty(now), actions);
    var s := After(Empty(now), actions);
    if id in s.jobs && s.jobs[id].status == Running {
      var m :| m in s.pending && m < |s.stream| && s.stream[m] == id;
    }
  }

  // --- a crew of workers on one queue ----------------------------------------------------

  // queue.worker is not used: the workers are the crew's.
  datatype Team = Team(queue: State, crew: map<nat, Worker>)

  datatype Turn = Turn(who: nat, action: Action)

  // The queue as one worker of the crew meets it.
  function View(t: Team, i: nat): State
    requires i in t.crew
  {
    t.queue.(worker := t.crew[i])
  }

  ghost predicate CanTake(t: Team, turn: Turn) {
    turn.who in t.crew && Enabled(View(t, turn.who), turn.action)
  }

  ghost function Taken(t: Team, turn: Turn): Team
    requires CanTake(t, turn)
  {
    var s := Next(View(t, turn.who), turn.action);
    Team(s.(worker := Down), t.crew[turn.who := s.worker])
  }

  ghost predicate Playable(t: Team, turns: seq<Turn>)
    decreases |turns|
  {
    turns == [] || (CanTake(t, turns[0]) && Playable(Taken(t, turns[0]), turns[1..]))
  }

  ghost function Played(t: Team, turns: seq<Turn>): Team
    requires Playable(t, turns)
    decreases |turns|
  {
    if turns == [] then t else Played(Taken(t, turns[0]), turns[1..])
  }

  function Batch(w: Worker): seq<nat> {
    if w.Up? && w.phase.Working? then w.phase.batch else []
  }

  // --- workers that share no entry lose no job -------------------------------------------

  // A claim takes no entry that another worker still holds.
  predicate Harmless(t: Team, turn: Turn) {
    turn.action.Claim? ==>
      forall i, m :: i in t.crew && i != turn.who && m in Batch(t.crew[i]) ==> m !in IdleFrom(t.queue, 0, CLAIM_LIMIT)
  }

  ghost predicate HarmlessRun(t: Team, turns: seq<Turn>)
    requires Playable(t, turns)
    decreases |turns|
  {
    turns == [] || (Harmless(t, turns[0]) && HarmlessRun(Taken(t, turns[0]), turns[1..]))
  }

  ghost predicate BatchSane(s: State, w: Worker) {
    && (w.Up? && w.phase.Publishing? ==> forall d :: d in w.phase.due ==> d in s.jobs)
    && (w.Up? && w.phase.Working? ==> w.phase.batch != [])
    && (forall m :: m in Batch(w) ==> m in s.pending)
    && (forall i, j :: 0 <= i < j < |Batch(w)| ==> Batch(w)[i] != Batch(w)[j])
  }

  predicate Disjoint(v: Worker, w: Worker) {
    forall m :: m in Batch(v) ==> m !in Batch(w)
  }

  // The worker is past the execution of the entry and about to acknowledge it.
  predicate Settled(w: Worker, m: nat) {
    && w.Up? && w.phase.Working? && (w.phase.stage == Announcing || w.phase.stage == Acking)
    && w.phase.batch != [] && w.phase.batch[0] == m
  }

  // An entry for the job is pending that no worker is about to acknowledge.
  ghost predicate Owes(t: Team, id: JobId, m: nat) {
    && m in t.queue.pending && m < |t.queue.stream| && t.queue.stream[m] == id
    && forall i :: i in t.crew ==> !Settled(t.crew[i], m)
  }

  ghost predicate TeamInv(t: Team) {
    && StreamSane(t.queue) && RowsSane(t.queue)
    && (forall i :: i in t.crew ==> BatchSane(t.queue, t.crew[i]))
    && (forall i, j :: i in t.crew && j in t.crew && i != j ==> Disjoint(t.crew[i], t.crew[j]))
    && (forall id :: id in t.queue.jobs && t.queue.jobs[id].status == Running ==> exists m :: Owes(t, id, m))
  }

  // What a step of one worker needs of the queue and of its own batch.
  ghost predicate Sound(s: State) {
    StreamSane(s) && RowsSane(s) && BatchSane(s, s.worker)
  }

  lemma SoundStream(s: State, a: Action)
    requires Sound(s) && Enabled(s, a)
    ensures StreamSane(Next(s, a))
  {
    if a.Claim? {
      IdleFromFacts(s, 0, CLAIM_LIMIT);
    }
    if a.Publish? {
      assert s.worker.phase.due[0] in s.worker.phase.due;
    }
    hide RowsSane;
  }

  lemma SoundRows(s: State, a: Action)
    requires Sound(s) && Enabled(s, a)
    ensures RowsSane(Next(s, a))
  {
    hide StreamSane, BatchSane, IdleFrom, Redelivered;
  }

  lemma ClaimedBatch(s: State)
    requires Sound(s) && Enabled(s, Claim)
    ensures BatchSane(Next(s, Claim), Next(s, Claim).worker)
  {
    IdleFromFacts(s, 0, CLAIM_LIMIT);
    hide RowsSane, StreamSane, IdleFrom;
  }

  lemma RemainingBatch(s: State)
    requires Sound(s) && Enabled(s, Ack)
    ensures BatchSane(Next(s, Ack), Next(s, Ack).worker)
  {
    hide RowsSane, StreamSane;
    var batch := s.worker.phase.batch;
    assert forall i :: 0 <= i < |batch[1..]| ==> batch[1..][i] == batch[i + 1];
    forall m | m in batch[1..] ensures m in s.pending - {batch[0]} {
      var i :| 0 <= i < |batch[1..]| && batch[1..][i] == m;
      assert batch[0] != batch[i + 1];
    }
  }

  lemma ReadBatch(s: State)
    requires Sound(s) && Enabled(s, Read)
    ensures BatchSane(Next(s, Read), Next(s, Read).worker)
  {
    hide RowsSane, StreamSane;
  }

  lemma OwnBatch(s: State, a: Action)
    requires Sound(s) && Enabled(s, a)
    ensures BatchSane(Next(s, a), Next(s, a).worker)
  {
    match a
    case Claim => ClaimedBatch(s);
    case Ack => RemainingBatch(s);
    case Read => ReadBatch(s);
    case Publish => PublishedBatch(s);
    case Poll(due) => PolledAreRows(s, due); hide RowsSane, StreamSane, PollSelects;
    case _ => hide RowsSane, StreamSane;
  }

  lemma PublishedBatch(s: State)
    requires Sound(s) && Enabled(s, Publish)
    ensures BatchSane(Next(s, Publish), Next(s, Publish).worker)
  {
    hide RowsSane, StreamSane;
    assert forall d :: d in s.worker.phase.due[1..] ==> d in s.worker.phase.due;
  }

  lemma PolledAreRows(s: State, due: seq<JobId>)
    requires PollSelects(s.jobs, s.now, due)
    ensures forall d :: d in due ==> d in s.jobs
  {
  }

  // A step leaves the batch of a worker that shares no entry with the one that takes it.
  lemma OtherBatch(s: State, a: Action, w: Worker)
    requires Sound(s) && Enabled(s, a) && BatchSane(s, w) && Disjoint(s.worker, w)
    ensures BatchSane(Next(s, a), w)
  {
    hide RowsSane, StreamSane;
    var t := Next(s, a);
    assert s.jobs.Keys <= t.jobs.Keys;
    if a.Ack? {
      assert s.worker.phase.batch[0] in Batch(s.worker);
    }
    forall m | m in Batch(w) ensures m in t.pending {
    }
  }

  lemma StaysDisjoint(s: State, a: Action, w: Worker)
    requires Sound(s) && Enabled(s, a) && BatchSane(s, w) && Disjoint(s.worker, w)
    requires a.Claim? ==> forall m :: m in Batch(w) ==> m !in IdleFrom(s, 0, CLAIM_LIMIT)
    ensures Disjoint(Next(s, a).worker, w)
  {
    hide RowsSane;
    if a.Read? {
      assert forall m :: m in Batch(w) ==> m < s.delivered;
    } else if a.Ack? {
      assert forall m :: m in s.worker.phase.batch[1..] ==> m in s.worker.phase.batch;
    }
  }

  lemma StillOwed(t: Team, turn: Turn, id: JobId)
    requires TeamInv(t) && CanTake(t, turn)
    requires var u := Taken(t, turn); id in u.queue.jobs && u.queue.jobs[id].status == Running
    ensures exists m :: Owes(Taken(t, turn), id, m)
  {
    var s, u := View(t, turn.who), Taken(t, turn);
    if turn.action.Begin? && HeadJob(s) == id {
      var m := s.worker.phase.batch[0];
      assert m in Batch(t.crew[turn.who]);
      forall i | i in u.crew ensures !Settled(u.crew[i], m) {
        assert i != turn.who ==> Disjoint(t.crew[i], t.crew[turn.who]);
      }
      assert Owes(u, id, m);
    } else {
      WasRunning(s, turn.action, id);
      var m :| Owes(t, id, m);
      assert !Settled(s.worker, m);
      KeepsOwing(s, turn.action, id, m);
      assert Owes(u, id, m);
    }
  }

  // Only a Begin of the job makes it running.
  lemma WasRunning(s: State, a: Action, id: JobId)
    requires Enabled(s, a) && id in Next(s, a).jobs && Next(s, a).jobs[id].status == Running
    requires !(a.Begin? && HeadJob(s) == id)
    ensures id in s.jobs && s.jobs[id].status == Running
  {
  }

  lemma KeepsOwing(s: State, a: Action, id: JobId, m: nat)
    requires Sound(s) && Enabled(s, a) && !Settled(s.worker, m)
    requires m in s.pending && m < |s.stream| && s.stream[m] == id
    requires id in Next(s, a).jobs && Next(s, a).jobs[id].status == Running && !(a.Begin? && HeadJob(s) == id)
    ensures var t := Next(s, a);
            m in t.pending && m < |t.stream| && t.stream[m] == id && !Settled(t.worker, m)
  {
    hide StreamSane;
  }

  lemma TurnKeepsInv(t: Team, turn: Turn)
    requires TeamInv(t) && CanTake(t, turn) && Harmless(t, turn)
    ensures TeamInv(Taken(t, turn))
  {
    var s, u := View(t, turn.who), Taken(t, turn);
    SoundStream(s, turn.action);
    SoundRows(s, turn.action);
    OwnBatch(s, turn.action);
    forall i | i in u.crew ensures BatchSane(u.queue, u.crew[i]) {
      if i != turn.who {
        OtherBatch(s, turn.action, t.crew[i]);
      }
    }
    forall i, j | i in u.crew && j in u.crew && i != j ensures Disjoint(u.crew[i], u.crew[j]) {
      TurnKeepsApart(t, turn, i, j);
    }
    forall id | id in u.queue.jobs && u.queue.jobs[id].status == Running ensures exists m :: Owes(u, id, m) {
      StillOwed(t, turn, id);
    }
  }

  lemma TurnKeepsApart(t: Team, turn: Turn, i: nat, j: nat)
    requires TeamInv(t) && CanTake(t, turn) && Harmless(t, turn) && i in t.crew && j in t.crew && i != j
    ensures Disjoint(Taken(t, turn).crew[i], Taken(t, turn).crew[j])
  {
    var s := View(t, turn.who);
    IdleSeesTheQueue(t, turn.who);
    if i == turn.who {
      StaysDisjoint(s, turn.action, t.crew[j]);
    } else if j == turn.who {
      StaysDisjoint(s, turn.action, t.crew[i]);
    }
  }

  lemma IdleSeesTheQueue(t: Team, i: nat)
    requires i in t.crew
    ensures IdleFrom(View(t, i), 0, CLAIM_LIMIT) == IdleFrom(t.queue, 0, CLAIM_LIMIT)
  {
    SameIdle(View(t, i), t.queue, 0, CLAIM_LIMIT);
  }

  lemma {:induction false} SameIdle(s: State, t: State, m: nat, room: nat)
    requires s.stream == t.stream && s.pending == t.pending && s.now == t.now
    ensures IdleFrom(s, m, room) == IdleFrom(t, m, room)
    decreases |s.stream| - m
  {
    if m < |s.stream| && room > 0 {
      SameIdle(s, t, m + 1, room);
      SameIdle(s, t, m + 1, room - 1);
    }
  }

  // Any number of live workers, crashing and starting at will, lose no job in a run in which no claim takes
  // an entry that another of them still holds.
  lemma {:induction false} HarmlessRunsKeepInv(t: Team, turns: seq<Turn>)
    requires TeamInv(t) && Playable(t, turns) && HarmlessRun(t, turns)
    ensures TeamInv(Played(t, turns))
    decreases |turns|
  {
    if turns != [] {
      TurnKeepsInv(t, turns[0]);
      HarmlessRunsKeepInv(Taken(t, turns[0]), turns[1..]);
    }
  }

  // A crew of which nobody is alive yet, on an empty queue.
  ghost predicate Fresh(t: Team, now: int) {
    t.queue == Empty(now) && forall i :: i in t.crew ==> t.crew[i] == Down
  }

  lemma UnsharedEntriesLoseNothing(t: Team, now: int, turns: seq<Turn>)
    requires Fresh(t, now) && Playable(t, turns) && HarmlessRun(t, turns)
    ensures NoJobLost(Played(t, turns).queue)
  {
    HarmlessRunsKeepInv(t, turns);
    var u := Played(t, turns);
    forall id | id in u.queue.jobs && u.queue.jobs[id].status == Running ensures Unacked(u.queue, id) {
      var m :| Owes(u, id, m);
    }
  }

  // It is enough that entries are acknowledged within the minute after which they may be claimed.
  predicate Prompt(t: Team, turn: Turn) {
    turn.action.Claim? ==>
      forall i, m :: i in t.crew && i != turn.who && m in Batch(t.crew[i]) && m in t.queue.pending ==>
        t.queue.now - t.queue.pending[m] < CLAIM_IDLE_SECONDS
  }

  lemma PromptIsHarmless(t: Team, turn: Turn)
    requires Prompt(t, turn)
    ensures Harmless(t, turn)
  {
    IdleFromFacts(t.queue, 0, CLAIM_LIMIT);
  }

  ghost predicate PromptRun(t: Team, turns: seq<Turn>)
    requires Playable(t, turns)
    decreases |turns|
  {
    turns == [] || (Prompt(t, turns[0]) && PromptRun(Taken(t, turns[0]), turns[1..]))
  }

  lemma {:induction false} PromptRunsAreHarmless(t: Team, turns: seq<Turn>)
    requires Playable(t, turns) && PromptRun(t, turns)
    ensures HarmlessRun(t, turns)
    decreases |turns|
  {
    if turns != [] {
      PromptIsHarmless(t, turns[0]);
      PromptRunsAreHarmless(Taken(t, turns[0]), turns[1..]);
    }
  }

  // A crew that acknowledges in time loses no job.
  lemma PromptCrewsLoseNothing(t: Team, now: int, turns: seq<Turn>)
    requires Fresh(t, now) && Playable(t, turns) && PromptRun(t, turns)
    ensures NoJobLost(Played(t, turns).queue)
  {
    PromptRunsAreHarmless(t, turns);
    UnsharedEntriesLoseNothing(t, now, turns);
  }

  // --- two workers that share an entry can -----------------------------------------------

  ghost predicate Gets(t: Team, turns: seq<Turn>, u: Team) {
    Playable(t, turns) && Played(t, turns) == u
  }

  lemma {:induction false} PlayOn(t: Team, p: seq<Turn>, u: Team, q: seq<Turn>, v: Team)
    requires Gets(t, p, u) && Gets(u, q, v)
    ensures Gets(t, p + q, v)
    decreases |p|
  {
    hide CanTake, Taken;
    if p == [] {
      assert p + q == q;
    } else {
      PlayOn(Taken(t, p[0]), p[1..], u, q, v);
      assert (p + q)[1..] == p[1..] + q;
    }
  }

  // The job's row along the way, and where the workers stand.
  const ON_FIRST := Job(Running, 1, 0, Some(0), None, None)
  const DEFERRED := Job(Queued, 1, 60, None, None, None)
  const ON_SECOND := Job(Running, 2, 60, Some(60), None, None)

  function Holding(fromRead: bool, stage: Stage): Worker {
    Up(0, Working([0], fromRead, stage))
  }

  function Two(queue: State, first: Worker, second: Worker): Team {
    Team(queue.(worker := Down), map[0 := first, 1 := second])
  }

  lemma OneTurn(t: Team, turn: Turn)
    requires CanTake(t, turn)
    ensures Gets(t, [turn], Taken(t, turn))
  {
    hide CanTake, Taken;
    assert [turn][1..] == [];
    assert Playable(Taken(t, turn), [turn][1..]) && Played(Taken(t, turn), [turn][1..]) == Taken(t, turn);
  }

  lemma FirstPlays(queue: State, first: Worker, second: Worker, a: Action, next: State)
    requires var s := queue.(worker := first); Enabled(s, a) && Next(s, a) == next
    ensures Gets(Two(queue, first, second), [Turn(0, a)], Two(next, next.worker, second))
  {
    hide Next, Enabled;
    var t := Two(queue, first, second);
    assert View(t, 0) == queue.(worker := first);
    assert Taken(t, Turn(0, a)) == Two(next, next.worker, second);
    OneTurn(t, Turn(0, a));
  }

  lemma SecondPlays(queue: State, first: Worker, second: Worker, a: Action, next: State)
    requires var s := queue.(worker := second); Enabled(s, a) && Next(s, a) == next
    ensures Gets(Two(queue, first, second), [Turn(1, a)], Two(next, first, next.worker))
  {
    hide Next, Enabled;
    var t := Two(queue, first, second);
    assert View(t, 1) == queue.(worker := second);
    assert Taken(t, Turn(1, a)) == Two(next, first, next.worker);
    OneTurn(t, Turn(1, a));
  }

  function Idle(worker: Worker): State {
    State(0, map[], [], 0, map[], worker)
  }

  function Waiting(delivered: nat, worker: Worker): State
    requires delivered <= 1
  {
    State(0, map[0 := Submitted(0)], [0], delivered, if delivered == 1 then map[0 := 0] else map[], worker)
  }

  function On(job: Job, now: int, since: int, worker: Worker): State {
    State(now, map[0 := job], [0], 1, map[0 := since], worker)
  }

  function Lost(worker: Worker): State {
    State(60, map[0 := ON_SECOND], [0], 1, map[], worker)
  }

  lemma FirstIsIdle() returns (turns: seq<Turn>)
    ensures Gets(Two(Empty(0), Down, Down), turns, Two(Idle(Down), Up(0, Reading), Down))
  {
    var s0, s1 := Two(Empty(0), Down, Down), Two(Idle(Down), Up(0, Polling), Down);
    var s2, s3 := Two(Idle(Down), Up(0, Claiming), Down), Two(Idle(Down), Up(0, Reading), Down);
    FirstPlays(Empty(0), Down, Down, Start, Idle(Up(0, Polling)));
    assert LockAll(map[], [], 0) == map[];
    FirstPlays(Idle(Down), Up(0, Polling), Down, Poll([]), Idle(Up(0, Claiming)));
    assert Redelivered(map[], [], 0) == map[];
    FirstPlays(Idle(Down), Up(0, Claiming), Down, Claim, Idle(Up(0, Reading)));
    hide *;
    PlayOn(s0, [Turn(0, Start)], s1, [Turn(0, Poll([]))], s2);
    PlayOn(s0, [Turn(0, Start)] + [Turn(0, Poll([]))], s2, [Turn(0, Claim)], s3);
    turns := [Turn(0, Start)] + [Turn(0, Poll([]))] + [Turn(0, Claim)];
  }

  lemma FirstReads() returns (turns: seq<Turn>)
    ensures Gets(Two(Idle(Down), Up(0, Reading), Down), turns, Two(Waiting(1, Down), Holding(true, Ready), Down))
  {
    var reading := Up(0, Reading);
    var added := State(0, map[0 := Submitted(0)], [], 0, map[], reading);
    var s0, s1 := Two(Idle(Down), reading, Down), Two(added, reading, Down);
    var s2, s3 := Two(Waiting(0, Down), reading, Down), Two(Waiting(1, Down), Holding(true, Ready), Down);
    FirstPlays(Idle(Down), reading, Down, Submit(0), added);
    FirstPlays(added, reading, Down, AddEntry(0), Waiting(0, reading));
    ReadsOne();
    FirstPlays(Waiting(0, Down), reading, Down, Read, Waiting(1, Holding(true, Ready)));
    hide *;
    PlayOn(s0, [Turn(0, Submit(0))], s1, [Turn(0, AddEntry(0))], s2);
    PlayOn(s0, [Turn(0, Submit(0))] + [Turn(0, AddEntry(0))], s2, [Turn(0, Read)], s3);
    turns := [Turn(0, Submit(0))] + [Turn(0, AddEntry(0))] + [Turn(0, Read)];
  }

  lemma ReadsOne()
    ensures Next(Waiting(0, Up(0, Reading)), Read) == Waiting(1, Holding(true, Ready))
  {
    assert Upto(0, 1) == [0];
    assert Redelivered(map[], [0], 0) == map[0 := 0];
  }

  lemma FirstBegins() returns (turns: seq<Turn>)
    ensures Gets(Two(Waiting(1, Down), Holding(true, Ready), Down), turns,
                 Two(On(ON_FIRST, 0, 0, Down), Holding(true, Executing), Down))
  {
    turns := [Turn(0, Begin)];
    assert map[0 := Submitted(0)][0 := ON_FIRST] == map[0 := ON_FIRST];
    FirstPlays(Waiting(1, Down), Holding(true, Ready), Down, Begin, On(ON_FIRST, 0, 0, Holding(true, Executing)));
  }

  lemma SecondPolls() returns (turns: seq<Turn>)
    ensures Gets(Two(On(ON_FIRST, 0, 0, Down), Holding(true, Executing), Down), turns,
                 Two(On(ON_FIRST, 60, 0, Down), Holding(true, Executing), Up(0, Claiming)))
  {
    var first := Holding(true, Executing);
    var s0, s1 := Two(On(ON_FIRST, 0, 0, Down), first, Down), Two(On(ON_FIRST, 0, 0, Down), first, Up(0, Polling));
    var s2 := Two(On(ON_FIRST, 0, 0, Down), first, Up(0, Claiming));
    var s3 := Two(On(ON_FIRST, 60, 0, Down), first, Up(0, Claiming));
    SecondPlays(On(ON_FIRST, 0, 0, Down), first, Down, Start, On(ON_FIRST, 0, 0, Up(0, Polling)));
    assert LockAll(map[0 := ON_FIRST], [], 0) == map[0 := ON_FIRST];
    SecondPlays(On(ON_FIRST, 0, 0, Down), first, Up(0, Polling), Poll([]), On(ON_FIRST, 0, 0, Up(0, Claiming)));
    SecondPlays(On(ON_FIRST, 0, 0, Down), first, Up(0, Claiming), Tick(60), On(ON_FIRST, 60, 0, Up(0, Claiming)));
    hide *;
    PlayOn(s0, [Turn(1, Start)], s1, [Turn(1, Poll([]))], s2);
    PlayOn(s0, [Turn(1, Start)] + [Turn(1, Poll([]))], s2, [Turn(1, Tick(60))], s3);
    turns := [Turn(1, Start)] + [Turn(1, Poll([]))] + [Turn(1, Tick(60))];
  }

  lemma IdleEntry(worker: Worker)
    ensures IdleFrom(On(ON_FIRST, 60, 0, worker), 0, CLAIM_LIMIT) == [0]
  {
    var s := On(ON_FIRST, 60, 0, worker);
    assert IdleFrom(s, 1, CLAIM_LIMIT - 1) == [];
    assert IdleFrom(s, 0, CLAIM_LIMIT) == [0] + IdleFrom(s, 1, CLAIM_LIMIT - 1);
  }

  lemma SecondClaims() returns (turns: seq<Turn>)
    ensures Gets(Two(On(ON_FIRST, 60, 0, Down), Holding(true, Executing), Up(0, Claiming)), turns,
                 Two(On(ON_FIRST, 60, 60, Down), Holding(true, Executing), Holding(false, Ready)))
  {
    var s := On(ON_FIRST, 60, 0, Up(0, Claiming));
    turns := [Turn(1, Claim)];
    IdleEntry(Up(0, Claiming));
    assert Redelivered(map[0 := 0], [0], 60) == map[0 := 60];
    assert Next(s, Claim) == On(ON_FIRST, 60, 60, Holding(false, Ready));
    SecondPlays(On(ON_FIRST, 60, 0, Down), Holding(true, Executing), Up(0, Claiming), Claim,
                On(ON_FIRST, 60, 60, Holding(false, Ready)));
  }

  lemma FirstDefers() returns (turns: seq<Turn>)
    ensures Gets(Two(On(ON_FIRST, 60, 60, Down), Holding(true, Executing), Holding(false, Ready)), turns,
                 Two(On(DEFERRED, 60, 60, Down), Holding(true, Acking), Holding(false, Ready)))
  {
    turns := [Turn(0, Settle(Defers(0)))];
    assert map[0 := ON_FIRST][0 := DEFERRED] == map[0 := DEFERRED];
    FirstPlays(On(ON_FIRST, 60, 60, Down), Holding(true, Executing), Holding(false, Ready), Settle(Defers(0)),
               On(DEFERRED, 60, 60, Holding(true, Acking)));
  }

  lemma SecondBegins() returns (turns: seq<Turn>)
    ensures Gets(Two(On(DEFERRED, 60, 60, Down), Holding(true, Acking), Holding(false, Ready)), turns,
                 Two(On(ON_SECOND, 60, 60, Down), Holding(true, Acking), Holding(false, Executing)))
  {
    turns := [Turn(1, Begin)];
    assert map[0 := DEFERRED][0 := ON_SECOND] == map[0 := ON_SECOND];
    SecondPlays(On(DEFERRED, 60, 60, Down), Holding(true, Acking), Holding(false, Ready), Begin,
                On(ON_SECOND, 60, 60, Holding(false, Executing)));
  }

  lemma SecondDies() returns (turns: seq<Turn>)
    ensures Gets(Two(On(ON_SECOND, 60, 60, Down), Holding(true, Acking), Holding(false, Executing)), turns,
                 Two(Lost(Down), Up(1, Polling), Down))
  {
    var s0 := Two(On(ON_SECOND, 60, 60, Down), Holding(true, Acking), Holding(false, Executing));
    var s1 := Two(Lost(Down), Up(1, Polling), Holding(false, Executing));
    assert map[0 := 60] - {0} == map[];
    FirstPlays(On(ON_SECOND, 60, 60, Down), Holding(true, Acking), Holding(false, Executing), Ack,
               Lost(Up(1, Polling)));
    SecondPlays(Lost(Down), Up(1, Polling), Holding(false, Executing), Crash, Lost(Down));
    hide *;
    PlayOn(s0, [Turn(0, Ack)], s1, [Turn(1, Crash)], Two(Lost(Down), Up(1, Polling), Down));
    turns := [Turn(0, Ack)] + [Turn(1, Crash)];
  }

  // A slow first worker defers the job after a second has claimed its entry; the second starts the job,
  // the first acknowledges the entry they share, and the second dies. The job is stuck.
  lemma TwoWorkersCanLoseAJob() returns (turns: seq<Turn>)
    ensures Gets(Two(Empty(0), Down, Down), turns, Two(Lost(Down), Up(1, Polling), Down))
    ensures Stuck(Lost(Down), 0) && Stuck(Lost(Up(1, Polling)), 0) && !NoJobLost(Lost(Down))
    ensures Fresh(Two(Empty(0), Down, Down), 0) && !HarmlessRun(Two(Empty(0), Down, Down), turns)
  {
    var p1 := FirstIsIdle();
    var p2 := FirstReads();
    var p3 := FirstBegins();
    var p4 := SecondPolls();
    var p5 := SecondClaims();
    var p6 := FirstDefers();
    var p7 := SecondBegins();
    var p8 := SecondDies();
    turns := p1 + (p2 + (p3 + (p4 + (p5 + (p6 + (p7 + p8))))));
    var start, s1 := Two(Empty(0), Down, Down), Two(Idle(Down), Up(0, Reading), Down);
    var s2 := Two(Waiting(1, Down), Holding(true, Ready), Down);
    var s3 := Two(On(ON_FIRST, 0, 0, Down), Holding(true, Executing), Down);
    var s4 := Two(On(ON_FIRST, 60, 0, Down), Holding(true, Executing), Up(0, Claiming));
    var s5 := Two(On(ON_FIRST, 60, 60, Down), Holding(true, Executing), Holding(false, Ready));
    var s6 := Two(On(DEFERRED, 60, 60, Down), Holding(true, Acking), Holding(false, Ready));
    var s7 := Two(On(ON_SECOND, 60, 60, Down), Holding(true, Acking), Holding(false, Executing));
    var s8 := Two(Lost(Down), Up(1, Polling), Down);
    LostIsStuck();
    assert Fresh(start, 0) && s8.queue == Lost(Down);
    hide *;
    PlayOn(s6, p7, s7, p8, s8);
    PlayOn(s5, p6, s6, p7 + p8, s8);
    PlayOn(s4, p5, s5, p6 + (p7 + p8), s8);
    PlayOn(s3, p4, s4, p5 + (p6 + (p7 + p8)), s8);
    PlayOn(s2, p3, s3, p4 + (p5 + (p6 + (p7 + p8))), s8);
    PlayOn(s1, p2, s2, p3 + (p4 + (p5 + (p6 + (p7 + p8)))), s8);
    PlayOn(start, p1, s1, p2 + (p3 + (p4 + (p5 + (p6 + (p7 + p8))))), s8);
    LossIsHarm(start, turns, s8);
  }

  lemma LostIsStuck()
    ensures Stuck(Lost(Down), 0) && Stuck(Lost(Up(1, Polling)), 0) && !NoJobLost(Lost(Down))
  {
  }

  lemma LossIsHarm(t: Team, turns: seq<Turn>, u: Team)
    requires Fresh(t, 0) && Gets(t, turns, u) && !NoJobLost(u.queue)
    ensures Playable(t, turns) && !HarmlessRun(t, turns)
  {
    if HarmlessRun(t, turns) {
      UnsharedEntriesLoseNothing(t, 0, turns);
    }
  }
}
