/** The two tiers of the exact response cache: durable rows and the Redis values in front of them.

    Times are microseconds; lifetimes are given in whole seconds, as Redis is given them. A
    fingerprint is the injective image of the workspace, the namespace version and the rest of
    the request, so a key stands for all three columns the row lookup compares. Each handler is
    one atomic step, but for a store whose Redis value stays when its transaction is rolled
    back. */
module ResponseCache {
  import opened Prelude

  type Time = int
  type RowId = nat

  const SECOND: Time := 1_000_000
  const MINIMUM_TTL := 60

  datatype Key = Key(workspace: nat, namespaceVersion: int, request: nat)

  datatype Payload = Payload(completion: string, sourceRequest: nat, sourceEndpoint: nat, energy: real, cost: real)

  datatype Entry = Entry(key: Key, logicalModel: nat, payload: Payload, expiresAt: Time, invalidatedAt: Option<Time>)
  {
    predicate Active() { invalidatedAt.None? }
  }

  datatype Cell = Cell(payload: Payload, expiresAt: Time)

  type Rows = map<RowId, Entry>
  type Redis = map<Key, Cell>

  datatype State = State(now: Time, rows: Rows, redis: Redis)

  // Redis forgets a value at its expiry.
  function Lookup(redis: Redis, key: Key, now: Time): Option<Payload> {
    if key in redis && now < redis[key].expiresAt then Some(redis[key].payload) else None
  }

  function ExactGet(s: State, key: Key): Option<Payload> {
    Lookup(s.redis, key, s.now)
  }

  ghost function ActiveRow(rows: Rows, key: Key): (found: Option<RowId>)
    ensures found.Some? ==> found.value in rows && rows[found.value].key == key && rows[found.value].Active()
    ensures found.None? ==> forall i :: i in rows && rows[i].key == key ==> !rows[i].Active()
  {
    if i :| i in rows && rows[i].key == key && rows[i].Active() then Some(i) else None
  }

  function Withdraw(e: Entry, now: Time): Entry {
    e.(invalidatedAt := Some(now))
  }

  // int((expires_at - now).total_seconds()) of a positive difference, but at least a minute.
  function RemainingTtl(expiresAt: Time, now: Time): int {
    Max(MINIMUM_TTL, (expiresAt - now) / SECOND)
  }

  ghost function Stored(s: State, id: RowId, key: Key, model: nat, payload: Payload, ttl: nat): State {
    var found := ActiveRow(s.rows, key);
    if found.Some? && s.rows[found.value].expiresAt > s.now then
      var row := s.rows[found.value];
      s.(redis := s.redis[key := Cell(row.payload, s.now + RemainingTtl(row.expiresAt, s.now) * SECOND)])
    else
      var rows := if found.Some? then s.rows[found.value := Withdraw(s.rows[found.value], s.now)] else s.rows;
      State(s.now,
            rows[id := Entry(key, model, payload, s.now + ttl * SECOND, None)],
            s.redis[key := Cell(payload, s.now + ttl * SECOND)])
  }

  // The store's Redis value without its row.
  ghost function HalfStored(s: State, id: RowId, key: Key, model: nat, payload: Payload, ttl: nat): State {
    s.(redis := Stored(s, id, key, model, payload, ttl).redis)
  }

  function Keys(rows: Rows, ids: set<RowId>): set<Key> {
    set i | i in ids && i in rows :: rows[i].key
  }

  // Rows marked invalid, and the Redis values under their keys deleted.
  function InvalidatedAll(s: State, ids: set<RowId>): State {
    s.(rows := map i | i in s.rows :: if i in ids then Withdraw(s.rows[i], s.now) else s.rows[i],
       redis := s.redis - Keys(s.rows, ids))
  }

  datatype Scope = All | OfModel(model: nat) | OfEndpoints(endpoints: set<nat>)

  predicate InScope(e: Entry, scope: Scope) {
    match scope
    case All => true
    case OfModel(model) => e.logicalModel == model
    case OfEndpoints(endpoints) => e.payload.sourceEndpoint in endpoints
  }

  function Matching(rows: Rows, scope: Scope): set<RowId> {
    set i | i in rows && rows[i].Active() && InScope(rows[i], scope)
  }

  function Expired(s: State): set<RowId> {
    set i | i in s.rows && s.rows[i].expiresAt <= s.now
  }

  function Withdrawn(s: State): set<RowId> {
    set i | i in s.rows && !s.rows[i].Active() && s.rows[i].expiresAt > s.now
  }

  // The cleanup job: expired rows go, with the Redis values of expired and invalidated rows; then
  // the rows chosen for eviction are invalidated.
  function Cleaned(s: State, evicted: set<RowId>): State {
    var swept := s.(rows := s.rows - Expired(s),
                    redis := s.redis - Keys(s.rows, Expired(s) + Withdrawn(s)));
    InvalidatedAll(swept, evicted)
  }

  function Purged(s: State, before: Time): State {
    s.(rows := map i | i in s.rows && (s.rows[i].Active() || s.rows[i].invalidatedAt.value >= before) :: s.rows[i])
  }

  datatype Op =
    | Tick(elapsed: nat)
    | Store(id: RowId, key: Key, model: nat, payload: Payload, ttl: nat)
    | LoseStore(id: RowId, key: Key, model: nat, payload: Payload, ttl: nat)  // raises before its commit
    | InvalidateEntry(id: RowId)
    | InvalidateScope(scope: Scope)
    | Cleanup(evicted: set<RowId>)
    | Purge(before: Time)
    | Evaporate(key: Key)  // Redis may drop a value early

  predicate Possible(s: State, op: Op) {
    match op
    case Store(id, _, _, _, ttl) => id !in s.rows && ttl >= MINIMUM_TTL
    case LoseStore(id, _, _, _, ttl) => id !in s.rows && ttl >= MINIMUM_TTL
    case InvalidateEntry(id) => id in s.rows
    case Cleanup(evicted) =>
      forall i :: i in evicted ==> i in s.rows && s.rows[i].Active() && s.rows[i].expiresAt > s.now
    case _ => true
  }

  ghost function Next(s: State, op: Op): State
    requires Possible(s, op)
  {
    match op
    case Tick(elapsed) => s.(now := s.now + elapsed)
    case Store(id, key, model, payload, ttl) => Stored(s, id, key, model, payload, ttl)
    case LoseStore(id, key, model, payload, ttl) => HalfStored(s, id, key, model, payload, ttl)
    case InvalidateEntry(id) => InvalidatedAll(s, {id})
    case InvalidateScope(scope) => InvalidatedAll(s, Matching(s.rows, scope))
    case Cleanup(evicted) => Cleaned(s, evicted)
    case Purge(before) => Purged(s, before)
    case Evaporate(key) => s.(redis := s.redis - {key})
  }

  ghost predicate Legal(s: State, ops: seq<Op>)
    decreases |ops|
  {
    ops == [] || (Possible(s, ops[0]) && Legal(Next(s, ops[0]), ops[1..]))
  }

  ghost function After(s: State, ops: seq<Op>): State
    requires Legal(s, ops)
    decreases |ops|
  {
    if ops == [] then s else After(Next(s, ops[0]), ops[1..])
  }

  predicate SameActiveKey(e: Entry, f: Entry) {
    e.Active() && f.Active() && e.key == f.key
  }

  ghost predicate OneActivePerKey(s: State) {
    forall i, j :: i in s.rows && j in s.rows && SameActiveKey(s.rows[i], s.rows[j]) ==> i == j
  }

  // Row i is active, carries the value under the key, and is outlived by it by less than a minute.
  ghost predicate Backs(s: State, key: Key, i: RowId)
    requires key in s.redis
  {
    && i in s.rows && s.rows[i].Active() && s.rows[i].key == key
    && s.rows[i].payload == s.redis[key].payload
    && s.redis[key].expiresAt < s.rows[i].expiresAt + MINIMUM_TTL * SECOND
  }

  // A live value under the key is the payload of its active row.
  ghost predicate AgreesOn(s: State, key: Key) {
    key in s.redis && s.now < s.redis[key].expiresAt ==> exists i :: Backs(s, key, i)
  }

  // A store under the key is lost, and there is no live row it would have kept.
  ghost predicate Loses(s: State, op: Op, key: Key) {
    && op.LoseStore? && op.key == key
    && !(ActiveRow(s.rows, key).Some? && s.rows[ActiveRow(s.rows, key).value].expiresAt > s.now)
  }

  ghost predicate NeverLoses(s: State, ops: seq<Op>, key: Key)
    requires Legal(s, ops)
    decreases |ops|
  {
    ops == [] || (!Loses(s, ops[0], key) && NeverLoses(Next(s, ops[0]), ops[1..], key))
  }

  lemma StoreAgrees(s: State, id: RowId, key: Key, model: nat, payload: Payload, ttl: nat)
    requires id !in s.rows && ttl >= MINIMUM_TTL
    ensures AgreesOn(Stored(s, id, key, model, payload, ttl), key)
  {
    var t, found := Stored(s, id, key, model, payload, ttl), ActiveRow(s.rows, key);
    if found.Some? && s.rows[found.value].expiresAt > s.now {
      var left := s.rows[found.value].expiresAt - s.now;
      assert left / SECOND * SECOND <= left;
      assert Backs(t, key, found.value);
    } else {
      assert Backs(t, key, id);
    }
  }

  lemma StoreKeepsOne(s: State, id: RowId, key: Key, model: nat, payload: Payload, ttl: nat)
    requires OneActivePerKey(s) && id !in s.rows
    ensures OneActivePerKey(Stored(s, id, key, model, payload, ttl))
  {
    var found := ActiveRow(s.rows, key);
    assert found.Some? ==>
      forall i :: i in s.rows && SameActiveKey(s.rows[i], s.rows[found.value]) ==> i == found.value;
  }

  // A row that a step neither drops nor changes still backs the value, if that is not changed either.
  lemma StillBacked(s: State, t: State, key: Key)
    requires AgreesOn(s, key) && s.now <= t.now
    requires key in t.redis ==>
               && key in s.redis && t.redis[key] == s.redis[key]
               && forall i :: Backs(s, key, i) && t.now < t.redis[key].expiresAt ==>
                    i in t.rows && t.rows[i] == s.rows[i]
    ensures AgreesOn(t, key)
  {
    if key in t.redis && t.now < t.redis[key].expiresAt {
      var i :| Backs(s, key, i);
      assert Backs(t, key, i);
    }
  }

  // What one step keeps: at most one active row per key always, and the agreement of the tiers on a key
  // unless it loses a store under it.
  lemma StepKeeps(s: State, op: Op, key: Key)
    requires OneActivePerKey(s) && Possible(s, op)
    ensures OneActivePerKey(Next(s, op))
    ensures AgreesOn(s, key) && !Loses(s, op, key) ==> AgreesOn(Next(s, op), key)
  {
    if op.Store? {
      StoreKeepsOne(s, op.id, op.key, op.model, op.payload, op.ttl);
    }
    if AgreesOn(s, key) && !Loses(s, op, key) {
      StepAgrees(s, op, key);
    }
  }

  lemma StepAgrees(s: State, op: Op, key: Key)
    requires OneActivePerKey(s) && Possible(s, op) && AgreesOn(s, key) && !Loses(s, op, key)
    ensures AgreesOn(Next(s, op), key)
  {
    match op
    case Store(id, k, model, payload, ttl) =>
      if k == key {
        StoreAgrees(s, id, key, model, payload, ttl);
      } else {
        StillBacked(s, Next(s, op), key);
      }
    case LoseStore(id, k, model, payload, ttl) =>
      if k == key {
        StoreAgrees(s, id, key, model, payload, ttl);
        assert Next(s, op) == Stored(s, id, key, model, payload, ttl);
      } else {
        StillBacked(s, Next(s, op), key);
      }
    case Cleanup(evicted) => CleanupAgrees(s, evicted, key);
    case _ => StillBacked(s, Next(s, op), key);
  }

  lemma CleanupAgrees(s: State, evicted: set<RowId>, key: Key)
    requires OneActivePerKey(s) && AgreesOn(s, key)
    ensures AgreesOn(Cleaned(s, evicted), key)
  {
    var swept := s.(rows := s.rows - Expired(s),
                    redis := s.redis - Keys(s.rows, Expired(s) + Withdrawn(s)));
    StillBacked(s, swept, key);
    StillBacked(swept, Cleaned(s, evicted), key);
  }

  // Main result: over every run of stores, invalidations, cleanups and time the tiers agree on every key
  // under which no store was lost.
  lemma {:induction false} TiersAlwaysAgree(s: State, ops: seq<Op>, key: Key)
    requires OneActivePerKey(s) && AgreesOn(s, key) && Legal(s, ops) && NeverLoses(s, ops, key)
    ensures OneActivePerKey(After(s, ops)) && AgreesOn(After(s, ops), key)
    decreases |ops|
  {
    if ops != [] {
      StepKeeps(s, ops[0], key);
      TiersAlwaysAgree(Next(s, ops[0]), ops[1..], key);
    }
  }

  // A store whose transaction is rolled back is served all the same, and the tiers disagree, exactly when
  // there was no live row; then an invalidation by scope reaches it only through an expired row in scope.
  lemma LostStoreIsServed(s: State, op: Op, scope: Scope)
    requires OneActivePerKey(s) && op.LoseStore? && Possible(s, op)
    ensures var t := Next(s, op);
            && t.rows == s.rows
            && (AgreesOn(t, op.key) <==> !Loses(s, op, op.key))
            && (Loses(s, op, op.key) ==> ExactGet(t, op.key) == Some(op.payload))
            && (Loses(s, op, op.key) ==>
                  (ExactGet(Next(t, InvalidateScope(scope)), op.key) == Some(op.payload) <==>
                     var found := ActiveRow(s.rows, op.key); found.None? || !InScope(s.rows[found.value], scope)))
  {
    var t, found := Next(s, op), ActiveRow(s.rows, op.key);
    assert found.Some? ==>
      forall i :: i in s.rows && SameActiveKey(s.rows[i], s.rows[found.value]) ==> i == found.value;
    assert op.key in Keys(s.rows, Matching(s.rows, scope)) <==> found.Some? && InScope(s.rows[found.value], scope);
    StoreAgrees(s, op.id, op.key, op.model, op.payload, op.ttl);
    if Loses(s, op, op.key) && AgreesOn(t, op.key) {
      var i :| Backs(t, op.key, i);
      assert SameActiveKey(s.rows[i], s.rows[ActiveRow(s.rows, op.key).value]);
      assert false;
    }
  }

  // After a store the fingerprint's one active row is live, and the exact tier answers with its payload.
  lemma StoreAnswers(s: State, id: RowId, key: Key, model: nat, payload: Payload, ttl: nat)
    requires OneActivePerKey(s) && id !in s.rows && ttl >= MINIMUM_TTL
    ensures var t, found := Stored(s, id, key, model, payload, ttl), ActiveRow(s.rows, key);
            var row := if found.Some? && s.rows[found.value].expiresAt > s.now then found.value else id;
            && ActiveRow(t.rows, key) == Some(row)
            && t.rows[row].expiresAt > s.now && ExactGet(t, key) == Some(t.rows[row].payload)
  {
    StoreKeepsOne(s, id, key, model, payload, ttl);
    var t, found := Stored(s, id, key, model, payload, ttl), ActiveRow(s.rows, key);
    var row := if found.Some? && s.rows[found.value].expiresAt > s.now then found.value else id;
    assert row in t.rows && t.rows[row].key == key && t.rows[row].Active();
    var active := ActiveRow(t.rows, key).value;
    assert SameActiveKey(t.rows[active], t.rows[row]);
  }

  lemma OnlyActiveRow(s: State, key: Key, i: RowId)
    requires OneActivePerKey(s) && i in s.rows && s.rows[i].key == key && s.rows[i].Active()
    ensures ActiveRow(s.rows, key) == Some(i)
  {
    assert SameActiveKey(s.rows[ActiveRow(s.rows, key).value], s.rows[i]);
  }

  // What a hit means: it is the payload of the one active row of the key, and that row expired,
  // if at all, less than a minute ago.
  lemma HitIsTheActiveRow(now: Time, ops: seq<Op>, key: Key)
    requires Legal(State(now, map[], map[]), ops) && NeverLoses(State(now, map[], map[]), ops, key)
    ensures var s := After(State(now, map[], map[]), ops);
            ExactGet(s, key).Some? ==>
              && ActiveRow(s.rows, key).Some?
              && s.rows[ActiveRow(s.rows, key).value].payload == ExactGet(s, key).value
              && s.now < s.rows[ActiveRow(s.rows, key).value].expiresAt + MINIMUM_TTL * SECOND
  {
    TiersAlwaysAgree(State(now, map[], map[]), ops, key);
    var s := After(State(now, map[], map[]), ops);
    if ExactGet(s, key).Some? {
      assert key in s.redis && s.now < s.redis[key].expiresAt;
      var i: RowId :| Backs(s, key, i);
      OnlyActiveRow(s, key, i);
    }
  }

  predicate StoresUnder(op: Op, key: Key) {
    (op.Store? || op.LoseStore?) && op.key == key
  }

  lemma {:induction false} NothingReturns(s: State, ops: seq<Op>, key: Key)
    requires Legal(s, ops) && key !in s.redis
    requires forall k :: 0 <= k < |ops| ==> !StoresUnder(ops[k], key)
    ensures key !in After(s, ops).redis
    decreases |ops|
  {
    if ops != [] {
      assert !StoresUnder(ops[0], key);
      assert key !in Next(s, ops[0]).redis;
      NothingReturns(Next(s, ops[0]), ops[1..], key);
    }
  }

  // An invalidated response is not served again, however it was invalidated and whatever is done
  // afterwards, until a response is stored under its fingerprint.
  lemma InvalidationLasts(s: State, ids: set<RowId>, i: RowId, ops: seq<Op>)
    requires i in ids && i in s.rows && Legal(InvalidatedAll(s, ids), ops)
    requires forall k :: 0 <= k < |ops| ==> !StoresUnder(ops[k], s.rows[i].key)
    ensures ExactGet(After(InvalidatedAll(s, ids), ops), s.rows[i].key).None?
  {
    assert s.rows[i].key in Keys(s.rows, ids);
    NothingReturns(InvalidatedAll(s, ids), ops, s.rows[i].key);
  }

  // What housekeeping keeps: a cleanup exactly the rows that have not expired, and active those it does not
  // evict; a purge every active row and what was invalidated since.
  lemma HousekeepingKeepsExactly(s: State, evicted: set<RowId>, before: Time)
    ensures var t := Cleaned(s, evicted);
            && (forall i :: i in t.rows <==> i in s.rows && s.rows[i].expiresAt > s.now)
            && (forall i :: i in t.rows && i !in evicted ==> t.rows[i] == s.rows[i])
            && (forall i :: i in t.rows && i in evicted ==> t.rows[i] == s.rows[i].(invalidatedAt := Some(s.now)))
    ensures var t := Purged(s, before);
            && (forall i :: i in t.rows <==>
                  i in s.rows && (s.rows[i].Active() || s.rows[i].invalidatedAt.value >= before))
            && (forall i :: i in t.rows ==> t.rows[i] == s.rows[i]) && t.redis == s.redis
  {
  }

  // --- how long a hit lasts --------------------------------------------------------------

  // Which steps take the value of a key away or put another in its place: a store under the key, the loss of
  // the value, an invalidation of a row of the key that asks for it by id or by scope, and a cleanup that finds
  // such a row expired, withdrawn or to be evicted.
  ghost predicate Touches(s: State, op: Op, key: Key) {
    match op
    case Store(_, k, _, _, _) => k == key
    case LoseStore(_, k, _, _, _) => k == key
    case Evaporate(k) => k == key
    case InvalidateEntry(id) => HasKey(s, id, key)
    case InvalidateScope(scope) => exists i :: HasKey(s, i, key) && s.rows[i].Active() && InScope(s.rows[i], scope)
    case Cleanup(evicted) =>
      exists i :: HasKey(s, i, key) && (s.rows[i].expiresAt <= s.now || !s.rows[i].Active() || i in evicted)
    case Tick(_) => false
    case Purge(_) => false
  }

  predicate HasKey(s: State, i: RowId, key: Key) {
    i in s.rows && s.rows[i].key == key
  }

  // A step keeps the value of a key exactly when it does not touch it.
  lemma KeepsTheValueExactlyWhen(s: State, op: Op, key: Key)
    requires Possible(s, op) && key in s.redis && !StoresUnder(op, key)
    ensures key in Next(s, op).redis <==> !Touches(s, op, key)
    ensures key in Next(s, op).redis ==> Next(s, op).redis[key] == s.redis[key]
  {
    match op
    case InvalidateScope(scope) =>
      assert forall i :: i in Matching(s.rows, scope) <==>
                           i in s.rows && s.rows[i].Active() && InScope(s.rows[i], scope);
      assert key in Keys(s.rows, Matching(s.rows, scope)) <==> Touches(s, op, key) by {
        if i :| i in Matching(s.rows, scope) && s.rows[i].key == key {
          assert HasKey(s, i, key);
        }
      }
    case Cleanup(evicted) =>
      var swept := Expired(s) + Withdrawn(s);
      assert key in Keys(s.rows, swept) || key in Keys(s.rows - Expired(s), evicted) <==> Touches(s, op, key) by {
        if i :| i in s.rows && s.rows[i].key == key && (i in swept || i in evicted) {
          assert HasKey(s, i, key);
        }
        if i :| HasKey(s, i, key) && (s.rows[i].expiresAt <= s.now || !s.rows[i].Active() || i in evicted) {
          assert i in swept || i in evicted;
        }
      }
    case _ =>
  }

  ghost predicate NeverTouches(s: State, ops: seq<Op>, key: Key)
    requires Legal(s, ops)
    decreases |ops|
  {
    ops == [] || (!Touches(s, ops[0], key) && NeverTouches(Next(s, ops[0]), ops[1..], key))
  }

  lemma {:induction false} ValueStays(s: State, ops: seq<Op>, key: Key)
    requires Legal(s, ops) && NeverTouches(s, ops, key) && key in s.redis
    ensures key in After(s, ops).redis && After(s, ops).redis[key] == s.redis[key]
    ensures s.now <= After(s, ops).now
    decreases |ops|
  {
    if ops != [] {
      assert !StoresUnder(ops[0], key);
      KeepsTheValueExactlyWhen(s, ops[0], key);
      hide Touches, Possible;
      ValueStays(Next(s, ops[0]), ops[1..], key);
    }
  }

  // After a store the row that answers is served in every run that does not touch its key for as long as it
  // lives, but for less than its last second: a whole number of seconds is left to a value.
  lemma HitLasts(s: State, op: Op, ops: seq<Op>)
    requires OneActivePerKey(s) && op.Store? && Possible(s, op)
    requires Legal(Next(s, op), ops) && NeverTouches(Next(s, op), ops, op.key)
    ensures var t := Next(s, op);
            && ActiveRow(t.rows, op.key).Some?
            && var row := t.rows[ActiveRow(t.rows, op.key).value];
            && row.expiresAt > s.now
            && (After(t, ops).now + SECOND <= row.expiresAt ==> ExactGet(After(t, ops), op.key) == Some(row.payload))
  {
    var t := Next(s, op);
    StoreAnswers(s, op.id, op.key, op.model, op.payload, op.ttl);
    StoreLasts(s, op);
    ValueStays(t, ops, op.key);
  }

  // The value a store writes is the answering row's, and lives as long as the row but for less than a second.
  lemma StoreLasts(s: State, op: Op)
    requires OneActivePerKey(s) && op.Store? && Possible(s, op)
    ensures var t := Next(s, op);
            && op.key in t.redis && ActiveRow(t.rows, op.key).Some?
            && var row := t.rows[ActiveRow(t.rows, op.key).value];
            t.redis[op.key].payload == row.payload && row.expiresAt < t.redis[op.key].expiresAt + SECOND
  {
    StoreAnswers(s, op.id, op.key, op.model, op.payload, op.ttl);
    var found := ActiveRow(s.rows, op.key);
    if found.Some? && s.rows[found.value].expiresAt > s.now {
      var left := s.rows[found.value].expiresAt - s.now;
      assert left < left / SECOND * SECOND + SECOND;
    }
  }

  // --- when a value outlives its row -----------------------------------------------------

  // The store meets a live row in the last minute of its life.
  ghost predicate Late(s: State, op: Op, key: Key) {
    && StoresUnder(op, key) && ActiveRow(s.rows, key).Some?
    && var row := s.rows[ActiveRow(s.rows, key).value];
       s.now < row.expiresAt < s.now + MINIMUM_TTL * SECOND
  }

  // Exactly a late store lets the value outlive the row: at the row's expiry it is still served.
  lemma LateStoreOutlives(s: State, op: Op, key: Key)
    requires StoresUnder(op, key) && Possible(s, op) && ActiveRow(s.rows, key).Some?
    requires s.rows[ActiveRow(s.rows, key).value].expiresAt > s.now
    ensures var row := s.rows[ActiveRow(s.rows, key).value];
            var t := Next(s, op);
            && t.rows == s.rows && key in t.redis
            && (t.redis[key].expiresAt > row.expiresAt <==> Late(s, op, key))
            && (ExactGet(Next(t, Tick(row.expiresAt - s.now)), key).Some? <==> Late(s, op, key))
  {
    var left := s.rows[ActiveRow(s.rows, key).value].expiresAt - s.now;
    assert left / SECOND * SECOND <= left;
    assert left >= MINIMUM_TTL * SECOND ==> left / SECOND >= MINIMUM_TTL;
  }

  ghost predicate NeverLate(s: State, ops: seq<Op>, key: Key)
    requires Legal(s, ops)
    decreases |ops|
  {
    ops == [] || (!Late(s, ops[0], key) && NeverLate(Next(s, ops[0]), ops[1..], key))
  }

  // A live value does not outlive the active row of its key.
  predicate NotOutlived(s: State, key: Key) {
    forall i :: key in s.redis && i in s.rows && s.rows[i].Active() && s.rows[i].key == key ==>
      s.now < s.redis[key].expiresAt ==> s.redis[key].expiresAt <= s.rows[i].expiresAt
  }

  lemma StoreInTime(s: State, op: Op, key: Key)
    requires OneActivePerKey(s) && StoresUnder(op, key) && Possible(s, op)
    requires !Late(s, op, key) && !Loses(s, op, key)
    ensures NotOutlived(Next(s, op), key)
  {
    var t, found := Next(s, op), ActiveRow(s.rows, key);
    forall i | i in t.rows && t.rows[i].Active() && t.rows[i].key == key
      ensures t.redis[key].expiresAt <= t.rows[i].expiresAt
    {
      if i in s.rows && found.Some? {
        assert s.rows[i].Active() && SameActiveKey(s.rows[i], s.rows[found.value]);
        var left := s.rows[i].expiresAt - s.now;
        assert left / SECOND * SECOND <= left;
      }
    }
  }

  lemma StepInTime(s: State, op: Op, key: Key)
    requires OneActivePerKey(s) && NotOutlived(s, key) && Possible(s, op)
    requires !Late(s, op, key) && !Loses(s, op, key)
    ensures NotOutlived(Next(s, op), key)
  {
    if StoresUnder(op, key) {
      StoreInTime(s, op, key);
    } else {
      var t := Next(s, op);
      assert key in t.redis ==> key in s.redis && t.redis[key] == s.redis[key];
      assert forall i :: i in t.rows && t.rows[i].Active() && t.rows[i].key == key ==>
                           i in s.rows && s.rows[i].Active() && s.rows[i] == t.rows[i];
    }
  }

  lemma {:induction false} InTime(s: State, ops: seq<Op>, key: Key)
    requires OneActivePerKey(s) && NotOutlived(s, key) && Legal(s, ops)
    requires NeverLate(s, ops, key) && NeverLoses(s, ops, key)
    ensures NotOutlived(After(s, ops), key)
    decreases |ops|
  {
    if ops != [] {
      StepKeeps(s, ops[0], key);
      StepInTime(s, ops[0], key);
      InTime(Next(s, ops[0]), ops[1..], key);
    }
  }

  // In a run without late and lost stores under the key every hit is of a row that has not expired.
  lemma PunctualHitsAreLive(now: Time, ops: seq<Op>, key: Key)
    requires Legal(State(now, map[], map[]), ops)
    requires NeverLate(State(now, map[], map[]), ops, key) && NeverLoses(State(now, map[], map[]), ops, key)
    ensures var s := After(State(now, map[], map[]), ops);
            ExactGet(s, key).Some? ==>
              ActiveRow(s.rows, key).Some? && s.now < s.rows[ActiveRow(s.rows, key).value].expiresAt
  {
    InTime(State(now, map[], map[]), ops, key);
    HitIsTheActiveRow(now, ops, key);
  }

  // A run that ends with such a hit.
  lemma HitMayOutliveItsRow(key: Key, payload: Payload, other: Payload)
    ensures var ops := [Store(0, key, 0, payload, 60), Tick(59 * SECOND),
                        Store(1, key, 0, other, 60), Tick(59 * SECOND)];
            && Legal(State(0, map[], map[]), ops)
            && ExactGet(After(State(0, map[], map[]), ops), key) == Some(payload)
            && 0 in After(State(0, map[], map[]), ops).rows
            && After(State(0, map[], map[]), ops).rows[0].expiresAt == 60 * SECOND
            && After(State(0, map[], map[]), ops).now == 118 * SECOND
  {
    var ops := [Store(0, key, 0, payload, 60), Tick(59 * SECOND), Store(1, key, 0, other, 60), Tick(59 * SECOND)];
    var s0 := State(0, map[], map[]);
    var s1 := Next(s0, ops[0]);
    assert s1.rows == map[0 := Entry(key, 0, payload, 60 * SECOND, None)];
    var s2 := Next(s1, ops[1]);
    assert ActiveRow(s2.rows, key) == Some(0);
    var s3 := Next(s2, ops[2]);
    var s4 := Next(s3, ops[3]);
    assert ops[1..] == [ops[1], ops[2], ops[3]] && ops[1..][1..] == [ops[2], ops[3]];
    assert ops[1..][1..][1..] == [ops[3]] && ops[1..][1..][1..][1..] == [];
    assert Legal(s3, [ops[3]]) && After(s3, [ops[3]]) == s4;
    assert Legal(s2, [ops[2], ops[3]]) && After(s2, [ops[2], ops[3]]) == s4;
    assert Legal(s1, ops[1..]) && After(s1, ops[1..]) == s4;
  }

  datatype Reply = InvalidScope | Preview(count: nat) | CountChanged(count: nat) | Invalidated(count: nat)

  // --- in place --------------------------------------------------------------------------

  class CacheService {
    var rows: Rows
    var redis: Redis

    constructor ()
      ensures rows == map[] && redis == map[]
    {
      rows := map[];
      redis := map[];
    }

    ghost function View(now: Time): State
      reads this
    {
      State(now, rows, redis)
    }

    method ExactSet(key: Key, payload: Payload, now: Time, ttl: int)
      modifies this`redis
      ensures redis == old(redis)[key := Cell(payload, now + ttl * SECOND)]
    {
      redis := redis[key := Cell(payload, now + ttl * SECOND)];
    }

    // Returns the row that now holds the response: the live one if there is one, else a new one.
    method StoreEntry(id: RowId, key: Key, model: nat, payload: Payload, now: Time, ttl: nat) returns (entry: RowId)
      requires OneActivePerKey(View(now)) && id !in rows && ttl >= MINIMUM_TTL
      modifies this
      ensures View(now) == Stored(old(View(now)), id, key, model, payload, ttl)
      ensures OneActivePerKey(View(now)) && AgreesOn(View(now), key)
      ensures forall other :: old(AgreesOn(View(now), other)) ==> AgreesOn(View(now), other)
      ensures ActiveRow(rows, key) == Some(entry) && rows[entry].expiresAt > now
      ensures ExactGet(View(now), key) == Some(rows[entry].payload)
    {
      ghost var op := Store(id, key, model, payload, ttl);
      forall other ensures AgreesOn(View(now), other) ==> AgreesOn(Next(View(now), op), other) {
        StepKeeps(View(now), op, other);
      }
      StoreKeepsOne(View(now), id, key, model, payload, ttl);
      StoreAgrees(View(now), id, key, model, payload, ttl);
      StoreAnswers(View(now), id, key, model, payload, ttl);
      if existing :| existing in rows && rows[existing].key == key && rows[existing].Active() {
        OnlyActiveRow(View(now), key, existing);
        hide OneActivePerKey, AgreesOn, ExactGet, ActiveRow;
        if rows[existing].expiresAt > now {
          ExactSet(key, rows[existing].payload, now, RemainingTtl(rows[existing].expiresAt, now));
          return existing;
        }
        rows := rows[existing := Withdraw(rows[existing], now)];
      }
      hide OneActivePerKey, AgreesOn, ExactGet, ActiveRow;
      rows := rows[id := Entry(key, model, payload, now + ttl * SECOND, None)];
      ExactSet(key, payload, now, ttl);
      entry := id;
    }

    method InvalidateEach(ids: set<RowId>, now: Time)
      requires ids <= rows.Keys
      modifies this
      ensures View(now) == InvalidatedAll(old(View(now)), ids)
      ensures rows.Keys == old(rows).Keys
      ensures forall i :: i in rows ==>
                rows[i] == if i in ids then old(rows)[i].(invalidatedAt := Some(now)) else old(rows)[i]
    {
      var left := ids;
      var keys: set<Key> := {};
      while left != {}
        invariant left <= ids
        invariant redis == old(redis)
        invariant keys == Keys(old(rows), ids - left)
        invariant rows.Keys == old(rows).Keys
        invariant forall i :: i in rows ==>
                    rows[i] == if i in ids && i !in left then Withdraw(old(rows)[i], now) else old(rows)[i]
        decreases left
      {
        var i :| i in left;
        rows := rows[i := Withdraw(rows[i], now)];
        keys := keys + {rows[i].key};
        left := left - {i};
        assert ids - left == (ids - left - {i}) + {i};
      }
      redis := redis - keys;
      assert ids - {} == ids;
      assert rows == InvalidatedAll(old(View(now)), ids).rows;
    }

    // Without a scope the request is refused, without a confirmation it is a preview, and with another
    // count than the preview's it is refused again.
    method InvalidateCache(scope: Option<Scope>, confirm: bool, expected: Option<int>, now: Time)
      returns (reply: Reply)
      modifies this
      ensures reply.Invalidated? <==>
                scope.Some? && confirm && expected in {None, Some(|Matching(old(rows), scope.value)|)}
      ensures reply.InvalidScope? <==> scope.None?
      ensures reply.Preview? <==> scope.Some? && !confirm
      ensures scope.Some? ==> reply.count == |Matching(old(rows), scope.value)|
      ensures !reply.Invalidated? ==> rows == old(rows) && redis == old(redis)
      ensures reply.Invalidated? ==>
                && View(now) == InvalidatedAll(old(View(now)), Matching(old(rows), scope.value))
                && Matching(rows, scope.value) == {}
      ensures reply.Invalidated? ==>
                forall i :: i in old(rows) ==>
                  && i in rows && var was := old(rows)[i];
                  rows[i] == if was.Active() && match scope.value
                                                case All => true
                                                case OfModel(model) => was.logicalModel == model
                                                case OfEndpoints(endpoints) => was.payload.sourceEndpoint in endpoints
                             then was.(invalidatedAt := Some(now)) else was
    {
      if scope.None? {
        return InvalidScope;
      }
      var entries := Matching(rows, scope.value);
      if !confirm {
        return Preview(|entries|);
      }
      if expected.Some? && expected.value != |entries| {
        return CountChanged(|entries|);
      }
      reply := Invalidated(|entries|);
      InvalidateEach(entries, now);
    }
  }
}
