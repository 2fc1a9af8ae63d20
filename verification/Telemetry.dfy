/** Buffered telemetry of one agent process and the server that stores it.

    The process numbers its samples from 1 and posts its whole buffer, the last sixty samples not yet
    acknowledged, once per sample. A post may be lost on the way, or stored with its reply lost. */
module Telemetry {
  import opened Prelude

  datatype Sample = Sample(sequence: nat, payload: int)

  datatype Outcome = RequestLost | ReplyLost | Acknowledged

  const CAPACITY := 60

  type Readings = nat -> int
  type Table = map<nat, Sample>

  // deque(maxlen=60).append
  function Appended(buffer: seq<Sample>, sample: Sample): seq<Sample> {
    (if |buffer| >= CAPACITY then buffer[|buffer| - CAPACITY + 1..] else buffer) + [sample]
  }

  // --- the server ------------------------------------------------------------------------

  function Merged(table: Table, body: seq<Sample>): Table
    decreases |body|
  {
    if body == [] then table
    else Merged(if body[0].sequence in table then table else table[body[0].sequence := body[0]], body[1..])
  }

  // The rows a batch adds, in order.
  function Added(table: Table, body: seq<Sample>): seq<Sample>
    decreases |body|
  {
    if body == [] then []
    else if body[0].sequence in table then Added(table, body[1..])
    else [body[0]] + Added(table[body[0].sequence := body[0]], body[1..])
  }

  predicate Distinct(samples: seq<Sample>) {
    forall i, j :: 0 <= i < j < |samples| ==> samples[i].sequence != samples[j].sequence
  }

  // A sample as it is posted: with the agent it claims to come from, and whether it is labeled simulated.
  datatype Item = Item(agentId: nat, simulated: bool, sample: Sample)

  datatype Answer = Accepted(count: nat) | NotRegistered | InvalidBatch | InvalidEvidence | WrongAgent

  function Plain(body: seq<Item>): (samples: seq<Sample>)
    ensures |samples| == |body| && forall i :: 0 <= i < |body| ==> samples[i] == body[i].sample
  {
    seq(|body|, i requires 0 <= i < |body| => body[i].sample)
  }

  // The agent the batch is posted for is registered, every sample is its own, a simulator's is labeled so, and
  // the batch is of one to sixty.
  predicate Acceptable(body: seq<Item>, agentId: nat, registered: Option<bool>) {
    && registered.Some? && 1 <= |body| <= 60
    && forall i :: 0 <= i < |body| ==> body[i].agentId == agentId && (registered == Some(true) ==> body[i].simulated)
  }

  // What one agent has stored on the server. registered: whether it is a simulator, once it has registered.
  class TelemetryServer {
    const agentId: nat
    var registered: Option<bool>
    var table: Table

    constructor (agentId: nat, registered: Option<bool>, table: Table)
      ensures this.agentId == agentId && this.registered == registered && this.table == table
    {
      this.agentId, this.registered, this.table := agentId, registered, table;
    }

    // The answer without its count, checks in their order.
    function Verdict(body: seq<Item>): Answer
      reads this
    {
      if registered.None? then NotRegistered
      else if !(1 <= |body| <= CAPACITY) then InvalidBatch
      else if registered.value && exists i :: 0 <= i < |body| && !body[i].simulated then InvalidEvidence
      else if exists i :: 0 <= i < |body| && body[i].agentId != agentId then WrongAgent
      else Accepted(|Added(table, Plain(body))|)
    }

    lemma VerdictTells(body: seq<Item>)
      ensures Verdict(body).Accepted? <==> Acceptable(body, agentId, registered)
      ensures Verdict(body).NotRegistered? <==> registered.None?
      ensures Verdict(body).InvalidBatch? <==> registered.Some? && (body == [] || |body| > 60)
      ensures Verdict(body).InvalidEvidence? <==>
                && registered == Some(true) && 0 < |body| < 61
                && exists i :: 0 <= i < |body| && body[i].simulated == false
    {
      hide Added;
    }

    // A batch that passes the checks of its whole is refused exactly for a sample of another agent.
    lemma ChecksDecide(body: seq<Item>)
      requires registered.Some? && 1 <= |body| <= CAPACITY
      requires !(registered.value && exists i :: 0 <= i < |body| && !body[i].simulated)
      ensures Verdict(body) == if exists i :: 0 <= i < |body| && body[i].agentId != agentId then WrongAgent
                               else Accepted(|Added(table, Plain(body))|)
    {
    }

    // Stores each sample whose number is not stored yet, or refuses the batch and stores none of it.
    method Receive(body: seq<Item>) returns (answer: Answer)
      modifies this`table
      ensures answer == old(Verdict(body))
      ensures table == if answer.Accepted? then Merged(old(table), Plain(body)) else old(table)
      ensures answer.Accepted? <==> Acceptable(body, agentId, registered)
      ensures answer.NotRegistered? <==> registered.None?
      ensures answer.InvalidBatch? <==> registered.Some? && (body == [] || |body| > 60)
      ensures answer.InvalidEvidence? <==>
                && registered == Some(true) && 0 < |body| < 61
                && exists i :: 0 <= i < |body| && body[i].simulated == false
    {
      VerdictTells(body);
      hide Acceptable;
      if registered.None? {
        return NotRegistered;
      }
      if |body| == 0 || |body| > CAPACITY {
        return InvalidBatch;
      }
      if registered.value && exists i :: 0 <= i < |body| && !body[i].simulated {
        return InvalidEvidence;
      }
      ChecksDecide(body);
      hide Verdict;
      var own, session, count := AddEach(body);
      if !own {
        return WrongAgent;
      }
      table := session;
      answer := Accepted(count);
    }

    // The loop over the batch, up to a sample of another agent. Nothing is stored before it is through.
    method AddEach(body: seq<Item>) returns (own: bool, session: Table, count: nat)
      ensures own <==> forall i :: 0 <= i < |body| ==> body[i].agentId == agentId
      ensures own ==> session == Merged(table, Plain(body)) && count == |Added(table, Plain(body))|
    {
      var samples := Plain(body);
      session, count := table, 0;
      var i := 0;
      assert samples[0..] == samples;
      while i < |body|
        invariant 0 <= i <= |body|
        invariant forall k :: 0 <= k < i ==> body[k].agentId == agentId
        invariant Merged(session, samples[i..]) == Merged(table, samples)
        invariant count + |Added(session, samples[i..])| == |Added(table, samples)|
      {
        if body[i].agentId != agentId {
          return false, session, count;
        }
        assert samples[i..][1..] == samples[i + 1..];
        if body[i].sample.sequence !in session {
          session := session[body[i].sample.sequence := body[i].sample];
          count := count + 1;
        }
        i := i + 1;
      }
      own := true;
    }
  }

  // --- the process and the server together -----------------------------------------------

  // log: every row ever inserted by this process, oldest first.
  datatype World = World(sequence: nat, buffer: seq<Sample>, table: Table, log: seq<Sample>)

  function Batch(w: World, readings: Readings): seq<Sample> {
    Appended(w.buffer, Sample(w.sequence + 1, readings(w.sequence + 1)))
  }

  function Next(w: World, readings: Readings, outcome: Outcome): World {
    var batch := Batch(w, readings);
    World(w.sequence + 1,
          if outcome.Acknowledged? then [] else batch,
          if outcome.RequestLost? then w.table else Merged(w.table, batch),
          if outcome.RequestLost? then w.log else w.log + Added(w.table, batch))
  }

  function Run(prior: Table, readings: Readings, outcomes: seq<Outcome>): World {
    if outcomes == [] then World(0, [], prior, [])
    else Next(Run(prior, readings, outcomes[..|outcomes| - 1]), readings, outcomes[|outcomes| - 1])
  }

  // Samples from + 1 to to.
  function Samples(readings: Readings, from: nat, to: nat): (r: seq<Sample>)
    requires from <= to
    ensures |r| == to - from
    ensures forall i :: 0 <= i < |r| ==> r[i] == Sample(from + 1 + i, readings(from + 1 + i))
  {
    seq(to - from, i requires 0 <= i => Sample(from + 1 + i, readings(from + 1 + i)))
  }

  // The number of the last acknowledged post.
  function LastAck(outcomes: seq<Outcome>): (n: nat)
    ensures n <= |outcomes|
    ensures n > 0 ==> outcomes[n - 1].Acknowledged?
    ensures forall i :: n <= i < |outcomes| ==> !outcomes[i].Acknowledged?
  {
    if outcomes == [] then 0
    else if outcomes[|outcomes| - 1].Acknowledged? then |outcomes|
    else LastAck(outcomes[..|outcomes| - 1])
  }

  lemma AppendedSamples(readings: Readings, from: nat, to: nat)
    requires from <= to <= from + CAPACITY
    ensures Appended(Samples(readings, from, to), Sample(to + 1, readings(to + 1)))
         == Samples(readings, Max(from, to + 1 - CAPACITY), to + 1)
  {
    var buffer := Samples(readings, from, to);
    if |buffer| >= CAPACITY {
      assert buffer[1..] == Samples(readings, from + 1, to);
    }
  }

  lemma {:induction false} BufferIsUnacknowledged(prior: Table, readings: Readings, outcomes: seq<Outcome>)
    ensures var w := Run(prior, readings, outcomes);
            var from := Max(LastAck(outcomes), |outcomes| - CAPACITY);
            w.sequence == |outcomes| && w.buffer == Samples(readings, from, |outcomes|)
    decreases |outcomes|
  {
    if outcomes != [] {
      var init := outcomes[..|outcomes| - 1];
      BufferIsUnacknowledged(prior, readings, init);
      AppendedSamples(readings, Max(LastAck(init), |init| - CAPACITY), |init|);
    }
  }

  // Every post carries between one and sixty samples: its own and the unacknowledged ones before it.
  lemma BatchIsAccepted(prior: Table, readings: Readings, outcomes: seq<Outcome>)
    ensures var batch := Batch(Run(prior, readings, outcomes), readings);
            var t := |outcomes| + 1;
            && 1 <= |batch| <= 60
            && batch == Samples(readings, Max(LastAck(outcomes), t - 60), t)
  {
    BufferIsUnacknowledged(prior, readings, outcomes);
    AppendedSamples(readings, Max(LastAck(outcomes), |outcomes| - CAPACITY), |outcomes|);
  }

  // Post q carries sample n and reaches the server.
  predicate Delivers(outcomes: seq<Outcome>, n: nat, q: nat) {
    n <= q < n + 60 && 1 <= q <= |outcomes| && !outcomes[q - 1].RequestLost?
  }

  ghost predicate Delivered(outcomes: seq<Outcome>, n: nat) {
    1 <= n && exists q :: Delivers(outcomes, n, q)
  }

  ghost predicate Carries(body: seq<Sample>, n: nat) {
    exists i :: 0 <= i < |body| && body[i].sequence == n
  }

  lemma {:induction false} MergedIsUnion(table: Table, body: seq<Sample>)
    requires Distinct(body)
    ensures var m := Merged(table, body);
            && (forall n: nat :: n in m <==> n in table || Carries(body, n))
            && (forall n: nat :: n in table ==> m[n] == table[n])
            && (forall i :: 0 <= i < |body| && body[i].sequence !in table ==> m[body[i].sequence] == body[i])
    decreases |body|
  {
    if body != [] {
      var first := if body[0].sequence in table then table else table[body[0].sequence := body[0]];
      MergedIsUnion(first, body[1..]);
      forall i | 0 <= i < |body| ensures body[i].sequence in Merged(table, body) {
        if i > 0 {
          assert body[1..][i - 1] == body[i];
        }
      }
      forall i | 0 <= i < |body| && body[i].sequence !in table
        ensures Merged(table, body)[body[i].sequence] == body[i]
      {
        if i > 0 {
          assert body[1..][i - 1] == body[i];
          assert body[i].sequence !in first;
        }
      }
    }
  }

  lemma {:induction false} AddedIsNew(table: Table, body: seq<Sample>)
    ensures Distinct(Added(table, body))
    ensures forall i :: 0 <= i < |Added(table, body)| ==>
              var s := Added(table, body)[i]; s.sequence !in table && s.sequence in Merged(table, body)
    ensures table.Keys <= Merged(table, body).Keys
    ensures forall n: nat :: n in Merged(table, body) && n !in table ==> Carries(Added(table, body), n)
    decreases |body|
  {
    if body != [] {
      var first := if body[0].sequence in table then table else table[body[0].sequence := body[0]];
      AddedIsNew(first, body[1..]);
      var rest := Added(first, body[1..]);
      forall n: nat | n in Merged(table, body) && n !in table ensures Carries(Added(table, body), n) {
        if n in first {
          assert Added(table, body)[0].sequence == n;
        } else {
          var i :| 0 <= i < |rest| && rest[i].sequence == n;
          assert body[0].sequence !in table ==> Added(table, body)[i + 1] == rest[i];
        }
      }
    }
  }

  // Exactly the numbers used before and the samples delivered are stored, the samples as they were taken.
  ghost predicate StoredAre(prior: Table, readings: Readings, outcomes: seq<Outcome>, table: Table) {
    && (forall n: nat :: n in table <==> n in prior || Delivered(outcomes, n))
    && (forall n: nat :: n in prior ==> table[n] == prior[n])
    && (forall n: nat :: n !in prior && n in table ==> table[n] == Sample(n, readings(n)))
  }

  lemma LostStores(prior: Table, readings: Readings, outcomes: seq<Outcome>, table: Table)
    requires outcomes != [] && outcomes[|outcomes| - 1].RequestLost?
    requires StoredAre(prior, readings, outcomes[..|outcomes| - 1], table)
    ensures StoredAre(prior, readings, outcomes, table)
  {
    DeliveredGrows(outcomes);
    hide Delivered, LastAck;
  }

  lemma ArrivedStores(prior: Table, readings: Readings, outcomes: seq<Outcome>, table: Table)
    requires outcomes != [] && !outcomes[|outcomes| - 1].RequestLost?
    requires StoredAre(prior, readings, outcomes[..|outcomes| - 1], table)
    ensures var from := Max(LastAck(outcomes[..|outcomes| - 1]), |outcomes| - CAPACITY);
            StoredAre(prior, readings, outcomes, Merged(table, Samples(readings, from, |outcomes|)))
  {
    var from := Max(LastAck(outcomes[..|outcomes| - 1]), |outcomes| - CAPACITY);
    DeliveredGrows(outcomes);
    MergedSamples(table, readings, from, |outcomes|);
    hide Delivered, LastAck, Merged, Samples;
  }

  // Main result, exact: a sample is stored if and only if one of the sixty posts starting with
  // its own reached the server and its number was new; and what is stored is the sample itself.
  lemma StoredIffDelivered(prior: Table, readings: Readings, outcomes: seq<Outcome>)
    ensures var table := Run(prior, readings, outcomes).table;
            && (forall n: nat :: n in table <==> n in prior || Delivered(outcomes, n))
            && (forall n: nat :: n in prior ==> table[n] == prior[n])
            && (forall n: nat :: n !in prior && n in table ==> table[n] == Sample(n, readings(n)))
  {
    assert StoredAre(prior, readings, outcomes, Run(prior, readings, outcomes).table) by {
      EverythingStored(prior, readings, outcomes);
    }
    hide Run, Delivered;
  }

  lemma {:induction false} EverythingStored(prior: Table, readings: Readings, outcomes: seq<Outcome>)
    ensures StoredAre(prior, readings, outcomes, Run(prior, readings, outcomes).table)
    decreases |outcomes|
  {
    hide Merged, Samples, LastAck, Batch, Added;
    if outcomes == [] {
      assert forall n: nat :: !Delivered([], n);
    } else {
      var init, last := outcomes[..|outcomes| - 1], outcomes[|outcomes| - 1];
      EverythingStored(prior, readings, init);
      StoreStep(prior, readings, init, last);
      assert outcomes == init + [last];
      hide *;
      var table := Run(prior, readings, init).table;
      if last.RequestLost? {
        LostStores(prior, readings, outcomes, table);
      } else {
        ArrivedStores(prior, readings, outcomes, table);
      }
    }
  }

  // What one more post does to the stored rows.
  lemma StoreStep(prior: Table, readings: Readings, init: seq<Outcome>, last: Outcome)
    ensures var t := |init| + 1;
            var table := Run(prior, readings, init).table;
            Run(prior, readings, init + [last]).table ==
              if last.RequestLost? then table
              else Merged(table, Samples(readings, Max(LastAck(init), t - CAPACITY), t))
  {
    BatchIsAccepted(prior, readings, init);
    assert (init + [last])[..|init + [last]| - 1] == init;
    hide Merged, Samples, LastAck;
  }

  lemma DeliveredGrows(outcomes: seq<Outcome>)
    requires outcomes != []
    ensures var t := |outcomes|;
            var init := outcomes[..t - 1];
            forall n: nat :: Delivered(outcomes, n) <==>
              Delivered(init, n) || (!outcomes[t - 1].RequestLost? && Max(LastAck(init), t - CAPACITY) < n <= t)
  {
    forall n: nat
      ensures Delivered(outcomes, n) <==>
                Delivered(outcomes[..|outcomes| - 1], n)
                || (!outcomes[|outcomes| - 1].RequestLost?
                    && Max(LastAck(outcomes[..|outcomes| - 1]), |outcomes| - CAPACITY) < n <= |outcomes|)
    {
      if n >= 1 {
        DeliveredStep(outcomes, n);
      }
    }
  }

  lemma MergedSamples(table: Table, readings: Readings, from: nat, to: nat)
    requires from <= to
    ensures var m := Merged(table, Samples(readings, from, to));
            && (forall n: nat :: n in m <==> n in table || from < n <= to)
            && (forall n: nat :: n in table ==> m[n] == table[n])
            && (forall n: nat :: n in m && n !in table ==> m[n] == Sample(n, readings(n)))
  {
    var body := Samples(readings, from, to);
    MergedIsUnion(table, body);
    SamplesCarry(readings, from, to);
    var m := Merged(table, body);
    forall n: nat | n in m && n !in table ensures m[n] == Sample(n, readings(n)) {
      assert Carries(body, n);
      assert body[n - from - 1].sequence == n;
    }
  }

  lemma SamplesCarry(readings: Readings, from: nat, to: nat)
    requires from <= to
    ensures forall n: nat :: Carries(Samples(readings, from, to), n) <==> from < n <= to
  {
    var body := Samples(readings, from, to);
    forall n: nat ensures Carries(body, n) <==> from < n <= to {
      if from < n <= to {
        assert body[n - from - 1].sequence == n;
      }
    }
  }

  lemma DeliveredStep(outcomes: seq<Outcome>, n: nat)
    requires outcomes != [] && n >= 1
    ensures var t := |outcomes|;
            var init := outcomes[..t - 1];
            Delivered(outcomes, n) <==>
              Delivered(init, n) || (!outcomes[t - 1].RequestLost? && Max(LastAck(init), t - CAPACITY) < n <= t)
  {
    var t := |outcomes|;
    var init := outcomes[..t - 1];
    if Delivered(init, n) {
      var q: nat :| Delivers(init, n, q);
      assert Delivers(outcomes, n, q);
    }
    if !outcomes[t - 1].RequestLost? && Max(LastAck(init), t - CAPACITY) < n <= t {
      assert Delivers(outcomes, n, t);
    }
    if n <= LastAck(init) < n + CAPACITY {
      assert Delivers(init, n, LastAck(init));
    }
    if Delivered(outcomes, n) {
      var q: nat :| Delivers(outcomes, n, q);
      assert q < t ==> Delivers(init, n, q);
    }
  }

  lemma CarriedOn(log: seq<Sample>, more: seq<Sample>)
    ensures forall n: nat :: Carries(log + more, n) <==> Carries(log, n) || Carries(more, n)
  {
    forall n: nat ensures Carries(log + more, n) <==> Carries(log, n) || Carries(more, n) {
      if i :| 0 <= i < |log| && log[i].sequence == n {
        assert (log + more)[i].sequence == n;
      }
      if i :| 0 <= i < |more| && more[i].sequence == n {
        assert (log + more)[|log| + i].sequence == n;
      }
    }
  }

  // No row is ever inserted twice.
  lemma {:induction false} NothingIsStoredTwice(prior: Table, readings: Readings, outcomes: seq<Outcome>)
    ensures var w := Run(prior, readings, outcomes);
            && Distinct(w.log)
            && (forall i :: 0 <= i < |w.log| ==> w.log[i].sequence !in prior && w.log[i].sequence in w.table)
            && prior.Keys <= w.table.Keys
            && (forall n: nat :: n in w.table && n !in prior ==> Carries(w.log, n))
    decreases |outcomes|
  {
    if outcomes != [] {
      var init := outcomes[..|outcomes| - 1];
      NothingIsStoredTwice(prior, readings, init);
      var before := Run(prior, readings, init);
      AddedIsNew(before.table, Batch(before, readings));
      CarriedOn(before.log, Added(before.table, Batch(before, readings)));
      hide Batch, Added, Merged, Appended, Carries;
    }
  }

  // No sixty posts in a row fail.
  ghost predicate NeverSixtyFailures(outcomes: seq<Outcome>) {
    forall i: nat :: i + 60 <= |outcomes| ==> SomeAckFrom(outcomes, i)
  }

  ghost predicate SomeAckFrom(outcomes: seq<Outcome>, i: nat)
    requires i + 60 <= |outcomes|
  {
    exists q :: i <= q < i + 60 && outcomes[q].Acknowledged?
  }

  // The promise: an acknowledged post leaves every sample generated so far stored.
  lemma AcknowledgedMeansAllStored(prior: Table, readings: Readings, outcomes: seq<Outcome>)
    requires outcomes != [] && outcomes[|outcomes| - 1].Acknowledged? && NeverSixtyFailures(outcomes)
    requires forall n: nat :: n in prior ==> n == 0
    ensures forall n: nat :: 1 <= n <= |outcomes| ==>
              n in Run(prior, readings, outcomes).table
              && Run(prior, readings, outcomes).table[n] == Sample(n, readings(n))
  {
    StoredIffDelivered(prior, readings, outcomes);
    forall n: nat | 1 <= n <= |outcomes| ensures Delivered(outcomes, n) {
      if |outcomes| < n + CAPACITY {
        assert Delivers(outcomes, n, |outcomes|);
      } else {
        assert SomeAckFrom(outcomes, n - 1);
        var q :| n - 1 <= q < n - 1 + CAPACITY && outcomes[q].Acknowledged?;
        assert Delivers(outcomes, n, q + 1);
      }
    }
  }

  // A number already used by an earlier process of the same agent is never stored again: the
  // acknowledged sample is dropped.
  lemma RestartedNumbersAreDropped(prior: Table, readings: Readings, outcomes: seq<Outcome>, n: nat)
    requires n in prior && prior[n] != Sample(n, readings(n))
    ensures n in Run(prior, readings, outcomes).table
    ensures Run(prior, readings, outcomes).table[n] != Sample(n, readings(n))
  {
    StoredIffDelivered(prior, readings, outcomes);
  }

  // --- in place --------------------------------------------------------------------------

  class TelemetryClient {
    const agentId: nat
    const simulated: bool
    var sequence: nat
    var samples: seq<Sample>

    constructor (agentId: nat, simulated: bool)
      ensures this.agentId == agentId && this.simulated == simulated && sequence == 0 && samples == []
    {
      this.agentId, this.simulated := agentId, simulated;
      sequence, samples := 0, [];
    }

    function Body(batch: seq<Sample>): (body: seq<Item>)
      ensures Plain(body) == batch && forall i :: 0 <= i < |body| ==> body[i] == Item(agentId, simulated, batch[i])
    {
      seq(|batch|, i requires 0 <= i < |batch| => Item(agentId, simulated, batch[i]))
    }

    // The server takes what the agent posts if it has registered, and not as a simulator that it is not.
    predicate Welcome(server: TelemetryServer)
      reads server
    {
      server.registered.Some? && (server.registered.value ==> simulated)
    }

    // The last sixty unacknowledged samples are posted, and forgotten once the server says it has them.
    method PostSample(reading: int, server: TelemetryServer, outcome: Outcome)
      requires |samples| <= CAPACITY && server.agentId == agentId
      modifies this, server`table
      ensures sequence == old(sequence) + 1
      ensures var batch := Appended(old(samples), Sample(sequence, reading));
              && samples == (if outcome.Acknowledged? && Welcome(server) then [] else batch)
              && server.table == if !outcome.RequestLost? && Welcome(server) then Merged(old(server.table), batch)
                                 else old(server.table)
      ensures |samples| <= CAPACITY
    {
      sequence := sequence + 1;
      samples := Appended(samples, Sample(sequence, reading));
      if !outcome.RequestLost? {
        assert |samples| > 0 ==> Body(samples)[0] == Item(agentId, simulated, samples[0]);
        var answer := server.Receive(Body(samples));
        if outcome.Acknowledged? && answer.Accepted? {
          samples := [];
        }
      }
    }
  }
}
