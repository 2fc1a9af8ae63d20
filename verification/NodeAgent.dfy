/** The node agent's control loop: versioned desired state from the server, leases on it, and the three
    rollbacks (guardrail, heat, heartbeat loss), beside a benchmark task that also changes the profile.

    Times are seconds of the loop's clock. What the host transaction answers is an input; so are the
    replies of the server and the readings of the hardware. */
module NodeAgent {
  import opened Prelude

  datatype Profile = Off | Observe | Balanced | Eco

  predicate Optimizing(p: Profile) {
    p == Balanced || p == Eco
  }

  datatype Metrics = Metrics(p95: Option<real>, errorRate: Option<real>, throughput: Option<real>)

  // --- guardrails ------------------------------------------------------------------------

  function LatencyLimit(p: Profile): real { if p == Balanced then 1.15 else 1.30 }
  function ThroughputLimit(p: Profile): real { if p == Balanced then 0.90 else 0.75 }

  // A baseline latency or throughput of zero sets no limit.
  predicate OutsideGuardrail(p: Profile, current: Metrics, baseline: Metrics) {
    || (current.p95.Some? && baseline.p95.Some? && baseline.p95.value != 0.0
        && current.p95.value > baseline.p95.value * LatencyLimit(p))
    || (current.errorRate.Some? && baseline.errorRate.Some?
        && current.errorRate.value > baseline.errorRate.value + 0.005)
    || (current.throughput.Some? && baseline.throughput.Some? && baseline.throughput.value != 0.0
        && current.throughput.value < baseline.throughput.value * ThroughputLimit(p))
  }

  // The guardrails in percent: under Balanced at most 15 percent more latency and 10 percent less throughput than
  // the baseline, under Eco at most 30 and 25, and under either half a percentage point more errors. What is not
  // measured, and a baseline of zero, limits nothing.
  lemma GuardrailsInPercent(current: Metrics, baseline: Metrics)
    requires baseline.p95.Some? ==> baseline.p95.value >= 0.0
    requires baseline.throughput.Some? ==> baseline.throughput.value >= 0.0
    ensures OutsideGuardrail(Balanced, current, baseline) <==>
              || Rises(current.p95, baseline.p95, 15.0)
              || Rises(Negated(current.throughput), Negated(baseline.throughput), 10.0)
              || MoreErrors(current, baseline)
    ensures OutsideGuardrail(Eco, current, baseline) <==>
              || Rises(current.p95, baseline.p95, 30.0)
              || Rises(Negated(current.throughput), Negated(baseline.throughput), 25.0)
              || MoreErrors(current, baseline)
    ensures OutsideGuardrail(Eco, current, baseline) ==> OutsideGuardrail(Balanced, current, baseline)
  {
  }

  // The value lies more than so many percent of the baseline's size above it.
  predicate Rises(value: Option<real>, baseline: Option<real>, percent: real) {
    && value.Some? && baseline.Some? && baseline.value != 0.0
    && var size := if baseline.value < 0.0 then -baseline.value else baseline.value;
       (value.value - baseline.value) * 100.0 > percent * size
  }

  function Negated(value: Option<real>): Option<real> {
    if value.None? then None else Some(-value.value)
  }

  predicate MoreErrors(current: Metrics, baseline: Metrics) {
    && current.errorRate.Some? && baseline.errorRate.Some?
    && (current.errorRate.value - baseline.errorRate.value) * 1000.0 > 5.0
  }

  // --- state -----------------------------------------------------------------------------

  // A benchmark task: assigned, then measuring under observe, then under its profile, then restored.
  datatype Stage = Assigned | Baseline | Optimized | Restored

  datatype Benchmark = Benchmark(profile: Profile, stage: Stage)

  datatype Agent = Agent(
    now: int,
    active: Profile,
    applied: nat,
    guardrailFailures: nat,
    lastSuccess: int,
    lastAttempt: int,
    benchmark: Option<Benchmark>)

  const LEASE := 30
  const HEARTBEAT_INTERVAL := 5
  const SAMPLE_INTERVAL := 1
  const GUARDRAIL_LIMIT := 3

  // passed is what restore or apply would answer for the profile of this reply.
  datatype Reply = Reply(
    version: nat,
    profile: Profile,
    passed: bool,
    assignment: Option<Profile>,
    current: Metrics,
    baseline: Metrics)

  datatype Action =
    | Pass(seconds: nat)
    | Heartbeat(reply: Reply)
    | HeartbeatLost
    | Sample(hot: bool)
    | BenchmarkStarts
    | BenchmarkOptimizes
    | BenchmarkRestores
    | BenchmarkEnds

  predicate Possible(a: Agent, action: Action) {
    match action
    case BenchmarkStarts => a.benchmark.Some? && a.benchmark.value.stage == Assigned
    case BenchmarkOptimizes => a.benchmark.Some? && a.benchmark.value.stage == Baseline
    case BenchmarkRestores => a.benchmark.Some? && a.benchmark.value.stage in {Baseline, Optimized}
    case BenchmarkEnds => a.benchmark.Some? && a.benchmark.value.stage in {Assigned, Restored}
    case _ => true
  }

  // The desired state is taken when no benchmark runs, its version is new and the host accepts it.
  predicate Takes(a: Agent, r: Reply) {
    a.benchmark.None? && r.version > a.applied && r.passed
  }

  function Adopted(a: Agent, r: Reply): Agent {
    var b := a.(lastSuccess := a.now, lastAttempt := a.now);
    var c := if Takes(a, r) then b.(active := r.profile, applied := r.version) else b;
    if c.benchmark.None? && r.assignment.Some?
    then c.(benchmark := Some(Benchmark(r.assignment.value, Assigned))) else c
  }

  // What the guardrail counter counts.
  predicate Bad(a: Agent, r: Reply) {
    var b := Adopted(a, r);
    b.benchmark.None? && Optimizing(b.active) && OutsideGuardrail(b.active, r.current, r.baseline)
  }

  predicate GuardrailFires(a: Agent, r: Reply) {
    Bad(a, r) && a.guardrailFailures + 1 >= GUARDRAIL_LIMIT
  }

  predicate LossRollsBack(a: Agent) {
    a.now - a.lastSuccess > LEASE && Optimizing(a.active)
  }

  function Next(a: Agent, action: Action): Agent
    requires Possible(a, action)
  {
    match action
    case Pass(seconds) => a.(now := a.now + seconds)
    case Heartbeat(r) =>
      var b := Adopted(a, r);
      if GuardrailFires(a, r) then b.(active := Observe, guardrailFailures := 0)
      else b.(guardrailFailures := if Bad(a, r) then a.guardrailFailures + 1 else 0)
    case HeartbeatLost =>
      a.(lastAttempt := a.now, active := if LossRollsBack(a) then Observe else a.active)
    case Sample(hot) => if hot then a.(active := Observe) else a
    case BenchmarkStarts => a.(active := Observe, benchmark := Some(a.benchmark.value.(stage := Baseline)))
    case BenchmarkOptimizes =>
      a.(active := a.benchmark.value.profile, benchmark := Some(a.benchmark.value.(stage := Optimized)))
    case BenchmarkRestores => a.(active := Observe, benchmark := Some(a.benchmark.value.(stage := Restored)))
    case BenchmarkEnds => a.(benchmark := None)
  }

  predicate Legal(a: Agent, actions: seq<Action>)
    decreases |actions|, 0
  {
    actions == []
    || (Legal(a, actions[..|actions| - 1])
        && Possible(After(a, actions[..|actions| - 1]), actions[|actions| - 1]))
  }

  function After(a: Agent, actions: seq<Action>): Agent
    requires Legal(a, actions)
    decreases |actions|, 1
  {
    if actions == [] then a
    else Next(After(a, actions[..|actions| - 1]), actions[|actions| - 1])
  }

  lemma {:induction false} PrefixIsLegal(a: Agent, actions: seq<Action>, i: nat)
    requires Legal(a, actions) && i <= |actions|
    ensures Legal(a, actions[..i])
    ensures i < |actions| ==> Possible(After(a, actions[..i]), actions[i])
    decreases |actions|
  {
    if i == |actions| {
      assert actions[..i] == actions;
    } else {
      var init := actions[..|actions| - 1];
      assert init[..i] == actions[..i];
      PrefixIsLegal(a, init, i);
      if i < |init| {
        assert init[i] == actions[i];
      } else {
        assert actions[..i] == init;
      }
    }
  }

  // A process starts registered: in observe, with nothing applied.
  function Registered(now: int): Agent {
    Agent(now, Observe, 0, 0, now, now, None)
  }

  // --- the guardrail counter against its reference ---------------------------------------

  // Whether each successful heartbeat of the run was bad, oldest first. Failed ones leave no trace.
  function Verdicts(a: Agent, actions: seq<Action>): seq<bool>
    requires Legal(a, actions)
    decreases |actions|
  {
    if actions == [] then []
    else
      var init, last := actions[..|actions| - 1], actions[|actions| - 1];
      if last.Heartbeat? then Verdicts(a, init) + [Bad(After(a, init), last.reply)] else Verdicts(a, init)
  }

  // How many verdicts in a row, up to the last, are bad.
  function Streak(verdicts: seq<bool>): nat {
    if verdicts == [] || !verdicts[|verdicts| - 1] then 0 else 1 + Streak(verdicts[..|verdicts| - 1])
  }

  lemma AfterUnfolds(a: Agent, init: seq<Action>, last: Action)
    requires Legal(a, init + [last])
    ensures Legal(a, init) && Possible(After(a, init), last)
    ensures After(a, init + [last]) == Next(After(a, init), last)
    ensures Verdicts(a, init + [last]) ==
            Verdicts(a, init) + if last.Heartbeat? then [Bad(After(a, init), last.reply)] else []
  {
    hide Next, Possible, Bad;
    assert (init + [last])[..|init + [last]| - 1] == init;
    assert Verdicts(a, init) + [] == Verdicts(a, init);
  }

  lemma StreakUnfolds(verdicts: seq<bool>, last: bool)
    ensures Streak(verdicts + [last]) == if last then Streak(verdicts) + 1 else 0
  {
    assert (verdicts + [last])[..|verdicts + [last]| - 1] == verdicts;
  }

  lemma CounterSteps(a: Agent, action: Action)
    requires Possible(a, action) && a.guardrailFailures < GUARDRAIL_LIMIT
    ensures Next(a, action).guardrailFailures ==
            if action.Heartbeat? then
              if Bad(a, action.reply) then (a.guardrailFailures + 1) % GUARDRAIL_LIMIT else 0
            else a.guardrailFailures
    ensures action.Heartbeat? ==>
              (GuardrailFires(a, action.reply) <==>
                 Bad(a, action.reply) && (a.guardrailFailures + 1) % GUARDRAIL_LIMIT == 0)
    ensures action.Heartbeat? && GuardrailFires(a, action.reply) ==> Next(a, action).active == Observe
  {
    hide Bad;
  }

  lemma {:induction false} CounterIsStreak(now: int, actions: seq<Action>)
    requires Legal(Registered(now), actions)
    ensures After(Registered(now), actions).guardrailFailures
         == Streak(Verdicts(Registered(now), actions)) % GUARDRAIL_LIMIT
    decreases |actions|
  {
    if actions != [] {
      var init, last := actions[..|actions| - 1], actions[|actions| - 1];
      assert actions == init + [last];
      AfterUnfolds(Registered(now), init, last);
      CounterIsStreak(now, init);
      hide Legal, After, Verdicts, Streak, Next, Possible, Bad, GuardrailFires;
      var a := After(Registered(now), init);
      CounterSteps(a, last);
      if last.Heartbeat? {
        StreakUnfolds(Verdicts(Registered(now), init), Bad(a, last.reply));
      }
    }
  }

  // Main guardrail result: the rollback fires at a successful heartbeat exactly when it completes a
  // multiple of three bad verdicts in a row.
  lemma GuardrailFiresEveryThird(now: int, actions: seq<Action>, i: nat)
    requires Legal(Registered(now), actions) && i < |actions| && actions[i].Heartbeat?
    ensures Legal(Registered(now), actions[..i]) && Legal(Registered(now), actions[..i + 1])
    ensures var a := After(Registered(now), actions[..i]);
            var streak := Streak(Verdicts(Registered(now), actions[..i + 1]));
            && (GuardrailFires(a, actions[i].reply) <==> streak > 0 && streak % 3 == 0)
            && (GuardrailFires(a, actions[i].reply) ==> After(Registered(now), actions[..i + 1]).active == Observe)
  {
    hide Legal, After, Verdicts, Streak, Next, Possible, Bad, GuardrailFires;
    PrefixIsLegal(Registered(now), actions, i);
    PrefixIsLegal(Registered(now), actions, i + 1);
    assert actions[..i + 1] == actions[..i] + [actions[i]];
    AfterUnfolds(Registered(now), actions[..i], actions[i]);
    CounterIsStreak(now, actions[..i]);
    var a := After(Registered(now), actions[..i]);
    CounterSteps(a, actions[i]);
    StreakUnfolds(Verdicts(Registered(now), actions[..i]), Bad(a, actions[i].reply));
  }

  // --- the lease -------------------------------------------------------------------------

  ghost predicate Leased(a: Agent) {
    && a.lastSuccess <= a.lastAttempt <= a.now
    && (Optimizing(a.active) && !(a.benchmark.Some? && a.benchmark.value.stage == Optimized) ==>
          a.lastAttempt - a.lastSuccess <= LEASE)
    && (a.benchmark.Some? && a.benchmark.value.stage in {Baseline, Restored} ==> a.active == Observe)
  }

  lemma {:induction false} LeaseHolds(now: int, actions: seq<Action>)
    requires Legal(Registered(now), actions)
    ensures Leased(After(Registered(now), actions))
    decreases |actions|
  {
    if actions != [] {
      LeaseHolds(now, actions[..|actions| - 1]);
    }
  }

  // Main lease result: unless a benchmark holds its own profile, an optimizing profile right after a
  // heartbeat attempt has a success at most 30 s old, and at any later moment before the next attempt
  // is due one less than 35 s old.
  lemma OptimizingNeedsALease(now: int, actions: seq<Action>)
    requires Legal(Registered(now), actions)
    ensures var a := After(Registered(now), actions);
            Optimizing(a.active) && !(a.benchmark.Some? && a.benchmark.value.stage == Optimized) ==>
              && a.lastAttempt - a.lastSuccess <= 30
              && (a.now < a.lastAttempt + HEARTBEAT_INTERVAL ==> a.now - a.lastSuccess < 35)
  {
    LeaseHolds(now, actions);
  }

  // The other half: contact lost for more than 30 seconds takes an optimizing agent down at the next attempt, a
  // benchmark's profile too, and an attempt that fails earlier changes no profile.
  lemma LossTakesDownExactlyWhen(a: Agent)
    ensures var b := Next(a, HeartbeatLost);
            && b == a.(active := b.active, lastAttempt := a.now)
            && (a.now <= a.lastSuccess + 30 ==> b.active == a.active)
            && (a.now > a.lastSuccess + 30 ==> b.active in {Off, Observe})
            && (a.active in {Off, Observe} ==> b.active == a.active)
  {
  }

  // How much time passes along a run.
  function Elapsed(actions: seq<Action>): nat {
    if actions == [] then 0
    else
      var last := actions[|actions| - 1];
      Elapsed(actions[..|actions| - 1]) + (if last.Pass? then last.seconds else 0)
  }

  lemma {:induction false} TimePasses(a: Agent, actions: seq<Action>)
    requires Legal(a, actions)
    ensures After(a, actions).now == a.now + Elapsed(actions)
    decreases |actions|
  {
    if actions != [] {
      TimePasses(a, actions[..|actions| - 1]);
    }
  }

  // A silence that goes on for more than 30 seconds after the last success and ends with an attempt takes the
  // agent down.
  lemma {:induction false} SilenceTakesDown(a: Agent, actions: seq<Action>)
    requires Legal(a, actions) && actions != [] && actions[|actions| - 1].HeartbeatLost?
    requires forall k :: 0 <= k < |actions| ==> actions[k].Pass? || actions[k].HeartbeatLost? || actions[k].Sample?
    requires a.now + Elapsed(actions) > a.lastSuccess + 30
    ensures !Optimizing(After(a, actions).active)
  {
    var init := actions[..|actions| - 1];
    TimePasses(a, init);
    SilenceKeepsTheSuccess(a, init);
    LossTakesDownExactlyWhen(After(a, init));
  }

  lemma {:induction false} SilenceKeepsTheSuccess(a: Agent, actions: seq<Action>)
    requires Legal(a, actions) && forall k :: 0 <= k < |actions| ==> !actions[k].Heartbeat?
    ensures After(a, actions).lastSuccess == a.lastSuccess
    decreases |actions|
  {
    if actions != [] {
      SilenceKeepsTheSuccess(a, actions[..|actions| - 1]);
    }
  }

  // --- versions --------------------------------------------------------------------------

  // The last desired state the host accepted along a run: it came while no benchmark ran, was newer than what
  // was accepted before, and passed.
  function LastAccepted(a: Agent, actions: seq<Action>): Option<Reply>
    requires Legal(a, actions)
    decreases |actions|
  {
    if actions == [] then None
    else
      var init, last := actions[..|actions| - 1], actions[|actions| - 1];
      var before := LastAccepted(a, init);
      if last.Heartbeat? && last.reply.passed && After(a, init).benchmark.None?
         && last.reply.version > (if before.Some? then before.value.version else a.applied)
      then Some(last.reply) else before
  }

  // Over every run the applied version is that of the last state the host accepted, and never falls.
  lemma {:induction false} AppliedVersionOnlyGrows(a: Agent, actions: seq<Action>)
    requires Legal(a, actions)
    ensures var accepted := LastAccepted(a, actions);
            After(a, actions).applied == if accepted.Some? then accepted.value.version else a.applied
    ensures After(a, actions).applied >= a.applied
    decreases |actions|
  {
    if actions != [] {
      AppliedVersionOnlyGrows(a, actions[..|actions| - 1]);
    }
  }

  // Over every run of a process an optimizing profile outside a benchmark's own phase is that of the last state
  // the host accepted.
  lemma {:induction false} OptimizesAsAccepted(now: int, actions: seq<Action>)
    requires Legal(Registered(now), actions)
    ensures var a, accepted := After(Registered(now), actions), LastAccepted(Registered(now), actions);
            && (Optimizing(a.active) && !(a.benchmark.Some? && a.benchmark.value.stage == Optimized) ==>
                  accepted.Some? && a.active == accepted.value.profile)
            && (a.benchmark.Some? && a.benchmark.value.stage in {Baseline, Restored} ==> a.active == Observe)
    decreases |actions|
  {
    if actions != [] {
      OptimizesAsAccepted(now, actions[..|actions| - 1]);
      AppliedVersionOnlyGrows(Registered(now), actions[..|actions| - 1]);
    }
  }

  // What a successful heartbeat leaves: the profile it asks for if the host accepts it, the one there was if not,
  // and observe at the third bad verdict in a row; and an assigned benchmark if none ran.
  lemma HeartbeatSetsExactly(a: Agent, r: Reply)
    ensures var b := Next(a, Heartbeat(r));
            var taken := a.benchmark.None? && r.passed && r.version > a.applied;
            var profile := if taken then r.profile else a.active;
            var bad := && a.benchmark.None? && r.assignment.None? && profile in {Balanced, Eco}
                       && OutsideGuardrail(profile, r.current, r.baseline);
            && b.lastSuccess == a.now && b.lastAttempt == a.now && b.now == a.now
            && b.applied == (if taken then r.version else a.applied)
            && b.benchmark == (match (a.benchmark, r.assignment)
                               case (None, Some(wanted)) => Some(Benchmark(wanted, Assigned))
                               case _ => a.benchmark)
            && (b.active == profile || (bad && a.guardrailFailures >= 2 && b.active == Observe))
            && (bad && a.guardrailFailures >= 2 ==> b.active == Observe && b.guardrailFailures == 0)
            && (bad && a.guardrailFailures < 2 ==> b.guardrailFailures == a.guardrailFailures + 1)
            && (!bad ==> b.guardrailFailures == 0)
  {
  }

  // A sample changes nothing but the profile, and that only when the hardware is hot; a benchmark goes through its
  // phases in order, under observe but for its own.
  lemma TheRestSetExactly(a: Agent)
    ensures Next(a, Sample(false)) == a && Next(a, Sample(true)) == a.(active := Observe)
    ensures forall p :: a.benchmark == Some(Benchmark(p, Assigned)) ==>
              && Possible(a, BenchmarkStarts)
              && Next(a, BenchmarkStarts) == a.(active := Observe, benchmark := Some(Benchmark(p, Baseline)))
    ensures forall p :: a.benchmark == Some(Benchmark(p, Baseline)) ==>
              && Possible(a, BenchmarkOptimizes) && !Possible(a, BenchmarkEnds)
              && Next(a, BenchmarkOptimizes) == a.(active := p, benchmark := Some(Benchmark(p, Optimized)))
    ensures forall p :: a.benchmark == Some(Benchmark(p, Optimized)) ==>
              && Possible(a, BenchmarkRestores) && !Possible(a, BenchmarkEnds)
              && Next(a, BenchmarkRestores) == a.(active := Observe, benchmark := Some(Benchmark(p, Restored)))
    ensures forall p :: a.benchmark == Some(Benchmark(p, Restored)) ==>
              Possible(a, BenchmarkEnds) && Next(a, BenchmarkEnds) == a.(benchmark := None)
  {
  }

  // What the host refuses is not taken: the version stays what it was and is tried again.
  lemma RefusedIsNotTaken(a: Agent, r: Reply)
    requires !r.passed
    ensures var b := Next(a, Heartbeat(r));
            b.applied == a.applied && b.active in {a.active, Observe}
  {
  }

  // --- rollbacks stick -------------------------------------------------------------------

  // No heartbeat brings a newer version or assigns a benchmark.
  predicate Quiet(applied: nat, actions: seq<Action>) {
    forall i :: 0 <= i < |actions| && actions[i].Heartbeat? ==>
      actions[i].reply.version <= applied && actions[i].reply.assignment.None?
  }

  ghost predicate StaysDown(a: Agent) {
    forall actions :: Legal(a, actions) && Quiet(a.applied, actions) ==> !Optimizing(After(a, actions).active)
  }

  // A benchmark already running has yet to raise its profile.
  predicate BenchmarkMayRaise(a: Agent) {
    a.benchmark.Some? && a.benchmark.value.stage in {Assigned, Baseline} && Optimizing(a.benchmark.value.profile)
  }

  lemma {:induction false} QuietRunStaysDown(a: Agent, actions: seq<Action>)
    requires !Optimizing(a.active) && !BenchmarkMayRaise(a)
    requires Legal(a, actions) && Quiet(a.applied, actions)
    ensures var b := After(a, actions);
            !Optimizing(b.active) && !BenchmarkMayRaise(b) && b.applied == a.applied
    decreases |actions|
  {
    if actions != [] {
      var init := actions[..|actions| - 1];
      assert forall i :: 0 <= i < |init| ==> init[i] == actions[i];
      QuietRunStaysDown(a, init);
    }
  }

  lemma RunsOn(a: Agent, init: seq<Action>, last: Action)
    requires Legal(a, init) && Possible(After(a, init), last)
    ensures Legal(a, init + [last]) && After(a, init + [last]) == Next(After(a, init), last)
  {
    hide Next, Possible;
    assert (init + [last])[..|init + [last]| - 1] == init;
  }

  lemma RaisedAgain(a: Agent)
    requires BenchmarkMayRaise(a)
    ensures exists actions :: Legal(a, actions) && Quiet(a.applied, actions) && Optimizing(After(a, actions).active)
  {
    var start: seq<Action> := [];
    assert Legal(a, start) && After(a, start) == a;
    if a.benchmark.value.stage == Assigned {
      RunsOn(a, [], BenchmarkStarts);
      start := [] + [BenchmarkStarts];
    }
    var b := After(a, start);
    assert b.benchmark == Some(Benchmark(a.benchmark.value.profile, Baseline));
    hide Legal, After;
    RunsOn(a, start, BenchmarkOptimizes);
    assert Quiet(a.applied, start + [BenchmarkOptimizes]);
    assert Optimizing(After(a, start + [BenchmarkOptimizes]).active);
  }

  // Main rollback result, exact: an agent that is down stays down until a newer version or a new
  // assignment arrives, if and only if no benchmark already running has yet to raise its profile.
  lemma RollbackSticks(a: Agent)
    requires !Optimizing(a.active)
    ensures StaysDown(a) <==> !BenchmarkMayRaise(a)
  {
    if BenchmarkMayRaise(a) {
      RaisedAgain(a);
    } else {
      forall actions | Legal(a, actions) && Quiet(a.applied, actions)
        ensures !Optimizing(After(a, actions).active)
      {
        QuietRunStaysDown(a, actions);
      }
    }
  }

  // The guardrail rollback always sticks. A heat or heartbeat-loss rollback takes the agent down too,
  // and sticks under the condition above.
  lemma EveryRollbackTakesDown(a: Agent, action: Action)
    requires Possible(a, action)
    requires match action
             case Heartbeat(r) => GuardrailFires(a, r)
             case HeartbeatLost => LossRollsBack(a)
             case Sample(hot) => hot
             case _ => false
    ensures var b := Next(a, action);
            && b.active == Observe && b.applied >= a.applied
            && (StaysDown(b) <==> !BenchmarkMayRaise(a) || action.Heartbeat?)
  {
    RollbackSticks(Next(a, action));
  }

  // --- in place --------------------------------------------------------------------------

  class AgentProcess {
    var active: Profile
    var applied: nat
    var guardrailFailures: nat
    var lastSuccess: int
    var lastAttempt: int
    var benchmark: Option<Benchmark>
    var nextHeartbeat: int
    var nextSample: int

    constructor (now: int)
      ensures View(now) == Registered(now) && nextHeartbeat == 0 && nextSample == 0
    {
      nextSample := 0;
      active, applied, guardrailFailures := Observe, 0, 0;
      lastSuccess, lastAttempt, benchmark, nextHeartbeat := now, now, None, 0;
    }

    function View(now: int): Agent
      reads this
    {
      Agent(now, active, applied, guardrailFailures, lastSuccess, lastAttempt, benchmark)
    }

    method ReceiveHeartbeat(now: int, desired: Reply)
      modifies this
      ensures View(now) == Next(old(View(now)), Heartbeat(desired))
      ensures nextHeartbeat == old(nextHeartbeat) && nextSample == old(nextSample)
    {
      lastSuccess := now;
      lastAttempt := now;
      if benchmark.None? && desired.version > applied {
        if desired.passed {
          active := desired.profile;
          applied := desired.version;
        }
      }
      if benchmark.None? && desired.assignment.Some? {
        benchmark := Some(Benchmark(desired.assignment.value, Assigned));
      }
      if benchmark.None? && active in {Balanced, Eco} && OutsideGuardrail(active, desired.current, desired.baseline) {
        guardrailFailures := guardrailFailures + 1;
      } else {
        guardrailFailures := 0;
      }
      if guardrailFailures >= GUARDRAIL_LIMIT {
        active := Observe;
        guardrailFailures := 0;
      }
    }

    method LoseHeartbeat(now: int)
      modifies this
      ensures View(now) == Next(old(View(now)), HeartbeatLost)
      ensures nextHeartbeat == old(nextHeartbeat) && nextSample == old(nextSample)
    {
      lastAttempt := now;
      if now - lastSuccess > LEASE && active !in {Off, Observe} {
        active := Observe;
      }
    }

    // One turn of the loop: the benchmark task is dropped if it has ended, then a heartbeat is attempted and
    // a sample taken, each if it is due.
    method Turn(now: int, ended: bool, heartbeat: Option<Reply>, hot: bool)
      requires ended ==> Possible(View(now), BenchmarkEnds)
      modifies this
      ensures var start := if ended then Next(old(View(now)), BenchmarkEnds) else old(View(now));
              var beat := if now < old(nextHeartbeat) then start
                          else Next(start, if heartbeat.Some? then Heartbeat(heartbeat.value) else HeartbeatLost);
              View(now) == if now < old(nextSample) then beat else Next(beat, Sample(hot))
      ensures nextHeartbeat == if now < old(nextHeartbeat) then old(nextHeartbeat) else now + 5
      ensures nextSample == if now < old(nextSample) then old(nextSample) else now + 1
      ensures now < nextHeartbeat && now < nextSample
    {
      if ended {
        benchmark := None;
      }
      if now >= nextHeartbeat {
        if heartbeat.Some? {
          ReceiveHeartbeat(now, heartbeat.value);
        } else {
          LoseHeartbeat(now);
        }
        nextHeartbeat := now + HEARTBEAT_INTERVAL;
      }
      if now >= nextSample {
        if hot {
          active := Observe;
        }
        nextSample := now + SAMPLE_INTERVAL;
      }
    }
  }
}
