/** The desired state of a node: the handlers that write it on the server, the replies on their way, and the
    agent that adopts it.

    A handler reads the row when it begins. When it commits it writes the version it read plus one, and the
    profile if that is not the one it read, whatever others have written in between. A reply carries what
    the row was when the heartbeat's handler read it. */
module DesiredState {
  import opened Prelude
  import opened NodeAgent

  datatype Desired = Desired(version: nat, profile: Profile)

  // seen: what each open handler has read. reply: what the heartbeat under way will bring.
  // taken: what the agent adopted last.
  datatype System = System(
    server: Desired,
    seen: map<nat, Desired>,
    reply: Option<Desired>,
    agent: Agent,
    taken: Option<Desired>)

  datatype Step =
    | Opens(handler: nat)
    | Commits(handler: nat, profile: Profile)
    | Drops(handler: nat)
    | Asks
    | Delivers(passed: bool, assignment: Option<Profile>, current: Metrics, baseline: Metrics)
    | Acts(action: Action)

  predicate CanStep(s: System, step: Step) {
    match step
    case Opens(handler) => handler !in s.seen
    case Commits(handler, _) => handler in s.seen
    case Drops(handler) => handler in s.seen
    case Asks => true
    case Delivers(_, _, _, _) => s.reply.Some?
    case Acts(action) => !action.Heartbeat? && Possible(s.agent, action)
  }

  function ReplyOf(s: System, step: Step): Reply
    requires step.Delivers? && s.reply.Some?
  {
    Reply(s.reply.value.version, s.reply.value.profile, step.passed, step.assignment, step.current, step.baseline)
  }

  function Stepped(s: System, step: Step): System
    requires CanStep(s, step)
  {
    match step
    case Opens(handler) => s.(seen := s.seen[handler := s.server])
    case Commits(handler, profile) =>
      var read := s.seen[handler];
      s.(server := Desired(read.version + 1, if profile == read.profile then s.server.profile else profile),
         seen := s.seen - {handler})
    case Drops(handler) => s.(seen := s.seen - {handler})
    case Asks => s.(reply := Some(s.server))
    case Delivers(_, _, _, _) =>
      var reply := ReplyOf(s, step);
      s.(reply := None,
         agent := NodeAgent.Next(s.agent, Heartbeat(reply)),
         taken := if Takes(s.agent, reply) then s.reply else s.taken)
    case Acts(action) =>
      s.(agent := NodeAgent.Next(s.agent, action), reply := if action.HeartbeatLost? then None else s.reply)
  }

  predicate Lawful(s: System, steps: seq<Step>)
    decreases |steps|
  {
    steps == [] || (CanStep(s, steps[0]) && Lawful(Stepped(s, steps[0]), steps[1..]))
  }

  function Reached(s: System, steps: seq<Step>): System
    requires Lawful(s, steps)
    decreases |steps|
  {
    if steps == [] then s else Reached(Stepped(s, steps[0]), steps[1..])
  }

  // A node is registered at version one, in observe.
  function Start(now: int): System {
    System(Desired(1, Observe), map[], None, Registered(now), None)
  }

  // What a commit leaves: the version after the one its handler read, and the profile it asks for unless that is
  // the one it read, when another handler's stays.
  lemma CommitLeaves(s: System, handler: nat, profile: Profile)
    requires handler in s.seen
    ensures var t := Stepped(s, Commits(handler, profile));
            && t.server.version == s.seen[handler].version + 1 && handler !in t.seen
            && (profile != s.seen[handler].profile ==> t.server.profile == profile)
            && (profile == s.seen[handler].profile ==> t.server.profile == s.server.profile)
            && t.agent == s.agent && t.reply == s.reply && t.taken == s.taken
  {
  }

  // What the agent does along a run of the whole.
  function AgentActions(s: System, steps: seq<Step>): seq<Action>
    requires Lawful(s, steps)
    decreases |steps|
  {
    if steps == [] then []
    else
      var rest := AgentActions(Stepped(s, steps[0]), steps[1..]);
      match steps[0]
      case Delivers(_, _, _, _) => [Heartbeat(ReplyOf(s, steps[0]))] + rest
      case Acts(action) => [action] + rest
      case _ => rest
  }

  // Every run of the whole is a run of the agent, whatever the handlers do meanwhile.
  lemma {:induction false} AgentRunsAsAlone(s: System, steps: seq<Step>)
    requires Lawful(s, steps)
    ensures var actions := AgentActions(s, steps);
            Legal(s.agent, actions) && After(s.agent, actions) == Reached(s, steps).agent
    decreases |steps|
  {
    if steps != [] {
      AgentRunsAsAlone(Stepped(s, steps[0]), steps[1..]);
      var rest := AgentActions(Stepped(s, steps[0]), steps[1..]);
      if steps[0].Delivers? {
        RunsFrom(s.agent, Heartbeat(ReplyOf(s, steps[0])), rest);
      } else if steps[0].Acts? {
        RunsFrom(s.agent, steps[0].action, rest);
      }
    }
  }

  lemma {:induction false} RunsFrom(a: Agent, first: Action, rest: seq<Action>)
    requires Possible(a, first) && Legal(NodeAgent.Next(a, first), rest)
    ensures Legal(a, [first] + rest) && After(a, [first] + rest) == After(NodeAgent.Next(a, first), rest)
    decreases |rest|
  {
    hide NodeAgent.Next, Possible;
    if rest == [] {
      assert [first] + rest == [] + [first];
      assert Legal(a, []) && After(a, []) == a;
      RunsOn(a, [], first);
    } else {
      var init, last := rest[..|rest| - 1], rest[|rest| - 1];
      RunsFrom(a, first, init);
      assert [first] + rest == ([first] + init) + [last];
      RunsOn(a, [first] + init, last);
    }
  }

  // A reply arrives at most once, and not at all after its heartbeat was given up.
  lemma RepliesArriveOnce(s: System, step: Step)
    requires CanStep(s, step)
    ensures step.Delivers? || step == Acts(HeartbeatLost) ==> Stepped(s, step).reply.None?
    ensures !step.Delivers? && step != Acts(HeartbeatLost) && step != Asks ==> Stepped(s, step).reply == s.reply
  {
  }

  // --- when handlers do not overlap ------------------------------------------------------

  // A handler commits while the row is still what it read.
  predicate InTurn(s: System, step: Step) {
    step.Commits? ==> step.handler in s.seen && s.seen[step.handler] == s.server
  }

  predicate Orderly(s: System, steps: seq<Step>)
    requires Lawful(s, steps)
    decreases |steps|
  {
    steps == [] || (InTurn(s, steps[0]) && Orderly(Stepped(s, steps[0]), steps[1..]))
  }

  // One version, one profile: no two of these disagree on what a version asks for.
  predicate Agree(d: Option<Desired>, e: Option<Desired>) {
    d.Some? && e.Some? && d.value.version == e.value.version ==> d == e
  }

  predicate Known(s: System, d: Option<Desired>) {
    (d.Some? ==> d.value.version <= s.server.version) && Agree(d, Some(s.server))
  }

  predicate Consistent(s: System) {
    && s.agent.applied == (if s.taken.Some? then s.taken.value.version else 0)
    && Known(s, s.taken) && Known(s, s.reply) && Agree(s.taken, s.reply)
  }

  lemma StepStaysConsistent(s: System, step: Step)
    requires Consistent(s) && CanStep(s, step) && InTurn(s, step)
    ensures Consistent(Stepped(s, step))
    ensures s.server.version <= Stepped(s, step).server.version
    ensures s.agent.applied <= Stepped(s, step).agent.applied
  {
  }

  // Main result: over every run in which handlers commit in turn the version never falls, the agent never
  // runs ahead of it, and no two places disagree on what a version asks for.
  lemma {:induction false} VersionsOnlyGrow(s: System, steps: seq<Step>)
    requires Consistent(s) && Lawful(s, steps) && Orderly(s, steps)
    ensures Consistent(Reached(s, steps))
    ensures s.server.version <= Reached(s, steps).server.version
    ensures s.agent.applied <= Reached(s, steps).agent.applied <= Reached(s, steps).server.version
    decreases |steps|
  {
    if steps != [] {
      StepStaysConsistent(s, steps[0]);
      hide Consistent, Stepped, CanStep, InTurn;
      VersionsOnlyGrow(Stepped(s, steps[0]), steps[1..]);
    }
  }

  // --- what the agent misses -------------------------------------------------------------

  // The agent has taken this version or a later one with another profile than the server asks for.
  predicate Missed(s: System) {
    s.taken.Some? && s.server.version <= s.taken.value.version && s.server.profile != s.taken.value.profile
  }

  lemma NothingIsMissed(now: int, steps: seq<Step>)
    requires Lawful(Start(now), steps) && Orderly(Start(now), steps)
    ensures !Missed(Reached(Start(now), steps))
  {
    VersionsOnlyGrow(Start(now), steps);
  }

  // A heartbeat that is answered without a commit in between, and whose profile the host accepts, leaves the
  // agent with what the server asks for exactly when that is newer than what it has taken, or the same.
  lemma HeartbeatCatchesUpExactlyWhen(s: System, step: Step)
    requires s.agent.applied == (if s.taken.Some? then s.taken.value.version else 0)
    requires step.Delivers? && step.passed && s.agent.benchmark.None?
    ensures Stepped(Stepped(s, Asks), step).taken == Some(s.server) <==>
            s.agent.applied < s.server.version || s.taken == Some(s.server)
  {
  }

  // So a commit reaches the agent exactly when its handler read no less than the agent has applied, or it
  // asks for just what the agent has.
  lemma CommitReachesExactlyWhen(s: System, handler: nat, profile: Profile, step: Step)
    requires s.agent.applied == (if s.taken.Some? then s.taken.value.version else 0)
    requires handler in s.seen && step.Delivers? && step.passed && s.agent.benchmark.None?
    ensures var t := Stepped(s, Commits(handler, profile));
            Stepped(Stepped(t, Asks), step).taken == Some(t.server) <==>
              s.agent.applied <= s.seen[handler].version || s.taken == Some(t.server)
  {
    HeartbeatCatchesUpExactlyWhen(Stepped(s, Commits(handler, profile)), step);
  }

  // What is missed is missed until another commit, whatever the agent and the network do.
  lemma {:induction false} MissedForGood(s: System, steps: seq<Step>)
    requires Missed(s) && s.agent.applied == s.taken.value.version
    requires s.reply.Some? ==> s.reply.value.version <= s.agent.applied
    requires Lawful(s, steps) && forall i :: 0 <= i < |steps| ==> !steps[i].Commits?
    ensures Missed(Reached(s, steps)) && Reached(s, steps).taken == s.taken
    decreases |steps|
  {
    if steps != [] {
      assert !steps[0].Commits?;
      MissedForGood(Stepped(s, steps[0]), steps[1..]);
    }
  }

  lemma Onward(s: System, step: Step, rest: seq<Step>)
    requires CanStep(s, step) && Lawful(Stepped(s, step), rest)
    ensures Lawful(s, [step] + rest) && Reached(s, [step] + rest) == Reached(Stepped(s, step), rest)
  {
    assert ([step] + rest)[1..] == rest;
  }

  // Two handlers read the same version; the agent adopts what the first commits before the second does, and
  // goes on optimizing although the server asks it to observe.
  lemma OverlappingHandlersCanBeMissed(now: int) returns (steps: seq<Step>)
    ensures Lawful(Start(now), steps)
    ensures var s := Reached(Start(now), steps);
            && Missed(s) && s.agent.applied == s.server.version
            && s.server.profile == Observe && s.agent.active == Balanced
  {
    var quiet := Metrics(None, None, None);
    var delivery := Delivers(true, None, quiet, quiet);
    var s1 := Stepped(Stepped(Start(now), Opens(0)), Commits(0, Eco));
    assert s1 == Start(now).(server := Desired(2, Eco));
    var s2 := Stepped(Stepped(s1, Opens(1)), Opens(2));
    var s3 := Stepped(Stepped(s2, Commits(1, Balanced)), Asks);
    var s4 := Stepped(s3, delivery);
    var s5 := Stepped(s4, Commits(2, Observe));
    assert Reached(s5, []) == s5;
    Onward(s4, Commits(2, Observe), []);
    steps := [Commits(2, Observe)] + [];
    Onward(s3, delivery, steps);
    steps := [delivery] + steps;
    Onward(Stepped(s2, Commits(1, Balanced)), Asks, steps);
    steps := [Asks] + steps;
    Onward(s2, Commits(1, Balanced), steps);
    steps := [Commits(1, Balanced)] + steps;
    Onward(Stepped(s1, Opens(1)), Opens(2), steps);
    steps := [Opens(2)] + steps;
    Onward(s1, Opens(1), steps);
    steps := [Opens(1)] + steps;
    Onward(Stepped(Start(now), Opens(0)), Commits(0, Eco), steps);
    steps := [Commits(0, Eco)] + steps;
    Onward(Start(now), Opens(0), steps);
    steps := [Opens(0)] + steps;
  }
}
