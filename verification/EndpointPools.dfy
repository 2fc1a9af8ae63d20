/** Physical endpoints, routing policies and the logical models that pool endpoints under a policy:
    every handler that writes them, and what the gateway can rely on when it loads a model. */
module EndpointPools {
  import opened Prelude

  type Id = nat

  datatype Endpoint = Endpoint(name: string, frontier: bool, enabled: bool, deleted: bool)

  // A model's pool rows in priority order, and the columns that refer to endpoints.
  datatype Logical = Logical(
    pool: seq<Id>, baseline: Id, impactBaseline: Option<Id>, fallback: Id, policy: Id, enabled: bool)

  // Models are keyed by their alias, which is unique; a policy is its allowlist, empty for no limit.
  datatype State = State(endpoints: map<Id, Endpoint>, models: map<string, Logical>, policies: map<Id, set<Id>>)

  datatype Outcome = Ok | NotFound | Conflict | InvalidPool | UnknownEndpoint | InvalidFallback | InvalidPolicyPool
                   | Unavailable | InvalidAlias | PolicyRequired | ConfirmationRequired | Unconfigured

  predicate Live(s: State, id: Id) {
    id in s.endpoints && !s.endpoints[id].deleted
  }

  predicate Unique(pool: seq<Id>) {
    forall i, j :: 0 <= i < j < |pool| ==> pool[i] != pool[j]
  }

  predicate PoolIsLive(s: State, pool: seq<Id>) {
    forall i :: 0 <= i < |pool| ==> Live(s, pool[i])
  }

  // The checks shared by every handler that settles a model's references, in their order.
  function Validate(s: State, pool: seq<Id>, baseline: Id, fallback: Id, policy: Id, impact: Option<Id>): Outcome {
    if pool == [] || !Unique(pool) then InvalidPool
    else if !PoolIsLive(s, pool) then UnknownEndpoint
    else if baseline !in pool || fallback !in pool then InvalidPool
    else if fallback !in s.endpoints then UnknownEndpoint
    else if (!s.endpoints[fallback].frontier && !(|pool| == 1 && fallback == baseline))
            || !s.endpoints[fallback].enabled then InvalidFallback
    else if impact.Some? && !Live(s, impact.value) then UnknownEndpoint
    else if policy !in s.policies then NotFound
    else if s.policies[policy] != {} && !(baseline in s.policies[policy] && fallback in s.policies[policy]) then
      InvalidPolicyPool
    else Ok
  }

  // --- The handlers, as functions of the tables ------------------------------------------

  predicate Refers(m: Logical, id: Id) {
    m.baseline == id || m.impactBaseline == Some(id) || m.fallback == id || id in m.pool
  }

  predicate InUse(s: State, id: Id) {
    exists alias :: alias in s.models && Refers(s.models[alias], id)
  }

  function EndpointDeleted(s: State, id: Id): (Outcome, State) {
    if !Live(s, id) then (NotFound, s)
    else if InUse(s, id) then (Conflict, s)
    else (Ok, s.(endpoints := s.endpoints[id := s.endpoints[id].(deleted := true, enabled := false)]))
  }

  // An edit may disable an endpoint or lower its tier, whoever refers to it.
  function EndpointEdited(s: State, id: Id, name: string, frontier: bool, enabled: bool): (Outcome, State) {
    if !Live(s, id) then (NotFound, s)
    else (Ok, s.(endpoints := s.endpoints[id := Endpoint(name, frontier, enabled, false)]))
  }

  function OrElse(choice: Option<Id>, default: Id): Id {
    if choice.Some? then choice.value else default
  }

  const MAX_ALIAS := 120

  // alias: the requested one without the white space around it.
  function ModelCreated(s: State, alias: string, pool: seq<Id>, baseline: Option<Id>, impact: Option<Id>,
                        fallback: Option<Id>, policy: Option<Id>, enabled: bool): (Outcome, State) {
    if !(1 <= |alias| <= MAX_ALIAS) then (InvalidAlias, s)
    else if alias in s.models then (Conflict, s)
    else if pool == [] then (InvalidPool, s)
    else if policy.None? then (PolicyRequired, s)
    else
      var base := OrElse(baseline, pool[0]);
      var compare := OrElse(impact, base);
      var fall := OrElse(fallback, base);
      var outcome := Validate(s, pool, base, fall, policy.value, Some(compare));
      if outcome != Ok then (outcome, s)
      else (Ok, s.(models := s.models[alias := Logical(pool, base, Some(compare), fall, policy.value, enabled)]))
  }

  datatype Patch = Patch(
    pool: Option<seq<Id>>, baseline: Option<Id>, impact: Option<Id>, fallback: Option<Id>, enabled: Option<bool>)

  function ModelPatched(s: State, alias: string, patch: Patch): (Outcome, State) {
    if alias !in s.models then (NotFound, s)
    else
      var m := s.models[alias];
      var pool := if patch.pool.Some? then patch.pool.value else m.pool;
      var base := OrElse(patch.baseline, m.baseline);
      var fall := OrElse(patch.fallback, m.fallback);
      var impact := if patch.impact.Some? then patch.impact else m.impactBaseline;
      if pool == [] || (patch.baseline.Some? && base !in pool) || (patch.fallback.Some? && fall !in pool) then
        (InvalidPool, s)
      else
        // A missing impact baseline is validated as the baseline the model had.
        var outcome := Validate(s, pool, base, fall, m.policy, Some(OrElse(impact, m.baseline)));
        if outcome != Ok then (outcome, s)
        else
          var enabled := if patch.enabled.Some? then patch.enabled.value else m.enabled;
          (Ok, s.(models := s.models[alias := Logical(pool, base, impact, fall, m.policy, enabled)]))
  }

  function PolicyActivated(s: State, alias: string, policy: Id): (Outcome, State) {
    if alias !in s.models || policy !in s.policies then (NotFound, s)
    else
      var m := s.models[alias];
      var outcome := Validate(s, m.pool, m.baseline, m.fallback, policy, None);
      if outcome != Ok then (outcome, s)
      else (Ok, s.(models := s.models[alias := m.(policy := policy)]))
  }

  const CLOUD_ALIAS := "support-cloud"
  const SELF_ALIAS := "support-self-hosted"
  const CLOUD_NAME := "support-cloud-freesolo"
  const LOCAL_NAME := "kernel-lab-cpu"

  // What a lookup by name may return.
  predicate Found(s: State, name: string, id: Option<Id>) {
    if id.Some? then Live(s, id.value) && s.endpoints[id.value].name == name
    else forall e :: e in s.endpoints ==> s.endpoints[e].deleted || s.endpoints[e].name != name
  }

  // A fixed route: a policy that allows one endpoint and a model that uses nothing else.
  function FixedRoute(s: State, alias: string, endpoint: Id, compare: Id, policy: Id): State {
    s.(policies := s.policies[policy := {endpoint}],
       models := s.models[alias := Logical([endpoint], endpoint, Some(compare), endpoint, policy, true)])
  }

  function WithCloud(s: State, cloud: Option<Id>, unused: Id): State {
    if cloud.Some? && cloud.value in s.endpoints then
      s.(endpoints := s.endpoints[cloud.value := s.endpoints[cloud.value].(enabled := true, frontier := false)])
    else s.(endpoints := s.endpoints[unused := Endpoint(CLOUD_NAME, false, true, false)])
  }

  // service: the settings name the hosted service.
  function Configured(s: State, confirm: bool, service: bool, cloud: Option<Id>, local: Option<Id>, healthy: bool,
                      unused: Id, cloudPolicy: Id, selfPolicy: Id): (Outcome, State) {
    if !confirm then (ConfirmationRequired, s)
    else if !service then (Unconfigured, s)
    else if local.None? || !healthy then (Unavailable, s)
    else
      var s1 := WithCloud(s, cloud, unused);
      var c := OrElse(cloud, unused);
      var s2 := FixedRoute(s1, CLOUD_ALIAS, c, c, cloudPolicy);
      (Ok, FixedRoute(s2, SELF_ALIAS, local.value, c, selfPolicy))
  }

  datatype Op =
    | CreateEndpoint(id: Id, name: string, frontier: bool, enabled: bool)
    | EditEndpoint(id: Id, name: string, frontier: bool, enabled: bool)
    | DeleteEndpoint(id: Id)
    | CreatePolicy(id: Id, allow: set<Id>)
    | CreateModel(alias: string, pool: seq<Id>, baseline: Option<Id>, impact: Option<Id>, fallback: Option<Id>,
                  policy: Option<Id>, enabled: bool)
    | PatchModel(alias: string, patch: Patch)
    | ActivatePolicy(alias: string, id: Id)
    | ConfigureHosting(confirm: bool, service: bool, cloud: Option<Id>, local: Option<Id>, healthy: bool,
                       unused: Id, cloudPolicy: Id, selfPolicy: Id)

  // The hosting is configured as asked.
  predicate Proceeds(op: Op) {
    op.ConfigureHosting? && op.confirm && op.service && op.local.Some? && op.healthy
  }

  // New rows get new ids, and lookups by name return live rows of that name.
  predicate Possible(s: State, op: Op) {
    match op
    case CreateEndpoint(id, _, _, _) => id !in s.endpoints
    case CreatePolicy(id, _) => id !in s.policies
    case ConfigureHosting(_, _, cloud, local, _, unused, cloudPolicy, selfPolicy) =>
      && Found(s, CLOUD_NAME, cloud) && Found(s, LOCAL_NAME, local) && unused !in s.endpoints
      && cloudPolicy != selfPolicy
    case _ => true
  }

  function Step(s: State, op: Op): State {
    match op
    case CreateEndpoint(id, name, frontier, enabled) =>
      s.(endpoints := s.endpoints[id := Endpoint(name, frontier, enabled, false)])
    case EditEndpoint(id, name, frontier, enabled) => EndpointEdited(s, id, name, frontier, enabled).1
    case DeleteEndpoint(id) => EndpointDeleted(s, id).1
    case CreatePolicy(id, allow) => s.(policies := s.policies[id := allow])
    case CreateModel(alias, pool, baseline, impact, fallback, policy, enabled) =>
      ModelCreated(s, alias, pool, baseline, impact, fallback, policy, enabled).1
    case PatchModel(alias, patch) => ModelPatched(s, alias, patch).1
    case ActivatePolicy(alias, policy) => PolicyActivated(s, alias, policy).1
    case ConfigureHosting(confirm, service, cloud, local, healthy, unused, cloudPolicy, selfPolicy) =>
      Configured(s, confirm, service, cloud, local, healthy, unused, cloudPolicy, selfPolicy).1
  }

  predicate PossibleRun(s: State, ops: seq<Op>)
    decreases |ops|
  {
    ops == [] || (Possible(s, ops[0]) && PossibleRun(Step(s, ops[0]), ops[1..]))
  }

  function Run(s: State, ops: seq<Op>): State
    decreases |ops|
  {
    if ops == [] then s else Run(Step(s, ops[0]), ops[1..])
  }

  // --- Referential integrity -------------------------------------------------------------

  predicate PoolSound(s: State, m: Logical) {
    && m.pool != [] && Unique(m.pool) && PoolIsLive(s, m.pool)
    && m.baseline in m.pool && m.fallback in m.pool
    && (m.impactBaseline.Some? ==> Live(s, m.impactBaseline.value))
  }

  predicate Inv(s: State) {
    forall alias :: alias in s.models ==> PoolSound(s, s.models[alias])
  }

  lemma ValidatedPoolIsSound(s: State, m: Logical, policy: Id, impact: Option<Id>)
    requires Validate(s, m.pool, m.baseline, m.fallback, policy, impact) == Ok
    requires m.impactBaseline.Some? ==> impact == m.impactBaseline || Live(s, m.impactBaseline.value)
    ensures PoolSound(s, m)
  {
  }

  // Endpoints that stay live keep every pool sound.
  lemma SoundWhileLive(s: State, t: State)
    requires Inv(s) && t.models == s.models
    requires forall id :: Live(s, id) && InUse(s, id) ==> Live(t, id)
    ensures Inv(t)
  {
    forall alias | alias in t.models ensures PoolSound(t, t.models[alias]) {
      var m := s.models[alias];
      assert PoolSound(s, m);
      forall i | 0 <= i < |m.pool| ensures Live(t, m.pool[i]) {
        assert Refers(m, m.pool[i]);
      }
      if m.impactBaseline.Some? {
        assert Refers(m, m.impactBaseline.value);
      }
    }
  }

  lemma ReplacedModel(s: State, alias: string, m: Logical)
    requires Inv(s) && PoolSound(s, m)
    ensures Inv(s.(models := s.models[alias := m]))
  {
    var t := s.(models := s.models[alias := m]);
    forall a | a in t.models ensures PoolSound(t, t.models[a]) {
      assert a != alias ==> PoolSound(s, s.models[a]);
    }
  }

  lemma PatchKeepsInv(s: State, alias: string, patch: Patch)
    requires Inv(s)
    ensures Inv(ModelPatched(s, alias, patch).1)
  {
    var (outcome, t) := ModelPatched(s, alias, patch);
    if outcome == Ok {
      var m := t.models[alias];
      assert PoolSound(s, s.models[alias]);
      ValidatedPoolIsSound(s, m, m.policy, Some(OrElse(m.impactBaseline, s.models[alias].baseline)));
      ReplacedModel(s, alias, m);
    }
  }

  lemma CreateKeepsInv(s: State, alias: string, pool: seq<Id>, baseline: Option<Id>, impact: Option<Id>,
                       fallback: Option<Id>, policy: Option<Id>, enabled: bool)
    requires Inv(s)
    ensures Inv(ModelCreated(s, alias, pool, baseline, impact, fallback, policy, enabled).1)
  {
    var (outcome, t) := ModelCreated(s, alias, pool, baseline, impact, fallback, policy, enabled);
    if outcome == Ok {
      ValidatedPoolIsSound(s, t.models[alias], policy.value, t.models[alias].impactBaseline);
      ReplacedModel(s, alias, t.models[alias]);
    }
  }

  lemma ActivateKeepsInv(s: State, alias: string, policy: Id)
    requires Inv(s)
    ensures Inv(PolicyActivated(s, alias, policy).1)
  {
    if PolicyActivated(s, alias, policy).0 == Ok {
      assert PoolSound(s, s.models[alias]);
      ReplacedModel(s, alias, s.models[alias].(policy := policy));
    }
  }

  lemma FixedRouteKeepsInv(s: State, alias: string, endpoint: Id, compare: Id, policy: Id)
    requires Inv(s) && Live(s, endpoint) && Live(s, compare)
    ensures Inv(FixedRoute(s, alias, endpoint, compare, policy))
  {
    var t := s.(policies := s.policies[policy := {endpoint}]);
    SoundWhileLive(s, t);
    ReplacedModel(t, alias, Logical([endpoint], endpoint, Some(compare), endpoint, policy, true));
  }

  lemma CloudIsLive(s: State, cloud: Option<Id>, unused: Id)
    requires Inv(s) && (cloud.Some? ==> Live(s, cloud.value)) && unused !in s.endpoints
    ensures var t := WithCloud(s, cloud, unused);
            Inv(t) && Live(t, OrElse(cloud, unused)) && forall id :: Live(s, id) ==> Live(t, id)
  {
    SoundWhileLive(s, WithCloud(s, cloud, unused));
  }

  lemma ConfigureKeepsInv(s: State, op: Op)
    requires Inv(s) && op.ConfigureHosting? && Possible(s, op)
    ensures Inv(Step(s, op))
  {
    if Proceeds(op) {
      var s1 := WithCloud(s, op.cloud, op.unused);
      var c := OrElse(op.cloud, op.unused);
      CloudIsLive(s, op.cloud, op.unused);
      FixedRouteKeepsInv(s1, CLOUD_ALIAS, c, c, op.cloudPolicy);
      FixedRouteKeepsInv(FixedRoute(s1, CLOUD_ALIAS, c, c, op.cloudPolicy),
                         SELF_ALIAS, op.local.value, c, op.selfPolicy);
    }
  }

  // The steps that write endpoints or policies only.
  lemma RowsKeepInv(s: State, op: Op)
    requires Inv(s) && Possible(s, op)
    requires op.CreateEndpoint? || op.EditEndpoint? || op.DeleteEndpoint? || op.CreatePolicy?
    ensures Inv(Step(s, op))
  {
    hide Inv;
    SoundWhileLive(s, Step(s, op));
  }

  lemma StepKeepsInv(s: State, op: Op)
    requires Inv(s) && Possible(s, op)
    ensures Inv(Step(s, op))
  {
    hide Inv;
    match op
    case CreateModel(alias, pool, baseline, impact, fallback, policy, enabled) =>
      CreateKeepsInv(s, alias, pool, baseline, impact, fallback, policy, enabled);
    case PatchModel(alias, patch) => PatchKeepsInv(s, alias, patch);
    case ActivatePolicy(alias, policy) => ActivateKeepsInv(s, alias, policy);
    case ConfigureHosting(_, _, _, _, _, _, _, _) => ConfigureKeepsInv(s, op);
    case _ => RowsKeepInv(s, op);
  }

  // In every run each model's pool is non-empty and duplicate-free, holds its baseline and its fallback,
  // and neither the pool nor the impact baseline refers to a deleted endpoint.
  lemma {:induction false} PoolsStaySound(s: State, ops: seq<Op>)
    requires Inv(s) && PossibleRun(s, ops)
    ensures Inv(Run(s, ops))
    decreases |ops|
  {
    if ops != [] {
      StepKeepsInv(s, ops[0]);
      PoolsStaySound(Step(s, ops[0]), ops[1..]);
    }
  }

  // --- What the gateway relies on --------------------------------------------------------

  function LiveOnly(s: State, pool: seq<Id>): (rows: seq<Id>)
    ensures forall id :: id in rows <==> id in pool && Live(s, id)
  {
    if pool == [] then []
    else (if Live(s, pool[0]) then [pool[0]] else []) + LiveOnly(s, pool[1..])
  }

  // The endpoints loaded for a request; none means the request is refused.
  function LoadContext(s: State, alias: string): Option<seq<Id>> {
    if alias !in s.models || !s.models[alias].enabled then None
    else
      var rows := LiveOnly(s, s.models[alias].pool);
      if rows == [] then None else Some(rows)
  }

  // The first loaded row with an id: the lookup that has no answer for a missing one.
  function RowOf(rows: seq<Id>, id: Id): (row: Option<Id>)
    ensures row.Some? <==> id in rows
  {
    if rows == [] then None else if rows[0] == id then Some(id) else RowOf(rows[1..], id)
  }

  lemma {:induction false} LivePoolIsKept(s: State, pool: seq<Id>)
    requires PoolIsLive(s, pool)
    ensures LiveOnly(s, pool) == pool
  {
    if pool != [] {
      assert Live(s, pool[0]);
      assert forall i :: 0 <= i < |pool[1..]| ==> pool[1..][i] == pool[i + 1];
      LivePoolIsKept(s, pool[1..]);
    }
  }

  // Whatever was done before, an enabled model loads with its whole pool, and the lookups of its baseline
  // and its fallback among the loaded rows have an answer.
  lemma LookupsSucceed(s: State, ops: seq<Op>, alias: string)
    requires Inv(s) && PossibleRun(s, ops)
    ensures var t := Run(s, ops);
            alias in t.models && t.models[alias].enabled ==>
              && LoadContext(t, alias) == Some(t.models[alias].pool)
              && RowOf(LoadContext(t, alias).value, t.models[alias].baseline).Some?
              && RowOf(LoadContext(t, alias).value, t.models[alias].fallback).Some?
              && Live(t, OrElse(t.models[alias].impactBaseline, t.models[alias].baseline))
  {
    PoolsStaySound(s, ops);
    var t := Run(s, ops);
    if alias in t.models {
      assert PoolSound(t, t.models[alias]);
      LivePoolIsKept(t, t.models[alias].pool);
    }
  }

  // A configured hosting leaves two sound singleton routes, each on its own policy's allowlist.
  lemma RoutesAreServed(s: State, op: Op)
    requires Inv(s) && Possible(s, op) && Proceeds(op)
    ensures var t := Step(s, op);
            && Inv(t) && CLOUD_ALIAS in t.models && SELF_ALIAS in t.models
            && LoadContext(t, SELF_ALIAS) == Some([op.local.value])
            && LoadContext(t, CLOUD_ALIAS) == Some([OrElse(op.cloud, op.unused)])
            && Listed(t, t.models[CLOUD_ALIAS]) && Listed(t, t.models[SELF_ALIAS])
            && var c := OrElse(op.cloud, op.unused);
            && c in t.endpoints && t.endpoints == s.endpoints[c := t.endpoints[c]]
            && t.endpoints[c] == Endpoint(CLOUD_NAME, false, true, false)
  {
    ConfigureKeepsInv(s, op);
    var t := Step(s, op);
    assert |CLOUD_ALIAS| != |SELF_ALIAS|;
    assert PoolSound(t, t.models[CLOUD_ALIAS]) && PoolSound(t, t.models[SELF_ALIAS]);
    hide Inv, Possible;
    LivePoolIsKept(t, [op.local.value]);
    LivePoolIsKept(t, [OrElse(op.cloud, op.unused)]);
  }

  lemma HostingIsServed(s: State, op: Op)
    requires Inv(s) && op.ConfigureHosting? && Possible(s, op)
    ensures Inv(Step(s, op)) && (op.cloud.Some? ==> op.cloud.value in s.endpoints)
    ensures Proceeds(op) ==>
              && LoadContext(Step(s, op), SELF_ALIAS) == Some([op.local.value])
              && LoadContext(Step(s, op), CLOUD_ALIAS) == Some([OrElse(op.cloud, op.unused)])
  {
    ConfigureKeepsInv(s, op);
    if Proceeds(op) {
      RoutesAreServed(s, op);
    }
  }

  // --- What is taken and what is refused -------------------------------------------------

  predicate Present(s: State, id: Id) {
    id in s.endpoints && s.endpoints[id].deleted == false
  }

  // References are settled exactly when the pool is of different endpoints that are there, baseline and fallback
  // are among them, the fallback is enabled and of the top tier or the only one, the impact baseline is there, and
  // the policy is one that limits nothing or allows both.
  lemma SettledExactlyWhen(s: State, pool: seq<Id>, baseline: Id, fallback: Id, policy: Id, impact: Option<Id>)
    ensures Validate(s, pool, baseline, fallback, policy, impact) == Ok <==>
            && baseline in pool && fallback in pool && Present(s, fallback)
            && (forall i, j :: 0 <= i < |pool| && 0 <= j < |pool| && pool[i] == pool[j] ==> i == j)
            && (forall id :: id in pool ==> Present(s, id))
            && s.endpoints[fallback].enabled && (s.endpoints[fallback].frontier || pool == [fallback])
            && (impact.Some? ==> Present(s, impact.value))
            && policy in s.policies
            && ((baseline in s.policies[policy] && fallback in s.policies[policy]) || |s.policies[policy]| == 0)
  {
    assert |pool| == 1 && fallback in pool ==> pool == [fallback];
    if policy in s.policies {
      assert s.policies[policy] == {} <==> |s.policies[policy]| == 0;
    }
    assert forall i :: 0 <= i < |pool| ==> pool[i] in pool;
    assert (forall id :: id in pool ==> Present(s, id)) ==> PoolIsLive(s, pool);
  }

  // A deletion is taken exactly when the endpoint is there and no model has it in its pool or as a baseline, an
  // impact baseline or a fallback; it takes that endpoint out of use and nothing else.
  lemma DeletedExactlyWhen(s: State, id: Id)
    ensures var (outcome, t) := EndpointDeleted(s, id);
            && (outcome == Ok <==>
                  && Present(s, id)
                  && forall alias :: alias in s.models ==>
                       && id !in s.models[alias].pool && s.models[alias].baseline != id
                       && s.models[alias].impactBaseline != Some(id) && s.models[alias].fallback != id)
            && (outcome != Ok ==> t == s)
            && (outcome == Ok ==>
                  && !Present(t, id) && !t.endpoints[id].enabled
                  && t == s.(endpoints := s.endpoints[id := t.endpoints[id]])
                  && t.endpoints[id].name == s.endpoints[id].name
                  && t.endpoints[id].frontier == s.endpoints[id].frontier)
  {
    assert forall alias :: alias in s.models && Refers(s.models[alias], id) ==> InUse(s, id);
  }

  // A model is created exactly when its alias is bounded and free, and its pool, the policy named and the
  // references settle; those left out default to the pool's first endpoint and to the baseline.
  lemma CreatedExactlyWhen(s: State, alias: string, pool: seq<Id>, baseline: Option<Id>, impact: Option<Id>,
                           fallback: Option<Id>, policy: Option<Id>, enabled: bool)
    ensures var (outcome, t) := ModelCreated(s, alias, pool, baseline, impact, fallback, policy, enabled);
            && (outcome != Ok ==> t == s)
            && (outcome == Ok <==>
                  && 0 < |alias| < 121 && alias !in s.models && pool != [] && policy.Some?
                  && var base := if baseline.Some? then baseline.value else pool[0];
                  Validate(s, pool, base, if fallback.Some? then fallback.value else base, policy.value,
                           Some(if impact.Some? then impact.value else base)) == Ok)
            && (outcome == Ok ==>
                  && alias in t.models && t == s.(models := s.models[alias := t.models[alias]])
                  && var m := t.models[alias];
                  && m.pool == pool && m.policy == policy.value && m.enabled == enabled
                  && m.baseline == (if baseline.Some? then baseline.value else pool[0])
                  && m.impactBaseline == Some(if impact.Some? then impact.value else m.baseline)
                  && m.fallback == if fallback.Some? then fallback.value else m.baseline)
  {
    hide Validate;
  }

  // A patch is taken exactly when the references it leaves settle, and so is an activation of another policy.
  lemma PatchedExactlyWhen(s: State, alias: string, patch: Patch)
    ensures var (outcome, t) := ModelPatched(s, alias, patch);
            && (outcome != Ok ==> t == s)
            && (outcome == Ok <==>
                  && alias in s.models
                  && var was := s.models[alias];
                  Validate(s, if patch.pool.Some? then patch.pool.value else was.pool,
                           if patch.baseline.Some? then patch.baseline.value else was.baseline,
                           if patch.fallback.Some? then patch.fallback.value else was.fallback, was.policy,
                           Some(if patch.impact.Some? then patch.impact.value
                                else if was.impactBaseline.Some? then was.impactBaseline.value
                                else was.baseline)) == Ok)
  {
    if alias in s.models {
      var was := s.models[alias];
      SettledExactlyWhen(s, if patch.pool.Some? then patch.pool.value else was.pool,
                         if patch.baseline.Some? then patch.baseline.value else was.baseline,
                         if patch.fallback.Some? then patch.fallback.value else was.fallback, was.policy,
                         Some(if patch.impact.Some? then patch.impact.value
                              else if was.impactBaseline.Some? then was.impactBaseline.value
                              else was.baseline));
    }
    hide Validate;
  }

  lemma ActivatedExactlyWhen(s: State, alias: string, policy: Id)
    ensures var (outcome, t) := PolicyActivated(s, alias, policy);
            && (outcome != Ok ==> t == s)
            && (outcome == Ok <==>
                  && alias in s.models
                  && var m := s.models[alias];
                  Validate(s, m.pool, m.baseline, m.fallback, policy, None) == Ok)
            && (outcome == Ok ==> t == s.(models := s.models[alias := s.models[alias].(policy := policy)]))
  {
    if alias in s.models {
      var m := s.models[alias];
      SettledExactlyWhen(s, m.pool, m.baseline, m.fallback, policy, None);
    }
    hide Validate;
  }

  // Endpoints and policies are written as asked, and touch no model; only one that is there can be edited.
  lemma RowsAreWritten(s: State, id: Id, name: string, frontier: bool, enabled: bool, allow: set<Id>)
    ensures var row := Endpoint(name, frontier, enabled, false);
            && Step(s, CreateEndpoint(id, name, frontier, enabled)) == s.(endpoints := s.endpoints[id := row])
            && Step(s, EditEndpoint(id, name, frontier, enabled)) ==
               (if Present(s, id) then s.(endpoints := s.endpoints[id := row]) else s)
    ensures Step(s, CreatePolicy(id, allow)) == s.(policies := s.policies[id := allow])
  {
  }

  // --- The policy's allowlist, which is only checked when references are settled ---------

  predicate Listed(s: State, m: Logical) {
    && m.policy in s.policies
    && (s.policies[m.policy] == {} || (m.baseline in s.policies[m.policy] && m.fallback in s.policies[m.policy]))
  }

  // Every handler but one keeps each model's baseline and fallback on its policy's allowlist.
  lemma AllowlistsAreKept(s: State, op: Op, alias: string)
    requires !op.ConfigureHosting? && Possible(s, op)
    requires forall a :: a in s.models ==> Listed(s, s.models[a])
    requires alias in Step(s, op).models
    ensures Listed(Step(s, op), Step(s, op).models[alias])
  {
    assert alias in s.models ==> Listed(s, s.models[alias]);
  }

  // Reconfiguring hosting rewrites two policies in place: another model stays listed exactly when its
  // policy is neither of them, or its baseline and fallback are the one endpoint the policy now allows.
  lemma HostingKeepsAllowlistsExactlyWhen(s: State, op: Op, alias: string)
    requires Possible(s, op) && Proceeds(op)
    requires alias in s.models && alias != CLOUD_ALIAS && alias != SELF_ALIAS && Listed(s, s.models[alias])
    ensures var m := s.models[alias];
            Step(s, op).models[alias] == m
            && (Listed(Step(s, op), m) <==>
                  && (m.policy == op.cloudPolicy ==>
                        m.baseline == OrElse(op.cloud, op.unused) && m.fallback == m.baseline)
                  && (m.policy == op.selfPolicy ==> m.baseline == op.local.value && m.fallback == m.baseline))
  {
    var c := OrElse(op.cloud, op.unused);
    assert Step(s, op).policies == s.policies[op.cloudPolicy := {c}][op.selfPolicy := {op.local.value}];
    assert {c} != {} && {op.local.value} != {} by {
      assert c in {c} && op.local.value in {op.local.value};
    }
  }

  // What a patch does: fields it names take its values, fields it leaves out stay, and nothing but this model
  // changes. A model patched to disabled is not loaded, one patched to enabled is with its whole pool.
  lemma PatchChangesExactly(s: State, alias: string, patch: Patch)
    requires Inv(s) && ModelPatched(s, alias, patch).0 == Ok
    ensures var t := ModelPatched(s, alias, patch).1;
            && alias in s.models && alias in t.models
            && t == s.(models := s.models[alias := t.models[alias]])
            && var was, m := s.models[alias], t.models[alias];
            && m.pool == (if patch.pool.Some? then patch.pool.value else was.pool)
            && m.baseline == (if patch.baseline.Some? then patch.baseline.value else was.baseline)
            && m.impactBaseline == (if patch.impact.Some? then patch.impact else was.impactBaseline)
            && m.fallback == (if patch.fallback.Some? then patch.fallback.value else was.fallback)
            && m.policy == was.policy
            && (patch.enabled.None? ==> m.enabled == was.enabled)
            && (patch.enabled == Some(false) ==> LoadContext(t, alias).None?)
            && (patch.enabled == Some(true) ==> LoadContext(t, alias) == Some(m.pool))
  {
    PatchKeepsInv(s, alias, patch);
    var t := ModelPatched(s, alias, patch).1;
    assert PoolSound(t, t.models[alias]);
    LivePoolIsKept(t, t.models[alias].pool);
  }

  // The rule that a fallback is enabled and of the top tier is checked with the references only: an edit of
  // the endpoint itself can break it, and the model's own settings are then refused until it is mended.
  lemma EditedFallbackBlocksItsModel(s: State, alias: string, name: string, frontier: bool, enabled: bool,
                                     impact: Option<Id>)
    requires alias in s.models
    requires var m := s.models[alias]; Validate(s, m.pool, m.baseline, m.fallback, m.policy, impact) == Ok
    ensures var m := s.models[alias];
            var (outcome, t) := EndpointEdited(s, m.fallback, name, frontier, enabled);
            && outcome == Ok && t.models == s.models
            && Validate(t, m.pool, m.baseline, m.fallback, m.policy, impact) ==
               if enabled && (frontier || (|m.pool| == 1 && m.fallback == m.baseline)) then Ok else InvalidFallback
  {
    var m := s.models[alias];
    assert Live(s, m.fallback);
    var t := EndpointEdited(s, m.fallback, name, frontier, enabled).1;
    forall i | 0 <= i < |m.pool| ensures Live(t, m.pool[i]) {
      assert Live(s, m.pool[i]);
    }
  }

  // --- The handlers ----------------------------------------------------------------------

  class Registry {
    var endpoints: map<Id, Endpoint>
    var models: map<string, Logical>
    var policies: map<Id, set<Id>>

    function Tables(): State
      reads this
    {
      State(endpoints, models, policies)
    }

    constructor ()
      ensures Inv(Tables())
    {
      endpoints, models, policies := map[], map[], map[];
    }

    // A deletion is refused exactly while some model refers to the endpoint.
    method RemoveEndpoint(id: Id) returns (outcome: Outcome)
      modifies this`endpoints
      ensures (outcome, Tables()) == EndpointDeleted(old(Tables()), id)
      ensures outcome == Conflict <==> old(Live(Tables(), id)) && exists a :: a in models && Refers(models[a], id)
    {
      if id !in endpoints || endpoints[id].deleted {
        return NotFound;
      }
      if exists alias :: alias in models && Refers(models[alias], id) {
        return Conflict;
      }
      var endpoint := endpoints[id].(deleted := true);
      endpoint := endpoint.(enabled := false);
      endpoints := endpoints[id := endpoint];
      outcome := Ok;
    }

    method CreateLogicalModel(alias: string, pool: seq<Id>, baseline: Option<Id>, impact: Option<Id>,
                              fallback: Option<Id>, policy: Option<Id>, enabled: bool) returns (outcome: Outcome)
      modifies this`models
      ensures (outcome, Tables()) ==
              ModelCreated(old(Tables()), alias, pool, baseline, impact, fallback, policy, enabled)
      ensures outcome == Ok ==> alias in models && PoolSound(Tables(), models[alias]) && Listed(Tables(), models[alias])
    {
      if |alias| == 0 || |alias| > MAX_ALIAS {
        return InvalidAlias;
      }
      if alias in models {
        return Conflict;
      }
      if pool == [] {
        return InvalidPool;
      }
      if policy.None? {
        return PolicyRequired;
      }
      var base := OrElse(baseline, pool[0]);
      var compare := OrElse(impact, base);
      var fall := OrElse(fallback, base);
      outcome := Validate(Tables(), pool, base, fall, policy.value, Some(compare));
      if outcome == Ok {
        models := models[alias := Logical(pool, base, Some(compare), fall, policy.value, enabled)];
      }
    }

    method PatchLogicalModel(alias: string, patch: Patch) returns (outcome: Outcome)
      requires Inv(Tables())
      modifies this`models
      ensures (outcome, Tables()) == ModelPatched(old(Tables()), alias, patch)
      ensures Inv(Tables())
    {
      PatchKeepsInv(Tables(), alias, patch);
      if alias !in models {
        return NotFound;
      }
      var logical := models[alias];
      var pool := if patch.pool.Some? then patch.pool.value else logical.pool;
      if pool == [] {
        return InvalidPool;
      }
      var compare := OrElse(logical.impactBaseline, logical.baseline);
      if patch.enabled.Some? {
        logical := logical.(enabled := patch.enabled.value);
      }
      if patch.baseline.Some? {
        if patch.baseline.value !in pool {
          return InvalidPool;
        }
        logical := logical.(baseline := patch.baseline.value);
      }
      if patch.impact.Some? {
        logical := logical.(impactBaseline := patch.impact);
        compare := patch.impact.value;
      }
      if patch.fallback.Some? {
        if patch.fallback.value !in pool {
          return InvalidPool;
        }
        logical := logical.(fallback := patch.fallback.value);
      }
      outcome := Validate(Tables(), pool, logical.baseline, logical.fallback, logical.policy, Some(compare));
      if outcome == Ok {
        models := models[alias := logical.(pool := pool)];
      }
    }

    method ConfigureHostingRoutes(confirm: bool, service: bool, cloud: Option<Id>, local: Option<Id>, healthy: bool,
                                  unused: Id, cloudPolicy: Id, selfPolicy: Id) returns (outcome: Outcome)
      requires Inv(Tables())
      requires Possible(Tables(),
                        ConfigureHosting(confirm, service, cloud, local, healthy, unused, cloudPolicy, selfPolicy))
      modifies this
      ensures (outcome, Tables()) ==
              Configured(old(Tables()), confirm, service, cloud, local, healthy, unused, cloudPolicy, selfPolicy)
      ensures Inv(Tables())
      ensures outcome == Ok <==> confirm && service && local.Some? && healthy
      ensures outcome == Ok ==>
                && LoadContext(Tables(), SELF_ALIAS) == Some([local.value])
                && LoadContext(Tables(), CLOUD_ALIAS) == Some([OrElse(cloud, unused)])
    {
      ghost var op := ConfigureHosting(confirm, service, cloud, local, healthy, unused, cloudPolicy, selfPolicy);
      hide Inv, LoadContext, Possible;
      HostingIsServed(Tables(), op);
      if !confirm {
        return ConfirmationRequired;
      }
      if !service {
        return Unconfigured;
      }
      if local.None? || !healthy {
        return Unavailable;
      }
      var id := OrElse(cloud, unused);
      if cloud.None? {
        endpoints := endpoints[id := Endpoint(CLOUD_NAME, false, true, false)];
      } else {
        endpoints := endpoints[id := endpoints[id].(enabled := true, frontier := false)];
      }
      policies := policies[cloudPolicy := {id}];
      models := models[CLOUD_ALIAS := Logical([id], id, Some(id), id, cloudPolicy, true)];
      policies := policies[selfPolicy := {local.value}];
      models := models[SELF_ALIAS := Logical([local.value], local.value, Some(id), local.value, selfPolicy, true)];
      outcome := Ok;
    }
  }
}
