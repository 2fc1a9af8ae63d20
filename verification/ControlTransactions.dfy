/** The transaction around the host controls of a node: snapshot, apply, verify, roll back, and a
    snapshot file that survives the process.

    A control is a name; the host maps each name to its setting. What a control does when applied is an
    input: its plan may raise, it may raise after changing its setting, and it may apply and fail
    verification. So is what it does when rolled back: it may leave another setting than it is given, and
    raise or say nothing about it. */
module ControlTransactions {
  import opened Prelude

  type Name = nat
  type Host = map<Name, int>

  datatype Effect = Unplanned | Raised(left: int) | Done(value: int, verified: bool)

  // A rollback that leaves the given setting instead of the snapshot's.
  datatype Slip = Slip(left: int, raises: bool)

  type Slips = map<Name, Slip>

  predicate Passed(e: Effect) {
    e.Done? && e.verified
  }

  function Left(e: Effect): int
    requires !e.Unplanned?
  {
    if e.Raised? then e.left else e.value
  }

  predicate Unique(controls: seq<Name>) {
    forall i, j :: 0 <= i < j < |controls| ==> controls[i] != controls[j]
  }

  predicate Throws(slips: Slips, name: Name) {
    name in slips && slips[name].raises
  }

  // What a rollback to the snapshot leaves.
  function Reset(slips: Slips, name: Name, snapshot: int): int {
    if name in slips then slips[name].left else snapshot
  }

  // The host after the first n controls have been applied.
  function Applied(host: Host, controls: seq<Name>, effects: seq<Effect>, n: nat): Host
    requires n <= |controls| && |controls| == |effects|
  {
    if n == 0 then host
    else
      var before := Applied(host, controls, effects, n - 1);
      if effects[n - 1].Unplanned? then before else before[controls[n - 1] := Left(effects[n - 1])]
  }

  function Snapshot(host: Host, controls: seq<Name>): Host
    requires forall i :: 0 <= i < |controls| ==> controls[i] in host
  {
    map name | name in controls :: host[name]
  }

  predicate AllPass(effects: seq<Effect>) {
    forall i :: 0 <= i < |effects| ==> Passed(effects[i])
  }

  // How many controls an apply tries: up to and including the first that does not pass, but not one whose
  // plan raises.
  function Tried(effects: seq<Effect>): (n: nat)
    ensures n <= |effects| && forall i :: 0 <= i < n ==> !effects[i].Unplanned? && (i < n - 1 ==> Passed(effects[i]))
    ensures AllPass(effects) ==> n == |effects|
    ensures !AllPass(effects) ==>
              (n > 0 && !Passed(effects[n - 1])) || (n < |effects| && effects[n].Unplanned?)
  {
    if effects == [] || effects[0].Unplanned? then 0
    else if !Passed(effects[0]) then 1
    else
      assert forall i :: 0 < i < |effects| ==> effects[i] == effects[1..][i - 1];
      1 + Tried(effects[1..])
  }

  // The host after the first n controls have been rolled back, last first. A rollback that raises ends the
  // loop.
  function RolledBack(host: Host, controls: seq<Name>, snapshots: Host, n: nat, slips: Slips): Host
    requires n <= |controls| && forall i :: 0 <= i < |controls| ==> controls[i] in snapshots
    decreases n
  {
    if n == 0 then host
    else
      var last := controls[n - 1];
      var undone := host[last := Reset(slips, last, snapshots[last])];
      if Throws(slips, last) then undone else RolledBack(undone, controls, snapshots, n - 1, slips)
  }

  // One of the controls from i to n raises in its rollback.
  predicate AnyThrows(controls: seq<Name>, i: nat, n: nat, slips: Slips)
    requires n <= |controls|
  {
    exists k :: i <= k < n && Throws(slips, controls[k])
  }

  // What an apply leaves, and whether its own rollback raises.
  function HostAfter(host: Host, controls: seq<Name>, effects: seq<Effect>, slips: Slips): Host
    requires |effects| == |controls| && forall i :: 0 <= i < |controls| ==> controls[i] in host
  {
    var applied := Applied(host, controls, effects, Tried(effects));
    if AllPass(effects) then applied
    else RolledBack(applied, controls, Snapshot(host, controls), Tried(effects), slips)
  }

  datatype Outcome = Passes | RollsBack | Raises

  function OutcomeOf(controls: seq<Name>, effects: seq<Effect>, slips: Slips): Outcome
    requires |effects| == |controls|
  {
    if AllPass(effects) then Passes
    else if AnyThrows(controls, 0, Tried(effects), slips) then Raises
    else RollsBack
  }

  class ControlTransaction {
    const controls: seq<Name>
    var host: Host
    var file: Option<Host>

    constructor (controls: seq<Name>, host: Host, file: Option<Host>)
      ensures this.controls == controls && this.host == host && this.file == file
    {
      this.controls := controls;
      this.host := host;
      this.file := file;
    }

    predicate Valid()
      reads this
    {
      Unique(controls) && forall i :: 0 <= i < |controls| ==> controls[i] in host
    }

    // The host takes every setting, or each control tried is rolled back, last first, until a rollback
    // raises. The snapshot file of an earlier apply is kept.
    method Apply(effects: seq<Effect>, slips: Slips) returns (outcome: Outcome)
      requires Valid() && |effects| == |controls|
      modifies this
      ensures outcome == OutcomeOf(controls, effects, slips)
      ensures host == HostAfter(old(host), controls, effects, slips)
      ensures outcome == RollsBack ==>
                (host == old(host) <==> forall i :: 0 <= i < Tried(effects) ==> Keeps(slips, controls[i], old(host)))
      ensures file == if old(file).Some? then old(file) else Some(Snapshot(old(host), controls))
      ensures Valid()
    {
      var snapshots := Snapshot(host, controls);
      if file.None? {
        file := Some(snapshots);
      }
      HostAfterKeys(host, controls, effects, slips);
      if !AllPass(effects) && !AnyThrows(controls, 0, Tried(effects), slips) {
        RollbackRestores(host, controls, effects, slips);
      }
      hide Applied, RolledBack, AnyThrows, Tried, Unique, AllPass;
      var n, ok := ApplyInTurn(effects);
      if ok {
        return Passes;
      }
      var raised := RollBackApplied(n, snapshots, slips);
      outcome := if raised then Raises else RollsBack;
    }

    // Each control is applied and verified in turn, up to the first that does not pass.
    method ApplyInTurn(effects: seq<Effect>) returns (n: nat, ok: bool)
      requires |effects| == |controls|
      modifies this`host
      ensures n == Tried(effects) && ok == AllPass(effects)
      ensures host == Applied(old(host), controls, effects, n)
    {
      n := 0;
      while n < |controls|
        invariant 0 <= n <= |controls|
        invariant forall i :: 0 <= i < n ==> Passed(effects[i])
        invariant host == Applied(old(host), controls, effects, n)
      {
        if effects[n].Unplanned? {
          UnplannedAt(effects, n);
          return n, false;
        }
        host := host[controls[n] := Left(effects[n])];
        n := n + 1;
        if !Passed(effects[n - 1]) {
          FailsAt(effects, n);
          return n, false;
        }
      }
      AllPassed(effects);
      ok := true;
    }

    // for control in reversed(applied): control.rollback(snapshots[control.name])
    method RollBackApplied(n: nat, snapshots: Host, slips: Slips) returns (raised: bool)
      requires n <= |controls| && forall i :: 0 <= i < |controls| ==> controls[i] in snapshots
      modifies this`host
      ensures host == RolledBack(old(host), controls, snapshots, n, slips)
      ensures raised == AnyThrows(controls, 0, n, slips)
    {
      var k := n;
      while k > 0
        invariant 0 <= k <= n
        invariant RolledBack(host, controls, snapshots, k, slips)
               == RolledBack(old(host), controls, snapshots, n, slips)
        invariant forall i :: k <= i < n ==> !Throws(slips, controls[i])
      {
        k := k - 1;
        host := host[controls[k] := Reset(slips, controls[k], snapshots[controls[k]])];
        if Throws(slips, controls[k]) {
          return true;
        }
      }
      raised := false;
    }

    method Restore(slips: Slips) returns (passed: bool)
      requires Valid()
      modifies this
      ensures host == Restored(old(host), controls, old(file), slips)
      ensures passed == RestorePasses(controls, old(file), slips)
      ensures file == if passed then None else old(file)
      ensures Valid()
    {
      if file.None? {
        return true;
      }
      var snapshots := file.value;
      passed := snapshots.Keys <= (set name | name in controls);
      TailRestores(host, controls, snapshots, slips);
      PassesExactly(controls, snapshots, slips);
      var k := |controls|;
      while k > 0
        invariant 0 <= k <= |controls|
        invariant file == old(file)
        invariant host == TailRestored(old(host), controls, snapshots, slips, k)
        invariant passed == (snapshots.Keys <= (set name | name in controls)
                             && TailPasses(controls, snapshots, slips, k))
      {
        hide Restored, RestorePasses;
        k := k - 1;
        if controls[k] in snapshots {
          host := host[controls[k] := Reset(slips, controls[k], snapshots[controls[k]])];
        }
        if controls[k] !in snapshots || Throws(slips, controls[k]) {
          passed := false;
        }
      }
      if passed {
        file := None;
      }
    }
  }

  lemma FailsAt(effects: seq<Effect>, n: nat)
    requires 0 < n <= |effects| && forall i :: 0 <= i < n - 1 ==> Passed(effects[i])
    requires !Passed(effects[n - 1]) && !effects[n - 1].Unplanned?
    ensures Tried(effects) == n && !AllPass(effects)
  {
  }

  lemma UnplannedAt(effects: seq<Effect>, n: nat)
    requires n < |effects| && effects[n].Unplanned? && forall i :: 0 <= i < n ==> Passed(effects[i])
    ensures Tried(effects) == n && !AllPass(effects)
  {
  }

  lemma AllPassed(effects: seq<Effect>)
    requires forall i :: 0 <= i < |effects| ==> Passed(effects[i])
    ensures AllPass(effects) && Tried(effects) == |effects|
  {
  }

  lemma {:induction false} OnlyAppliedChange(host: Host, controls: seq<Name>, effects: seq<Effect>, n: nat)
    requires n <= |controls| && |controls| == |effects|
    requires forall i :: 0 <= i < |controls| ==> controls[i] in host
    ensures Applied(host, controls, effects, n).Keys == host.Keys
    ensures forall name :: name in host && name !in controls[..n] ==>
              Applied(host, controls, effects, n)[name] == host[name]
  {
    if n > 0 {
      OnlyAppliedChange(host, controls, effects, n - 1);
      assert controls[..n] == controls[..n - 1] + [controls[n - 1]];
    }
  }

  // The rollback loop over the first n controls gets to one of the name.
  predicate Undone(controls: seq<Name>, n: nat, slips: Slips, name: Name)
    requires n <= |controls|
    decreases n
  {
    n > 0 && (controls[n - 1] == name || (!Throws(slips, controls[n - 1]) && Undone(controls, n - 1, slips, name)))
  }

  // What the loop leaves: what a rollback leaves wherever it got, the given setting elsewhere.
  lemma {:induction false} RolledBackAt(host: Host, controls: seq<Name>, snapshots: Host, n: nat, slips: Slips,
                                        name: Name)
    requires n <= |controls| && forall i :: 0 <= i < |controls| ==> controls[i] in snapshots && controls[i] in host
    requires name in host && name in snapshots
    ensures var r := RolledBack(host, controls, snapshots, n, slips);
            && r.Keys == host.Keys
            && r[name] == if Undone(controls, n, slips, name) then Reset(slips, name, snapshots[name]) else host[name]
    decreases n
  {
    if n > 0 && !Throws(slips, controls[n - 1]) {
      var last := controls[n - 1];
      RolledBackAt(host[last := Reset(slips, last, snapshots[last])], controls, snapshots, n - 1, slips, name);
    }
  }

  lemma {:induction false} OthersKeepTheirs(host: Host, controls: seq<Name>, snapshots: Host, n: nat, slips: Slips)
    requires n <= |controls| && forall i :: 0 <= i < |controls| ==> controls[i] in snapshots && controls[i] in host
    ensures var r := RolledBack(host, controls, snapshots, n, slips);
            r.Keys == host.Keys && forall name :: name in host && name !in controls ==> r[name] == host[name]
    decreases n
  {
    if n > 0 && !Throws(slips, controls[n - 1]) {
      var last := controls[n - 1];
      OthersKeepTheirs(host[last := Reset(slips, last, snapshots[last])], controls, snapshots, n - 1, slips);
    }
  }

  // Among distinct controls, exactly those are undone after which none raises.
  lemma {:induction false} UndoneExactly(controls: seq<Name>, n: nat, slips: Slips, i: nat)
    requires Unique(controls) && n <= |controls| && i < |controls|
    ensures Undone(controls, n, slips, controls[i]) <==>
            i < n && !AnyThrows(controls, i + 1, n, slips)
    decreases n
  {
    if n > 0 {
      UndoneExactly(controls, n - 1, slips, i);
    }
  }

  lemma HostAfterKeys(host: Host, controls: seq<Name>, effects: seq<Effect>, slips: Slips)
    requires |effects| == |controls| && forall i :: 0 <= i < |controls| ==> controls[i] in host
    ensures var after := HostAfter(host, controls, effects, slips);
            after.Keys == host.Keys && forall name :: name in host && name !in controls ==> after[name] == host[name]
  {
    var n := Tried(effects);
    OnlyAppliedChange(host, controls, effects, n);
    OthersKeepTheirs(Applied(host, controls, effects, n), controls, Snapshot(host, controls), n, slips);
    assert forall name :: name !in controls ==> name !in controls[..n];
  }

  lemma {:induction false} AppliedAt(host: Host, controls: seq<Name>, effects: seq<Effect>, n: nat, i: nat)
    requires Unique(controls) && n <= |controls| && |controls| == |effects| && i < |controls|
    requires forall k :: 0 <= k < |controls| ==> controls[k] in host
    ensures Applied(host, controls, effects, n).Keys == host.Keys
    ensures Applied(host, controls, effects, n)[controls[i]] ==
            if i < n && !effects[i].Unplanned? then Left(effects[i]) else host[controls[i]]
    decreases n
  {
    OnlyAppliedChange(host, controls, effects, n);
    if n > 0 {
      AppliedAt(host, controls, effects, n - 1, i);
      assert i != n - 1 ==> controls[i] != controls[n - 1];
    }
    hide Unique;
  }

  // The rollback of the control leaves what it was.
  predicate Keeps(slips: Slips, name: Name, host: Host)
    requires name in host
  {
    name in slips ==> slips[name].left == host[name]
  }

  // The i-th control ends as it was: if a later rollback raises, what its apply left is what it was, and
  // otherwise what its rollback leaves is.
  predicate ComesBack(host: Host, controls: seq<Name>, effects: seq<Effect>, slips: Slips, i: nat)
    requires |effects| == |controls| && i < Tried(effects) && controls[i] in host
  {
    if AnyThrows(controls, i + 1, Tried(effects), slips) then Left(effects[i]) == host[controls[i]]
    else Keeps(slips, controls[i], host)
  }

  // A failed apply gives the host back exactly when every control it tried comes back; in particular when
  // no rollback slips.
  lemma FailedApplyRestoresExactlyWhen(host: Host, controls: seq<Name>, effects: seq<Effect>, slips: Slips)
    requires Unique(controls) && |effects| == |controls| && !AllPass(effects)
    requires forall i :: 0 <= i < |controls| ==> controls[i] in host
    ensures HostAfter(host, controls, effects, slips) == host <==>
            forall i :: 0 <= i < Tried(effects) ==> ComesBack(host, controls, effects, slips, i)
  {
    HostAfterKeys(host, controls, effects, slips);
    forall i | 0 <= i < |controls|
      ensures HostAfter(host, controls, effects, slips)[controls[i]] == host[controls[i]] <==>
              (i < Tried(effects) ==> ComesBack(host, controls, effects, slips, i))
    {
      AfterAt(host, controls, effects, slips, i);
    }
    hide HostAfter, Tried, AllPass, ComesBack, Unique;
    SameEverywhere(host, HostAfter(host, controls, effects, slips), controls);
  }

  // What an apply comes to: it passes exactly when every control is applied and verified, and raises exactly
  // when it does not pass and a control it tried raises in its rollback. It tries them up to the first that fails,
  // that one too unless its plan raised.
  lemma ComesToExactly(controls: seq<Name>, effects: seq<Effect>, slips: Slips, n: nat)
    requires |effects| == |controls| && n < |effects|
    requires !(effects[n].Done? && effects[n].verified)
    requires forall i :: 0 <= i < n ==> effects[i].Done? && effects[i].verified
    ensures Tried(effects) == if effects[n].Unplanned? then n else n + 1
    ensures OutcomeOf(controls, effects, slips) ==
            if exists k :: 0 <= k < Tried(effects) && controls[k] in slips && slips[controls[k]].raises then Raises
            else RollsBack
  {
    assert forall i :: 0 <= i < n ==> Passed(effects[i]);
    if effects[n].Unplanned? {
      UnplannedAt(effects, n);
    } else {
      FailsAt(effects, n + 1);
    }
    hide Tried;
    assert forall k :: 0 <= k < |controls| ==>
                         (Throws(slips, controls[k]) <==> controls[k] in slips && slips[controls[k]].raises);
  }

  lemma PassesExactlyWhen(controls: seq<Name>, effects: seq<Effect>, slips: Slips)
    requires |effects| == |controls|
    ensures OutcomeOf(controls, effects, slips) == Passes <==>
            forall i :: 0 <= i < |effects| ==> effects[i].Done? && effects[i].verified
  {
    assert forall i :: 0 <= i < |effects| ==> (Passed(effects[i]) <==> effects[i].Done? && effects[i].verified);
  }

  // Hosts that differ at most in the controls are equal exactly when they agree on every control.
  lemma SameEverywhere(host: Host, after: Host, controls: seq<Name>)
    requires after.Keys == host.Keys && forall name :: name in host && name !in controls ==> after[name] == host[name]
    requires forall i :: 0 <= i < |controls| ==> controls[i] in host
    ensures after == host <==> forall i :: 0 <= i < |controls| ==> after[controls[i]] == host[controls[i]]
  {
    if forall i :: 0 <= i < |controls| ==> after[controls[i]] == host[controls[i]] {
      forall name | name in host ensures after[name] == host[name] {
        if name in controls {
          var i :| 0 <= i < |controls| && controls[i] == name;
          assert after[controls[i]] == host[controls[i]];
        }
      }
    }
  }

  lemma AfterAt(host: Host, controls: seq<Name>, effects: seq<Effect>, slips: Slips, i: nat)
    requires Unique(controls) && |effects| == |controls| && !AllPass(effects) && i < |controls|
    requires forall k :: 0 <= k < |controls| ==> controls[k] in host
    ensures var n := Tried(effects);
            && HostAfter(host, controls, effects, slips).Keys == host.Keys
            && HostAfter(host, controls, effects, slips)[controls[i]] ==
               if i >= n then host[controls[i]]
               else if AnyThrows(controls, i + 1, n, slips) then Left(effects[i])
               else Reset(slips, controls[i], host[controls[i]])
  {
    var n := Tried(effects);
    AppliedAt(host, controls, effects, n, i);
    RolledBackAt(Applied(host, controls, effects, n), controls, Snapshot(host, controls), n, slips, controls[i]);
    UndoneExactly(controls, n, slips, i);
    hide Tried, Applied, RolledBack, Undone;
  }

  lemma RollbackRestores(host: Host, controls: seq<Name>, effects: seq<Effect>, slips: Slips)
    requires Unique(controls) && |effects| == |controls| && !AllPass(effects)
    requires forall i :: 0 <= i < |controls| ==> controls[i] in host
    requires !AnyThrows(controls, 0, Tried(effects), slips)
    ensures HostAfter(host, controls, effects, slips) == host <==>
            forall i :: 0 <= i < Tried(effects) ==> Keeps(slips, controls[i], host)
  {
    FailedApplyRestoresExactlyWhen(host, controls, effects, slips);
    assert forall i :: 0 <= i < Tried(effects) ==>
                         (ComesBack(host, controls, effects, slips, i) <==> Keeps(slips, controls[i], host));
  }

  // The host after the controls from k on have been restored, last first.
  function TailRestored(host: Host, controls: seq<Name>, snapshots: Host, slips: Slips, k: nat): Host
    requires k <= |controls|
    decreases |controls| - k
  {
    if k == |controls| then host
    else
      var later := TailRestored(host, controls, snapshots, slips, k + 1);
      if controls[k] in snapshots then later[controls[k] := Reset(slips, controls[k], snapshots[controls[k]])]
      else later
  }

  predicate TailPasses(controls: seq<Name>, snapshots: Host, slips: Slips, k: nat)
    requires k <= |controls|
    decreases |controls| - k
  {
    k == |controls|
    || (controls[k] in snapshots && !Throws(slips, controls[k]) && TailPasses(controls, snapshots, slips, k + 1))
  }

  lemma {:induction false} TailRestoredAt(host: Host, controls: seq<Name>, snapshots: Host, slips: Slips, k: nat,
                                          name: Name)
    requires k <= |controls| && name in host && forall i :: 0 <= i < |controls| ==> controls[i] in host
    ensures var r := TailRestored(host, controls, snapshots, slips, k);
            && r.Keys == host.Keys
            && r[name] == if name in controls[k..] && name in snapshots then Reset(slips, name, snapshots[name])
                          else host[name]
    decreases |controls| - k
  {
    if k < |controls| {
      TailRestoredAt(host, controls, snapshots, slips, k + 1, name);
      assert controls[k..] == [controls[k]] + controls[k + 1..];
    }
  }

  lemma TailRestores(host: Host, controls: seq<Name>, snapshots: Host, slips: Slips)
    requires forall i :: 0 <= i < |controls| ==> controls[i] in host
    ensures TailRestored(host, controls, snapshots, slips, 0) == Restored(host, controls, Some(snapshots), slips)
    ensures TailRestored(host, controls, snapshots, slips, 0).Keys == host.Keys
  {
    var r := TailRestored(host, controls, snapshots, slips, 0);
    assert controls[0..] == controls;
    forall name | name in host
      ensures r.Keys == host.Keys && r[name] == Restored(host, controls, Some(snapshots), slips)[name]
    {
      TailRestoredAt(host, controls, snapshots, slips, 0, name);
    }
    if |controls| > 0 {
      assert controls[0] in host;
    }
  }

  lemma {:induction false} TailPassesExactly(controls: seq<Name>, snapshots: Host, slips: Slips, k: nat)
    requires k <= |controls|
    ensures TailPasses(controls, snapshots, slips, k) <==>
            forall i :: k <= i < |controls| ==> controls[i] in snapshots && !Throws(slips, controls[i])
    decreases |controls| - k
  {
    if k < |controls| {
      TailPassesExactly(controls, snapshots, slips, k + 1);
    }
  }

  lemma PassesExactly(controls: seq<Name>, snapshots: Host, slips: Slips)
    ensures RestorePasses(controls, Some(snapshots), slips) <==>
            snapshots.Keys <= (set name | name in controls) && TailPasses(controls, snapshots, slips, 0)
  {
    TailPassesExactly(controls, snapshots, slips, 0);
    var names := set name | name in controls;
    assert (forall i :: 0 <= i < |controls| ==> controls[i] in snapshots) <==> names <= snapshots.Keys by {
      assert forall i :: 0 <= i < |controls| ==> controls[i] in names;
    }
  }

  function Restored(host: Host, controls: seq<Name>, file: Option<Host>, slips: Slips): Host {
    if file.None? then host
    else map name | name in host ::
           if name in controls && name in file.value then Reset(slips, name, file.value[name]) else host[name]
  }

  predicate RestorePasses(controls: seq<Name>, file: Option<Host>, slips: Slips) {
    file.None?
    || (file.value.Keys == (set name | name in controls) && !AnyThrows(controls, 0, |controls|, slips))
  }

  // --- over the life of a node -----------------------------------------------------------

  // Crash: the process dies after n controls of an apply, and is started again.
  datatype Op =
    | Apply(effects: seq<Effect>, slips: Slips)
    | Crash(effects: seq<Effect>, n: nat)
    | Restore(slips: Slips)

  datatype State = State(host: Host, file: Option<Host>)

  predicate Possible(controls: seq<Name>, s: State, op: Op) {
    && (forall i :: 0 <= i < |controls| ==> controls[i] in s.host)
    && (match op
        case Apply(effects, _) => |effects| == |controls|
        case Crash(effects, n) => |effects| == |controls| && n <= Tried(effects)
        case Restore(_) => true)
  }

  function Kept(controls: seq<Name>, s: State): Option<Host>
    requires forall i :: 0 <= i < |controls| ==> controls[i] in s.host
  {
    if s.file.Some? then s.file else Some(Snapshot(s.host, controls))
  }

  function Next(controls: seq<Name>, s: State, op: Op): State
    requires Possible(controls, s, op)
  {
    match op
    case Apply(effects, slips) => State(HostAfter(s.host, controls, effects, slips), Kept(controls, s))
    case Crash(effects, n) => State(Applied(s.host, controls, effects, n), Kept(controls, s))
    case Restore(slips) =>
      State(Restored(s.host, controls, s.file, slips), if RestorePasses(controls, s.file, slips) then None else s.file)
  }

  predicate Legal(controls: seq<Name>, s: State, ops: seq<Op>)
    decreases |ops|
  {
    ops == [] || (Possible(controls, s, ops[0]) && Legal(controls, Next(controls, s, ops[0]), ops[1..]))
  }

  function After(controls: seq<Name>, s: State, ops: seq<Op>): State
    requires Legal(controls, s, ops)
    decreases |ops|
  {
    if ops == [] then s else After(controls, Next(controls, s, ops[0]), ops[1..])
  }

  // original: the host before the first apply. While there is a file it holds the original settings of
  // exactly the controls; only controls differ from the original, and nothing does without a file.
  ghost predicate Remembers(controls: seq<Name>, s: State, original: Host) {
    && s.host.Keys == original.Keys
    && (forall name :: name in original && name !in controls ==> s.host[name] == original[name])
    && (s.file.None? ==> s.host == original)
    && (s.file.Some? ==> s.file == Some(map name | name in controls && name in original :: original[name]))
    && (forall i :: 0 <= i < |controls| ==> controls[i] in original)
  }

  // A restore that passes leaves what the file says: no rollback fails in silence.
  predicate Honest(controls: seq<Name>, s: State, op: Op) {
    op.Restore? && s.file.Some? && RestorePasses(controls, s.file, op.slips) ==>
      forall name :: name in controls && name in s.file.value ==> Keeps(op.slips, name, s.file.value)
  }

  predicate HonestRun(controls: seq<Name>, s: State, ops: seq<Op>)
    requires Legal(controls, s, ops)
    decreases |ops|
  {
    ops == [] || (Honest(controls, s, ops[0]) && HonestRun(controls, Next(controls, s, ops[0]), ops[1..]))
  }

  // A restore that passes removes the file, and brings back the original exactly when it is honest.
  lemma PassingRestores(controls: seq<Name>, s: State, slips: Slips, original: Host)
    requires Remembers(controls, s, original) && Possible(controls, s, Restore(slips))
    requires RestorePasses(controls, s.file, slips)
    ensures var t := Next(controls, s, Restore(slips));
            t.file == None && (t.host == original <==> Honest(controls, s, Restore(slips)))
  {
    var t := Next(controls, s, Restore(slips));
    if s.file.Some? {
      assert forall name :: name in controls ==> name in original && name in s.file.value;
      assert forall name :: name in original && name !in controls ==> t.host[name] == original[name];
      assert forall name :: name in controls ==> t.host[name] == Reset(slips, name, original[name]);
      if t.host == original {
        forall name | name in controls ensures Keeps(slips, name, s.file.value) {
          assert t.host[name] == original[name];
        }
      } else if Honest(controls, s, Restore(slips)) {
        assert forall name :: name in original ==> t.host[name] == original[name];
        assert false;
      }
    }
  }

  lemma StepRemembers(controls: seq<Name>, s: State, op: Op, original: Host)
    requires Remembers(controls, s, original) && Possible(controls, s, op) && Honest(controls, s, op)
    ensures Remembers(controls, Next(controls, s, op), original)
  {
    assert s.file.None? ==>
      Snapshot(s.host, controls) == map name | name in controls && name in original :: original[name];
    match op
    case Apply(effects, slips) => HostAfterKeys(s.host, controls, effects, slips);
    case Crash(effects, n) => OnlyAppliedChange(s.host, controls, effects, n);
    case Restore(slips) =>
      if RestorePasses(controls, s.file, slips) {
        PassingRestores(controls, s, slips, original);
      }
  }

  lemma {:induction false} RunRemembers(controls: seq<Name>, s: State, ops: seq<Op>, original: Host)
    requires Remembers(controls, s, original) && Legal(controls, s, ops) && HonestRun(controls, s, ops)
    ensures Remembers(controls, After(controls, s, ops), original)
    decreases |ops|
  {
    if ops != [] {
      StepRemembers(controls, s, ops[0], original);
      RunRemembers(controls, Next(controls, s, ops[0]), ops[1..], original);
    }
  }

  // Main result: after any run of applies, failed applies, applies whose own rollback raises, crashes in the
  // middle of an apply and partial restores, a restore passes exactly when no rollback raises, and brings
  // back the host as it was before the first apply exactly when none fails in silence either. One that does
  // loses the original, as the file is gone: no restore before the last may have passed so.
  lemma RestoreBringsBackTheOriginal(controls: seq<Name>, host: Host, ops: seq<Op>, slips: Slips)
    requires forall i :: 0 <= i < |controls| ==> controls[i] in host
    requires Legal(controls, State(host, None), ops) && HonestRun(controls, State(host, None), ops)
    ensures var s := After(controls, State(host, None), ops);
            && Possible(controls, s, Restore(slips))
            && (RestorePasses(controls, s.file, slips) <==>
                  s.file.None? || forall name :: name in controls && name in slips ==> !slips[name].raises)
            && (RestorePasses(controls, s.file, slips) ==>
                  var t := Next(controls, s, Restore(slips));
                  && t.file == None
                  && (t.host == host <==> s.file.None? || forall name :: name in controls ==> Keeps(slips, name, host)))
  {
    var start := State(host, None);
    RunRemembers(controls, start, ops, host);
    var s := After(controls, start, ops);
    assert s.file.Some? ==> s.file.value.Keys == set name | name in controls;
    assert s.file.Some? ==> forall name :: name in controls ==> s.file.value[name] == host[name];
    if RestorePasses(controls, s.file, slips) {
      PassingRestores(controls, s, slips, host);
    }
  }

  // --- files of another control set ------------------------------------------------------

  function RaisedByOne(host: Host, controls: seq<Name>): (effects: seq<Effect>)
    requires forall i :: 0 <= i < |controls| ==> controls[i] in host
    ensures |effects| == |controls| && AllPass(effects)
    ensures forall i :: 0 <= i < |controls| ==> effects[i] == Done(host[controls[i]] + 1, true)
  {
    seq(|controls|, i requires 0 <= i < |controls| => Done(host[controls[i]] + 1, true))
  }

  // An apply followed by a restore in which no rollback raises.
  function AppliedAndRestored(controls: seq<Name>, host: Host, file: Host, effects: seq<Effect>): State
    requires |effects| == |controls| && forall i :: 0 <= i < |controls| ==> controls[i] in host
  {
    HostAfterKeys(host, controls, effects, map[]);
    Next(controls, Next(controls, State(host, Some(file)), Apply(effects, map[])), Restore(map[]))
  }

  lemma CoveredIsRestored(controls: seq<Name>, host: Host, file: Host, effects: seq<Effect>)
    requires |effects| == |controls| && forall i :: 0 <= i < |controls| ==> controls[i] in host
    requires forall name :: name in controls ==> name in file && file[name] == host[name]
    ensures AppliedAndRestored(controls, host, file, effects).host == host
  {
    HostAfterKeys(host, controls, effects, map[]);
  }

  lemma UncoveredIsNot(controls: seq<Name>, host: Host, file: Host, i: nat)
    requires Unique(controls) && forall k :: 0 <= k < |controls| ==> controls[k] in host
    requires i < |controls| && controls[i] !in file
    ensures AppliedAndRestored(controls, host, file, RaisedByOne(host, controls)).host != host
  {
    var effects := RaisedByOne(host, controls);
    AppliedAt(host, controls, effects, |controls|, i);
    assert AppliedAndRestored(controls, host, file, effects).host[controls[i]] == host[controls[i]] + 1;
  }

  lemma NoneMissing(controls: seq<Name>, file: Host)
    ensures (exists slips :: RestorePasses(controls, Some(file), slips)) ==>
              forall i :: 0 <= i < |controls| ==> controls[i] in file
  {
    var names := set name | name in controls;
    assert forall i :: 0 <= i < |controls| ==> controls[i] in names;
  }

  // A snapshot file that agrees with the host undoes every apply exactly when it covers every control: a
  // file left by a process with fewer controls does not undo the new ones, and no restore with it passes.
  lemma FileUndoesExactlyWhen(controls: seq<Name>, host: Host, file: Host)
    requires Unique(controls) && forall i :: 0 <= i < |controls| ==> controls[i] in host
    requires forall name :: name in controls && name in file ==> file[name] == host[name]
    ensures (forall effects: seq<Effect> :: |effects| == |controls| ==>
               AppliedAndRestored(controls, host, file, effects).host == host)
            <==> forall i :: 0 <= i < |controls| ==> controls[i] in file
    ensures (exists i :: 0 <= i < |controls| && controls[i] !in file) ==>
              forall slips :: !RestorePasses(controls, Some(file), slips)
  {
    NoneMissing(controls, file);
    hide AppliedAndRestored, RestorePasses, Unique;
    if forall i :: 0 <= i < |controls| ==> controls[i] in file {
      forall effects: seq<Effect> | |effects| == |controls|
        ensures AppliedAndRestored(controls, host, file, effects).host == host
      {
        CoveredIsRestored(controls, host, file, effects);
      }
    } else {
      var i :| 0 <= i < |controls| && controls[i] !in file;
      UncoveredIsNot(controls, host, file, i);
    }
  }
}
