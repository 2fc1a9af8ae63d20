/** The operational impact export: observations grouped by endpoint, hour, evidence level, source and
    coefficient version, then gathered under one child per endpoint slug. Sums are exact. */
module ImpactExport {
  import opened Prelude

  // One report row; a row without an impact record, or without carbon accounting, is not exported.
  datatype Row = Row(
    accounted: bool, cached: bool, endpoint: Option<string>, hour: int, level: string, source: string,
    version: string, durationMs: Option<int>, energy: real, carbon: real)

  datatype Key = Key(endpoint: string, hour: int, level: string, source: string, version: string)

  // What a group adds up.
  datatype Amount = Amount(requests: nat, duration: real, energy: real, carbon: real)

  datatype Group = Group(key: Key, amount: Amount, intensity: real)

  datatype Child = Child(endpoint: string, inputs: seq<Group>)

  const NOTHING := Amount(0, 0.0, 0.0, 0.0)

  function Plus(a: Amount, b: Amount): Amount {
    Amount(a.requests + b.requests, a.duration + b.duration, a.energy + b.energy, a.carbon + b.carbon)
  }

  function NameOf(row: Row): string {
    if row.cached then "cache" else if row.endpoint.Some? then row.endpoint.value else "unknown"
  }

  function KeyOf(row: Row): Key {
    Key(NameOf(row), row.hour, row.level, row.source, row.version)
  }

  function AmountOf(row: Row): Amount {
    var ms := if row.durationMs.Some? then row.durationMs.value else 0;
    Amount(1, ms as real / 1000.0, row.energy, row.carbon)
  }

  // --- Reference sums over the report rows -----------------------------------------------

  function Total(rows: seq<Row>): Amount {
    if rows == [] then NOTHING
    else
      var last := rows[|rows| - 1];
      var before := Total(rows[..|rows| - 1]);
      if last.accounted then Plus(before, AmountOf(last)) else before
  }

  function TotalFor(rows: seq<Row>, key: Key): Amount {
    if rows == [] then NOTHING
    else
      var last := rows[|rows| - 1];
      var before := TotalFor(rows[..|rows| - 1], key);
      if last.accounted && KeyOf(last) == key then Plus(before, AmountOf(last)) else before
  }

  function CountLevel(rows: seq<Row>, level: string): nat {
    if rows == [] then 0
    else
      var last := rows[|rows| - 1];
      CountLevel(rows[..|rows| - 1], level) + (if last.accounted && last.level == level then 1 else 0)
  }

  // The rows of a key, and the exported ones.
  function RowsOf(rows: seq<Row>, key: Key): seq<Row> {
    if rows == [] then []
    else
      var last := rows[|rows| - 1];
      RowsOf(rows[..|rows| - 1], key)
      + (if Key(NameOf(last), last.hour, last.level, last.source, last.version) == key then [last] else [])
  }

  // A key's total is the total of its rows.
  lemma {:induction false} TotalsAreByKey(rows: seq<Row>, key: Key)
    ensures TotalFor(rows, key) == Total(RowsOf(rows, key))
  {
    if rows != [] {
      var before, last := rows[..|rows| - 1], rows[|rows| - 1];
      TotalsAreByKey(before, key);
      var kept := RowsOf(before, key);
      assert (kept + [last])[..|kept + [last]| - 1] == kept;
      assert kept + [] == kept;
    }
  }

  // What one row counts for: a request, its duration in seconds, nothing if that is not known, its energy and its
  // carbon, under the cache if it was answered there and under its endpoint if it has one.
  lemma RowCountsFor(row: Row)
    ensures Total([row]) == if row.accounted then AmountOf(row) else Amount(0, 0.0, 0.0, 0.0)
    ensures var amount := AmountOf(row);
            && amount.requests == 1 && amount.energy == row.energy && amount.carbon == row.carbon
            && (row.durationMs.None? ==> amount.duration == 0.0)
            && (row.durationMs.Some? ==> amount.duration * 1000.0 == row.durationMs.value as real)
    ensures row.cached ==> NameOf(row) == "cache"
    ensures !row.cached ==> NameOf(row) == match row.endpoint case Some(name) => name case None => "unknown"
  {
    assert [row][..0] == [];
  }

  // --- Sums over what the export builds --------------------------------------------------

  predicate Unique<T(==)>(s: seq<T>) {
    forall i, j :: 0 <= i < j < |s| ==> s[i] != s[j]
  }

  // A dictionary and the order its keys were first seen in.
  ghost predicate KeyedBy<K(!new), V>(keys: seq<K>, m: map<K, V>) {
    Unique(keys) && forall k :: k in keys <==> k in m
  }

  function Sum<K, V>(keys: seq<K>, m: map<K, V>, measure: V -> Amount): Amount
    requires forall k :: k in keys ==> k in m
  {
    if keys == [] then NOTHING
    else Plus(Sum(keys[..|keys| - 1], m, measure), measure(m[keys[|keys| - 1]]))
  }

  // Raising the value of one key raises the sum by as much, if the key is summed at all.
  lemma {:induction false} RaiseOne<K, V>(keys: seq<K>, m: map<K, V>, measure: V -> Amount, key: K, v: V, more: Amount)
    requires Unique(keys) && (forall k :: k in keys ==> k in m)
    requires key in m && measure(v) == Plus(measure(m[key]), more)
    ensures Sum(keys, m[key := v], measure) ==
            if key in keys then Plus(Sum(keys, m, measure), more) else Sum(keys, m, measure)
  {
    if keys != [] {
      var front, last := keys[..|keys| - 1], keys[|keys| - 1];
      RaiseOne(front, m, measure, key, v, more);
      assert keys == front + [last];
    }
  }

  lemma {:induction false} AddOne<K(!new), V>(keys: seq<K>, m: map<K, V>, measure: V -> Amount, key: K, v: V)
    requires KeyedBy(keys, m) && key !in m
    ensures KeyedBy(keys + [key], m[key := v])
    ensures Sum(keys + [key], m[key := v], measure) == Plus(Sum(keys, m, measure), measure(v))
  {
    OthersKeep(keys, m, measure, key, v);
    assert (keys + [key])[..|keys|] == keys;
  }

  lemma {:induction false} OthersKeep<K, V>(keys: seq<K>, m: map<K, V>, measure: V -> Amount, key: K, v: V)
    requires (forall k :: k in keys ==> k in m) && key !in keys
    ensures Sum(keys, m[key := v], measure) == Sum(keys, m, measure)
  {
    if keys != [] {
      OthersKeep(keys[..|keys| - 1], m, measure, key, v);
    }
  }

  function Itself(a: Amount): Amount {
    a
  }

  function Counted(n: nat): Amount {
    Amount(n, 0.0, 0.0, 0.0)
  }

  function TotalOfGroups(groups: seq<Group>): Amount {
    if groups == [] then NOTHING
    else Plus(TotalOfGroups(groups[..|groups| - 1]), groups[|groups| - 1].amount)
  }

  function TotalOfChild(child: Child): Amount {
    TotalOfGroups(child.inputs)
  }

  // --- Grouping --------------------------------------------------------------------------

  // Every group holds exactly the sums of its key's rows, and the groups together hold all of them.
  ghost predicate GroupsAre(rows: seq<Row>, keys: seq<Key>, grouped: map<Key, Amount>) {
    && KeyedBy(keys, grouped)
    && (forall key :: key in grouped ==> grouped[key] == TotalFor(rows, key) && grouped[key].requests > 0)
    && Sum(keys, grouped, Itself) == Total(rows)
  }

  ghost predicate NoOthers(rows: seq<Row>, grouped: map<Key, Amount>) {
    forall key :: key !in grouped ==> TotalFor(rows, key) == NOTHING
  }

  ghost predicate LevelsAre(rows: seq<Row>, counts: map<string, nat>) {
    forall level :: CountLevel(rows, level) == if level in counts then counts[level] else 0
  }

  ghost predicate CountsAre(rows: seq<Row>, levels: seq<string>, counts: map<string, nat>) {
    && KeyedBy(levels, counts) && LevelsAre(rows, counts)
    && Sum(levels, counts, Counted) == Counted(Total(rows).requests)
  }

  const LEVELS := ["measured", "estimated", "stale", "simulated"]

  // grouped.setdefault(...) and the four += of the loop.
  method AddToGroup(row: Row, keys: seq<Key>, grouped: map<Key, Amount>, ghost before: seq<Row>)
    returns (keys': seq<Key>, grouped': map<Key, Amount>)
    requires row.accounted && GroupsAre(before, keys, grouped) && NoOthers(before, grouped)
    ensures GroupsAre(before + [row], keys', grouped') && NoOthers(before + [row], grouped')
  {
    var key := KeyOf(row);
    ghost var after := before + [row];
    assert after[..|after| - 1] == before;
    if key in grouped {
      keys' := keys;
      var group := grouped[key];
      grouped' := grouped[key := Plus(group, AmountOf(row))];
      RaiseOne(keys, grouped, Itself, key, grouped'[key], AmountOf(row));
    } else {
      keys' := keys + [key];
      grouped' := grouped[key := Plus(NOTHING, AmountOf(row))];
      AddOne(keys, grouped, Itself, key, grouped'[key]);
    }
  }

  lemma LevelStep(before: seq<Row>, row: Row, level: string)
    requires row.accounted
    ensures CountLevel(before + [row], level) == CountLevel(before, level) + if row.level == level then 1 else 0
  {
    assert (before + [row])[..|before + [row]| - 1] == before;
  }

  lemma RequestStep(before: seq<Row>, row: Row)
    requires row.accounted
    ensures Total(before + [row]).requests == Total(before).requests + 1
  {
    assert (before + [row])[..|before + [row]| - 1] == before;
  }

  lemma LevelsStep(row: Row, counts: map<string, nat>, before: seq<Row>)
    requires row.accounted && LevelsAre(before, counts)
    ensures LevelsAre(before + [row],
                      counts[row.level := (if row.level in counts then counts[row.level] else 0) + 1])
  {
    hide CountLevel;
    forall level ensures CountLevel(before + [row], level) ==
                         CountLevel(before, level) + if row.level == level then 1 else 0
    {
      LevelStep(before, row, level);
    }
  }

  lemma OneMore(n: nat)
    ensures Counted(n + 1) == Plus(Counted(n), Counted(1))
  {
  }

  lemma KeysStay<K(!new), V>(keys: seq<K>, m: map<K, V>, key: K, v: V)
    requires KeyedBy(keys, m) && key in m
    ensures KeyedBy(keys, m[key := v]) && key in keys
  {
  }

  lemma CountedUp(row: Row, levels: seq<string>, counts: map<string, nat>, before: seq<Row>)
    requires row.accounted && CountsAre(before, levels, counts) && row.level in counts
    ensures CountsAre(before + [row], levels, counts[row.level := counts[row.level] + 1])
  {
    hide Total, Sum, LevelsAre;
    OneMore(counts[row.level]);
    assert Unique(levels) && forall l :: l in levels ==> l in counts;
    RaiseOne(levels, counts, Counted, row.level, counts[row.level] + 1, Counted(1));
    RequestStep(before, row);
    LevelsStep(row, counts, before);
    KeysStay(levels, counts, row.level, counts[row.level] + 1);
    hide KeyedBy;
  }

  lemma CountedFirst(row: Row, levels: seq<string>, counts: map<string, nat>, before: seq<Row>)
    requires row.accounted && CountsAre(before, levels, counts) && row.level !in counts
    ensures CountsAre(before + [row], levels + [row.level], counts[row.level := 1])
  {
    hide Total, Sum, LevelsAre, KeyedBy;
    AddOne(levels, counts, Counted, row.level, 1);
    RequestStep(before, row);
    LevelsStep(row, counts, before);
  }

  method CountRow(row: Row, levels: seq<string>, counts: map<string, nat>, ghost before: seq<Row>)
    returns (levels': seq<string>, counts': map<string, nat>)
    requires row.accounted && CountsAre(before, levels, counts)
    ensures CountsAre(before + [row], levels', counts')
  {
    hide *;
    if row.level in counts {
      CountedUp(row, levels, counts, before);
      levels', counts' := levels, counts[row.level := counts[row.level] + 1];
    } else {
      CountedFirst(row, levels, counts, before);
      levels', counts' := levels + [row.level], counts[row.level := 1];
    }
  }

  function Zeroes(levels: seq<string>): map<string, nat> {
    map level | level in levels :: 0
  }

  lemma ZeroesAreKeyed(levels: seq<string>)
    requires Unique(levels)
    ensures KeyedBy(levels, Zeroes(levels))
  {
    hide Unique;
  }

  lemma StartsAtZero(levels: seq<string>)
    requires Unique(levels)
    ensures CountsAre([], levels, Zeroes(levels))
  {
    hide Unique, KeyedBy, Sum;
    ZeroesAreKeyed(levels);
    ZeroSum(levels, Zeroes(levels));
  }

  method ZeroCounts() returns (levels: seq<string>, counts: map<string, nat>)
    ensures CountsAre([], levels, counts)
  {
    hide *;
    levels, counts := LEVELS, Zeroes(LEVELS);
    LevelsAreUnique();
    StartsAtZero(LEVELS);
  }

  method GroupRows(rows: seq<Row>)
    returns (keys: seq<Key>, grouped: map<Key, Amount>, levels: seq<string>, counts: map<string, nat>)
    ensures GroupsAre(rows, keys, grouped) && NoOthers(rows, grouped)
    ensures CountsAre(rows, levels, counts)
  {
    keys, grouped := [], map[];
    levels, counts := ZeroCounts();
    hide CountsAre;
    for k := 0 to |rows|
      invariant GroupsAre(rows[..k], keys, grouped) && NoOthers(rows[..k], grouped)
      invariant CountsAre(rows[..k], levels, counts)
    {
      hide *;
      assert rows[..k + 1] == rows[..k] + [rows[k]];
      if rows[k].accounted {
        keys, grouped := AddToGroup(rows[k], keys, grouped, rows[..k]);
        levels, counts := CountRow(rows[k], levels, counts, rows[..k]);
      } else {
        SkipRow(rows[..k], rows[k], keys, grouped, levels, counts);
      }
    }
    assert rows[..|rows|] == rows;
  }

  lemma SkipRow(before: seq<Row>, row: Row, keys: seq<Key>, grouped: map<Key, Amount>, levels: seq<string>,
                counts: map<string, nat>)
    requires !row.accounted && GroupsAre(before, keys, grouped) && NoOthers(before, grouped)
    requires CountsAre(before, levels, counts)
    ensures GroupsAre(before + [row], keys, grouped) && NoOthers(before + [row], grouped)
    ensures CountsAre(before + [row], levels, counts)
  {
    var after := before + [row];
    assert after[..|after| - 1] == before;
  }

  lemma LevelsAreUnique()
    ensures Unique(LEVELS)
  {
    assert |LEVELS[0]| == 8 && |LEVELS[1]| == 9 && |LEVELS[2]| == 5 && |LEVELS[3]| == 9;
    assert LEVELS[1][0] != LEVELS[3][0];
  }

  lemma {:induction false} ZeroSum(levels: seq<string>, counts: map<string, nat>)
    requires forall l :: l in levels ==> l in counts && counts[l] == 0
    ensures Sum(levels, counts, Counted) == NOTHING
  {
    if levels != [] {
      ZeroSum(levels[..|levels| - 1], counts);
    }
  }

  // --- The exported tree -----------------------------------------------------------------

  function WithIntensity(key: Key, amount: Amount): Group {
    Group(key, amount, if amount.energy != 0.0 then amount.carbon / amount.energy else 0.0)
  }

  // The groups a child gathers, in order.
  function InputsFor(groups: seq<Group>, slug: string -> string, name: string): seq<Group> {
    if groups == [] then []
    else
      var last := groups[|groups| - 1];
      InputsFor(groups[..|groups| - 1], slug, name) + (if slug(last.key.endpoint) == name then [last] else [])
  }

  // Each child holds exactly the groups of its slug, and the children together hold them all.
  ghost predicate ChildrenAre(groups: seq<Group>, slug: string -> string, slugs: seq<string>,
                              children: map<string, Child>) {
    && KeyedBy(slugs, children)
    && (forall s :: s in children ==> children[s].inputs == InputsFor(groups, slug, s))
    && (forall g :: g in groups ==> slug(g.key.endpoint) in children)
    && Sum(slugs, children, TotalOfChild) == TotalOfGroups(groups)
  }

  lemma {:induction false} NoInputs(groups: seq<Group>, slug: string -> string, name: string)
    requires forall g :: g in groups ==> slug(g.key.endpoint) != name
    ensures InputsFor(groups, slug, name) == []
  {
    if groups != [] {
      NoInputs(groups[..|groups| - 1], slug, name);
    }
  }

  lemma InputsStep(before: seq<Group>, g: Group, slug: string -> string, name: string)
    ensures InputsFor(before + [g], slug, name) ==
            InputsFor(before, slug, name) + (if slug(g.key.endpoint) == name then [g] else [])
  {
    assert (before + [g])[..|before + [g]| - 1] == before;
  }

  lemma TotalStep(groups: seq<Group>, g: Group)
    ensures TotalOfGroups(groups + [g]) == Plus(TotalOfGroups(groups), g.amount)
  {
    assert (groups + [g])[..|groups + [g]| - 1] == groups;
  }

  lemma InputsAreAdded(before: seq<Group>, g: Group, slug: string -> string, children: map<string, Child>,
                       child: Child)
    requires forall s :: s in children ==> children[s].inputs == InputsFor(before, slug, s)
    requires forall b :: b in before ==> slug(b.key.endpoint) in children
    requires var name := slug(g.key.endpoint);
             child.inputs == (if name in children then children[name].inputs else []) + [g]
    ensures var after := children[slug(g.key.endpoint) := child];
            forall s :: s in after ==> after[s].inputs == InputsFor(before + [g], slug, s)
  {
    var name := slug(g.key.endpoint);
    if name !in children {
      NoInputs(before, slug, name);
    }
    forall s | s in children || s == name
      ensures children[name := child][s].inputs == InputsFor(before + [g], slug, s)
    {
      InputsStep(before, g, slug, s);
    }
  }

  // The group's child, new or found, with the group appended.
  function Extended(children: map<string, Child>, name: string, g: Group): Child {
    var child := if name in children then children[name] else Child(g.key.endpoint, []);
    child.(inputs := child.inputs + [g])
  }

  lemma ChildRaised(g: Group, slug: string -> string, slugs: seq<string>, children: map<string, Child>,
                    before: seq<Group>)
    requires ChildrenAre(before, slug, slugs, children) && slug(g.key.endpoint) in children
    ensures var name := slug(g.key.endpoint);
            ChildrenAre(before + [g], slug, slugs, children[name := Extended(children, name, g)])
  {
    hide TotalOfGroups, InputsFor, Sum, KeyedBy;
    var name := slug(g.key.endpoint);
    var child := Extended(children, name, g);
    InputsAreAdded(before, g, slug, children, child);
    TotalStep(children[name].inputs, g);
    TotalStep(before, g);
    KeysStay(slugs, children, name, child);
    RaiseKeyed(slugs, children, TotalOfChild, name, child, g.amount);
  }

  lemma RaiseKeyed<K(!new), V>(keys: seq<K>, m: map<K, V>, measure: V -> Amount, key: K, v: V, more: Amount)
    requires KeyedBy(keys, m) && key in m && measure(v) == Plus(measure(m[key]), more)
    ensures forall k :: k in keys ==> k in m
    ensures Sum(keys, m[key := v], measure) == Plus(Sum(keys, m, measure), more)
  {
    hide Sum;
    RaiseOne(keys, m, measure, key, v, more);
  }

  lemma ChildAdded(g: Group, slug: string -> string, slugs: seq<string>, children: map<string, Child>,
                   before: seq<Group>)
    requires ChildrenAre(before, slug, slugs, children) && slug(g.key.endpoint) !in children
    ensures var name := slug(g.key.endpoint);
            ChildrenAre(before + [g], slug, slugs + [name], children[name := Extended(children, name, g)])
  {
    hide TotalOfGroups, InputsFor, Sum, KeyedBy;
    var name := slug(g.key.endpoint);
    var child := Extended(children, name, g);
    InputsAreAdded(before, g, slug, children, child);
    TotalStep([], g);
    EmptyTotal();
    TotalStep(before, g);
    AddOne(slugs, children, TotalOfChild, name, child);
  }

  // children.setdefault(...) and the append.
  method AddToChild(g: Group, slug: string -> string, slugs: seq<string>, children: map<string, Child>,
                    ghost before: seq<Group>)
    returns (slugs': seq<string>, children': map<string, Child>)
    requires ChildrenAre(before, slug, slugs, children)
    ensures ChildrenAre(before + [g], slug, slugs', children')
  {
    hide ChildrenAre;
    var name := slug(g.key.endpoint);
    var child := if name in children then children[name] else Child(g.key.endpoint, []);
    child := child.(inputs := child.inputs + [g]);
    children' := children[name := child];
    if name in children {
      slugs' := slugs;
      ChildRaised(g, slug, slugs, children, before);
    } else {
      slugs' := slugs + [name];
      ChildAdded(g, slug, slugs, children, before);
    }
  }

  lemma EmptyTotal()
    ensures TotalOfGroups([]) == NOTHING
  {
  }

  ghost predicate ItemsAre(keys: seq<Key>, grouped: map<Key, Amount>, groups: seq<Group>)
    requires forall k :: k in keys ==> k in grouped
  {
    |groups| == |keys| && forall i :: 0 <= i < |keys| ==> groups[i] == WithIntensity(keys[i], grouped[keys[i]])
  }

  method Items(keys: seq<Key>, grouped: map<Key, Amount>) returns (groups: seq<Group>)
    requires forall k :: k in keys ==> k in grouped
    ensures ItemsAre(keys, grouped, groups)
    ensures TotalOfGroups(groups) == Sum(keys, grouped, Itself)
  {
    groups := [];
    for k := 0 to |keys|
      invariant ItemsAre(keys[..k], grouped, groups)
      invariant TotalOfGroups(groups) == Sum(keys[..k], grouped, Itself)
    {
      assert keys[..k + 1][..k] == keys[..k];
      var item := WithIntensity(keys[k], grouped[keys[k]]);
      TotalStep(groups, item);
      groups := groups + [item];
    }
    assert keys[..|keys|] == keys;
  }

  lemma EmptyTree(slug: string -> string)
    ensures ChildrenAre([], slug, [], map[])
  {
  }

  method BuildTree(groups: seq<Group>, slug: string -> string)
    returns (slugs: seq<string>, children: map<string, Child>)
    ensures ChildrenAre(groups, slug, slugs, children)
  {
    hide *;
    slugs, children := [], map[];
    EmptyTree(slug);
    assert groups[..0] == [];
    for k := 0 to |groups|
      invariant ChildrenAre(groups[..k], slug, slugs, children)
    {
      slugs, children := AddToChild(groups[k], slug, slugs, children, groups[..k]);
      assert groups[..k + 1] == groups[..k] + [groups[k]];
    }
    assert groups[..|groups|] == groups;
  }

  // A group under a child: its slug is the child's, its amounts are those of its key's rows, and its
  // intensity weighs its energy back into its carbon.
  predicate Faithful(rows: seq<Row>, slug: string -> string, name: string, g: Group) {
    && slug(g.key.endpoint) == name
    && g.amount == TotalFor(rows, g.key) && g.amount.requests > 0
    && (if g.amount.energy != 0.0 then g.intensity * g.amount.energy == g.amount.carbon else g.intensity == 0.0)
  }

  // The export, whatever names its slugs run together: requests, durations, energy and carbon of the tree
  // are those of the accounted rows, and the evidence counts add up to the same number of requests.
  method Export(rows: seq<Row>, slug: string -> string)
    returns (slugs: seq<string>, children: map<string, Child>, levels: seq<string>, counts: map<string, nat>)
    ensures KeyedBy(slugs, children) && Sum(slugs, children, TotalOfChild) == Total(rows)
    ensures forall s, i :: s in children && 0 <= i < |children[s].inputs| ==>
              Faithful(rows, slug, s, children[s].inputs[i])
    ensures CountsAre(rows, levels, counts)
  {
    var keys, grouped;
    keys, grouped, levels, counts := GroupRows(rows);
    var groups := Items(keys, grouped);
    slugs, children := BuildTree(groups, slug);
    hide CountsAre, TotalOfGroups, Sum, Total;
    forall s, i | s in children && 0 <= i < |children[s].inputs|
      ensures Faithful(rows, slug, s, children[s].inputs[i])
    {
      InputsHold(groups, slug, s, i);
      TreeIsFaithful(rows, keys, grouped, groups, slug, s, children[s].inputs[i]);
    }
  }

  lemma TreeIsFaithful(rows: seq<Row>, keys: seq<Key>, grouped: map<Key, Amount>, groups: seq<Group>,
                       slug: string -> string, name: string, g: Group)
    requires GroupsAre(rows, keys, grouped) && ItemsAre(keys, grouped, groups)
    requires g in groups && slug(g.key.endpoint) == name
    ensures Faithful(rows, slug, name, g)
  {
    hide Sum, Total, TotalFor, WithIntensity;
    var j :| 0 <= j < |groups| && groups[j] == g;
    assert keys[j] in grouped;
    IntensityWeighs(keys[j], grouped[keys[j]]);
  }

  lemma IntensityWeighs(key: Key, amount: Amount)
    ensures var g := WithIntensity(key, amount);
            g.key == key && g.amount == amount
            && if amount.energy != 0.0 then g.intensity * amount.energy == amount.carbon else g.intensity == 0.0
  {
  }

  lemma {:induction false} InputsHold(groups: seq<Group>, slug: string -> string, name: string, i: nat)
    requires i < |InputsFor(groups, slug, name)|
    ensures InputsFor(groups, slug, name)[i] in groups
    ensures slug(InputsFor(groups, slug, name)[i].key.endpoint) == name
  {
    var front := groups[..|groups| - 1];
    if i < |InputsFor(front, slug, name)| {
      InputsHold(front, slug, name, i);
    }
  }
}
