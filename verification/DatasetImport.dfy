/** What a manual import accepts, and why its train, eval and test splits do not leak into each other.

    Case folding, the embedder, the digests, the safety screen and the checks of a row's target are inputs;
    white space inside a row's text is already collapsed. */
module DatasetImport {
  import opened Prelude
  import opened Embeddings

  // An absent or empty group, split or id is the empty string.
  datatype Raw =
    | NotAnObject
    | Raw(input: string, unsafe: bool, targetValid: bool, metaValid: bool, group: string, split: string, id: string)

  datatype Item = Item(externalId: string, split: string, input: string, group: string)

  datatype Tools = Tools(
    fold: string -> string, embed: string -> Vector, digest: string -> nat, name: (string, string) -> string)

  datatype Reason =
    NotAnExample | BadInput | UnsafeInput | DuplicateInput | BadTarget | BadMetadata | NearDuplicate | BadSplit

  datatype Result = Prepared(items: seq<Item>) | Refused(index: nat, reason: Reason) | BadCount

  const SPLITS := {"train", "eval", "test"}

  function GroupOf(raw: Raw, tools: Tools): string
    requires raw.Raw?
  {
    if raw.group != "" then raw.group else tools.fold(raw.input)
  }

  function BucketSplit(group: string, tools: Tools): string {
    SplitOfBucket(tools.digest(group) % 100)
  }

  function SplitOfBucket(bucket: nat): string {
    if bucket < 70 then "train" else if bucket < 85 then "eval" else "test"
  }

  // The buckets below n that fall to a split.
  function BucketsFor(split: string, n: nat): nat {
    if n == 0 then 0 else BucketsFor(split, n - 1) + (if SplitOfBucket(n - 1) == split then 1 else 0)
  }

  lemma {:induction false} BucketsBelow(n: nat)
    requires n <= 100
    ensures BucketsFor("train", n) == Min(n, 70)
    ensures BucketsFor("eval", n) == Max(0, Min(n, 85) - 70)
    ensures BucketsFor("test", n) == Max(0, n - 85)
  {
    if n > 0 {
      BucketsBelow(n - 1);
      assert "train"[0] != "eval"[0] && "train"[1] != "test"[1] && "eval"[0] != "test"[0];
    }
  }

  // Of a hundred buckets seventy are for training, fifteen for evaluation and fifteen for testing, and a group
  // falls where its digest says.
  lemma SplitsShareTheBuckets(group: string, tools: Tools)
    ensures BucketsFor("train", 100) == 70 && BucketsFor("eval", 100) == 15 && BucketsFor("test", 100) == 15
    ensures BucketSplit(group, tools) == SplitOfBucket(tools.digest(group) % 100) && BucketSplit(group, tools) in SPLITS
  {
    BucketsBelow(100);
  }

  function SplitOf(raw: Raw, tools: Tools): string
    requires raw.Raw?
  {
    if raw.split != "" then raw.split else BucketSplit(GroupOf(raw, tools), tools)
  }

  function ItemOf(raw: Raw, tools: Tools): Item
    requires raw.Raw?
  {
    var group := GroupOf(raw, tools);
    var id := if raw.id != "" then raw.id else tools.name(group, tools.fold(raw.input));
    Item(id[..Min(100, |id|)], SplitOf(raw, tools), raw.input, group)
  }

  predicate Near(a: string, b: string, tools: Tools) {
    Similarity(tools.embed(a), tools.embed(b)) > 0.97
  }

  // A row's text was seen before, or nearly so in another group.
  ghost predicate Repeats(raws: seq<Raw>, k: nat, tools: Tools)
    requires k < |raws| && raws[k].Raw?
  {
    exists j :: 0 <= j < k && raws[j].Raw? && tools.fold(raws[j].input) == tools.fold(raws[k].input)
  }

  ghost predicate NearlyRepeats(raws: seq<Raw>, k: nat, tools: Tools)
    requires k < |raws| && raws[k].Raw?
  {
    exists j :: 0 <= j < k && raws[j].Raw? && Near(raws[k].input, raws[j].input, tools)
                && GroupOf(raws[j], tools) != GroupOf(raws[k], tools)
  }

  // The verdict on one row, given the rows before it.
  ghost function Verdict(raws: seq<Raw>, k: nat, tools: Tools): Option<Reason>
    requires k < |raws|
  {
    var raw := raws[k];
    if raw.NotAnObject? then Some(NotAnExample)
    else if !(3 <= |raw.input| <= 4000) then Some(BadInput)
    else if raw.unsafe then Some(UnsafeInput)
    else if Repeats(raws, k, tools) then Some(DuplicateInput)
    else if !raw.targetValid then Some(BadTarget)
    else if !raw.metaValid then Some(BadMetadata)
    else if NearlyRepeats(raws, k, tools) then Some(NearDuplicate)
    else if SplitOf(raw, tools) !in SPLITS then Some(BadSplit)
    else None
  }

  ghost predicate Accepts(raws: seq<Raw>, n: nat, tools: Tools)
    requires n <= |raws|
  {
    forall k: nat :: k < n ==> Verdict(raws, k, tools).None?
  }

  predicate ItemsOf(raws: seq<Raw>, items: seq<Item>, tools: Tools) {
    |items| <= |raws| && forall k :: 0 <= k < |items| ==> raws[k].Raw? && items[k] == ItemOf(raws[k], tools)
  }

  method ClashesWithPrior(prepared: seq<Item>, input: string, group: string, tools: Tools) returns (clash: bool)
    ensures clash <==> exists j :: 0 <= j < |prepared| && Near(input, prepared[j].input, tools)
                                   && prepared[j].group != group
  {
    for j := 0 to |prepared|
      invariant forall i :: 0 <= i < j ==> !Near(input, prepared[i].input, tools) || prepared[i].group == group
    {
      if Near(input, prepared[j].input, tools) && prepared[j].group != group {
        return true;
      }
    }
    clash := false;
  }

  // The import loop refuses the first row with a bad verdict, and otherwise prepares every row.
  method Prepare(raws: seq<Raw>, tools: Tools) returns (result: Result)
    ensures result.BadCount? <==> !(1 <= |raws| <= 5000)
    ensures result.Refused? ==>
              && result.index < |raws| && Accepts(raws, result.index, tools)
              && Verdict(raws, result.index, tools) == Some(result.reason)
    ensures result.Prepared? ==>
              && |result.items| == |raws| && Accepts(raws, |raws|, tools) && ItemsOf(raws, result.items, tools)
  {
    if !(1 <= |raws| <= 5000) {
      return BadCount;
    }
    var prepared: seq<Item> := [];
    var seen: set<string> := {};
    for k := 0 to |raws|
      invariant |prepared| == k && ItemsOf(raws, prepared, tools)
      invariant Accepts(raws, k, tools)
      invariant forall s :: s in seen <==> exists j :: 0 <= j < k && tools.fold(raws[j].input) == s
    {
      var raw := raws[k];
      if raw.NotAnObject? {
        return Refused(k, NotAnExample);
      }
      if !(3 <= |raw.input| <= 4000) {
        return Refused(k, BadInput);
      }
      if raw.unsafe {
        return Refused(k, UnsafeInput);
      }
      var normalized := tools.fold(raw.input);
      if normalized in seen {
        return Refused(k, DuplicateInput);
      }
      seen := seen + {normalized};
      if !raw.targetValid {
        return Refused(k, BadTarget);
      }
      if !raw.metaValid {
        return Refused(k, BadMetadata);
      }
      var group := if raw.group != "" then raw.group else normalized;
      var clash := ClashesWithPrior(prepared, raw.input, group, tools);
      if clash {
        return Refused(k, NearDuplicate);
      }
      assert !NearlyRepeats(raws, k, tools) by {
        forall j | 0 <= j < k ensures !Near(raw.input, raws[j].input, tools) || GroupOf(raws[j], tools) == group {
          assert prepared[j] == ItemOf(raws[j], tools);
        }
      }
      if SplitOf(raw, tools) !in SPLITS {
        return Refused(k, BadSplit);
      }
      prepared := prepared + [ItemOf(raw, tools)];
    }
    result := Prepared(prepared);
  }

  // --- What an accepted import guarantees ------------------------------------------------

  // Whatever the order of the rows, no two texts fold to the same one, and texts nearer than the
  // threshold are in one group. Rows of a group that did not ask for a split share one; so a text and
  // its near-duplicate never sit on both sides of a split.
  lemma AcceptedImportDoesNotLeak(raws: seq<Raw>, items: seq<Item>, tools: Tools, i: nat, j: nat)
    requires Accepts(raws, |raws|, tools) && ItemsOf(raws, items, tools) && |items| == |raws|
    requires i < |raws| && j < |raws| && i != j
    ensures tools.fold(items[i].input) != tools.fold(items[j].input)
    ensures Near(items[i].input, items[j].input, tools) ==> items[i].group == items[j].group
    ensures items[i].group == items[j].group && raws[i].split == "" && raws[j].split == "" ==>
              items[i].split == items[j].split
    ensures Similarity(tools.embed(items[i].input), tools.embed(items[j].input)) > 0.97
            && raws[i].split == "" && raws[j].split == "" ==>
              items[i].split == items[j].split
  {
    var first, second := if i < j then i else j, if i < j then j else i;
    SimilarityIsSymmetric(tools.embed(items[i].input), tools.embed(items[j].input));
    assert Verdict(raws, second, tools).None?;
    assert !Repeats(raws, second, tools);
    assert raws[first].Raw?;
  }

  // What one row has to be, by itself and against another.
  predicate GoodAlone(raw: Raw) {
    && raw.Raw? && 2 < |raw.input| < 4001 && !raw.unsafe && raw.targetValid && raw.metaValid
    && (raw.split == "" || raw.split == "train" || raw.split == "eval" || raw.split == "test")
  }

  predicate GoodTogether(a: Raw, b: Raw, tools: Tools)
    requires a.Raw? && b.Raw?
  {
    && tools.fold(a.input) != tools.fold(b.input)
    && (Similarity(tools.embed(a.input), tools.embed(b.input)) > 0.97 ==> NamedGroup(a, tools) == NamedGroup(b, tools))
  }

  function NamedGroup(raw: Raw, tools: Tools): string
    requires raw.Raw?
  {
    match raw.group
    case "" => tools.fold(raw.input)
    case group => group
  }

  predicate AllGood(raws: seq<Raw>, tools: Tools) {
    && (forall k :: 0 <= k < |raws| ==> GoodAlone(raws[k]))
    && (forall j, k :: 0 <= j < |raws| && 0 <= k < |raws| && j != k && raws[j].Raw? && raws[k].Raw? ==>
          GoodTogether(raws[j], raws[k], tools))
  }

  lemma SplitIsGood(raw: Raw, tools: Tools)
    requires raw.Raw?
    ensures SplitOf(raw, tools) in SPLITS <==>
            raw.split == "" || raw.split == "train" || raw.split == "eval" || raw.split == "test"
  {
    SplitsShareTheBuckets(GroupOf(raw, tools), tools);
  }

  lemma AcceptedAreGood(raws: seq<Raw>, tools: Tools)
    requires Accepts(raws, |raws|, tools)
    ensures AllGood(raws, tools)
  {
    hide SplitOf, Similarity;
    forall k | 0 <= k < |raws| ensures GoodAlone(raws[k]) {
      assert Verdict(raws, k, tools).None?;
      SplitIsGood(raws[k], tools);
    }
    forall j, k | 0 <= j < |raws| && 0 <= k < |raws| && j != k && raws[j].Raw? && raws[k].Raw?
      ensures GoodTogether(raws[j], raws[k], tools)
    {
      var first, second := if j < k then j else k, if j < k then k else j;
      SimilarityIsSymmetric(tools.embed(raws[j].input), tools.embed(raws[k].input));
      assert Verdict(raws, second, tools).None?;
      assert !Repeats(raws, second, tools) && !NearlyRepeats(raws, second, tools);
      assert raws[first].Raw?;
    }
  }

  lemma GoodAreAccepted(raws: seq<Raw>, tools: Tools)
    requires AllGood(raws, tools)
    ensures Accepts(raws, |raws|, tools)
  {
    hide SplitOf, Similarity;
    forall k: nat | k < |raws| ensures Verdict(raws, k, tools).None? {
      assert GoodAlone(raws[k]);
      SplitIsGood(raws[k], tools);
      forall j: nat | j < k && raws[j].Raw?
        ensures tools.fold(raws[j].input) != tools.fold(raws[k].input)
        ensures Near(raws[k].input, raws[j].input, tools) ==> GroupOf(raws[j], tools) == GroupOf(raws[k], tools)
      {
        assert GoodTogether(raws[k], raws[j], tools);
      }
    }
  }

  // The rows an import accepts: each good by itself and any two good together, in whatever order they come.
  lemma AcceptedExactlyWhen(raws: seq<Raw>, tools: Tools)
    ensures Accepts(raws, |raws|, tools) <==>
            && (forall k :: 0 <= k < |raws| ==> GoodAlone(raws[k]))
            && (forall j, k :: 0 <= j < |raws| && 0 <= k < |raws| && j != k && raws[j].Raw? && raws[k].Raw? ==>
                  GoodTogether(raws[j], raws[k], tools))
  {
    if Accepts(raws, |raws|, tools) {
      AcceptedAreGood(raws, tools);
    }
    if AllGood(raws, tools) {
      GoodAreAccepted(raws, tools);
    }
    hide Accepts, GoodAlone, GoodTogether;
  }

  // What an accepted row becomes: it is named as it asks or after its group and text, within a hundred characters,
  // and in the split it states or its group's.
  lemma ItemKeepsTheRow(raw: Raw, tools: Tools)
    requires raw.Raw?
    ensures var item := ItemOf(raw, tools);
            && item.input == raw.input
            && item.group == (if raw.group == "" then tools.fold(raw.input) else raw.group)
            && item.split == (if raw.split == "" then BucketSplit(item.group, tools) else raw.split)
            && var name := if raw.id == "" then tools.name(item.group, tools.fold(raw.input)) else raw.id;
            && item.externalId <= name && |item.externalId| <= 100
            && (|name| <= 100 ==> item.externalId == name) && (|name| > 100 ==> |item.externalId| == 100)
  {
  }

  // --- what stated splits can do ---------------------------------------------------------

  // A stated split is taken as it is. Two rows of a group state different splits, or one states a split
  // other than the one its group falls into and another states none.
  ghost predicate Divides(raws: seq<Raw>, tools: Tools, group: string) {
    exists i, j :: InGroup(raws, tools, group, i) && InGroup(raws, tools, group, j) && raws[i].split != ""
                   && raws[i].split != if raws[j].split != "" then raws[j].split else BucketSplit(group, tools)
  }

  predicate InGroup(raws: seq<Raw>, tools: Tools, group: string, i: int) {
    0 <= i < |raws| && raws[i].Raw? && GroupOf(raws[i], tools) == group
  }

  // Near-duplicates on two sides of a split.
  predicate LeaksAt(raws: seq<Raw>, tools: Tools, i: int, j: int) {
    && 0 <= i < |raws| && 0 <= j < |raws| && raws[i].Raw? && raws[j].Raw?
    && Near(raws[i].input, raws[j].input, tools) && SplitOf(raws[i], tools) != SplitOf(raws[j], tools)
  }

  // The import is accepted with this embedder, and near-duplicates are divided.
  ghost predicate LeaksWith(raws: seq<Raw>, tools: Tools, embed: string -> Vector) {
    var t := tools.(embed := embed);
    Accepts(raws, |raws|, t) && exists i, j :: LeaksAt(raws, t, i, j)
  }

  // The embedder that finds the group's texts alike and all others unlike everything.
  function Alike(raws: seq<Raw>, tools: Tools, group: string): string -> Vector {
    var texts := set i | 0 <= i < |raws| && InGroup(raws, tools, group, i) :: raws[i].input;
    text => if text in texts then [1.0] else [0.0]
  }

  lemma AlikeCompares(raws: seq<Raw>, tools: Tools, group: string, a: string, b: string)
    ensures var t := tools.(embed := Alike(raws, tools, group));
            Near(a, b, t) <==>
              && (exists i :: InGroup(raws, tools, group, i) && raws[i].input == a)
              && (exists j :: InGroup(raws, tools, group, j) && raws[j].input == b)
  {
    Compared(1.0, 1.0);
    Compared(1.0, 0.0);
    Compared(0.0, 1.0);
    Compared(0.0, 0.0);
    hide Similarity;
  }

  lemma Compared(x: real, y: real)
    ensures Similarity([x], [y]) == x * y
  {
    assert [x][1..] == [];
  }

  // Rows with one text are refused, so an accepted row's text is its own.
  lemma TextsAreDistinct(raws: seq<Raw>, tools: Tools, i: nat, j: nat)
    requires Accepts(raws, |raws|, tools) && i < |raws| && j < |raws|
    ensures raws[i].Raw? && raws[j].Raw?
    ensures raws[i].input == raws[j].input ==> i == j
  {
    assert Verdict(raws, i, tools).None? && Verdict(raws, j, tools).None?;
    if i < j {
      assert !Repeats(raws, j, tools);
    } else if j < i {
      assert !Repeats(raws, i, tools);
    }
  }

  lemma AlikeAccepts(raws: seq<Raw>, tools: Tools, group: string, k: nat)
    requires Accepts(raws, |raws|, tools) && k < |raws|
    ensures Verdict(raws, k, tools.(embed := Alike(raws, tools, group))).None?
  {
    var t := tools.(embed := Alike(raws, tools, group));
    assert Verdict(raws, k, tools).None?;
    assert Repeats(raws, k, t) <==> Repeats(raws, k, tools);
    forall j | 0 <= j < k && raws[j].Raw? && Near(raws[k].input, raws[j].input, t)
      ensures GroupOf(raws[j], t) == GroupOf(raws[k], t)
    {
      AlikeCompares(raws, tools, group, raws[k].input, raws[j].input);
      var a :| InGroup(raws, tools, group, a) && raws[a].input == raws[k].input;
      var b :| InGroup(raws, tools, group, b) && raws[b].input == raws[j].input;
      TextsAreDistinct(raws, tools, a, k);
      TextsAreDistinct(raws, tools, b, j);
    }
  }

  lemma DividedGroupLeaks(raws: seq<Raw>, tools: Tools, group: string)
    requires Accepts(raws, |raws|, tools) && Divides(raws, tools, group)
    ensures LeaksWith(raws, tools, Alike(raws, tools, group))
  {
    var embed := Alike(raws, tools, group);
    var t := tools.(embed := embed);
    forall k: nat | k < |raws| ensures Verdict(raws, k, t).None? {
      AlikeAccepts(raws, tools, group, k);
    }
    var i, j :| InGroup(raws, tools, group, i) && InGroup(raws, tools, group, j) && raws[i].split != ""
                && raws[i].split != if raws[j].split != "" then raws[j].split else BucketSplit(group, tools);
    AlikeCompares(raws, tools, group, raws[i].input, raws[j].input);
    assert LeaksAt(raws, t, i, j);
  }

  lemma LeakDividesAGroup(raws: seq<Raw>, tools: Tools, embed: string -> Vector)
    requires LeaksWith(raws, tools, embed)
    ensures exists group :: Divides(raws, tools, group)
  {
    var t := tools.(embed := embed);
    var i, j :| LeaksAt(raws, t, i, j);
    SimilarityIsSymmetric(embed(raws[i].input), embed(raws[j].input));
    assert Verdict(raws, i, t).None? && Verdict(raws, j, t).None?;
    var group := GroupOf(raws[i], tools);
    assert i != j;
    if i < j {
      assert !NearlyRepeats(raws, j, t);
    } else {
      assert !NearlyRepeats(raws, i, t);
    }
    assert InGroup(raws, tools, group, i) && InGroup(raws, tools, group, j);
    assert Divides(raws, tools, group);
  }

  // An accepted import keeps near-duplicates together, whatever the embedder finds near, exactly when no
  // group's stated splits divide it.
  lemma NearDuplicatesLeakExactlyWhen(raws: seq<Raw>, tools: Tools)
    requires Accepts(raws, |raws|, tools)
    ensures (exists embed: string -> Vector :: LeaksWith(raws, tools, embed))
            <==> exists group :: Divides(raws, tools, group)
  {
    if embed: string -> Vector :| LeaksWith(raws, tools, embed) {
      LeakDividesAGroup(raws, tools, embed);
    }
    if group :| Divides(raws, tools, group) {
      DividedGroupLeaks(raws, tools, group);
    }
  }

  // Near-duplicates stated on both sides of a split are accepted.
  lemma StatedSplitsCanLeak(x: string, y: string, tools: Tools)
    requires 3 <= |x| <= 4000 && 3 <= |y| <= 4000 && tools.fold(x) != tools.fold(y) && Near(x, y, tools)
    ensures var raws := [Raw(x, false, true, true, "g", "train", ""), Raw(y, false, true, true, "g", "test", "")];
            Accepts(raws, 2, tools) && LeaksAt(raws, tools, 0, 1)
  {
    var raws := [Raw(x, false, true, true, "g", "train", ""), Raw(y, false, true, true, "g", "test", "")];
    assert Verdict(raws, 0, tools).None? && Verdict(raws, 1, tools).None?;
    assert |raws[0].split| != |raws[1].split|;
  }
}
