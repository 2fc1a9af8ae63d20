/** The demo region overlay: the configured list of regions, the cleanest one as a counterfactual target,
    and what moving a request there would have saved. Arithmetic is exact. */
module DemoRegions {
  import opened Prelude
  import opened Text

  datatype Candidate = Candidate(region: string, zone: string)

  datatype Result = Parsed(candidates: seq<Candidate>) | BadEntry | Duplicate(region: string) | Empty

  // --- Case folding, one character at a time ---------------------------------------------

  // Folding is stable, and neither it nor the characters it makes bring in white space or separators.
  ghost predicate Folds(fold: char -> string) {
    && (forall c: char :: fold(c) != "")
    && (forall c: char, d: char :: d in fold(c) ==> fold(d) == [d])
    && (forall c: char, d: char :: d in fold(c) && PythonSpace(d) ==> PythonSpace(c))
    && (forall c: char, d: char :: d in fold(c) && d in ",=" ==> d == c)
    && fold('-') == "-"
  }

  function Dashed(s: string): (t: string)
    ensures |t| == |s| && forall i :: 0 <= i < |s| ==> t[i] == if s[i] == '_' then '-' else s[i]
  {
    if s == "" then "" else [if s[0] == '_' then '-' else s[0]] + Dashed(s[1..])
  }

  // casefold().replace("_", "-")
  function Normal(s: string, fold: char -> string): string {
    if s == "" then "" else Normal(Init(s), fold) + Dashed(fold(Last(s)))
  }

  // --- One entry of the list -------------------------------------------------------------

  datatype Entry = Blank | Bad | Entry(candidate: Candidate)

  function IndexOf(s: string, c: char): (found: Option<nat>)
    ensures found.Some? ==> found.value < |s| && s[found.value] == c && c !in s[..found.value]
    ensures found.None? ==> c !in s
  {
    if s == "" then None
    else if s[0] == c then Some(0)
    else
      var rest := IndexOf(s[1..], c);
      if rest.None? then None
      else
        assert s[..rest.value + 1] == [s[0]] + s[1..][..rest.value];
        Some(rest.value + 1)
  }

  lemma {:induction false} IndexOfFirst(a: string, b: string, c: char)
    requires c !in a
    ensures IndexOf(a + [c] + b, c) == Some(|a|)
  {
    if a != "" {
      assert (a + [c] + b)[1..] == a[1..] + [c] + b;
      IndexOfFirst(a[1..], b, c);
    }
  }

  function ReadEntry(raw: string, fold: char -> string): Entry {
    var item := Trim(raw, PythonSpace);
    if item == "" then Blank
    else
      var at := IndexOf(item, '=');
      if at.None? then Bad
      else
        var region := Normal(Trim(item[..at.value], PythonSpace), fold);
        var zone := Trim(item[at.value + 1..], PythonSpace);
        if region == "" || zone == "" then Bad else Entry(Candidate(region, zone))
  }

  function Regions(candidates: seq<Candidate>): set<string> {
    set c | c in candidates :: c.region
  }

  // Entries are taken in order; blank ones are skipped and the first bad or repeated one decides.
  function Collect(items: seq<string>, fold: char -> string, taken: seq<Candidate>): Result {
    if items == [] then
      if taken == [] then Empty else Parsed(taken)
    else
      match ReadEntry(items[0], fold)
      case Blank => Collect(items[1..], fold, taken)
      case Bad => BadEntry
      case Entry(c) =>
        if c.region in Regions(taken) then Duplicate(c.region) else Collect(items[1..], fold, taken + [c])
  }

  lemma CollectUnfolds(items: seq<string>, fold: char -> string, taken: seq<Candidate>)
    requires items != []
    ensures Collect(items, fold, taken) ==
            match ReadEntry(items[0], fold)
            case Blank => Collect(items[1..], fold, taken)
            case Bad => BadEntry
            case Entry(c) =>
              if c.region in Regions(taken) then Duplicate(c.region) else Collect(items[1..], fold, taken + [c])
  {
    hide ReadEntry;
  }

  function Parse(value: string, fold: char -> string): Result {
    Collect(SplitOn(value, ","), fold, [])
  }

  method ParseCandidates(value: string, fold: char -> string) returns (result: Result)
    ensures result == Parse(value, fold)
  {
    var items := SplitOn(value, ",");
    var candidates: seq<Candidate> := [];
    var seen: set<string> := {};
    assert items[0..] == items;
    for k := 0 to |items|
      invariant Parse(value, fold) == Collect(items[k..], fold, candidates)
      invariant seen == Regions(candidates)
    {
      CollectUnfolds(items[k..], fold, candidates);
      hide SplitOn, Trim, Normal, IndexOf, PythonSpace, Collect, Parse;
      assert items[k..][0] == items[k] && items[k..][1..] == items[k + 1..];
      var item := Trim(items[k], PythonSpace);
      if item == "" {
        continue;
      }
      var at := IndexOf(item, '=');
      if at.None? {
        return BadEntry;
      }
      var region := Normal(Trim(item[..at.value], PythonSpace), fold);
      var zone := Trim(item[at.value + 1..], PythonSpace);
      if region == "" || zone == "" {
        return BadEntry;
      }
      if region in seen {
        return Duplicate(region);
      }
      seen := seen + {region};
      candidates := candidates + [Candidate(region, zone)];
    }
    assert items[|items|..] == [];
    result := if candidates == [] then Empty else Parsed(candidates);
  }

  // --- Printing, and what parsing yields -------------------------------------------------

  function Entries(candidates: seq<Candidate>): (r: seq<string>)
    ensures |r| == |candidates|
    ensures forall i :: 0 <= i < |r| ==> r[i] == candidates[i].region + "=" + candidates[i].zone
  {
    if candidates == [] then [] else [candidates[0].region + "=" + candidates[0].zone] + Entries(candidates[1..])
  }

  function Print(candidates: seq<Candidate>): string
    requires candidates != []
  {
    Join(Entries(candidates), ",")
  }

  // A region in its normal form and a trimmed zone, neither empty nor holding a separator of the list.
  predicate Canonical(c: Candidate, fold: char -> string) {
    && c.region != "" && c.zone != "" && Trimmed(c.region, PythonSpace) && Trimmed(c.zone, PythonSpace)
    && '=' !in c.region && ',' !in c.region && ',' !in c.zone && Normal(c.region, fold) == c.region
  }

  predicate CanonicalList(candidates: seq<Candidate>, fold: char -> string) {
    && (forall c :: c in candidates ==> Canonical(c, fold))
    && (forall i, j :: 0 <= i < j < |candidates| ==> candidates[i].region != candidates[j].region)
  }

  lemma {:induction false} NormalAppends(a: string, b: string, fold: char -> string)
    ensures Normal(a + b, fold) == Normal(a, fold) + Normal(b, fold)
  {
    if b == "" {
      assert a + b == a;
    } else {
      NormalUnfolds(b, fold);
      NormalUnfolds(a + b, fold);
      hide Normal, Dashed;
      assert Init(a + b) == a + Init(b) && Last(a + b) == Last(b);
      NormalAppends(a, Init(b), fold);
      Regroup(Normal(a, fold), Normal(Init(b), fold), Dashed(fold(Last(b))));
    }
  }

  lemma NormalUnfolds(s: string, fold: char -> string)
    requires s != ""
    ensures Normal(s, fold) == Normal(Init(s), fold) + Dashed(fold(Last(s)))
  {
  }

  lemma {:induction false} NormalComesFrom(s: string, fold: char -> string, d: char)
    requires d in Normal(s, fold)
    ensures exists c, e :: c in s && e in fold(c) && d == if e == '_' then '-' else e
  {
    if d in Normal(Init(s), fold) {
      NormalComesFrom(Init(s), fold, d);
    } else {
      var i :| 0 <= i < |fold(Last(s))| && Dashed(fold(Last(s)))[i] == d;
      var e := fold(Last(s))[i];
      assert Last(s) in s && e in fold(Last(s));
    }
  }

  lemma NormalIsClean(s: string, fold: char -> string, d: char)
    requires Folds(fold) && d in Normal(s, fold)
    ensures fold(d) == [d] && d != '_'
    ensures d in ",=" ==> d in s
  {
    NormalComesFrom(s, fold, d);
  }

  lemma DashedClean(c: char)
    requires c != '_'
    ensures Dashed([c]) == [c]
  {
  }

  // Normalizing twice is normalizing once.
  lemma {:induction false} NormalOfClean(s: string, fold: char -> string)
    requires forall d :: d in s ==> fold(d) == [d] && d != '_'
    ensures Normal(s, fold) == s
  {
    if s != "" {
      NormalUnfolds(s, fold);
      assert Last(s) in s;
      DashedClean(Last(s));
      hide Normal, Dashed;
      forall d | d in Init(s) ensures d in s {
      }
      NormalOfClean(Init(s), fold);
      assert s == Init(s) + [Last(s)];
    }
  }

  lemma NormalOfChar(c: char, fold: char -> string)
    ensures Normal([c], fold) == Dashed(fold(c))
  {
    assert Init([c]) == "";
  }

  lemma NormalStaysTrimmed(s: string, fold: char -> string)
    requires Folds(fold) && Trimmed(s, PythonSpace) && s != ""
    ensures Normal(s, fold) != "" && Trimmed(Normal(s, fold), PythonSpace)
  {
    assert s == [s[0]] + s[1..];
    NormalAppends([s[0]], s[1..], fold);
    NormalOfChar(s[0], fold);
    DashedChar(s[0], fold, 0);
    DashedChar(Last(s), fold, |fold(Last(s))| - 1);
  }

  lemma DashedChar(c: char, fold: char -> string, i: nat)
    requires Folds(fold) && !PythonSpace(c) && i < |fold(c)|
    ensures !PythonSpace(Dashed(fold(c))[i])
  {
    assert fold(c)[i] in fold(c);
  }

  lemma EntryIsCanonical(raw: string, fold: char -> string)
    requires Folds(fold) && ',' !in raw && ReadEntry(raw, fold).Entry?
    ensures Canonical(ReadEntry(raw, fold).candidate, fold)
  {
    var item := Trim(raw, PythonSpace);
    TrimTrims(raw, PythonSpace);
    var at := IndexOf(item, '=').value;
    var name, zone := Trim(item[..at], PythonSpace), Trim(item[at + 1..], PythonSpace);
    TrimTrims(item[..at], PythonSpace);
    TrimTrims(item[at + 1..], PythonSpace);
    var region := Normal(name, fold);
    NormalStaysTrimmed(name, fold);
    forall d | d in region ensures fold(d) == [d] && d != '_' && d !in ",=" {
      NormalIsClean(name, fold, d);
    }
    NormalOfClean(region, fold);
  }

  lemma {:induction false} CollectIsCanonical(items: seq<string>, fold: char -> string, taken: seq<Candidate>)
    requires Folds(fold) && CanonicalList(taken, fold) && forall item :: item in items ==> ',' !in item
    ensures var result := Collect(items, fold, taken);
            result.Parsed? ==> result.candidates != [] && CanonicalList(result.candidates, fold)
  {
    if items != [] {
      var entry := ReadEntry(items[0], fold);
      if entry.Entry? {
        EntryIsCanonical(items[0], fold);
        if entry.candidate.region !in Regions(taken) {
          CollectIsCanonical(items[1..], fold, taken + [entry.candidate]);
        }
      } else if entry.Blank? {
        CollectIsCanonical(items[1..], fold, taken);
      }
    }
  }

  lemma PrintedEntryReads(c: Candidate, fold: char -> string)
    requires Canonical(c, fold)
    ensures ReadEntry(c.region + "=" + c.zone, fold) == Entry(c)
  {
    var item := c.region + "=" + c.zone;
    assert item[0] == c.region[0] && Last(item) == Last(c.zone);
    TrimKeepsTrimmed(item, PythonSpace);
    IndexOfFirst(c.region, c.zone, '=');
    var at := IndexOf(item, '=').value;
    assert item[..at] == c.region && item[at + 1..] == c.zone;
    TrimKeepsTrimmed(c.region, PythonSpace);
    TrimKeepsTrimmed(c.zone, PythonSpace);
  }

  lemma {:induction false} CollectReads(candidates: seq<Candidate>, fold: char -> string, taken: seq<Candidate>)
    requires CanonicalList(taken + candidates, fold) && taken + candidates != []
    ensures Collect(Entries(candidates), fold, taken) == Parsed(taken + candidates)
  {
    if candidates == [] {
      assert taken + candidates == taken;
    } else {
      var c, rest := candidates[0], candidates[1..];
      assert taken + candidates == (taken + [c]) + rest;
      NextIsNew(taken, c, rest, fold);
      PrintedEntryReads(c, fold);
      CollectReads(rest, fold, taken + [c]);
      hide *;
      CollectEntry(c, rest, fold, taken);
      assert candidates == [c] + rest;
    }
  }

  lemma NextIsNew(taken: seq<Candidate>, c: Candidate, rest: seq<Candidate>, fold: char -> string)
    requires CanonicalList((taken + [c]) + rest, fold)
    ensures c.region !in Regions(taken) && Canonical(c, fold)
  {
    var all := (taken + [c]) + rest;
    assert all[|taken|] == c;
    forall t | t in taken ensures t.region != c.region {
      var i :| 0 <= i < |taken| && taken[i] == t;
      assert all[i] == t;
    }
  }

  lemma CollectEntry(c: Candidate, rest: seq<Candidate>, fold: char -> string, taken: seq<Candidate>)
    requires ReadEntry(c.region + "=" + c.zone, fold) == Entry(c) && c.region !in Regions(taken)
    ensures Collect(Entries([c] + rest), fold, taken) == Collect(Entries(rest), fold, taken + [c])
  {
    assert ([c] + rest)[1..] == rest;
    assert Entries([c] + rest)[1..] == Entries(rest);
  }

  // Parsing undoes printing of any normalized, duplicate-free list.
  lemma ParseUndoesPrint(candidates: seq<Candidate>, fold: char -> string)
    requires candidates != [] && CanonicalList(candidates, fold)
    ensures Parse(Print(candidates), fold) == Parsed(candidates)
  {
    var entries := Entries(candidates);
    forall e | e in entries ensures ',' !in e {
      var i :| 0 <= i < |entries| && entries[i] == e;
      assert candidates[i] in candidates;
    }
    SplitUndoesJoin(entries, ',');
    assert [] + candidates == candidates;
    CollectReads(candidates, fold, []);
  }

  // Whatever a configured value parses to prints to a value that parses to the same.
  lemma ParsePrintParse(value: string, fold: char -> string)
    requires Folds(fold) && Parse(value, fold).Parsed?
    ensures var candidates := Parse(value, fold).candidates;
            candidates != [] && CanonicalList(candidates, fold) && Parse(Print(candidates), fold) == Parsed(candidates)
  {
    PartsLackTheSeparator(value, ',');
    CollectIsCanonical(SplitOn(value, ","), fold, []);
    ParseUndoesPrint(Parse(value, fold).candidates, fold);
  }

  // --- Choosing the target ---------------------------------------------------------------

  type Amount = x: real | x >= 0.0

  datatype Reading = Reading(candidate: Candidate, intensity: Amount, available: bool)

  datatype Overlay = Overlay(reference: Reading, target: Reading)

  function Available(readings: seq<Reading>): (r: seq<Reading>)
    ensures forall x :: x in r <==> x in readings && x.available
  {
    if readings == [] then []
    else (if readings[0].available then [readings[0]] else []) + Available(readings[1..])
  }

  function FirstIn(readings: seq<Reading>, region: string): (found: Option<Reading>)
    ensures found.Some? ==> found.value in readings && found.value.candidate.region == region
    ensures found.None? ==> forall x :: x in readings ==> x.candidate.region != region
  {
    if readings == [] then None
    else if readings[0].candidate.region == region then Some(readings[0])
    else FirstIn(readings[1..], region)
  }

  // Cleaner, and among equals the earlier region name.
  predicate Prefers(a: Reading, b: Reading) {
    a.intensity < b.intensity || (a.intensity == b.intensity && Less(a.candidate.region, b.candidate.region))
  }

  // Python's min: the first of the least.
  function Cleanest(readings: seq<Reading>): (least: Reading)
    requires readings != []
    ensures least in readings
  {
    if |readings| == 1 then readings[0]
    else
      var rest := Cleanest(readings[1..]);
      if Prefers(rest, readings[0]) then rest else readings[0]
  }

  function Choose(readings: seq<Reading>, referenceRegion: string, fold: char -> string): Option<Overlay> {
    var available := Available(readings);
    if available == [] then None
    else
      var reference := FirstIn(available, Normal(referenceRegion, fold));
      if reference.None? then None else Some(Overlay(reference.value, Cleanest(available)))
  }

  predicate UniqueRegions(readings: seq<Reading>) {
    forall a, b :: a in readings && b in readings && a.candidate.region == b.candidate.region ==> a == b
  }

  lemma {:induction false} CleanestIsLeast(readings: seq<Reading>, x: Reading)
    requires readings != [] && x in readings
    ensures !Prefers(x, Cleanest(readings))
  {
    LessIsTotal(x.candidate.region, x.candidate.region);
    if |readings| > 1 {
      var rest := Cleanest(readings[1..]);
      CleanestIsLeast(readings[1..], if x in readings[1..] then x else rest);
      PrefersIsAnOrder(x, rest, readings[0]);
      PrefersIsAnOrder(readings[0], x, rest);
      PrefersIsAnOrder(x, readings[0], rest);
      LessIsTotal(rest.candidate.region, readings[0].candidate.region);
    }
  }

  lemma PrefersIsAnOrder(a: Reading, b: Reading, c: Reading)
    ensures Prefers(a, b) && Prefers(b, c) ==> Prefers(a, c)
    ensures !(Prefers(a, b) && Prefers(b, a))
    ensures a.candidate.region != b.candidate.region ==> Prefers(a, b) || Prefers(b, a)
  {
    LessIsTotal(a.candidate.region, b.candidate.region);
    if Less(a.candidate.region, b.candidate.region) && Less(b.candidate.region, c.candidate.region) {
      LessIsTransitive(a.candidate.region, b.candidate.region, c.candidate.region);
    }
  }

  // The overlay depends on which readings there are, not on their order.
  lemma ChoiceIgnoresOrder(xs: seq<Reading>, ys: seq<Reading>, referenceRegion: string, fold: char -> string)
    requires UniqueRegions(xs) && forall x :: x in xs <==> x in ys
    ensures Choose(xs, referenceRegion, fold) == Choose(ys, referenceRegion, fold)
  {
    var a, b := Available(xs), Available(ys);
    if b != [] {
      assert b[0] in a;
    }
    if a != [] {
      assert a[0] in b;
      var p, q := Cleanest(a), Cleanest(b);
      CleanestIsLeast(a, q);
      CleanestIsLeast(b, p);
      PrefersIsAnOrder(p, q, p);
    }
  }

  // The reference is the first available reading of the configured region.
  predicate IsReference(readings: seq<Reading>, region: string, k: int) {
    && 0 <= k < |readings| && readings[k].available && readings[k].candidate.region == region
    && forall j :: 0 <= j < k && readings[j].available ==> readings[j].candidate.region != region
  }

  ghost predicate HasReference(readings: seq<Reading>, region: string) {
    exists k :: IsReference(readings, region, k)
  }

  lemma FirstOrLater(head: Reading, rest: seq<Reading>, region: string)
    ensures FirstIn([head] + rest, region) ==
            if head.candidate.region == region then Some(head) else FirstIn(rest, region)
  {
    assert ([head] + rest)[1..] == rest;
  }

  lemma {:induction false} FirstAvailable(readings: seq<Reading>, region: string) returns (k: nat)
    requires FirstIn(Available(readings), region).Some?
    ensures IsReference(readings, region, k) && FirstIn(Available(readings), region) == Some(readings[k])
  {
    var head, rest := readings[0], readings[1..];
    assert Available(readings) == (if head.available then [head] else []) + Available(rest);
    if head.available {
      FirstOrLater(head, Available(rest), region);
    } else {
      assert Available(readings) == Available(rest);
    }
    hide Available, FirstIn;
    if head.available && head.candidate.region == region {
      k := 0;
    } else {
      var j := FirstAvailable(rest, region);
      k := j + 1;
      forall i | 0 <= i < k && readings[i].available ensures readings[i].candidate.region != region {
        assert i > 0 ==> readings[i] == rest[i - 1];
      }
    }
  }

  // What is chosen: the target is an available reading than which none is cleaner, nor as clean in an earlier
  // region; the reference is the first available one of the configured region, and there is an overlay exactly
  // when there is a reference.
  lemma ChoosesTheCleanest(readings: seq<Reading>, referenceRegion: string, fold: char -> string)
    ensures Choose(readings, referenceRegion, fold).Some? <==> HasReference(readings, Normal(referenceRegion, fold))
    ensures forall k :: IsReference(readings, Normal(referenceRegion, fold), k) ==>
              var choice := Choose(readings, referenceRegion, fold);
              choice.Some? && choice.value.reference == readings[k]
    ensures Choose(readings, referenceRegion, fold).Some? ==>
              var target := Choose(readings, referenceRegion, fold).value.target;
              && target in readings && target.available
              && forall x :: x in readings && x.available ==>
                   && target.intensity <= x.intensity
                   && (x.intensity == target.intensity ==> !Less(x.candidate.region, target.candidate.region))
  {
    var region := Normal(referenceRegion, fold);
    var available := Available(readings);
    hide Available, FirstIn, Cleanest, Less;
    if k :| IsReference(readings, region, k) {
      assert readings[k] in available;
      var j := FirstAvailable(readings, region);
      assert forall i :: IsReference(readings, region, i) ==> i == j;
    }
    if FirstIn(available, region).Some? {
      var k := FirstAvailable(readings, region);
      var target := Cleanest(available);
      assert Choose(readings, referenceRegion, fold) == Some(Overlay(readings[k], target));
      assert target in available;
      forall x | x in readings && x.available
        ensures target.intensity <= x.intensity
        ensures x.intensity == target.intensity ==> !Less(x.candidate.region, target.candidate.region)
      {
        CleanestIsLeast(available, x);
      }
    }
  }

  // --- The counterfactual ----------------------------------------------------------------

  datatype Impact = Impact(baselineCarbon: real, targetCarbon: real, rawDelta: real, avoided: real)

  function Counterfactual(overlay: Overlay, baselineEnergy: Amount, selectedEnergy: Amount): Impact {
    var baseline := baselineEnergy * overlay.reference.intensity;
    var target := selectedEnergy * overlay.target.intensity;
    var delta := baseline - target;
    Impact(baseline, target, delta, if delta > 0.0 then delta else 0.0)
  }

  lemma ProductsGrow(a: Amount, b: Amount, x: Amount, y: Amount)
    requires a <= b && x <= y
    ensures a * x <= b * y
  {
    assert (b - a) * x >= 0.0;
    assert b * (y - x) >= 0.0;
  }

  // The target is never dirtier than the reference, nothing negative is ever claimed as avoided, and no
  // carbon is added while the selected endpoint needs no more energy than the baseline.
  lemma TargetSavesCarbon(readings: seq<Reading>, referenceRegion: string, fold: char -> string,
                          baselineEnergy: Amount, selectedEnergy: Amount)
    requires Choose(readings, referenceRegion, fold).Some?
    ensures var overlay := Choose(readings, referenceRegion, fold).value;
            var impact := Counterfactual(overlay, baselineEnergy, selectedEnergy);
            && overlay.target.intensity <= overlay.reference.intensity
            && impact.avoided >= 0.0 && impact.avoided >= impact.rawDelta
            && (selectedEnergy <= baselineEnergy ==> impact.rawDelta >= 0.0 && impact.avoided == impact.rawDelta)
  {
    var overlay := Choose(readings, referenceRegion, fold).value;
    CleanestIsLeast(Available(readings), overlay.reference);
    hide Choose, Available, Cleanest, Less;
    if selectedEnergy <= baselineEnergy {
      ProductsGrow(selectedEnergy, baselineEnergy, overlay.target.intensity, overlay.reference.intensity);
    }
  }

  // --- Energy estimates ------------------------------------------------------------------

  datatype Tier = Specialized | Small | Standard | Frontier | Other

  datatype Coefficients = Coefficients(fixed: Amount, input: Amount, output: Amount)

  function CoefficientsOf(tier: Tier): Coefficients {
    match tier
    case Specialized => Coefficients(0.00004, 0.00010, 0.00030)
    case Small => Coefficients(0.00008, 0.00020, 0.00060)
    case Standard => Coefficients(0.00030, 0.00070, 0.00180)
    case Frontier => Coefficients(0.00080, 0.00150, 0.00400)
    case Other => Coefficients(0.00030, 0.00070, 0.00180)
  }

  // What a tier is assumed to need for the tokens.
  function Assumed(tier: Tier, inputTokens: nat, outputTokens: nat): (e: real)
    ensures e > 0.0
  {
    var c := CoefficientsOf(tier);
    ProductsGrow(0.0, inputTokens as real, c.input, c.input);
    ProductsGrow(0.0, outputTokens as real, c.output, c.output);
    c.fixed + inputTokens as real * c.input / 1000.0 + outputTokens as real * c.output / 1000.0
  }

  // An endpoint's own estimate counts when it is positive; the tier's assumption stands in otherwise.
  function Estimate(tier: Tier, inputTokens: nat, outputTokens: nat, configured: real): (e: real)
    ensures e > 0.0
  {
    if configured > 0.0 then configured else Assumed(tier, inputTokens, outputTokens)
  }

  // What routing itself costs is charged to the selected endpoint.
  const ROUTER_ENERGY := 0.000002

  function Rank(tier: Tier): nat {
    match tier
    case Specialized => 0
    case Small => 1
    case Standard => 2
    case Other => 2
    case Frontier => 3
  }

  // Between assumptions, a lower tier needs less for the same tokens by more than the router adds.
  lemma AssumptionsFollowTheTiers(lower: Tier, higher: Tier, inputTokens: nat, outputTokens: nat)
    requires Rank(lower) < Rank(higher)
    ensures Assumed(lower, inputTokens, outputTokens) + ROUTER_ENERGY <= Assumed(higher, inputTokens, outputTokens)
  {
    var a, b := CoefficientsOf(lower), CoefficientsOf(higher);
    ProductsGrow(inputTokens as real, inputTokens as real, a.input, b.input);
    ProductsGrow(outputTokens as real, outputTokens as real, a.output, b.output);
  }

  // What an endpoint is charged at least: its own estimate, or the fixed part of its tier's.
  function Least(tier: Tier, own: real): real {
    if own > 0.0 then own else CoefficientsOf(tier).fixed
  }

  // A lower tier is charged no more whatever the request exactly when neither endpoint has an estimate of
  // its own, or it has one below the least the higher is charged. An assumption grows with the tokens past
  // every estimate.
  lemma EstimatesFollowTheTiers(lower: Tier, lowerOwn: real, higher: Tier, higherOwn: real)
    requires Rank(lower) < Rank(higher)
    ensures (forall input: nat, output: nat ::
               Estimate(lower, input, output, lowerOwn) + ROUTER_ENERGY <= Estimate(higher, input, output, higherOwn))
            <==> || (lowerOwn <= 0.0 && higherOwn <= 0.0)
                 || (lowerOwn > 0.0 && lowerOwn + ROUTER_ENERGY <= Least(higher, higherOwn))
  {
    forall input: nat, output: nat
      ensures Assumed(lower, input, output) + ROUTER_ENERGY <= Assumed(higher, input, output)
      ensures Assumed(higher, input, output) >= CoefficientsOf(higher).fixed
    {
      AssumptionsFollowTheTiers(lower, higher, input, output);
      AssumedIsLeast(higher, input, output);
    }
    if lowerOwn > 0.0 {
      assert Estimate(lower, 0, 0, lowerOwn) == lowerOwn;
      assert Estimate(higher, 0, 0, higherOwn) == Least(higher, higherOwn);
    } else if higherOwn > 0.0 {
      var input := AssumedPasses(lower, higherOwn);
      assert Estimate(lower, input, 0, lowerOwn) > Estimate(higher, input, 0, higherOwn);
    }
    hide Assumed, CoefficientsOf;
  }

  lemma AssumedIsLeast(tier: Tier, inputTokens: nat, outputTokens: nat)
    ensures Assumed(tier, inputTokens, outputTokens) >= CoefficientsOf(tier).fixed
    ensures Assumed(tier, 0, 0) == CoefficientsOf(tier).fixed
  {
    var c := CoefficientsOf(tier);
    ProductsGrow(0.0, inputTokens as real, c.input, c.input);
    ProductsGrow(0.0, outputTokens as real, c.output, c.output);
  }

  // The coefficients are for a thousand tokens.
  lemma AssumedPerThousand(tier: Tier, inputTokens: nat, outputTokens: nat)
    ensures var c := CoefficientsOf(tier);
            && Assumed(tier, inputTokens + 1000, outputTokens) == Assumed(tier, inputTokens, outputTokens) + c.input
            && Assumed(tier, inputTokens, outputTokens + 1000) == Assumed(tier, inputTokens, outputTokens) + c.output
  {
  }

  lemma AssumedPasses(tier: Tier, own: real) returns (input: nat)
    requires own > 0.0
    ensures Assumed(tier, input, 0) > own
  {
    var c := CoefficientsOf(tier);
    var enough := own * 1000.0 / c.input;
    input := enough.Floor + 1;
    ProductsGrow(enough, input as real, c.input, c.input);
    assert enough * c.input == own * 1000.0;
  }

  datatype Request = Request(
    baseline: Tier, baselineOwn: real, selected: Tier, selectedOwn: real, inputTokens: nat, outputTokens: nat)

  function BaselineEnergy(r: Request): (e: real)
    ensures e > 0.0
  {
    Estimate(r.baseline, r.inputTokens, r.outputTokens, r.baselineOwn)
  }

  function SelectedEnergy(r: Request): (e: real)
    ensures e > 0.0
  {
    Estimate(r.selected, r.inputTokens, r.outputTokens, r.selectedOwn) + ROUTER_ENERGY
  }

  // The counterfactual recorded with a request.
  function RequestImpact(overlay: Overlay, r: Request): Impact {
    Counterfactual(overlay, BaselineEnergy(r), SelectedEnergy(r))
  }

  // The raw delta is what the move to the target region avoids at the baseline's energy, less what the
  // energy spent beyond the baseline's costs there: it is negative exactly when more energy is spent and
  // costs more than the move avoids.
  lemma AddsCarbonExactlyWhen(readings: seq<Reading>, referenceRegion: string, fold: char -> string, r: Request)
    requires Choose(readings, referenceRegion, fold).Some?
    ensures var overlay := Choose(readings, referenceRegion, fold).value;
            var impact := RequestImpact(overlay, r);
            var extra := SelectedEnergy(r) - BaselineEnergy(r);
            var cleaner := overlay.reference.intensity - overlay.target.intensity;
            && cleaner >= 0.0
            && impact.rawDelta == BaselineEnergy(r) * cleaner - extra * overlay.target.intensity
            && (impact.rawDelta < 0.0 <==>
                  extra > 0.0 && BaselineEnergy(r) * cleaner < extra * overlay.target.intensity)
  {
    var overlay := Choose(readings, referenceRegion, fold).value;
    TargetSavesCarbon(readings, referenceRegion, fold, BaselineEnergy(r), SelectedEnergy(r));
    hide Choose, BaselineEnergy, SelectedEnergy, Estimate;
    Regrouped(BaselineEnergy(r), SelectedEnergy(r), overlay.reference.intensity, overlay.target.intensity);
  }

  lemma Regrouped(b: real, s: real, reference: real, target: real)
    ensures b * reference - s * target == b * (reference - target) - (s - b) * target
  {
  }

  // Two endpoints charged the same energy, as a request kept on its baseline's own is: carbon is added
  // exactly when the region is not cleaner by more than the router's share.
  lemma SameEnergyAddsCarbonExactlyWhen(readings: seq<Reading>, referenceRegion: string, fold: char -> string,
                                        r: Request)
    requires Choose(readings, referenceRegion, fold).Some?
    requires SelectedEnergy(r) == BaselineEnergy(r) + ROUTER_ENERGY
    ensures var overlay := Choose(readings, referenceRegion, fold).value;
            RequestImpact(overlay, r).rawDelta < 0.0 <==>
              BaselineEnergy(r) * (overlay.reference.intensity - overlay.target.intensity)
              < ROUTER_ENERGY * overlay.target.intensity
  {
    hide RequestImpact, Choose, BaselineEnergy, SelectedEnergy;
    AddsCarbonExactlyWhen(readings, referenceRegion, fold, r);
  }

  // A request routed to a lower tier adds no carbon when neither endpoint has an estimate of its own.
  lemma LowerTierAddsNoCarbon(readings: seq<Reading>, referenceRegion: string, fold: char -> string, r: Request)
    requires Choose(readings, referenceRegion, fold).Some?
    requires Rank(r.selected) < Rank(r.baseline) && r.selectedOwn <= 0.0 && r.baselineOwn <= 0.0
    ensures RequestImpact(Choose(readings, referenceRegion, fold).value, r).rawDelta >= 0.0
  {
    AssumptionsFollowTheTiers(r.selected, r.baseline, r.inputTokens, r.outputTokens);
    hide Choose, RequestImpact, Assumed;
    AddsCarbonExactlyWhen(readings, referenceRegion, fold, r);
  }

  // With estimates of their own it may: a small endpoint that needs twice its frontier baseline's energy.
  lemma LowerTierCanAddCarbon(region: Candidate, intensity: Amount, fold: char -> string)
    requires intensity > 0.0
    ensures var reading := Reading(region, intensity, true);
            RequestImpact(Overlay(reading, reading), Request(Frontier, 0.0001, Small, 0.0002, 0, 0)).rawDelta < 0.0
  {
    var reading := Reading(region, intensity, true);
    var r := Request(Frontier, 0.0001, Small, 0.0002, 0, 0);
    assert RequestImpact(Overlay(reading, reading), r).rawDelta == 0.0001 * intensity - 0.000202 * intensity;
  }
}
