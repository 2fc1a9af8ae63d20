/** Training datasets: import, generation, review, approval, copy-on-write editing and export.

    A family is the datasets of one kind and profile in version order: versions are numbered by the
    latest one plus one and are never deleted, so version v is entry v - 1. The manifest's digest is taken
    to be injective, so a manifest is the list of canonical lines it hashes. */
module Datasets {
  import opened Prelude
  import opened Text

  datatype Meta = Meta(review: Option<string>, approved: bool, rest: string)

  datatype Example = Example(
    externalId: string, split: string, input: string, output: string, meta: Meta, approved: bool)

  // One line of the manifest: everything but the approval flag.
  datatype Line = Line(externalId: string, split: string, input: string, output: string, meta: Meta)

  datatype Status = Draft | Generating | ReviewRequired | Approved | Failed

  datatype Dataset = Dataset(status: Status, examples: seq<Example>, count: nat, manifest: Option<seq<Line>>)

  type Family = seq<Dataset>

  datatype Outcome = Ok | NotFound | Conflict | Unconfirmed | Empty | Invalid

  // --- The manifest ----------------------------------------------------------------------

  function LineOf(e: Example): Line {
    Line(e.externalId, e.split, e.input, e.output, e.meta)
  }

  // Python's sort by external id: stable, so a tie keeps the earlier line first.
  function Insert(x: Line, sorted: seq<Line>): seq<Line> {
    if sorted == [] || !Less(sorted[0].externalId, x.externalId) then [x] + sorted
    else [sorted[0]] + Insert(x, sorted[1..])
  }

  function Manifest(examples: seq<Example>): seq<Line> {
    if examples == [] then [] else Insert(LineOf(examples[0]), Manifest(examples[1..]))
  }

  predicate Distinct(examples: seq<Example>) {
    forall i, j :: 0 <= i < j < |examples| ==> examples[i].externalId != examples[j].externalId
  }

  // The lines of some rows, whatever order the database returned them in.
  function Lines(examples: seq<Example>): (lines: multiset<Line>)
    ensures forall l :: l in lines <==> exists i :: 0 <= i < |examples| && LineOf(examples[i]) == l
  {
    if examples == [] then multiset{} else multiset{LineOf(examples[0])} + Lines(examples[1..])
  }

  predicate Ascending(lines: seq<Line>) {
    forall i, j :: 0 <= i < j < |lines| ==> Less(lines[i].externalId, lines[j].externalId)
  }

  lemma {:induction false} InsertKeepsLines(x: Line, sorted: seq<Line>)
    ensures multiset(Insert(x, sorted)) == multiset{x} + multiset(sorted)
  {
    if sorted != [] && Less(sorted[0].externalId, x.externalId) {
      InsertKeepsLines(x, sorted[1..]);
      assert sorted == [sorted[0]] + sorted[1..];
    }
  }

  lemma {:induction false} ManifestHasTheLines(examples: seq<Example>)
    ensures multiset(Manifest(examples)) == Lines(examples)
  {
    if examples != [] {
      ManifestHasTheLines(examples[1..]);
      InsertKeepsLines(LineOf(examples[0]), Manifest(examples[1..]));
    }
  }

  lemma {:induction false} InsertAscends(x: Line, sorted: seq<Line>)
    requires Ascending(sorted) && forall l :: l in sorted ==> l.externalId != x.externalId
    ensures Ascending(Insert(x, sorted))
  {
    if sorted != [] {
      var first := sorted[0];
      LessIsTotal(first.externalId, x.externalId);
      if Less(first.externalId, x.externalId) {
        InsertAscends(x, sorted[1..]);
        InsertKeepsLines(x, sorted[1..]);
        var rest := Insert(x, sorted[1..]);
        forall j | 0 <= j < |rest| ensures Less(first.externalId, rest[j].externalId) {
          assert rest[j] in multiset(rest);
          assert rest[j] == x || rest[j] in sorted[1..];
        }
      } else {
        forall j | 0 <= j < |sorted| ensures Less(x.externalId, sorted[j].externalId) {
          if j > 0 {
            LessIsTransitive(x.externalId, first.externalId, sorted[j].externalId);
          }
        }
      }
    }
  }

  lemma {:induction false} ManifestAscends(examples: seq<Example>)
    requires Distinct(examples)
    ensures Ascending(Manifest(examples))
  {
    if examples != [] {
      var rest := examples[1..];
      ManifestAscends(rest);
      ManifestHasTheLines(rest);
      forall l | l in Manifest(rest) ensures l.externalId != examples[0].externalId {
        assert l in multiset(Manifest(rest));
        var i :| 0 <= i < |rest| && LineOf(rest[i]) == l;
        assert examples[i + 1] == rest[i];
      }
      InsertAscends(LineOf(examples[0]), Manifest(rest));
    }
  }

  lemma {:induction false} AscendingIsUnique(a: seq<Line>, b: seq<Line>)
    requires Ascending(a) && Ascending(b) && multiset(a) == multiset(b)
    ensures a == b
  {
    assert |multiset(a)| == |a| && |multiset(b)| == |b|;
    if a != [] {
      HeadsAgree(a, b);
      assert a == [a[0]] + a[1..] && b == [b[0]] + b[1..];
      assert multiset(a[1..]) == multiset(a) - multiset{a[0]};
      assert multiset(b[1..]) == multiset(b) - multiset{b[0]};
      AscendingIsUnique(a[1..], b[1..]);
    }
  }

  lemma HeadsAgree(a: seq<Line>, b: seq<Line>)
    requires a != [] && b != [] && Ascending(a) && Ascending(b) && multiset(a) == multiset(b)
    ensures a[0] == b[0]
  {
    assert a[0] in multiset(b) && b[0] in multiset(a);
    var i: nat :| i < |b| && b[i] == a[0];
    var j: nat :| j < |a| && a[j] == b[0];
    LessIsTotal(a[0].externalId, b[0].externalId);
  }

  // With distinct external ids the manifest says exactly which lines it covers, in no particular order:
  // two sets of rows have one manifest if and only if they have the same lines.
  lemma ManifestPinsTheContent(xs: seq<Example>, ys: seq<Example>)
    requires Distinct(xs) && Distinct(ys)
    ensures Manifest(xs) == Manifest(ys) <==> Lines(xs) == Lines(ys)
  {
    ManifestHasTheLines(xs);
    ManifestHasTheLines(ys);
    if Lines(xs) == Lines(ys) {
      ManifestAscends(xs);
      ManifestAscends(ys);
      AscendingIsUnique(Manifest(xs), Manifest(ys));
    }
  }

  // The database's unique constraint is what this rests on: with a repeated id the order shows.
  lemma RepeatedIdsShowTheOrder(x: Example, y: Example)
    requires x.externalId == y.externalId && LineOf(x) != LineOf(y)
    ensures Lines([x, y]) == Lines([y, x]) && Manifest([x, y]) != Manifest([y, x])
  {
    LessIsTotal(x.externalId, y.externalId);
    assert [x, y][1..] == [y] && [y, x][1..] == [x];
    assert [x][1..] == [] && [y][1..] == [];
    assert Manifest([x]) == [LineOf(x)] && Manifest([y]) == [LineOf(y)];
    assert Manifest([x, y])[0] == LineOf(x) && Manifest([y, x])[0] == LineOf(y);
  }

  // --- Approval and export ---------------------------------------------------------------

  predicate Rejected(e: Example) {
    e.meta.review == Some("rejected")
  }

  function Reviewed(e: Example): Example {
    if Rejected(e) then e.(approved := false)
    else e.(approved := true, meta := e.meta.(review := Some("approved")))
  }

  function ReviewAll(examples: seq<Example>): (r: seq<Example>)
    ensures |r| == |examples|
    ensures forall i :: 0 <= i < |r| ==> r[i] == Reviewed(examples[i])
  {
    if examples == [] then [] else ReviewAll(examples[..|examples| - 1]) + [Reviewed(examples[|examples| - 1])]
  }

  // The rows an export selects.
  function Exported(examples: seq<Example>): seq<Example> {
    if examples == [] then []
    else
      var last := examples[|examples| - 1];
      Exported(examples[..|examples| - 1]) + (if last.approved then [last] else [])
  }

  lemma {:induction false} ExportedAreApproved(examples: seq<Example>)
    ensures forall e :: e in Exported(examples) <==> e in examples && e.approved
  {
    if examples != [] {
      ExportedAreApproved(examples[..|examples| - 1]);
      assert examples == examples[..|examples| - 1] + [examples[|examples| - 1]];
    }
  }

  lemma {:induction false} ExportedIsDistinct(examples: seq<Example>)
    requires Distinct(examples)
    ensures Distinct(Exported(examples))
  {
    if examples != [] {
      ExportedIsDistinct(examples[..|examples| - 1]);
      ExportedAreApproved(examples[..|examples| - 1]);
    }
  }

  // --- Editing ---------------------------------------------------------------------------

  datatype Edit = Edit(
    input: Option<string>, output: Option<string>, meta: Option<Meta>, split: Option<string>,
    review: Option<string>)

  predicate ValidEdit(edit: Edit) {
    && (edit.input.Some? ==> 3 <= |edit.input.value| <= 4000)
    && (edit.split.Some? ==> edit.split.value in {"train", "eval", "test"})
    && (edit.review.Some? ==> edit.review.value in {"approved", "rejected", "pending"})
  }

  function Edited(e: Example, edit: Edit): Example {
    var e1 := if edit.input.None? then e else
      e.(input := edit.input.value, approved := false, meta := e.meta.(review := Some("pending")));
    var e2 := if edit.output.None? then e1 else
      e1.(output := edit.output.value, approved := false, meta := e1.meta.(review := Some("pending")));
    var e3 := if edit.meta.None? then e2 else e2.(meta := edit.meta.value);
    var e4 := if edit.split.None? then e3 else e3.(split := edit.split.value);
    if edit.review.None? then e4 else
      e4.(approved := edit.review.value == "approved", meta := e4.meta.(review := edit.review))
  }

  // What an edit does: the named fields take the given values and the others stay; a changed text withdraws
  // the approval unless the edit itself reviews the row.
  lemma EditChangesExactly(e: Example, edit: Edit)
    ensures var f := Edited(e, edit);
            && f.externalId == e.externalId
            && f.input == (if edit.input.Some? then edit.input.value else e.input)
            && f.output == (if edit.output.Some? then edit.output.value else e.output)
            && f.split == (if edit.split.Some? then edit.split.value else e.split)
            && (edit.meta.None? ==> f.meta.approved == e.meta.approved && f.meta.rest == e.meta.rest)
            && (edit.meta.Some? ==>
                  f.meta.approved == edit.meta.value.approved && f.meta.rest == edit.meta.value.rest)
            && f.meta.review == (if edit.review.Some? then edit.review
                                 else if edit.meta.Some? then edit.meta.value.review
                                 else if edit.input.Some? || edit.output.Some? then Some("pending")
                                 else e.meta.review)
            && (f.approved <==> if edit.review.Some? then edit.review.value == "approved"
                                else e.approved && edit.input.None? && edit.output.None?)
  {
  }

  function Clone(e: Example): Example {
    e.(approved := false, meta := e.meta.(approved := false))
  }

  function Clones(examples: seq<Example>): (r: seq<Example>)
    ensures |r| == |examples|
    ensures forall i :: 0 <= i < |r| ==> r[i] == Clone(examples[i])
  {
    if examples == [] then [] else Clones(examples[..|examples| - 1]) + [Clone(examples[|examples| - 1])]
  }

  function IndexOf(examples: seq<Example>, externalId: string): (found: Option<nat>)
    ensures found.Some? ==> found.value < |examples| && examples[found.value].externalId == externalId
    ensures found.None? ==> forall i :: 0 <= i < |examples| ==> examples[i].externalId != externalId
  {
    if examples == [] then None
    else if examples[|examples| - 1].externalId == externalId then Some(|examples| - 1)
    else IndexOf(examples[..|examples| - 1], externalId)
  }

  // --- One request or job, and whole runs ------------------------------------------------

  datatype Op =
    | Generate
    | Restart(version: nat)
    | Generated(version: nat, examples: seq<Example>, manifest: seq<Line>)
    | Import(examples: seq<Example>)
    | Patch(version: nat, externalId: string, edit: Edit)
    | Approve(version: nat, confirm: bool)
    | JobFails(version: nat)

  predicate Editable(d: Dataset) {
    d.status == Draft || d.status == ReviewRequired
  }

  predicate Unapproved(examples: seq<Example>) {
    forall e :: e in examples ==> !e.approved
  }

  // What a patch, an approval and an import leave, or the refusal that leaves everything as it was.
  function Patched(f: Family, version: nat, externalId: string, edit: Edit): (Outcome, Family) {
    if version >= |f| || IndexOf(f[version].examples, externalId).None? then (NotFound, f)
    else
      var d := f[version];
      var at := IndexOf(d.examples, externalId).value;
      if d.status == Approved then
        if !ValidEdit(edit) then (Invalid, f)
        else
          var clones := Clones(d.examples);
          var rows := clones[at := Edited(clones[at], edit)];
          (Ok, f + [Dataset(ReviewRequired, rows, d.count, None)])
      else if !Editable(d) then (Conflict, f)
      else if !ValidEdit(edit) then (Invalid, f)
      else
        var rows := d.examples[at := Edited(d.examples[at], edit)];
        (Ok, f[version := d.(examples := rows, manifest := None)])
  }

  function Approval(f: Family, version: nat, confirm: bool): (Outcome, Family) {
    if !confirm then (Unconfirmed, f)
    else if version >= |f| || !Editable(f[version]) then (Conflict, f)
    else
      var rows := ReviewAll(f[version].examples);
      var accepted := Exported(rows);
      if accepted == [] then (Empty, f)
      else (Ok, f[version := Dataset(Approved, rows, |accepted|, Some(Manifest(accepted)))])
  }

  function Imported(f: Family, examples: seq<Example>): (Outcome, Family) {
    if !Distinct(examples) || !Unapproved(examples) then (Conflict, f)
    else (Ok, f + [Dataset(ReviewRequired, examples, |examples|, None)])
  }

  function Step(f: Family, op: Op): Family {
    match op
    case Generate => f + [Dataset(Generating, [], 0, None)]
    case Restart(v) =>
      if v < |f| && f[v].status == Generating then f[v := Dataset(Generating, [], 0, None)] else f
    case Generated(v, examples, manifest) =>
      if v < |f| && f[v].status == Generating && examples != [] && Unapproved(examples)
         && Distinct(f[v].examples + examples) then
        f[v := Dataset(ReviewRequired, f[v].examples + examples, |examples|, Some(manifest))]
      else f
    case Import(examples) => Imported(f, examples).1
    case Patch(v, externalId, edit) => Patched(f, v, externalId, edit).1
    case Approve(v, confirm) => Approval(f, v, confirm).1
    case JobFails(v) =>
      if v < |f| && f[v].status != Approved then f[v := f[v].(status := Failed)] else f
  }

  function Run(f: Family, ops: seq<Op>): Family
    decreases |ops|
  {
    if ops == [] then f else Run(Step(f, ops[0]), ops[1..])
  }

  // An approved dataset exports something, counts it, and its manifest covers exactly that.
  predicate Sealed(d: Dataset) {
    d.status == Approved ==>
      && d.count == |Exported(d.examples)| && d.count > 0
      && d.manifest == Some(Manifest(Exported(d.examples)))
      && forall e :: e in d.examples ==> (e.approved <==> !Rejected(e))
  }

  predicate Inv(f: Family) {
    forall v :: 0 <= v < |f| ==> Distinct(f[v].examples) && Sealed(f[v])
  }

  // Approved versions are still there, unchanged.
  predicate Frozen(f: Family, g: Family) {
    |f| <= |g| && forall v :: 0 <= v < |f| && f[v].status == Approved ==> g[v] == f[v]
  }

  lemma ReviewSeals(f: Family, version: nat)
    requires version < |f| && Inv(f)
    ensures Inv(Approval(f, version, true).1)
  {
    var rows := ReviewAll(f[version].examples);
    assert Distinct(rows) by {
      forall i, j | 0 <= i < j < |rows| ensures rows[i].externalId != rows[j].externalId {
        assert f[version].examples[i].externalId != f[version].examples[j].externalId;
      }
    }
    forall e | e in rows ensures e.approved <==> !Rejected(e) {
      var i :| 0 <= i < |rows| && rows[i] == e;
    }
  }

  lemma PatchKeepsInv(f: Family, version: nat, externalId: string, edit: Edit)
    requires Inv(f)
    ensures Inv(Patched(f, version, externalId, edit).1)
  {
    if version < |f| && IndexOf(f[version].examples, externalId).Some? {
      var rows := f[version].examples;
      var at := IndexOf(rows, externalId).value;
      EditKeepsIds(rows, at, edit);
      EditKeepsIds(Clones(rows), at, edit);
    }
  }

  lemma EditKeepsIds(rows: seq<Example>, at: nat, edit: Edit)
    requires at < |rows|
    ensures Distinct(rows[at := Edited(rows[at], edit)]) <==> Distinct(rows)
  {
    var after := rows[at := Edited(rows[at], edit)];
    assert forall i :: 0 <= i < |rows| ==> after[i].externalId == rows[i].externalId;
  }

  lemma StepKeepsInv(f: Family, op: Op)
    requires Inv(f)
    ensures Inv(Step(f, op))
  {
    match op
    case Generate =>
    case Restart(v) =>
    case Generated(v, examples, manifest) =>
    case Import(examples) =>
    case Patch(v, externalId, edit) => PatchKeepsInv(f, v, externalId, edit);
    case Approve(v, confirm) => if confirm && v < |f| { ReviewSeals(f, v); }
    case JobFails(v) =>
  }

  lemma StepFreezes(f: Family, op: Op)
    ensures Frozen(f, Step(f, op))
  {
  }

  // In every run an approved dataset stays what it was when it was approved, and what it exports is
  // always what its count and its manifest say.
  lemma {:induction false} ApprovedDatasetsAreFrozen(f: Family, ops: seq<Op>)
    requires Inv(f)
    ensures Inv(Run(f, ops)) && Frozen(f, Run(f, ops))
    decreases |ops|
  {
    if ops != [] {
      StepKeepsInv(f, ops[0]);
      StepFreezes(f, ops[0]);
      ApprovedDatasetsAreFrozen(Step(f, ops[0]), ops[1..]);
    }
  }

  // Editing an approved version leaves it alone: the next version holds unapproved copies of all its rows,
  // and only the edited one can differ from its original.
  lemma EditingApprovedCopies(f: Family, version: nat, externalId: string, edit: Edit)
    requires version < |f| && f[version].status == Approved
    requires Patched(f, version, externalId, edit).0 == Ok
    ensures var g := Patched(f, version, externalId, edit).1;
            && |g| == |f| + 1 && g[..|f|] == f
            && g[|f|].status == ReviewRequired && g[|f|].manifest.None?
            && |g[|f|].examples| == |f[version].examples|
            && forall i :: 0 <= i < |f[version].examples| ==>
                 var was, now := f[version].examples[i], g[|f|].examples[i];
                 && now.externalId == was.externalId
                 && (was.externalId != externalId ==>
                       !now.approved && now == was.(approved := false, meta := was.meta.(approved := false)))
  {
    var rows := f[version].examples;
    var at := IndexOf(rows, externalId).value;
    forall i | 0 <= i < |rows| && rows[i].externalId != externalId ensures i != at {
    }
  }

  // When an edit is taken, and what it leaves: a dataset in draft or review is edited in place, its other rows,
  // its status and the other versions stay, and it has no manifest any more.
  lemma EditTakenExactlyWhen(f: Family, version: nat, externalId: string, edit: Edit)
    ensures var (outcome, g) := Patched(f, version, externalId, edit);
            && (outcome == Ok <==>
                  && version < |f| && (exists e :: e in f[version].examples && e.externalId == externalId)
                  && f[version].status != Generating && f[version].status != Failed
                  && (edit.input.Some? ==> 2 < |edit.input.value| < 4001)
                  && (edit.split.Some? ==> edit.split.value in ["train", "eval", "test"])
                  && (edit.review.Some? ==> edit.review.value in ["approved", "rejected", "pending"]))
            && (outcome != Ok ==> g == f)
            && (outcome == Ok && f[version].status != Approved ==>
                  && |g| == |f| && g[version].manifest.None?
                  && g[version].status == f[version].status && g[version].count == f[version].count
                  && (forall v :: 0 <= v < |f| && v != version ==> g[v] == f[v])
                  && |g[version].examples| == |f[version].examples|
                  && (forall i :: 0 <= i < |f[version].examples| && f[version].examples[i].externalId != externalId ==>
                        g[version].examples[i] == f[version].examples[i])
                  && exists i :: 0 <= i < |f[version].examples| && f[version].examples[i].externalId == externalId
                                 && g[version].examples[i] == Edited(f[version].examples[i], edit))
  {
    hide Edited;
    if version < |f| {
      var rows := f[version].examples;
      if IndexOf(rows, externalId).None? {
        assert forall e :: e in rows ==> e.externalId != externalId;
      } else {
        assert rows[IndexOf(rows, externalId).value] in rows;
      }
    }
  }

  // When a dataset is approved, and what that leaves: every row not rejected is approved, a rejected one is not,
  // and nothing else of a row changes.
  lemma ApprovedExactlyWhen(f: Family, version: nat, confirm: bool)
    ensures var (outcome, g) := Approval(f, version, confirm);
            && (outcome == Ok <==>
                  && confirm && version < |f| && (f[version].status == Draft || f[version].status == ReviewRequired)
                  && exists e :: e in f[version].examples && !Rejected(e))
            && (outcome != Ok ==> g == f)
            && (outcome == Ok ==>
                  && |g| == |f| && g[version].status == Approved
                  && (forall v :: 0 <= v < |f| && v != version ==> g[v] == f[v])
                  && |g[version].examples| == |f[version].examples|
                  && forall i :: 0 <= i < |f[version].examples| ==>
                       ReviewedFrom(f[version].examples[i], g[version].examples[i]))
  {
    ApprovalIsTaken(f, version, confirm);
    ApprovalLeaves(f, version, confirm);
    hide Approval, ReviewedFrom, Rejected;
  }

  lemma ApprovalIsTaken(f: Family, version: nat, confirm: bool)
    ensures Approval(f, version, confirm).0 == Ok <==>
            && confirm && version < |f| && (f[version].status == Draft || f[version].status == ReviewRequired)
            && exists e :: e in f[version].examples && !Rejected(e)
  {
    if version < |f| {
      SomeAreAccepted(f[version].examples);
    }
    hide Exported, Manifest, ReviewAll, Rejected;
  }

  lemma ApprovalLeaves(f: Family, version: nat, confirm: bool)
    ensures var (outcome, g) := Approval(f, version, confirm);
            && (outcome != Ok ==> g == f)
            && (outcome == Ok ==>
                  && version < |f| && |g| == |f| && g[version].status == Approved
                  && (forall v :: 0 <= v < |f| && v != version ==> g[v] == f[v])
                  && |g[version].examples| == |f[version].examples|
                  && forall i :: 0 <= i < |f[version].examples| ==>
                       ReviewedFrom(f[version].examples[i], g[version].examples[i]))
  {
    if version < |f| {
      EachIsReviewed(f[version].examples);
    }
    hide Exported, Manifest, ReviewAll, ReviewedFrom, Rejected;
  }

  predicate ReviewedFrom(was: Example, now: Example) {
    if was.meta.review == Some("rejected") then now == was.(approved := false)
    else now == was.(approved := true, meta := was.meta.(review := Some("approved")))
  }

  lemma EachIsReviewed(examples: seq<Example>)
    ensures forall i :: 0 <= i < |examples| ==> ReviewedFrom(examples[i], ReviewAll(examples)[i])
  {
  }

  lemma SomeAreAccepted(examples: seq<Example>)
    ensures Exported(ReviewAll(examples)) != [] <==> exists e :: e in examples && !Rejected(e)
  {
    var rows := ReviewAll(examples);
    ExportedAreApproved(rows);
    hide Exported;
    if e :| e in examples && !Rejected(e) {
      var i :| 0 <= i < |examples| && examples[i] == e;
      assert rows[i] in Exported(rows);
    }
    if Exported(rows) != [] {
      var e := Exported(rows)[0];
      var i :| 0 <= i < |rows| && rows[i] == e;
      assert examples[i] in examples;
    }
  }

  // Only a confirmed approval makes a dataset approved. Every other request and job leaves the versions there are
  // as many and unapproved as they were, or adds one for review or generation.
  lemma OnlyApprovalApproves(f: Family, op: Op, v: nat)
    requires v < |Step(f, op)| && Step(f, op)[v].status == Approved && (v < |f| ==> f[v].status != Approved)
    ensures op == Approve(v, true) && v < |f|
  {
  }

  // How versions come about: an import of distinct, unapproved rows makes one for review that holds exactly
  // them, and a generation makes one that waits for its rows and takes them once, unapproved and distinct.
  lemma VersionsAreMade(f: Family, examples: seq<Example>, manifest: seq<Line>)
    ensures if Distinct(examples) && (forall e :: e in examples ==> !e.approved)
            then Step(f, Import(examples)) == f + [Dataset(ReviewRequired, examples, |examples|, None)]
            else Step(f, Import(examples)) == f
    ensures var g := Step(f, Generate);
            && |g| == |f| + 1 && g[..|f|] == f && g[|f|].status == Generating && g[|f|].examples == []
            && Step(g, Restart(|f|)) == g
            && var h := Step(g, Generated(|f|, examples, manifest));
            if examples != [] && Distinct(examples) && (forall e :: e in examples ==> !e.approved)
            then h[|f|] == Dataset(ReviewRequired, examples, |examples|, Some(manifest)) && h[..|f|] == f
                 && Step(h, Generated(|f|, examples, manifest)) == h && Step(h, Restart(|f|)) == h
            else h == g
    ensures forall v :: 0 <= v < |f| ==>
              Step(f, JobFails(v)) == if f[v].status == Approved then f else f[v := f[v].(status := Failed)]
  {
    assert [] + examples == examples;
    var g := Step(f, Generate);
    assert g[|f| := g[|f|]] == g;
  }

  // --- The handlers ----------------------------------------------------------------------

  lemma ReviewStep(examples: seq<Example>, k: nat)
    requires k < |examples|
    ensures ReviewAll(examples[..k + 1]) == ReviewAll(examples[..k]) + [Reviewed(examples[k])]
  {
    hide Reviewed;
    assert examples[..k + 1][..k] == examples[..k];
  }

  lemma ExportedStep(rows: seq<Example>, e: Example)
    ensures Exported(rows + [e]) == Exported(rows) + if e.approved then [e] else []
  {
    assert (rows + [e])[..|rows + [e]| - 1] == rows;
  }

  method ReviewRows(examples: seq<Example>)
    returns (rows: seq<Example>, accepted: seq<Example>, rejectedCount: nat)
    ensures rows == ReviewAll(examples) && accepted == Exported(rows)
    ensures rejectedCount + |accepted| == |examples|
  {
    rows, accepted, rejectedCount := [], [], 0;
    for k := 0 to |examples|
      invariant rows == ReviewAll(examples[..k]) && accepted == Exported(rows)
      invariant rejectedCount + |accepted| == k
    {
      var example := examples[k];
      ReviewStep(examples, k);
      ExportedStep(rows, Reviewed(example));
      hide ReviewAll, Exported;
      if Rejected(example) {
        rows := rows + [example.(approved := false)];
        rejectedCount := rejectedCount + 1;
      } else {
        example := example.(approved := true, meta := example.meta.(review := Some("approved")));
        rows := rows + [example];
        accepted := accepted + [example];
      }
    }
    assert examples[..|examples|] == examples;
  }

  method CloneRows(examples: seq<Example>) returns (clones: seq<Example>)
    ensures clones == Clones(examples)
  {
    clones := [];
    for k := 0 to |examples|
      invariant clones == Clones(examples[..k])
    {
      assert examples[..k + 1][..k] == examples[..k];
      clones := clones + [Clone(examples[k])];
    }
    assert examples[..|examples|] == examples;
  }

  class DatasetStore {
    var family: Family

    constructor ()
      ensures family == [] && Inv(family)
    {
      family := [];
    }

    method ApproveDataset(version: nat, confirm: bool) returns (outcome: Outcome, rejectedCount: nat)
      modifies this
      ensures (outcome, family) == Approval(old(family), version, confirm)
      ensures outcome == Ok ==>
                version < |family| && rejectedCount + family[version].count == |family[version].examples|
    {
      rejectedCount := 0;
      if !confirm {
        return Unconfirmed, 0;
      }
      if version >= |family| || !Editable(family[version]) {
        return Conflict, 0;
      }
      var rows, accepted;
      rows, accepted, rejectedCount := ReviewRows(family[version].examples);
      if accepted == [] {
        return Empty, rejectedCount;
      }
      family := family[version := Dataset(Approved, rows, |accepted|, Some(Manifest(accepted)))];
      outcome := Ok;
    }

    method PatchExample(version: nat, externalId: string, edit: Edit) returns (outcome: Outcome, target: nat)
      modifies this
      ensures (outcome, family) == Patched(old(family), version, externalId, edit)
      ensures outcome == Ok ==>
                && version < |old(family)| && target < |family| && family[target].status != Approved
                && target == if old(family)[version].status == Approved then |old(family)| else version
    {
      target := version;
      if version >= |family| || IndexOf(family[version].examples, externalId).None? {
        return NotFound, target;
      }
      var dataset := family[version];
      var at := IndexOf(dataset.examples, externalId).value;
      if dataset.status == Approved {
        var clones := CloneRows(dataset.examples);
        if !ValidEdit(edit) {
          return Invalid, target;
        }
        clones := clones[at := Edited(clones[at], edit)];
        target := |family|;
        family := family + [Dataset(ReviewRequired, clones, dataset.count, None)];
        return Ok, target;
      }
      if !Editable(dataset) {
        return Conflict, target;
      }
      if !ValidEdit(edit) {
        return Invalid, target;
      }
      var rows := dataset.examples[at := Edited(dataset.examples[at], edit)];
      family := family[version := dataset.(examples := rows, manifest := None)];
      outcome := Ok;
    }

    // Only an approved dataset is exported, and what goes out is what its manifest covers.
    method ExportDataset(version: nat) returns (exported: Option<seq<Example>>)
      requires Inv(family)
      ensures exported.Some? <==> version < |family| && family[version].status == Approved
      ensures exported.Some? ==>
                && family[version].manifest == Some(Manifest(exported.value))
                && multiset(family[version].manifest.value) == Lines(exported.value)
                && family[version].count == |exported.value| > 0
                && forall e :: e in exported.value <==> e in family[version].examples && !Rejected(e)
    {
      if version >= |family| || family[version].status != Approved {
        return None;
      }
      var examples := family[version].examples;
      var rows: seq<Example> := [];
      for k := 0 to |examples|
        invariant rows == Exported(examples[..k])
      {
        assert examples[..k + 1] == examples[..k] + [examples[k]];
        ExportedStep(examples[..k], examples[k]);
        if examples[k].approved {
          rows := rows + [examples[k]];
        }
      }
      assert examples[..|examples|] == examples;
      ManifestHasTheLines(rows);
      ExportedAreApproved(examples);
      exported := Some(rows);
    }

    method FailJob(version: nat)
      modifies this
      ensures family == Step(old(family), JobFails(version))
    {
      if version < |family| && family[version].status != Approved {
        family := family[version := family[version].(status := Failed)];
      }
    }
  }
}
