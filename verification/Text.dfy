/** String operations the source borrows from its languages: split on a separator, join, concatenate, trim. */
module Text {

  // Leftmost, non-overlapping split: String.split in JavaScript, str.split with a separator in Python.
  function SplitOn(s: string, sep: string): (parts: seq<string>)
    requires sep != ""
    ensures |parts| >= 1
    decreases |s|
  {
    if |s| < |sep| then [s]
    else if s[..|sep|] == sep then [""] + SplitOn(s[|sep|..], sep)
    else Prepend(s[0], SplitOn(s[1..], sep))
  }

  function Prepend(c: char, parts: seq<string>): (r: seq<string>)
    requires |parts| >= 1
    ensures |r| == |parts|
  {
    [[c] + parts[0]] + parts[1..]
  }

  function Join(parts: seq<string>, sep: string): string
    requires |parts| >= 1
  {
    if |parts| == 1 then parts[0] else parts[0] + sep + Join(parts[1..], sep)
  }

  function Concat(parts: seq<string>): string {
    if parts == [] then "" else parts[0] + Concat(parts[1..])
  }

  function Init<T>(s: seq<T>): seq<T>
    requires s != []
  {
    s[..|s| - 1]
  }

  function Last<T>(s: seq<T>): T
    requires s != []
  {
    s[|s| - 1]
  }

  lemma SlicesOfSum<T>(x: seq<T>, y: seq<T>, n: nat)
    requires n <= |x|
    ensures (x + y)[..n] == x[..n] && (x + y)[n..] == x[n..] + y
    ensures x != [] ==> (x + y)[0] == x[0]
  {
  }

  lemma CutAt<T>(s: seq<T>, n: nat)
    requires n <= |s|
    ensures s == s[..n] + s[n..]
  {
  }

  lemma SplitUnfolds(s: string, sep: string)
    requires sep != "" && |s| >= |sep|
    ensures SplitOn(s, sep) ==
            if s[..|sep|] == sep then [""] + SplitOn(s[|sep|..], sep) else Prepend(s[0], SplitOn(s[1..], sep))
  {
  }

  lemma SplitOfShort(s: string, sep: string)
    requires sep != "" && |s| < |sep|
    ensures SplitOn(s, sep) == [s]
  {
  }

  lemma JoinEmptyFirst(rest: seq<string>, sep: string)
    requires |rest| >= 1
    ensures Join([""] + rest, sep) == sep + Join(rest, sep)
  {
    assert ([""] + rest)[1..] == rest;
    assert "" + sep == sep;
  }

  lemma JoinPrepend(c: char, rest: seq<string>, sep: string)
    requires |rest| >= 1
    ensures Join(Prepend(c, rest), sep) == [c] + Join(rest, sep)
  {
    assert Prepend(c, rest)[1..] == rest[1..];
    if |rest| > 1 {
      assert ([c] + rest[0]) + sep + Join(rest[1..], sep) == [c] + (rest[0] + sep + Join(rest[1..], sep));
    }
  }

  lemma {:induction false} JoinUndoesSplit(s: string, sep: string)
    requires sep != ""
    ensures Join(SplitOn(s, sep), sep) == s
    decreases |s|
  {
    if |s| < |sep| {
      SplitOfShort(s, sep);
    } else {
      SplitUnfolds(s, sep);
      hide SplitOn, Join, Prepend;
      if s[..|sep|] == sep {
        JoinUndoesSplit(s[|sep|..], sep);
        JoinEmptyFirst(SplitOn(s[|sep|..], sep), sep);
        assert sep + s[|sep|..] == s;
      } else {
        JoinUndoesSplit(s[1..], sep);
        JoinPrepend(s[0], SplitOn(s[1..], sep), sep);
        assert [s[0]] + s[1..] == s;
      }
    }
  }

  // Splitting can be suspended: keep all parts but the last, and put the last before what comes next.
  lemma {:induction false} SplitIsIncremental(x: string, y: string, sep: string)
    requires sep != ""
    ensures SplitOn(x + y, sep) == Init(SplitOn(x, sep)) + SplitOn(Last(SplitOn(x, sep)) + y, sep)
    decreases |x|
  {
    if |x| < |sep| {
      SplitOfShort(x, sep);
      assert Init([x]) == [];
    } else {
      SplitUnfolds(x, sep);
      SplitUnfolds(x + y, sep);
      hide *;
      SlicesOfSum(x, y, |sep|);
      SlicesOfSum(x, y, 1);
      if x[..|sep|] == sep {
        SplitIsIncremental(x[|sep|..], y, sep);
        AfterEmptyFirst(SplitOn(x[|sep|..], sep), y, sep);
      } else {
        SplitIsIncremental(x[1..], y, sep);
        AfterPrepend(x, y, sep);
      }
    }
  }

  lemma AfterEmptyFirst(rest: seq<string>, y: string, sep: string)
    requires sep != "" && |rest| >= 1
    ensures Init([""] + rest) + SplitOn(Last([""] + rest) + y, sep)
         == [""] + (Init(rest) + SplitOn(Last(rest) + y, sep))
  {
    hide SplitOn;
    assert Init([""] + rest) == [""] + Init(rest);
  }

  lemma AfterPrepend(x: string, y: string, sep: string)
    requires sep != "" && x != "" && |x| >= |sep| && x[..|sep|] != sep
    ensures var rest := SplitOn(x[1..], sep);
            var parts := Prepend(x[0], rest);
            Prepend(x[0], Init(rest) + SplitOn(Last(rest) + y, sep)) == Init(parts) + SplitOn(Last(parts) + y, sep)
  {
    var rest := SplitOn(x[1..], sep);
    if |rest| == 1 {
      JoinUndoesSplit(x[1..], sep);
      assert rest == [x[1..]];
      SplitUnfolds(x + y, sep);
      hide *;
      SlicesOfSum(x, y, |sep|);
      SlicesOfSum(x, y, 1);
      AfterLonePart(x[0], x[1..], SplitOn(x[1..] + y, sep));
      assert [x[0]] + x[1..] == x;
    } else {
      hide *;
      PrependToAll(x[0], rest, SplitOn(Last(rest) + y, sep));
    }
  }

  lemma AfterLonePart(c: char, part: string, more: seq<string>)
    requires |more| >= 1
    ensures Prepend(c, Init([part]) + more) == Init(Prepend(c, [part])) + Prepend(c, more)
    ensures Last([part]) == part && Last(Prepend(c, [part])) == [c] + part
  {
    assert Init([part]) + more == more;
    assert Prepend(c, [part]) == [[c] + part];
    assert Init([[c] + part]) + Prepend(c, more) == Prepend(c, more);
  }

  lemma PrependToAll(c: char, parts: seq<string>, more: seq<string>)
    requires |parts| > 1
    ensures Prepend(c, Init(parts) + more) == Init(Prepend(c, parts)) + more
    ensures Last(Prepend(c, parts)) == Last(parts)
  {
    var all := Init(parts) + more;
    assert all[0] == parts[0];
    assert all[1..] == Init(parts)[1..] + more;
    assert Init(Prepend(c, parts)) == [[c] + parts[0]] + Init(parts)[1..];
  }

  // A part with no trace of the separator, followed by the separator, is split off whole.
  lemma {:induction false} SplitOff(part: string, rest: string, sep: string)
    requires sep != "" && sep[0] !in part
    ensures SplitOn(part + sep + rest, sep) == [part] + SplitOn(rest, sep)
    decreases |part|
  {
    var s := part + sep + rest;
    if part == "" {
      assert s[..|sep|] == sep && s[|sep|..] == rest;
    } else {
      assert s[1..] == part[1..] + sep + rest;
      assert s[..|sep|][0] == part[0];
      SplitOff(part[1..], rest, sep);
      assert [part[0]] + part[1..] == part;
    }
  }

  lemma {:induction false} SplitNothing(part: string, sep: string)
    requires sep != "" && sep[0] !in part
    ensures SplitOn(part, sep) == [part]
    decreases |part|
  {
    if |part| >= |sep| {
      assert part[..|sep|][0] == part[0];
      SplitNothing(part[1..], sep);
      assert [part[0]] + part[1..] == part;
    }
  }

  lemma Regroup<T>(a: seq<T>, b: seq<T>, c: seq<T>)
    ensures (a + b) + c == a + (b + c)
  {
  }

  lemma ConcatUnfolds(s: seq<string>)
    requires s != []
    ensures Concat(s) == s[0] + Concat(s[1..])
  {
  }

  lemma {:induction false} ConcatAppends(a: seq<string>, b: seq<string>)
    ensures Concat(a + b) == Concat(a) + Concat(b)
  {
    if a == [] {
      assert a + b == b;
    } else {
      ConcatUnfolds(a);
      ConcatUnfolds(a + b);
      hide Concat;
      ConcatAppends(a[1..], b);
      assert (a + b)[0] == a[0] && (a + b)[1..] == a[1..] + b;
      Regroup(a[0], Concat(a[1..]), Concat(b));
    }
  }

  // The white space String.prototype.trim removes.
  predicate ScriptSpace(c: char) {
    || c in " \t\n\r" || c == '\U{B}' || c == '\U{C}' || c == '\U{A0}' || c == '\U{FEFF}' || c == '\U{1680}'
    || '\U{2000}' <= c <= '\U{200A}' || c in ['\U{2028}', '\U{2029}', '\U{202F}', '\U{205F}', '\U{3000}']
  }

  // The white space str.strip removes.
  predicate PythonSpace(c: char) {
    || c in " \t\n\r" || c == '\U{B}' || c == '\U{C}' || '\U{1C}' <= c <= '\U{1F}' || c == '\U{85}' || c == '\U{A0}'
    || c == '\U{1680}' || '\U{2000}' <= c <= '\U{200A}'
    || c in ['\U{2028}', '\U{2029}', '\U{202F}', '\U{205F}', '\U{3000}']
  }

  // Where the two disagree: Python strips the information separators and the next-line control, JavaScript the
  // byte order mark.
  lemma SpacesDiffer(c: char)
    ensures PythonSpace(c) && !ScriptSpace(c) <==>
              c == '\U{1C}' || c == '\U{1D}' || c == '\U{1E}' || c == '\U{1F}' || c == '\U{85}'
    ensures ScriptSpace(c) && !PythonSpace(c) <==> c == '\U{FEFF}'
    ensures ScriptSpace(c) && c < '\U{80}' <==> c == ' ' || '\U{9}' <= c <= '\U{D}'
  {
  }

  function TrimStart(s: string, space: char -> bool): string {
    if s != "" && space(s[0]) then TrimStart(s[1..], space) else s
  }

  function TrimEnd(s: string, space: char -> bool): string {
    if s != "" && space(Last(s)) then TrimEnd(Init(s), space) else s
  }

  function Trim(s: string, space: char -> bool): string {
    TrimEnd(TrimStart(s, space), space)
  }

  lemma {:induction false} TrimDropsTrailingSpace(s: string, c: char, space: char -> bool)
    requires space(c)
    ensures Trim(s + [c], space) == Trim(s, space)
    decreases |s|
  {
    if s == "" {
      assert s + [c] == [c];
      assert TrimStart([c], space) == TrimStart([c][1..], space) == "";
    } else if space(s[0]) {
      assert (s + [c])[1..] == s[1..] + [c];
      TrimDropsTrailingSpace(s[1..], c, space);
    } else {
      assert TrimStart(s + [c], space) == s + [c];
      assert Init(s + [c]) == s;
    }
  }

  // Strings in the order of their characters.
  predicate Less(a: string, b: string) {
    b != [] && (a == [] || a[0] < b[0] || (a[0] == b[0] && Less(a[1..], b[1..])))
  }

  lemma {:induction false} LessIsTransitive(a: string, b: string, c: string)
    requires Less(a, b) && Less(b, c)
    ensures Less(a, c)
  {
    if a != [] && a[0] == b[0] && b[0] == c[0] {
      LessIsTransitive(a[1..], b[1..], c[1..]);
    }
  }

  lemma {:induction false} LessIsTotal(a: string, b: string)
    ensures a == b || Less(a, b) || Less(b, a)
    ensures !(Less(a, b) && Less(b, a)) && !Less(a, a)
  {
    if a != [] {
      LessIsTotal(a[1..], a[1..]);
      if b != [] && a[0] == b[0] {
        LessIsTotal(a[1..], b[1..]);
        if a[1..] == b[1..] {
          assert a == [a[0]] + a[1..] && b == [b[0]] + b[1..];
        }
      }
    }
  }

  // --- Trimming and splitting, for parsers -----------------------------------------------

  predicate Trimmed(s: string, space: char -> bool) {
    s == "" || (!space(s[0]) && !space(Last(s)))
  }

  lemma {:induction false} TrimEndTrims(s: string, space: char -> bool)
    ensures var t := TrimEnd(s, space);
            t <= s && (t != "" ==> !space(Last(t)))
  {
    if s != "" && space(Last(s)) {
      TrimEndTrims(Init(s), space);
    }
  }

  lemma {:induction false} TrimStartTrims(s: string, space: char -> bool)
    ensures var t := TrimStart(s, space);
            (forall c :: c in t ==> c in s) && (t != "" ==> !space(t[0]))
  {
    if s != "" && space(s[0]) {
      TrimStartTrims(s[1..], space);
    }
  }

  lemma TrimTrims(s: string, space: char -> bool)
    ensures Trimmed(Trim(s, space), space)
    ensures forall c :: c in Trim(s, space) ==> c in s
  {
    TrimStartTrims(s, space);
    TrimEndTrims(TrimStart(s, space), space);
  }

  lemma TrimKeepsTrimmed(s: string, space: char -> bool)
    requires Trimmed(s, space)
    ensures Trim(s, space) == s
  {
  }

  lemma {:induction false} PartsLackTheSeparator(s: string, c: char)
    ensures forall p :: p in SplitOn(s, [c]) ==> c !in p
    decreases |s|
  {
    if s != "" {
      PartsLackTheSeparator(s[1..], c);
      if s[..1] != [c] {
        assert s[0] != c;
        var rest := SplitOn(s[1..], [c]);
        forall p | p in Prepend(s[0], rest) ensures c !in p {
          assert p == [s[0]] + rest[0] || p in rest[1..];
        }
      }
    }
  }

  // Joining parts that lack the separator and splitting again gives the parts back.
  lemma {:induction false} SplitUndoesJoin(parts: seq<string>, c: char)
    requires parts != [] && forall p :: p in parts ==> c !in p
    ensures SplitOn(Join(parts, [c]), [c]) == parts
  {
    if |parts| == 1 {
      SplitNothing(parts[0], [c]);
    } else {
      SplitUndoesJoin(parts[1..], c);
      SplitOff(parts[0], Join(parts[1..], [c]), [c]);
    }
  }
}
