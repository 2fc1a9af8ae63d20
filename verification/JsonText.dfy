/** JSON documents as the server prints them, json.dumps(value, separators=(",", ":")), and as the
    browser reads them back.

    The printer is the compact one: no white space outside strings, every character outside
    the printable ASCII range escaped, characters beyond the sixteen-bit range as surrogate pairs. */
module JsonText {
  import opened Prelude
  import opened Text

  datatype Member = Member(name: string, value: Json)

  // A number is kept as its literal text.
  datatype Json =
    | Null
    | Bool(b: bool)
    | Num(literal: string)
    | Str(text: string)
    | Arr(items: seq<Json>)
    | Obj(members: seq<Member>)

  predicate NumberChar(c: char) {
    '0' <= c <= '9' || c in "+-.eE"
  }

  predicate WellFormed(j: Json)
    decreases j, 1
  {
    match j
    case Num(literal) => literal != "" && forall i :: 0 <= i < |literal| ==> NumberChar(literal[i])
    case Arr(items) => WellFormedItems(items)
    case Obj(members) => WellFormedMembers(members)
    case _ => true
  }

  predicate WellFormedItems(items: seq<Json>)
    decreases items, 0
  {
    items == [] || (WellFormed(items[0]) && WellFormedItems(items[1..]))
  }

  predicate WellFormedMembers(members: seq<Member>)
    decreases members, 0
  {
    members == [] || (WellFormed(members[0].value) && WellFormedMembers(members[1..]))
  }

  // --- strings ---------------------------------------------------------------------------

  function HexDigit(d: nat): char
    requires d < 16
  {
    if d < 10 then ('0' as int + d) as char else ('a' as int + d - 10) as char
  }

  function HexValue(c: char): Option<nat> {
    if '0' <= c <= '9' then Some(c as int - '0' as int)
    else if 'a' <= c <= 'f' then Some(c as int - 'a' as int + 10)
    else if 'A' <= c <= 'F' then Some(c as int - 'A' as int + 10)
    else None
  }

  // \uXXXX
  function UnicodeEscape(n: nat): (s: string)
    requires n < 0x10000
    ensures |s| == 6 && s[0] == '\\' && s[1] == 'u'
  {
    ['\\', 'u', HexDigit(n / 4096), HexDigit(n / 256 % 16), HexDigit(n / 16 % 16), HexDigit(n % 16)]
  }

  // The sixteen-bit unit written at the start of s, if s starts with \uXXXX.
  function ReadUnit(s: string): Option<nat> {
    if |s| < 6 || s[0] != '\\' || s[1] != 'u' then None
    else
      var a, b, c, d := HexValue(s[2]), HexValue(s[3]), HexValue(s[4]), HexValue(s[5]);
      if a.Some? && b.Some? && c.Some? && d.Some?
      then Some(a.value * 4096 + b.value * 256 + c.value * 16 + d.value) else None
  }

  function Escape(c: char): string {
    if c == '"' then "\\\""
    else if c == '\\' then "\\\\"
    else if c == '\n' then "\\n"
    else if c == '\r' then "\\r"
    else if c == '\t' then "\\t"
    else if c == '\U{8}' then "\\b"
    else if c == '\U{C}' then "\\f"
    else if ' ' <= c <= '~' then [c]
    else if c as int < 0x10000 then UnicodeEscape(c as int)
    else
      var n := c as int - 0x10000;
      UnicodeEscape(0xD800 + n / 1024) + UnicodeEscape(0xDC00 + n % 1024)
  }

  // How a character is spelled: itself if it is printable and neither quote nor backslash, two characters for
  // those and five controls, six for another of the basic plane and twelve beyond.
  lemma EscapeSpells(c: char)
    ensures Escape('"') == "\\\"" && Escape('\\') == "\\\\"
    ensures Escape('\n') == "\\n" && Escape('\r') == "\\r" && Escape('\t') == "\\t"
    ensures Escape('\U{8}') == "\\b" && Escape('\U{C}') == "\\f"
    ensures |Escape(c)| == 1 <==> ' ' <= c < '\U{7F}' && c != '"' && c != '\\'
    ensures |Escape(c)| == 1 ==> Escape(c) == [c]
    ensures |Escape(c)| == 2 <==> c == '"' || c == '\\' || '\U{8}' <= c <= '\U{A}' || '\U{C}' <= c <= '\U{D}'
    ensures |Escape(c)| == 12 <==> c > '\U{FFFF}'
    ensures |Escape(c)| in {1, 2, 6, 12}
  {
  }

  function EscapeAll(s: string): string {
    if s == "" then "" else Escape(s[0]) + EscapeAll(s[1..])
  }

  // The character at the start of s, and how many characters of s spell it.
  function ReadChar(s: string): Option<(char, nat)>
    requires s != ""
  {
    if s[0] != '\\' then
      if s[0] < ' ' then None else Some((s[0], 1))
    else if |s| < 2 then None
    else match s[1]
      case '"' => Some(('"', 2))
      case '\\' => Some(('\\', 2))
      case '/' => Some(('/', 2))
      case 'n' => Some(('\n', 2))
      case 'r' => Some(('\r', 2))
      case 't' => Some(('\t', 2))
      case 'b' => Some(('\U{8}', 2))
      case 'f' => Some(('\U{C}', 2))
      case _ =>
        var high := ReadUnit(s);
        if high.None? then None
        else if high.value < 0xD800 || 0xE000 <= high.value < 0x10000 then Some((high.value as char, 6))
        else
          var low := ReadUnit(s[6..]);
          if high.value < 0xDC00 && low.Some? && 0xDC00 <= low.value < 0xE000
          then Some(((0x10000 + (high.value - 0xD800) * 1024 + (low.value - 0xDC00)) as char, 12))
          else None
  }

  // The rest of a string literal after its opening quote, and what follows its closing quote.
  function ReadString(s: string): (r: Option<(string, string)>)
    ensures r.Some? ==> |r.value.1| < |s|
    decreases |s|
  {
    if s == "" then None
    else if s[0] == '"' then Some(("", s[1..]))
    else
      var c := ReadChar(s);
      if c.None? || c.value.1 > |s| then None
      else
        var more := ReadString(s[c.value.1..]);
        if more.None? then None else Some(([c.value.0] + more.value.0, more.value.1))
  }

  lemma HexDigits(n: nat)
    requires n < 0x10000
    ensures n / 4096 * 4096 + n / 256 % 16 * 256 + n / 16 % 16 * 16 + n % 16 == n
  {
    SixteenthOf(n, 16);
    SixteenthOf(n, 256);
    var a, b, c := n / 16, n / 256, n / 4096;
    assert n == a * 16 + n % 16 && a == b * 16 + a % 16 && b == c * 16 + b % 16;
  }

  lemma SixteenthOf(n: nat, d: nat)
    requires d == 16 || d == 256
    ensures n / d / 16 == n / (d * 16)
  {
  }

  lemma UnitReadsBack(n: nat, rest: string)
    requires n < 0x10000
    ensures ReadUnit(UnicodeEscape(n) + rest) == Some(n)
  {
    HexReadsBack(n / 4096);
    HexReadsBack(n / 256 % 16);
    HexReadsBack(n / 16 % 16);
    HexReadsBack(n % 16);
    HexDigits(n);
    hide HexDigit, HexValue;
    FourDigitsRead(HexDigit(n / 4096), HexDigit(n / 256 % 16), HexDigit(n / 16 % 16), HexDigit(n % 16), rest);
  }

  lemma FourDigitsRead(a: char, b: char, c: char, d: char, rest: string)
    requires HexValue(a).Some? && HexValue(b).Some? && HexValue(c).Some? && HexValue(d).Some?
    ensures ReadUnit(['\\', 'u', a, b, c, d] + rest) ==
            Some(HexValue(a).value * 4096 + HexValue(b).value * 256 + HexValue(c).value * 16 + HexValue(d).value)
  {
    hide HexValue;
    var s := ['\\', 'u', a, b, c, d] + rest;
    assert s[0] == '\\' && s[1] == 'u' && s[2] == a && s[3] == b && s[4] == c && s[5] == d;
  }

  lemma HexReadsBack(d: nat)
    requires d < 16
    ensures HexValue(HexDigit(d)) == Some(d)
  {
  }

  lemma CharReadsBack(c: char, rest: string)
    ensures Escape(c) != "" && Escape(c)[0] != '"'
    ensures ReadChar(Escape(c) + rest) == Some((c, |Escape(c)|))
  {
    if c as int >= 0x10000 {
      PairReadsBack(c, rest);
    } else if !(' ' <= c <= '~') {
      UnitReadsBack(c as int, rest);
      hide ReadUnit;
      assert |UnicodeEscape(c as int)| == 6;
    }
  }

  lemma PairReadsBack(c: char, rest: string)
    requires c as int >= 0x10000
    ensures ReadChar(Escape(c) + rest) == Some((c, 12)) && |Escape(c)| == 12
  {
    var n := c as int - 0x10000;
    HalvesOf(n);
    EscapeOfPair(c);
    hide *;
    PairIsSpelled(0xD800 + n / 1024, 0xDC00 + n % 1024, rest);
  }

  lemma EscapeOfPair(c: char)
    requires c as int >= 0x10000
    ensures var n := c as int - 0x10000;
            Escape(c) == UnicodeEscape(0xD800 + n / 1024) + UnicodeEscape(0xDC00 + n % 1024)
  {
    hide UnicodeEscape;
  }

  lemma HalvesOf(n: nat)
    requires n < 0x100000
    ensures n / 1024 * 1024 + n % 1024 == n && n / 1024 < 1024
  {
  }

  lemma PairIsSpelled(high: nat, low: nat, rest: string)
    requires 0xD800 <= high < 0xDC00 <= low < 0xE000
    ensures ReadChar(UnicodeEscape(high) + UnicodeEscape(low) + rest)
         == Some(((0x10000 + (high - 0xD800) * 1024 + (low - 0xDC00)) as char, 12))
  {
    UnitReadsBack(high, UnicodeEscape(low) + rest);
    UnitReadsBack(low, rest);
    hide *;
    Regroup(UnicodeEscape(high), UnicodeEscape(low), rest);
    var s := UnicodeEscape(high) + (UnicodeEscape(low) + rest);
    assert s[6..] == UnicodeEscape(low) + rest;
    PairIsRead(s, high, low);
  }

  lemma PairIsRead(s: string, high: nat, low: nat)
    requires |s| >= 12 && s[0] == '\\' && s[1] == 'u'
    requires ReadUnit(s) == Some(high) && ReadUnit(s[6..]) == Some(low)
    requires 0xD800 <= high < 0xDC00 <= low < 0xE000
    ensures ReadChar(s) == Some(((0x10000 + (high - 0xD800) * 1024 + (low - 0xDC00)) as char, 12))
  {
    hide ReadUnit;
  }

  lemma {:induction false} StringReadsBack(text: string, rest: string)
    ensures ReadString(EscapeAll(text) + "\"" + rest) == Some((text, rest))
    decreases |text|
  {
    var s := EscapeAll(text) + "\"" + rest;
    if text == "" {
      assert s[0] == '"' && s[1..] == rest;
    } else {
      var head, tail := Escape(text[0]), EscapeAll(text[1..]) + "\"" + rest;
      assert s == head + tail;
      CharReadsBack(text[0], tail);
      assert s[|head|..] == tail;
      StringReadsBack(text[1..], rest);
      assert [text[0]] + text[1..] == text;
    }
  }

  // --- documents -------------------------------------------------------------------------

  function Quoted(s: string): string {
    "\"" + EscapeAll(s) + "\""
  }

  function Print(j: Json): string
    decreases j, 1
  {
    match j
    case Null => "null"
    case Bool(b) => if b then "true" else "false"
    case Num(literal) => literal
    case Str(text) => Quoted(text)
    case Arr(items) => "[" + PrintItems(items)
    case Obj(members) => "{" + PrintMembers(members)
  }

  // The items, their separators and the closing bracket.
  function PrintItems(items: seq<Json>): string
    decreases items, 0
  {
    if items == [] then "]"
    else Print(items[0]) + (if |items| == 1 then "]" else "," + PrintItems(items[1..]))
  }

  function PrintMembers(members: seq<Member>): string
    decreases members, 0
  {
    if members == [] then "}"
    else PrintMember(members[0]) + (if |members| == 1 then "}" else "," + PrintMembers(members[1..]))
  }

  function PrintMember(member: Member): string
    decreases member, 0
  {
    Quoted(member.name) + ":" + Print(member.value)
  }

  function NumberLength(s: string): (n: nat)
    ensures n <= |s|
  {
    if s == "" || !NumberChar(s[0]) then 0 else 1 + NumberLength(s[1..])
  }

  function ReadValue(s: string): (r: Option<(Json, string)>)
    ensures r.Some? ==> |r.value.1| < |s|
    decreases |s|, 0
  {
    if s == "" then None
    else if s[0] == '"' then
      var text := ReadString(s[1..]);
      if text.None? then None else Some((Str(text.value.0), text.value.1))
    else if s[0] == '[' then
      if |s| >= 2 && s[1] == ']' then Some((Arr([]), s[2..]))
      else
        var items := ReadItems(s[1..]);
        if items.None? then None else Some((Arr(items.value.0), items.value.1))
    else if s[0] == '{' then
      if |s| >= 2 && s[1] == '}' then Some((Obj([]), s[2..]))
      else
        var members := ReadMembers(s[1..]);
        if members.None? then None else Some((Obj(members.value.0), members.value.1))
    else if |s| >= 4 && s[..4] == "null" then Some((Null, s[4..]))
    else if |s| >= 4 && s[..4] == "true" then Some((Bool(true), s[4..]))
    else if |s| >= 5 && s[..5] == "false" then Some((Bool(false), s[5..]))
    else
      var n := NumberLength(s);
      if n == 0 then None else Some((Num(s[..n]), s[n..]))
  }

  function ReadItems(s: string): (r: Option<(seq<Json>, string)>)
    ensures r.Some? ==> |r.value.1| < |s|
    decreases |s|, 1
  {
    var first := ReadValue(s);
    if first.None? || first.value.1 == "" then None
    else if first.value.1[0] == ']' then Some(([first.value.0], first.value.1[1..]))
    else if first.value.1[0] != ',' then None
    else
      var more := ReadItems(first.value.1[1..]);
      if more.None? then None else Some(([first.value.0] + more.value.0, more.value.1))
  }

  function ReadMember(s: string): (r: Option<(Member, string)>)
    ensures r.Some? ==> |r.value.1| < |s|
    decreases |s|, 1
  {
    if s == "" || s[0] != '"' then None
    else
      var name := ReadString(s[1..]);
      if name.None? || name.value.1 == "" || name.value.1[0] != ':' then None
      else
        var value := ReadValue(name.value.1[1..]);
        if value.None? then None else Some((Member(name.value.0, value.value.0), value.value.1))
  }

  function ReadMembers(s: string): (r: Option<(seq<Member>, string)>)
    ensures r.Some? ==> |r.value.1| < |s|
    decreases |s|, 2
  {
    var first := ReadMember(s);
    if first.None? || first.value.1 == "" then None
    else if first.value.1[0] == '}' then Some(([first.value.0], first.value.1[1..]))
    else if first.value.1[0] != ',' then None
    else
      var more := ReadMembers(first.value.1[1..]);
      if more.None? then None else Some(([first.value.0] + more.value.0, more.value.1))
  }

  // What is not read: a control character in a string, an escape of no meaning, and anything but a comma or the
  // closing bracket after an item or a member.
  lemma JunkIsRefused(s: string)
    requires s != ""
    ensures s[0] < ' ' ==> ReadChar(s) == None
    ensures s[0] == '\\' && |s| > 1 && s[1] !in "\"\\/nrtbfu" ==> ReadChar(s) == None
    ensures (ReadValue(s).Some? && ReadValue(s).value.1 != ""
             && ReadValue(s).value.1[0] != ']' && ReadValue(s).value.1[0] != ',') ==> ReadItems(s) == None
    ensures (ReadMember(s).Some? && ReadMember(s).value.1 != ""
             && ReadMember(s).value.1[0] != '}' && ReadMember(s).value.1[0] != ',') ==> ReadMembers(s) == None
  {
    hide ReadValue, ReadMember;
  }

  lemma DigitsAreRead(d: nat)
    requires d < 6
    ensures HexValue(('A' as int + d) as char) == Some(10 + d) && HexValue(('a' as int + d) as char) == Some(10 + d)
    ensures HexValue('g') == None && HexValue('G') == None && HexValue('/') == None && HexValue(':') == None
    ensures HexValue('@') == None && HexValue('`') == None
  {
  }

  // A whole text is a document if nothing is left over.
  function Parse(s: string): Option<Json> {
    var r := ReadValue(s);
    if r.Some? && r.value.1 == "" then Some(r.value.0) else None
  }

  lemma {:induction false} NumberReadsBack(literal: string, rest: string)
    requires forall i :: 0 <= i < |literal| ==> NumberChar(literal[i])
    requires rest == "" || !NumberChar(rest[0])
    ensures NumberLength(literal + rest) == |literal|
    decreases |literal|
  {
    if literal == "" {
      assert literal + rest == rest;
    } else {
      assert (literal + rest)[1..] == literal[1..] + rest;
      NumberReadsBack(literal[1..], rest);
    }
  }

  lemma QuotedReadsBack(text: string, rest: string)
    ensures Quoted(text) + rest != "" && (Quoted(text) + rest)[0] == '"'
    ensures ReadString((Quoted(text) + rest)[1..]) == Some((text, rest))
  {
    StringReadsBack(text, rest);
    hide EscapeAll, ReadString;
    assert (Quoted(text) + rest)[1..] == EscapeAll(text) + "\"" + rest;
  }

  lemma PrintStart(j: Json)
    requires WellFormed(j)
    ensures Print(j) != "" && Print(j)[0] != ']' && Print(j)[0] != '}' && Print(j)[0] != 'D'
    ensures Print(j)[0] == '[' ==> j.Arr?
  {
  }

  lemma WordReadsBack(j: Json, rest: string)
    requires WellFormed(j) && (j.Null? || j.Bool?)
    ensures ReadValue(Print(j) + rest) == Some((j, rest))
  {
    var word := Print(j);
    var s := word + rest;
    assert s[0] == word[0] && s[..|word|] == word && s[|word|..] == rest;
    if j == Bool(false) {
      assert s[..4] == word[..4];
    }
  }

  lemma LiteralReadsBack(j: Json, rest: string)
    requires WellFormed(j) && j.Num?
    requires rest == "" || !NumberChar(rest[0])
    ensures ReadValue(Print(j) + rest) == Some((j, rest))
  {
    var s := j.literal + rest;
    NumberReadsBack(j.literal, rest);
    assert s[0] == j.literal[0] && NumberChar(s[0]);
    assert s[..|j.literal|] == j.literal && s[|j.literal|..] == rest;
    assert |s| >= 4 ==> s[..4][0] == s[0];
    assert |s| >= 5 ==> s[..5][0] == s[0];
  }

  lemma {:induction false} ValueReadsBack(j: Json, rest: string)
    requires WellFormed(j)
    requires rest == "" || !NumberChar(rest[0])
    ensures ReadValue(Print(j) + rest) == Some((j, rest))
    decreases j, 1
  {
    match j
    case Num(_) => LiteralReadsBack(j, rest);
    case Str(text) => QuotedReadsBack(text, rest);
    case Arr(items) =>
      if items != [] {
        ItemsReadBack(items, rest);
      }
      ArrayReadsBack(items, rest);
    case Obj(members) =>
      if members != [] {
        MembersReadBack(members, rest);
      }
      ObjectReadsBack(members, rest);
    case _ => WordReadsBack(j, rest);
  }

  lemma ArrayReadsBack(items: seq<Json>, rest: string)
    requires WellFormedItems(items)
    requires items != [] ==> ReadItems(PrintItems(items) + rest) == Some((items, rest))
    ensures ReadValue(Print(Arr(items)) + rest) == Some((Arr(items), rest))
  {
    if items == [] {
      EmptyArrayReadsBack(rest);
    } else {
      var s := Print(Arr(items)) + rest;
      ItemsStart(items);
      PrintOfArray(items);
      hide *;
      Opened("[", PrintItems(items), rest);
      ArrayOpens(s, items, rest);
    }
  }

  lemma Opened(bracket: string, body: string, rest: string)
    requires |bracket| == 1 && body != ""
    ensures var s := bracket + body + rest;
            |s| >= 2 && s[0] == bracket[0] && s[1] == body[0] && s[1..] == body + rest
  {
  }

  lemma EmptyArrayReadsBack(rest: string)
    ensures ReadValue(Print(Arr([])) + rest) == Some((Arr([]), rest))
  {
    hide ReadMembers, ReadItems, ReadString, NumberLength;
    var s := Print(Arr([])) + rest;
    assert s[0] == '[' && s[1] == ']' && s[2..] == rest;
  }

  lemma PrintOfArray(items: seq<Json>)
    ensures Print(Arr(items)) == "[" + PrintItems(items)
  {
    hide PrintItems;
  }

  lemma ItemsStart(items: seq<Json>)
    requires items != [] && WellFormedItems(items)
    ensures PrintItems(items) != "" && PrintItems(items)[0] != ']' && PrintItems(items)[0] != 'D'
  {
    PrintStart(items[0]);
    hide Print;
  }

  lemma ArrayOpens(s: string, items: seq<Json>, rest: string)
    requires |s| >= 2 && s[0] == '[' && s[1] != ']' && ReadItems(s[1..]) == Some((items, rest))
    ensures ReadValue(s) == Some((Arr(items), rest))
  {
    hide ReadMembers, ReadItems, ReadString, NumberLength;
  }

  lemma ObjectReadsBack(members: seq<Member>, rest: string)
    requires WellFormedMembers(members)
    requires members != [] ==> ReadMembers(PrintMembers(members) + rest) == Some((members, rest))
    ensures ReadValue(Print(Obj(members)) + rest) == Some((Obj(members), rest))
  {
    if members == [] {
      EmptyObjectReadsBack(rest);
    } else {
      var s := Print(Obj(members)) + rest;
      MembersStart(members);
      PrintOfObject(members);
      hide *;
      Opened("{", PrintMembers(members), rest);
      ObjectOpens(s, members, rest);
    }
  }

  lemma EmptyObjectReadsBack(rest: string)
    ensures ReadValue(Print(Obj([])) + rest) == Some((Obj([]), rest))
  {
    hide ReadMembers, ReadItems, ReadString, NumberLength;
    var s := Print(Obj([])) + rest;
    assert s[0] == '{' && s[1] == '}' && s[2..] == rest;
  }

  lemma PrintOfObject(members: seq<Member>)
    ensures Print(Obj(members)) == "{" + PrintMembers(members)
  {
    hide PrintMembers;
  }

  lemma MembersStart(members: seq<Member>)
    requires members != []
    ensures PrintMembers(members) != "" && PrintMembers(members)[0] == '"'
  {
  }

  lemma ObjectOpens(s: string, members: seq<Member>, rest: string)
    requires |s| >= 2 && s[0] == '{' && s[1] != '}' && ReadMembers(s[1..]) == Some((members, rest))
    ensures ReadValue(s) == Some((Obj(members), rest))
  {
    hide ReadMembers, ReadItems, ReadString, NumberLength;
  }

  function AfterItem(items: seq<Json>, rest: string): string
    requires items != []
  {
    if |items| == 1 then "]" + rest else "," + (PrintItems(items[1..]) + rest)
  }

  lemma ItemsUnfold(items: seq<Json>, rest: string)
    requires items != []
    ensures PrintItems(items) + rest == Print(items[0]) + AfterItem(items, rest)
  {
  }

  lemma {:induction false} ItemsReadBack(items: seq<Json>, rest: string)
    requires items != [] && WellFormedItems(items)
    ensures ReadItems(PrintItems(items) + rest) == Some((items, rest))
    decreases items, 0
  {
    var tail := AfterItem(items, rest);
    ValueReadsBack(items[0], tail);
    ItemsUnfold(items, rest);
    hide ReadItems, ReadValue, PrintItems, Print;
    if |items| > 1 {
      ItemsReadBack(items[1..], rest);
      ItemsContinue(PrintItems(items) + rest, items[0], items[1..], tail, PrintItems(items[1..]) + rest, rest);
      assert [items[0]] + items[1..] == items;
    } else {
      ItemsContinue(PrintItems(items) + rest, items[0], [], tail, "", rest);
      assert [items[0]] + [] == items;
    }
  }

  lemma ItemsContinue(s: string, first: Json, more: seq<Json>, tail: string, following: string, rest: string)
    requires ReadValue(s) == Some((first, tail))
    requires if more == [] then tail == "]" + rest
             else tail == "," + following && ReadItems(following) == Some((more, rest))
    ensures ReadItems(s) == Some(([first] + more, rest))
  {
    hide ReadValue;
    assert tail[1..] == if more == [] then rest else following;
    assert [first] + [] == [first];
  }

  function AfterFirst(members: seq<Member>, rest: string): string
    requires members != []
  {
    if |members| == 1 then "}" + rest else "," + (PrintMembers(members[1..]) + rest)
  }

  lemma MembersUnfold(members: seq<Member>, rest: string)
    requires members != []
    ensures PrintMembers(members) + rest == PrintMember(members[0]) + AfterFirst(members, rest)
  {
  }

  lemma {:induction false} MembersReadBack(members: seq<Member>, rest: string)
    requires members != [] && WellFormedMembers(members)
    ensures ReadMembers(PrintMembers(members) + rest) == Some((members, rest))
    decreases members, 0
  {
    hide ReadMembers, ReadMember, ReadValue, PrintMembers, PrintMember, Print;
    var tail := AfterFirst(members, rest);
    ValueReadsBack(members[0].value, tail);
    MemberReadsBack(members[0], tail);
    MembersUnfold(members, rest);
    if |members| > 1 {
      MembersReadBack(members[1..], rest);
      MembersContinue(PrintMembers(members) + rest, members[0], members[1..], tail,
                      PrintMembers(members[1..]) + rest, rest);
      assert [members[0]] + members[1..] == members;
    } else {
      MembersContinue(PrintMembers(members) + rest, members[0], [], tail, "", rest);
      assert [members[0]] + [] == members;
    }
  }

  lemma MembersContinue(s: string, first: Member, more: seq<Member>, tail: string, following: string, rest: string)
    requires ReadMember(s) == Some((first, tail))
    requires if more == [] then tail == "}" + rest
             else tail == "," + following && ReadMembers(following) == Some((more, rest))
    ensures ReadMembers(s) == Some(([first] + more, rest))
  {
    hide ReadMember;
    assert tail[1..] == if more == [] then rest else following;
    assert [first] + [] == [first];
  }

  lemma MemberReadsBack(member: Member, tail: string)
    requires ReadValue(Print(member.value) + tail) == Some((member.value, tail))
    ensures ReadMember(PrintMember(member) + tail) == Some((member, tail))
  {
    hide Print, ReadValue, ReadString, EscapeAll;
    var value := Print(member.value) + tail;
    assert PrintMember(member) + tail == Quoted(member.name) + (":" + value);
    QuotedReadsBack(member.name, ":" + value);
    assert (":" + value)[0] == ':' && (":" + value)[1..] == value;
  }

  // Main result: every document reads back as itself.
  lemma DocumentReadsBack(j: Json)
    requires WellFormed(j)
    ensures Parse(Print(j)) == Some(j)
  {
    ValueReadsBack(j, "");
    assert Print(j) + "" == Print(j);
  }

  predicate Printable(s: string) {
    forall i :: 0 <= i < |s| ==> ' ' <= s[i] <= '~'
  }

  lemma PrintableAppend(a: string, b: string)
    requires Printable(a) && Printable(b)
    ensures Printable(a + b)
  {
  }

  lemma EscapeIsPrintable(c: char)
    ensures Printable(Escape(c))
  {
  }

  lemma {:induction false} EscapesArePrintable(s: string)
    ensures Printable(EscapeAll(s))
  {
    if s != "" {
      EscapeIsPrintable(s[0]);
      EscapesArePrintable(s[1..]);
      PrintableAppend(Escape(s[0]), EscapeAll(s[1..]));
      hide Printable, Escape;
    }
  }

  lemma QuotedIsPrintable(s: string)
    ensures Printable(Quoted(s))
  {
    EscapesArePrintable(s);
    hide EscapeAll;
  }

  // A printed document is plain printable text: in particular it holds no line break to end a frame early.
  lemma {:induction false} DocumentIsPrintable(j: Json)
    requires WellFormed(j)
    ensures Printable(Print(j))
    decreases j, 1
  {
    match j
    case Str(text) => QuotedIsPrintable(text);
    case Arr(items) =>
      ItemsArePrintable(items);
      PrintableAppend("[", PrintItems(items));
    case Obj(members) =>
      MembersArePrintable(members);
      PrintableAppend("{", PrintMembers(members));
    case Num(literal) => assert forall i :: 0 <= i < |literal| ==> NumberChar(literal[i]);
    case _ =>
  }

  lemma {:induction false} ItemsArePrintable(items: seq<Json>)
    requires WellFormedItems(items)
    ensures Printable(PrintItems(items))
    decreases items, 0
  {
    if items != [] {
      DocumentIsPrintable(items[0]);
      ItemsArePrintable(items[1..]);
      var rest := if |items| == 1 then "]" else "," + PrintItems(items[1..]);
      if |items| > 1 {
        PrintableAppend(",", PrintItems(items[1..]));
      }
      PrintableAppend(Print(items[0]), rest);
      hide Printable;
    }
  }

  lemma {:induction false} MembersArePrintable(members: seq<Member>)
    requires WellFormedMembers(members)
    ensures Printable(PrintMembers(members))
    decreases members, 0
  {
    if members != [] {
      MemberIsPrintable(members[0]);
      MembersArePrintable(members[1..]);
      var rest := if |members| == 1 then "}" else "," + PrintMembers(members[1..]);
      if |members| > 1 {
        PrintableAppend(",", PrintMembers(members[1..]));
      }
      PrintableAppend(PrintMember(members[0]), rest);
      hide Printable, PrintMember;
    }
  }

  lemma {:induction false} MemberIsPrintable(member: Member)
    requires WellFormed(member.value)
    ensures Printable(PrintMember(member))
    decreases member, 0
  {
    QuotedIsPrintable(member.name);
    DocumentIsPrintable(member.value);
    PrintableAppend(Quoted(member.name), ":");
    PrintableAppend(Quoted(member.name) + ":", Print(member.value));
    hide Printable, Quoted;
  }
}
