/** Server-sent events between the gateway and the support page: the frames the gateway prints and
    the incremental reader that takes them apart (WHATWG HTML, section 9.2).

    Everything printed is plain ASCII, so a byte of the stream is a character of it, wherever it is cut. */
module EventStream {
  import opened Prelude
  import opened Text
  import opened JsonText

  const FRAME_END := "\n\n"
  const DATA := "data: "
  const DONE := "data: [DONE]"

  // --- the reader ------------------------------------------------------------------------

  // What the page takes from its surroundings: JSON.parse, and the string conversion of a
  // content that is not a string.
  datatype Client = Client(parse: string -> Option<Json>, coerce: Json -> string)

  // The last member of a name is the one JSON.parse keeps.
  function Field(j: Json, name: string): Option<Json> {
    if j.Obj? then LastMember(j.members, name) else None
  }

  function LastMember(members: seq<Member>, name: string): Option<Json> {
    if members == [] then None
    else if Last(members).name == name then Some(Last(members).value)
    else LastMember(Init(members), name)
  }

  function First(j: Json): Option<Json> {
    if j.Arr? && j.items != [] then Some(j.items[0])
    else if j.Obj? then Field(j, "0")
    else None
  }

  // Indexing by zero: the first of a list, and of an object the member of that name.
  lemma FirstIsIndexZero(items: seq<Json>, members: seq<Member>)
    ensures items != [] ==> First(Arr(items)) == Some(items[0])
    ensures First(Arr([])) == None && First(Obj(members)) == LastMember(members, "0") && First(Null) == None
  {
  }

  function Through(j: Option<Json>, step: Json -> Option<Json>): Option<Json> {
    if j.Some? then step(j.value) else None
  }

  // choices?.[0]?.delta?.content
  function ContentOf(chunk: Json): Option<Json> {
    var choice := Through(Field(chunk, "choices"), First);
    var delta := Through(choice, j => Field(j, "delta"));
    Through(delta, j => Field(j, "content"))
  }

  // What one parsed chunk adds to the message.
  function Piece(client: Client, chunk: Json): string {
    var content := ContentOf(chunk);
    if content.None? || content.value.Null? then ""
    else if content.value.Str? then content.value.text
    else client.coerce(content.value)
  }

  function DataLine(lines: seq<string>): (line: Option<string>)
    ensures line.Some? ==> DATA <= line.value
  {
    if lines == [] then None
    else if DATA <= lines[0] then Some(lines[0])
    else DataLine(lines[1..])
  }

  // What one frame adds. A frame without data, the end marker and an unreadable chunk add nothing.
  function FramePiece(client: Client, frame: string): string {
    var line := DataLine(SplitOn(frame, "\n"));
    if line.None? || line.value == DONE then ""
    else
      var chunk := client.parse(line.value[|DATA|..]);
      if chunk.None? then "" else Piece(client, chunk.value)
  }

  function FramePieces(client: Client, frames: seq<string>): string {
    if frames == [] then "" else FramePiece(client, frames[0]) + FramePieces(client, frames[1..])
  }

  // The message read from a whole stream: what follows the last frame end is never read.
  function Message(client: Client, stream: string): string {
    FramePieces(client, Init(SplitOn(stream, FRAME_END)))
  }

  lemma {:induction false} FramePiecesAppend(client: Client, a: seq<string>, b: seq<string>)
    ensures FramePieces(client, a + b) == FramePieces(client, a) + FramePieces(client, b)
  {
    if a == [] {
      assert a + b == b;
    } else {
      FramePiecesUnfold(client, a);
      FramePiecesUnfold(client, a + b);
      hide *;
      SlicesOfSum(a, b, 1);
      FramePiecesAppend(client, a[1..], b);
      Regroup(FramePiece(client, a[0]), FramePieces(client, a[1..]), FramePieces(client, b));
    }
  }

  lemma FramePiecesUnfold(client: Client, frames: seq<string>)
    requires frames != []
    ensures FramePieces(client, frames) == FramePiece(client, frames[0]) + FramePieces(client, frames[1..])
  {
  }

  lemma InitAppend<T>(a: seq<T>, b: seq<T>)
    requires b != []
    ensures Init(a + b) == a + Init(b)
  {
  }

  /** The reader loop. Its result is a function of the stream alone: where the network cut it
      does not matter. */
  method ReadMessage(client: Client, chunks: seq<string>) returns (complete: string)
    ensures complete == Message(client, Concat(chunks))
  {
    var buffer := "";
    complete := "";
    var i := 0;
    assert chunks[0..] == chunks && buffer + Concat(chunks) == Concat(chunks);
    assert SplitOn(buffer, FRAME_END) == [buffer];
    while i < |chunks|
      invariant 0 <= i <= |chunks|
      invariant SplitOn(buffer, FRAME_END) == [buffer]
      invariant complete + Message(client, buffer + Concat(chunks[i..])) == Message(client, Concat(chunks))
    {
      hide *;
      ConcatUnfolds(chunks[i..]);
      assert chunks[i..][0] == chunks[i] && chunks[i..][1..] == chunks[i + 1..];
      Refill(client, buffer, chunks[i], Concat(chunks[i + 1..]));
      buffer := buffer + chunks[i];
      var events := SplitOn(buffer, FRAME_END);
      buffer := Last(events);
      events := Init(events);
      Regroup(complete, FramePieces(client, events), Message(client, buffer + Concat(chunks[i + 1..])));
      complete := ReadFrames(client, complete, events);
      i := i + 1;
    }
    assert chunks[i..] == [];
    NothingLeft(client, buffer);
  }

  lemma NothingLeft(client: Client, buffer: string)
    requires SplitOn(buffer, FRAME_END) == [buffer]
    ensures Message(client, buffer + Concat([])) == ""
  {
    assert buffer + "" == buffer;
    assert Init([buffer]) == [];
  }

  // for (const event of events) complete += ...
  method ReadFrames(client: Client, before: string, events: seq<string>) returns (complete: string)
    ensures complete == before + FramePieces(client, events)
  {
    complete := before;
    var k := 0;
    assert events[0..] == events;
    while k < |events|
      invariant 0 <= k <= |events|
      invariant complete + FramePieces(client, events[k..]) == before + FramePieces(client, events)
    {
      FramePiecesUnfold(client, events[k..]);
      hide *;
      assert events[k..][0] == events[k] && events[k..][1..] == events[k + 1..];
      Regroup(complete, FramePiece(client, events[k]), FramePieces(client, events[k + 1..]));
      complete := complete + FramePiece(client, events[k]);
      k := k + 1;
    }
    assert events[k..] == [];
  }

  // The whole frames of a filled buffer are read now; the rest of it is read with what comes next.
  lemma Refill(client: Client, buffer: string, chunk: string, rest: string)
    ensures var events := SplitOn(buffer + chunk, FRAME_END);
            && Message(client, buffer + (chunk + rest))
               == FramePieces(client, Init(events)) + Message(client, Last(events) + rest)
            && SplitOn(Last(events), FRAME_END) == [Last(events)]
  {
    var events := SplitOn(buffer + chunk, FRAME_END);
    assert buffer + (chunk + rest) == (buffer + chunk) + rest;
    SplitIsIncremental(buffer + chunk, rest, FRAME_END);
    LastPartIsWhole(buffer + chunk, FRAME_END);
    var tail := SplitOn(Last(events) + rest, FRAME_END);
    InitAppend(Init(events), tail);
    FramePiecesAppend(client, Init(events), Init(tail));
  }

  // The last part of a split has nothing left to split.
  lemma {:induction false} LastPartIsWhole(s: string, sep: string)
    requires sep != ""
    ensures SplitOn(Last(SplitOn(s, sep)), sep) == [Last(SplitOn(s, sep))]
    decreases |s|
  {
    if |s| < |sep| {
      SplitOfShort(s, sep);
    } else {
      SplitUnfolds(s, sep);
      if s[..|sep|] == sep {
        LastPartIsWhole(s[|sep|..], sep);
      } else {
        LastPartIsWhole(s[1..], sep);
        var rest := SplitOn(s[1..], sep);
        if |rest| == 1 {
          JoinUndoesSplit(s[1..], sep);
          hide SplitOn;
          AfterLonePart(s[0], s[1..], [""]);
          assert [s[0]] + s[1..] == s;
          assert SplitOn(s, sep) == [s];
        } else {
          hide SplitOn;
          PrependToAll(s[0], rest, []);
        }
      }
    }
  }

  // --- the frames ------------------------------------------------------------------------

  function Frame(payload: string): string {
    DATA + payload + FRAME_END
  }

  function Frames(chunks: seq<Json>): seq<string> {
    if chunks == [] then [] else [Frame(Print(chunks[0]))] + Frames(chunks[1..])
  }

  function Pieces(client: Client, chunks: seq<Json>): string {
    if chunks == [] then "" else Piece(client, chunks[0]) + Pieces(client, chunks[1..])
  }

  // A page whose parser reads back what the server prints.
  ghost predicate Reads(client: Client) {
    forall j :: WellFormed(j) ==> client.parse(Print(j)) == Some(j)
  }

  ghost predicate AllWellFormed(chunks: seq<Json>) {
    forall i :: 0 <= i < |chunks| ==> WellFormed(chunks[i])
  }

  lemma OwnReaderReads(coerce: Json -> string)
    ensures Reads(Client(Parse, coerce))
  {
    forall j | WellFormed(j) ensures Parse(Print(j)) == Some(j) {
      DocumentReadsBack(j);
    }
  }

  lemma FrameIsRead(client: Client, payload: string)
    requires '\n' !in payload
    ensures FramePiece(client, DATA + payload) ==
            if payload == "[DONE]" then ""
            else var chunk := client.parse(payload);
                 if chunk.None? then "" else Piece(client, chunk.value)
  {
    var frame := DATA + payload;
    SplitNothing(frame, "\n");
    assert frame[|DATA|..] == payload;
    assert DONE[|DATA|..] == "[DONE]";
  }

  lemma FrameIsSplitOff(payload: string, rest: string)
    requires '\n' !in payload
    ensures SplitOn(Frame(payload) + rest, FRAME_END) == [DATA + payload] + SplitOn(rest, FRAME_END)
  {
    SplitOff(DATA + payload, rest, FRAME_END);
    assert Frame(payload) + rest == (DATA + payload) + FRAME_END + rest;
  }

  lemma FrameThenRest(client: Client, payload: string, rest: string)
    requires '\n' !in payload
    ensures Message(client, Frame(payload) + rest) == FramePiece(client, DATA + payload) + Message(client, rest)
  {
    var frame := DATA + payload;
    var following := SplitOn(rest, FRAME_END);
    FrameIsSplitOff(payload, rest);
    InitAppend([frame], following);
    FramePiecesAppend(client, [frame], Init(following));
    assert FramePieces(client, [frame]) == FramePiece(client, frame) + "";
  }

  lemma ChunkThenRest(client: Client, chunk: Json, rest: string)
    requires Reads(client) && WellFormed(chunk)
    ensures Message(client, Frame(Print(chunk)) + rest) == Piece(client, chunk) + Message(client, rest)
  {
    DocumentIsPrintable(chunk);
    DocumentIsNotDone(chunk);
    FrameThenRest(client, Print(chunk), rest);
    FrameIsRead(client, Print(chunk));
  }

  lemma FramesUnfold(chunks: seq<Json>, rest: string)
    requires chunks != []
    ensures Concat(Frames(chunks)) + rest == Frame(Print(chunks[0])) + (Concat(Frames(chunks[1..])) + rest)
  {
    assert Frames(chunks)[0] == Frame(Print(chunks[0])) && Frames(chunks)[1..] == Frames(chunks[1..]);
    ConcatUnfolds(Frames(chunks));
    hide *;
    Regroup(Frame(Print(chunks[0])), Concat(Frames(chunks[1..])), rest);
  }

  // A stream of printed chunks, whatever follows it, is read as the pieces of the chunks.
  lemma {:induction false} ChunksAreRead(client: Client, chunks: seq<Json>, rest: string)
    requires Reads(client) && AllWellFormed(chunks)
    ensures Message(client, Concat(Frames(chunks)) + rest) == Pieces(client, chunks) + Message(client, rest)
    decreases |chunks|
  {
    if chunks == [] {
      assert Concat(Frames(chunks)) + rest == rest;
    } else {
      var following := Concat(Frames(chunks[1..])) + rest;
      FramesUnfold(chunks, rest);
      PiecesUnfold(client, chunks);
      assert AllWellFormed(chunks[1..]) && WellFormed(chunks[0]);
      hide *;
      ChunkThenRest(client, chunks[0], following);
      ChunksAreRead(client, chunks[1..], rest);
      Regroup(Piece(client, chunks[0]), Pieces(client, chunks[1..]), Message(client, rest));
    }
  }

  lemma PiecesUnfold(client: Client, chunks: seq<Json>)
    requires chunks != []
    ensures Pieces(client, chunks) == Piece(client, chunks[0]) + Pieces(client, chunks[1..])
  {
  }

  // No document prints as the end marker.
  lemma DocumentIsNotDone(j: Json)
    requires WellFormed(j)
    ensures Print(j) != "[DONE]"
  {
    PrintStart(j);
    if j.Arr? {
      PrintOfArray(j.items);
      if j.items == [] {
        assert Print(j) == "[]";
      } else {
        ItemsStart(j.items);
        hide Print, PrintItems;
        assert Print(j)[1] == PrintItems(j.items)[0];
      }
    }
  }
}
