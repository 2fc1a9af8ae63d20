/** The two ways a chat completion is streamed, live from the provider and replayed from a finished
    completion, and what the support page reads from each. */
module ChatStream {
  import opened Prelude
  import opened Text
  import opened JsonText
  import opened EventStream

  datatype Completion = Completion(
    id: string,
    created: string,
    model: string,
    content: Option<string>,
    finishReason: Json,
    usage: Json)

  predicate Sound(c: Completion) {
    WellFormed(Num(c.created)) && WellFormed(c.finishReason) && WellFormed(c.usage)
  }

  function ChunkBase(c: Completion): seq<Member> {
    [Member("id", Str(c.id)), Member("object", Str("chat.completion.chunk")),
     Member("created", Num(c.created)), Member("model", Str(c.model))]
  }

  function Choice(delta: seq<Member>, finishReason: Json): Json {
    Obj([Member("index", Num("0")), Member("delta", Obj(delta)), Member("finish_reason", finishReason)])
  }

  function ChunkOf(c: Completion, choices: seq<Json>): Json {
    Obj(ChunkBase(c) + [Member("choices", Arr(choices))])
  }

  function RoleChunk(c: Completion): Json {
    ChunkOf(c, [Choice([Member("role", Str("assistant"))], Null)])
  }

  function WordChunk(c: Completion, word: string): Json {
    ChunkOf(c, [Choice([Member("content", Str(word + " "))], Null)])
  }

  function FinalChunk(c: Completion): Json {
    ChunkOf(c, [Choice([], c.finishReason)])
  }

  function UsageChunk(c: Completion): Json {
    Obj(ChunkBase(c) + [Member("choices", Arr([])), Member("usage", c.usage)])
  }

  function Body(c: Completion): string {
    if c.content.Some? then c.content.value else ""
  }

  function WordChunks(c: Completion, words: seq<string>): seq<Json> {
    if words == [] then [] else [WordChunk(c, words[0])] + WordChunks(c, words[1..])
  }

  // Every chunk of a replayed completion.
  function ReplayChunks(c: Completion, includeUsage: bool): seq<Json> {
    [RoleChunk(c)] + WordChunks(c, SplitOn(Body(c), " ")) + [FinalChunk(c)]
    + if includeUsage then [UsageChunk(c)] else []
  }

  function Stream(chunks: seq<Json>): string {
    Concat(Frames(chunks)) + Frame("[DONE]")
  }

  lemma {:induction false} FramesAppend(a: seq<Json>, b: seq<Json>)
    ensures Frames(a + b) == Frames(a) + Frames(b)
  {
    if a == [] {
      assert a + b == b;
    } else {
      assert (a + b)[1..] == a[1..] + b;
      FramesAppend(a[1..], b);
    }
  }

  /** The generator behind a replayed completion, frame by frame. */
  method CompletionSse(c: Completion, includeUsage: bool) returns (frames: seq<string>)
    ensures Concat(frames) == Stream(ReplayChunks(c, includeUsage))
  {
    frames := [Frame(Print(RoleChunk(c)))];
    var words := SplitOn(Body(c), " ");
    var i := 0;
    ghost var start := frames;
    assert words[0..] == words;
    while i < |words|
      invariant 0 <= i <= |words|
      invariant frames + Frames(WordChunks(c, words[i..])) == start + Frames(WordChunks(c, words))
    {
      assert words[i..][1..] == words[i + 1..];
      FramesAppend([WordChunk(c, words[i])], WordChunks(c, words[i + 1..]));
      OneFrame(WordChunk(c, words[i]));
      frames := frames + [Frame(Print(WordChunk(c, words[i])))];
      i := i + 1;
    }
    assert words[i..] == [];
    frames := frames + [Frame(Print(FinalChunk(c)))];
    if includeUsage {
      frames := frames + [Frame(Print(UsageChunk(c)))];
    }
    OneFrame(RoleChunk(c));
    OneFrame(FinalChunk(c));
    OneFrame(UsageChunk(c));
    FramesAppend([RoleChunk(c)], WordChunks(c, words));
    FramesAppend([RoleChunk(c)] + WordChunks(c, words), [FinalChunk(c)]);
    FramesAppend([RoleChunk(c)] + WordChunks(c, words) + [FinalChunk(c)], if includeUsage then [UsageChunk(c)] else []);
    assert frames == Frames(ReplayChunks(c, includeUsage));
    ConcatAppends(frames, [Frame("[DONE]")]);
    OneConcat(Frame("[DONE]"));
    frames := frames + [Frame("[DONE]")];
  }

  lemma OneFrame(chunk: Json)
    ensures Frames([chunk]) == [Frame(Print(chunk))]
  {
  }

  lemma OneConcat(s: string)
    ensures Concat([s]) == s
  {
    assert s + "" == s;
  }

  lemma {:induction false} PiecesAppend(client: Client, a: seq<Json>, b: seq<Json>)
    ensures Pieces(client, a + b) == Pieces(client, a) + Pieces(client, b)
  {
    if a == [] {
      assert a + b == b;
    } else {
      PiecesUnfold(client, a);
      PiecesUnfold(client, a + b);
      hide *;
      SlicesOfSum(a, b, 1);
      PiecesAppend(client, a[1..], b);
      Regroup(Piece(client, a[0]), Pieces(client, a[1..]), Pieces(client, b));
    }
  }

  // The end marker ends the message: a stream is read as the pieces of its chunks.
  lemma StreamIsRead(client: Client, chunks: seq<Json>)
    requires Reads(client) && AllWellFormed(chunks)
    ensures Message(client, Stream(chunks)) == Pieces(client, chunks)
  {
    ChunksAreRead(client, chunks, Frame("[DONE]"));
    FrameThenRest(client, "[DONE]", "");
    FrameIsRead(client, "[DONE]");
    assert Frame("[DONE]") + "" == Frame("[DONE]");
    assert Init(SplitOn("", FRAME_END)) == [];
    assert Message(client, Frame("[DONE]")) == "";
    assert Pieces(client, chunks) + "" == Pieces(client, chunks);
  }

  lemma SkipMember(before: seq<Member>, member: Member, name: string)
    requires member.name != name
    ensures LastMember(before + [member], name) == LastMember(before, name)
  {
    assert Init(before + [member]) == before;
  }

  lemma ChoicesOf(c: Completion, choices: seq<Json>)
    ensures Field(ChunkOf(c, choices), "choices") == Some(Arr(choices))
  {
  }

  lemma DeltaOf(delta: seq<Member>, finishReason: Json)
    ensures Field(Choice(delta, finishReason), "delta") == Some(Obj(delta))
  {
    var members := [Member("index", Num("0")), Member("delta", Obj(delta)), Member("finish_reason", finishReason)];
    SkipMember([members[0], members[1]], members[2], "delta");
    assert members == [members[0], members[1]] + [members[2]];
  }

  // Of the chunks of a replay, only the words carry text.
  lemma ReplayPieces(client: Client, c: Completion, word: string)
    ensures Piece(client, RoleChunk(c)) == "" && Piece(client, FinalChunk(c)) == ""
    ensures Piece(client, UsageChunk(c)) == ""
    ensures Piece(client, WordChunk(c, word)) == word + " "
  {
    ChoicesOf(c, [Choice([Member("role", Str("assistant"))], Null)]);
    ChoicesOf(c, [Choice([Member("content", Str(word + " "))], Null)]);
    ChoicesOf(c, [Choice([], c.finishReason)]);
    DeltaOf([Member("role", Str("assistant"))], Null);
    DeltaOf([Member("content", Str(word + " "))], Null);
    DeltaOf([], c.finishReason);
    assert Init([Member("role", Str("assistant"))]) == [];
    assert LastMember([Member("role", Str("assistant"))], "content") == None;
    var usage := UsageChunk(c).members;
    SkipMember(ChunkBase(c) + [Member("choices", Arr([]))], Member("usage", c.usage), "choices");
    assert usage == ChunkBase(c) + [Member("choices", Arr([]))] + [Member("usage", c.usage)];
    assert Field(UsageChunk(c), "choices") == Some(Arr([]));
  }

  lemma {:induction false} WordsAreRead(client: Client, c: Completion, words: seq<string>)
    requires words != []
    ensures Pieces(client, WordChunks(c, words)) == Join(words, " ") + " "
  {
    ReplayPieces(client, c, words[0]);
    if |words| == 1 {
      assert WordChunks(c, words)[1..] == [];
      assert Pieces(client, []) == "";
    } else {
      WordsAreRead(client, c, words[1..]);
      assert WordChunks(c, words)[1..] == WordChunks(c, words[1..]);
      assert (words[0] + " ") + (Join(words[1..], " ") + " ") == words[0] + " " + Join(words[1..], " ") + " ";
    }
  }

  lemma BaseIsWellFormed(c: Completion, more: seq<Member>)
    requires Sound(c) && WellFormedMembers(more)
    ensures WellFormed(Obj(ChunkBase(c) + more))
  {
    var base := ChunkBase(c);
    assert base[1..][1..][1..] == [base[3]] && [base[3]][1..] == [];
    assert WellFormedMembers(base[1..][1..][1..]);
    assert WellFormedMembers(base[1..][1..]);
    WellFormedAppend(base, more);
  }

  lemma {:induction false} WellFormedAppend(a: seq<Member>, b: seq<Member>)
    requires WellFormedMembers(a) && WellFormedMembers(b)
    ensures WellFormedMembers(a + b)
    decreases |a|
  {
    if a == [] {
      assert a + b == b;
    } else {
      assert (a + b)[1..] == a[1..] + b;
      WellFormedAppend(a[1..], b);
    }
  }

  lemma ChoiceIsWellFormed(delta: seq<Member>, finishReason: Json)
    requires WellFormedMembers(delta) && WellFormed(finishReason)
    ensures WellFormedMembers([Member("choices", Arr([Choice(delta, finishReason)]))])
  {
    var members := Choice(delta, finishReason).members;
    assert members[1..][1..] == [members[2]];
    assert members[1..][1..][1..] == [];
    assert WellFormedMembers(members[1..][1..]);
    assert WellFormedMembers(members[1..]);
    assert WellFormed(Choice(delta, finishReason));
    assert [Choice(delta, finishReason)][1..] == [];
    assert WellFormedItems([Choice(delta, finishReason)]);
    assert WellFormed(Arr([Choice(delta, finishReason)]));
  }

  lemma ReplayChunksAreWellFormed(c: Completion, word: string)
    requires Sound(c)
    ensures WellFormed(RoleChunk(c)) && WellFormed(WordChunk(c, word))
    ensures WellFormed(FinalChunk(c)) && WellFormed(UsageChunk(c))
  {
    ChoiceIsWellFormed([Member("role", Str("assistant"))], Null);
    ChoiceIsWellFormed([Member("content", Str(word + " "))], Null);
    ChoiceIsWellFormed([], c.finishReason);
    BaseIsWellFormed(c, [Member("choices", Arr([Choice([Member("role", Str("assistant"))], Null)]))]);
    BaseIsWellFormed(c, [Member("choices", Arr([Choice([Member("content", Str(word + " "))], Null)]))]);
    BaseIsWellFormed(c, [Member("choices", Arr([Choice([], c.finishReason)]))]);
    var usage := [Member("choices", Arr([])), Member("usage", c.usage)];
    assert usage[1..] == [Member("usage", c.usage)];
    assert WellFormedMembers(usage[1..]);
    BaseIsWellFormed(c, usage);
    assert UsageChunk(c) == Obj(ChunkBase(c) + usage);
  }

  lemma {:induction false} WordChunksAreWellFormed(c: Completion, words: seq<string>)
    requires Sound(c)
    ensures AllWellFormed(WordChunks(c, words))
  {
    if words != [] {
      ReplayChunksAreWellFormed(c, words[0]);
      WordChunksAreWellFormed(c, words[1..]);
    }
  }

  // Main result for a replay: for every content, the page reads the content and one trailing space.
  lemma ReplayIsRead(client: Client, c: Completion, includeUsage: bool)
    requires Reads(client) && Sound(c)
    ensures Message(client, Stream(ReplayChunks(c, includeUsage))) == Body(c) + " "
  {
    var words := SplitOn(Body(c), " ");
    ReplayIsWellFormed(c, words, includeUsage);
    assert ReplayChunks(c, includeUsage) == [RoleChunk(c)] + WordChunks(c, words) + [FinalChunk(c)]
                                            + if includeUsage then [UsageChunk(c)] else [];
    hide *;
    StreamIsRead(client, ReplayChunks(c, includeUsage));
    ReplayCarriesTheBody(client, c, includeUsage);
  }

  lemma ReplayCarriesTheBody(client: Client, c: Completion, includeUsage: bool)
    ensures Pieces(client, ReplayChunks(c, includeUsage)) == Body(c) + " "
  {
    var words := SplitOn(Body(c), " ");
    var role, text, end := [RoleChunk(c)], WordChunks(c, words), ReplayEnd(c, includeUsage);
    assert ReplayChunks(c, includeUsage) == role + text + end;
    hide *;
    ReplayPieces(client, c, "");
    OnePiece(client, RoleChunk(c));
    WordsAreRead(client, c, words);
    JoinUndoesSplit(Body(c), " ");
    ReplayTail(client, c, includeUsage);
    PiecesAppend(client, role, text);
    PiecesAppend(client, role + text, end);
    assert "" + (Body(c) + " ") + "" == Body(c) + " ";
  }

  function ReplayEnd(c: Completion, includeUsage: bool): seq<Json> {
    [FinalChunk(c)] + if includeUsage then [UsageChunk(c)] else []
  }

  lemma OnePiece(client: Client, chunk: Json)
    ensures Pieces(client, [chunk]) == Piece(client, chunk)
  {
    assert [chunk][1..] == [];
    assert Piece(client, chunk) + "" == Piece(client, chunk);
  }

  lemma ReplayTail(client: Client, c: Completion, includeUsage: bool)
    ensures Pieces(client, ReplayEnd(c, includeUsage)) == ""
  {
    ReplayPieces(client, c, "");
    OnePiece(client, FinalChunk(c));
    OnePiece(client, UsageChunk(c));
    PiecesAppend(client, [FinalChunk(c)], if includeUsage then [UsageChunk(c)] else []);
  }

  lemma ReplayIsWellFormed(c: Completion, words: seq<string>, includeUsage: bool)
    requires Sound(c)
    ensures AllWellFormed([RoleChunk(c)] + WordChunks(c, words) + [FinalChunk(c)]
                          + if includeUsage then [UsageChunk(c)] else [])
  {
    ReplayChunksAreWellFormed(c, "");
    WordChunksAreWellFormed(c, words);
  }

  // --- live ------------------------------------------------------------------------------

  // dict(chunk) with its model replaced: in place if it has one, else added last.
  function WithModel(members: seq<Member>, model: string): seq<Member> {
    if members == [] then [Member("model", Str(model))]
    else if members[0].name == "model" then [Member("model", Str(model))] + members[1..]
    else [members[0]] + WithModel(members[1..], model)
  }

  // The text a choice of a chunk contributes to the recorded completion.
  function ChoiceText(choice: Json): string {
    var content := Through(Field(choice, "delta"), d => Field(d, "content"));
    if content.Some? && content.value.Str? then content.value.text else ""
  }

  function ChoicesText(choices: seq<Json>): string {
    if choices == [] then "" else ChoiceText(choices[0]) + ChoicesText(choices[1..])
  }

  function ChunkText(members: seq<Member>): string {
    var choices := LastMember(members, "choices");
    if choices.Some? && choices.value.Arr? then ChoicesText(choices.value.items) else ""
  }

  // A provider chunk with at most one choice, whose content, if present, is text or null.
  predicate SingleChoice(members: seq<Member>) {
    var choices := LastMember(members, "choices");
    choices.None? || choices.value.Null?
    || (choices.value.Arr? && |choices.value.items| <= 1
        && forall choice :: choice in choices.value.items ==>
             var content := Through(Field(choice, "delta"), d => Field(d, "content"));
             content.None? || content.value.Null? || content.value.Str?)
  }

  type Chunk = seq<Member>

  function Forwarded(chunks: seq<Chunk>, model: string): seq<Json> {
    if chunks == [] then [] else [Obj(WithModel(chunks[0], model))] + Forwarded(chunks[1..], model)
  }

  function Recorded(chunks: seq<Chunk>): string {
    if chunks == [] then "" else ChunkText(chunks[0]) + Recorded(chunks[1..])
  }

  /** The live generator: each provider chunk is forwarded under the requested model while its text is
      gathered for the completion that is recorded and cached. */
  method LiveEvents(chunks: seq<Chunk>, model: string, usage: Option<Json>)
      returns (frames: seq<string>, content: string)
    ensures Concat(frames) == Stream(Forwarded(chunks, model) + if usage.Some? then [usage.value] else [])
    ensures content == Recorded(chunks)
  {
    frames, content := [], "";
    var i := 0;
    assert chunks[0..] == chunks;
    while i < |chunks|
      invariant 0 <= i <= |chunks|
      invariant frames + Frames(Forwarded(chunks[i..], model)) == Frames(Forwarded(chunks, model))
      invariant content + Recorded(chunks[i..]) == Recorded(chunks)
    {
      NextChunk(chunks, i, model);
      var frame, text := ForwardChunk(chunks[i], model);
      Regroup(frames, frame, Frames(Forwarded(chunks[i + 1..], model)));
      Regroup(content, text, Recorded(chunks[i + 1..]));
      frames := frames + frame;
      content := content + text;
      i := i + 1;
    }
    assert chunks[i..] == [];
    frames := FinishStream(frames, Forwarded(chunks, model), usage);
  }

  method ForwardChunk(chunk: Chunk, model: string) returns (frame: seq<string>, text: string)
    ensures frame == [Frame(Print(Obj(WithModel(chunk, model))))]
    ensures text == ChunkText(chunk)
  {
    var normalized := WithModel(chunk, model);
    ModelHidesNothing(chunk, model, "choices");
    text := GatherText("", normalized);
    frame := [Frame(Print(Obj(normalized)))];
  }

  lemma NextChunk(chunks: seq<Chunk>, i: nat, model: string)
    requires i < |chunks|
    ensures Frames(Forwarded(chunks[i..], model)) ==
            [Frame(Print(Obj(WithModel(chunks[i], model))))] + Frames(Forwarded(chunks[i + 1..], model))
    ensures Recorded(chunks[i..]) == ChunkText(chunks[i]) + Recorded(chunks[i + 1..])
  {
    var head := Obj(WithModel(chunks[i], model));
    assert chunks[i..][1..] == chunks[i + 1..];
    OneFrame(head);
    FramesAppend([head], Forwarded(chunks[i + 1..], model));
  }

  // for choice in choices: gather the text of its delta.
  method GatherText(before: string, chunk: Chunk) returns (content: string)
    ensures content == before + ChunkText(chunk)
  {
    content := before;
    var choices := LastMember(chunk, "choices");
    if choices.Some? && choices.value.Arr? {
      var items := choices.value.items;
      var k := 0;
      assert items[0..] == items;
      while k < |items|
        invariant 0 <= k <= |items|
        invariant content + ChoicesText(items[k..]) == before + ChoicesText(items)
      {
        ChoicesUnfold(items[k..]);
        hide *;
        assert items[k..][0] == items[k] && items[k..][1..] == items[k + 1..];
        Regroup(content, ChoiceText(items[k]), ChoicesText(items[k + 1..]));
        content := content + ChoiceText(items[k]);
        k := k + 1;
      }
      assert items[k..] == [];
    }
  }

  lemma ChoicesUnfold(choices: seq<Json>)
    requires choices != []
    ensures ChoicesText(choices) == ChoiceText(choices[0]) + ChoicesText(choices[1..])
  {
  }

  method FinishStream(sent: seq<string>, ghost chunks: seq<Json>, usage: Option<Json>) returns (frames: seq<string>)
    requires sent == Frames(chunks)
    ensures Concat(frames) == Stream(chunks + if usage.Some? then [usage.value] else [])
  {
    frames := sent;
    FramesAppend(chunks, if usage.Some? then [usage.value] else []);
    if usage.Some? {
      OneFrame(usage.value);
      frames := frames + [Frame(Print(usage.value))];
    }
    assert frames == Frames(chunks + if usage.Some? then [usage.value] else []);
    ConcatAppends(frames, [Frame("[DONE]")]);
    OneConcat(Frame("[DONE]"));
    frames := frames + [Frame("[DONE]")];
  }

  lemma {:induction false} LastMemberUnfolds(first: Member, rest: seq<Member>, name: string)
    ensures LastMember([first] + rest, name) ==
            if LastMember(rest, name).Some? then LastMember(rest, name)
            else if first.name == name then Some(first.value) else None
    decreases |rest|
  {
    var members := [first] + rest;
    if rest == [] {
      assert Init(members) == [];
    } else {
      assert Last(members) == Last(rest) && Init(members) == [first] + Init(rest);
      if Last(rest).name != name {
        LastMemberUnfolds(first, Init(rest), name);
      }
    }
  }

  // Replacing the model changes no other field.
  lemma {:induction false} ModelHidesNothing(members: seq<Member>, model: string, name: string)
    requires name != "model"
    ensures LastMember(WithModel(members, model), name) == LastMember(members, name)
    decreases |members|
  {
    if members == [] {
      assert Init([Member("model", Str(model))]) == [];
    } else {
      assert [members[0]] + members[1..] == members;
      LastMemberUnfolds(members[0], members[1..], name);
      if members[0].name == "model" {
        LastMemberUnfolds(Member("model", Str(model)), members[1..], name);
      } else {
        LastMemberUnfolds(members[0], WithModel(members[1..], model), name);
        ModelHidesNothing(members[1..], model, name);
      }
    }
  }

  // Of a single-choice chunk, the page reads what the server records.
  lemma PieceIsRecorded(client: Client, chunk: Chunk, model: string)
    requires SingleChoice(chunk)
    ensures Piece(client, Obj(WithModel(chunk, model))) == ChunkText(chunk)
  {
    ModelHidesNothing(chunk, model, "choices");
    var choices := LastMember(chunk, "choices");
    if choices.Some? && choices.value.Arr? && choices.value.items != [] {
      var items := choices.value.items;
      assert items[1..] == [] && items[0] in items;
      assert ChoicesText(items) == ChoiceText(items[0]) + "";
    }
  }

  lemma {:induction false} PiecesAreRecorded(client: Client, chunks: seq<Chunk>, model: string)
    requires forall i :: 0 <= i < |chunks| ==> SingleChoice(chunks[i])
    ensures Pieces(client, Forwarded(chunks, model)) == Recorded(chunks)
  {
    if chunks != [] {
      PieceIsRecorded(client, chunks[0], model);
      PiecesAreRecorded(client, chunks[1..], model);
      assert Forwarded(chunks, model)[1..] == Forwarded(chunks[1..], model);
    }
  }

  lemma {:induction false} ModelKeepsWellFormed(members: seq<Member>, model: string)
    requires WellFormedMembers(members)
    ensures WellFormedMembers(WithModel(members, model))
    decreases |members|
  {
    if members != [] {
      ModelKeepsWellFormed(members[1..], model);
      var changed := WithModel(members, model);
      assert changed[1..] == if members[0].name == "model" then members[1..] else WithModel(members[1..], model);
    } else {
      assert WellFormed(Str(model));
    }
  }

  lemma {:induction false} ForwardedIsWellFormed(chunks: seq<Chunk>, model: string)
    requires forall i :: 0 <= i < |chunks| ==> WellFormedMembers(chunks[i])
    ensures AllWellFormed(Forwarded(chunks, model))
  {
    if chunks != [] {
      ModelKeepsWellFormed(chunks[0], model);
      ForwardedIsWellFormed(chunks[1..], model);
    }
  }

  // Main result for the live stream: the page reads exactly what is recorded, and a replay of
  // what is recorded shows the same message.
  lemma LiveAndReplayAgree(client: Client, chunks: seq<Chunk>, model: string, sendUsage: bool,
                           c: Completion, includeUsage: bool)
    requires Reads(client) && Sound(c)
    requires forall i :: 0 <= i < |chunks| ==> WellFormedMembers(chunks[i]) && SingleChoice(chunks[i])
    requires c.content == Some(Recorded(chunks))
    ensures var live := Message(client, Stream(Forwarded(chunks, model) + if sendUsage then [UsageChunk(c)] else []));
            var replay := Message(client, Stream(ReplayChunks(c, includeUsage)));
            && live == Recorded(chunks) && replay == live + " "
            && Trim(live, ScriptSpace) == Trim(replay, ScriptSpace)
  {
    var more := if sendUsage then [UsageChunk(c)] else [];
    ForwardedIsWellFormed(chunks, model);
    ReplayChunksAreWellFormed(c, "");
    StreamIsRead(client, Forwarded(chunks, model) + more);
    PiecesAppend(client, Forwarded(chunks, model), more);
    PiecesAreRecorded(client, chunks, model);
    ReplayPieces(client, c, "");
    OnePiece(client, UsageChunk(c));
    ReplayIsRead(client, c, includeUsage);
    TrimDropsTrailingSpace(Recorded(chunks), ' ', ScriptSpace);
  }

  // The condition matters: the page shows the first choice of a chunk, the record keeps all of them.
  lemma OnlyTheFirstChoiceIsShown(client: Client, chunk: Chunk, model: string)
    requires var choices := LastMember(chunk, "choices");
             choices.Some? && choices.value.Arr? && choices.value.items != []
             && SingleChoice([Member("choices", Arr(choices.value.items[..1]))])
    ensures var rest := LastMember(chunk, "choices").value.items[1..];
            && ChunkText(chunk) == Piece(client, Obj(WithModel(chunk, model))) + ChoicesText(rest)
            && (Piece(client, Obj(WithModel(chunk, model))) == ChunkText(chunk) <==> ChoicesText(rest) == "")
  {
    ModelHidesNothing(chunk, model, "choices");
    var items := LastMember(chunk, "choices").value.items;
    assert items[..1][0] == items[0] && items[0] in items[..1];
    assert LastMember([Member("choices", Arr(items[..1]))], "choices") == Some(Arr(items[..1]));
  }
}
