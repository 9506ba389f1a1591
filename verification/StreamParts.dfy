/** A streamed model turn: parts arrive in pieces and are folded back into one turn. */
module StreamParts {
  import opened Common
  import opened Text
  import opened Sequences

  datatype Call = Call(name: string, args: string)

  /** A part on the wire; an empty signature is none. */
  datatype Part = Part(text: string, call: Option<Call>, signature: string)

  /** One event of the stream, already parsed; `blocked` is the filter's reason or empty. */
  datatype Chunk =
    | Unreadable
    | Failed(message: string)
    | Data(blocked: string, candidates: seq<seq<Part>>)

  datatype ContentPart = ContentPart(text: string, call: Option<Call>, signature: string)

  datatype Turn = Turn(content: string, toolCalls: seq<Call>, parts: seq<ContentPart>)

  datatype Failure = BadChunk | StreamFailed(message: string) | Blocked(reason: string) | Empty

  /** The last part still takes text: it is no call and carries no signature yet. */
  predicate Open(parts: seq<Part>) {
    |parts| > 0 && parts[|parts| - 1].call.None? && parts[|parts| - 1].signature == ""
  }

  function Appended(parts: seq<Part>, part: Part): seq<Part> {
    if part.call.Some? then parts + [part]
    else if Open(parts) && (part.text != "" || part.signature != "") then
      var last := parts[|parts| - 1];
      parts[|parts| - 1 := last.(text := last.text + part.text, signature := part.signature)]
    else if part.text != "" || part.signature != "" then parts + [part]
    else parts
  }

  function Folded(wire: seq<Part>): seq<Part> {
    if wire == [] then [] else Appended(Folded(wire[..|wire| - 1]), wire[|wire| - 1])
  }

  // ---------- What a stream of parts says ----------

  /** What the parts carry, cut as finely as it goes: characters, signatures and calls. */
  datatype Token = Char(c: char) | Signed(signature: string) | Called(part: Part)

  function Chars(text: string): (r: seq<Token>)
    ensures |r| == |text|
  {
    if text == "" then [] else Chars(text[..|text| - 1]) + [Char(text[|text| - 1])]
  }

  function Tokens(part: Part): seq<Token> {
    if part.call.Some? then [Called(part)]
    else Chars(part.text) + (if part.signature == "" then [] else [Signed(part.signature)])
  }

  function AllTokens(parts: seq<Part>): seq<Token> {
    FlatMap(Tokens, parts)
  }

  /** The turn built token by token, with no part boundaries to go by. */
  function Extend(parts: seq<Part>, token: Token): seq<Part> {
    match token
    case Char(c) =>
      if Open(parts) then parts[|parts| - 1 := parts[|parts| - 1].(text := parts[|parts| - 1].text + [c])]
      else parts + [Part([c], None, "")]
    case Signed(signature) =>
      if Open(parts) then parts[|parts| - 1 := parts[|parts| - 1].(signature := signature)]
      else parts + [Part("", None, signature)]
    case Called(part) => parts + [part]
  }

  function Rebuilt(parts: seq<Part>, tokens: seq<Token>): seq<Part> {
    if tokens == [] then parts else Extend(Rebuilt(parts, tokens[..|tokens| - 1]), tokens[|tokens| - 1])
  }

  function TextOf(part: Part): string {
    part.text
  }

  function CallOf(part: Part): seq<Call> {
    if part.call.Some? then [part.call.value] else []
  }

  /** A text as it is handed on; empty ones are not. */
  function DeltaOf(part: Part): seq<string> {
    if part.text == "" then [] else [part.text]
  }

  /** A part with text, a part with a call, or with both one after the other; parts with neither are left out. */
  function Shown(part: Part): seq<ContentPart> {
    (if part.text != "" then [ContentPart(part.text, None, part.signature)] else [])
    + (if part.call.Some? then [ContentPart(part.text, part.call, part.signature)] else [])
  }

  function Parsed(parts: seq<Part>): Turn {
    Turn(Trim(FlatMap(TextOf, parts)), FlatMap(CallOf, parts), FlatMap(Shown, parts))
  }

  // ---------- The reader ----------

  class TurnBuilder {
    var parts: seq<Part>

    constructor ()
      ensures parts == []
    {
      parts := [];
    }

    /** Folds one streamed part into the turn, editing the last part in place when it continues it. */
    method Append(part: Part)
      modifies this
      ensures parts == Appended(old(parts), part)
    {
      if part.call.Some? {
        parts := parts + [part];
        return;
      }
      var last := -1;
      if |parts| > 0 && parts[|parts| - 1].call.None? && parts[|parts| - 1].signature == "" {
        last := |parts| - 1;
      }
      if part.text != "" && last >= 0 {
        parts := parts[last := parts[last].(text := parts[last].text + part.text, signature := part.signature)];
      } else if part.text == "" && part.signature != "" && last >= 0 {
        parts := parts[last := parts[last].(signature := part.signature)];
        assert old(parts)[last].text + "" == old(parts)[last].text;
      } else if part.text != "" || part.signature != "" {
        parts := parts + [part];
      }
    }
  }

  method ParseModelTurn(parts: seq<Part>) returns (turn: Turn)
    ensures turn == Parsed(parts)
  {
    var content := "";
    var toolCalls: seq<Call> := [];
    var shown: seq<ContentPart> := [];
    for i := 0 to |parts|
      invariant content == FlatMap(TextOf, parts[..i])
      invariant toolCalls == FlatMap(CallOf, parts[..i])
      invariant shown == FlatMap(Shown, parts[..i])
    {
      assert parts[..i + 1] == parts[..i] + [parts[i]];
      FlatMapOne(TextOf, parts[..i], parts[i]);
      FlatMapOne(CallOf, parts[..i], parts[i]);
      FlatMapOne(Shown, parts[..i], parts[i]);
      var text := "";
      if parts[i].text != "" {
        content := content + parts[i].text;
        text := parts[i].text;
        shown := shown + [ContentPart(text, None, parts[i].signature)];
      }
      if parts[i].call.Some? {
        toolCalls := toolCalls + [parts[i].call.value];
        shown := shown + [ContentPart(text, parts[i].call, parts[i].signature)];
      }
    }
    assert parts[..|parts|] == parts;
    turn := Turn(Trim(content), toolCalls, shown);
  }

  /** The parts of the first candidates, in order, up to the first chunk that ends the stream. */
  function Wire(chunks: seq<Chunk>): seq<Part> {
    if chunks == [] || !chunks[0].Data? then []
    else (if chunks[0].candidates == [] then [] else chunks[0].candidates[0]) + Wire(chunks[1..])
  }

  function LastBlock(chunks: seq<Chunk>, so: string): string {
    if chunks == [] || !chunks[0].Data? then so
    else LastBlock(chunks[1..], if chunks[0].blocked != "" then chunks[0].blocked else so)
  }

  function FirstFailure(chunks: seq<Chunk>): Option<Failure> {
    if chunks == [] then None
    else match chunks[0]
      case Unreadable => Some(BadChunk)
      case Failed(message) => Some(StreamFailed(message))
      case Data(_, _) => FirstFailure(chunks[1..])
  }

  function Outcome(chunks: seq<Chunk>): Result<Turn, Failure> {
    if FirstFailure(chunks).Some? then Err(FirstFailure(chunks).value)
    else if LastBlock(chunks, "") != "" then Err(Blocked(LastBlock(chunks, "")))
    else if Folded(Wire(chunks)) == [] then Err(Empty)
    else Ok(Parsed(Folded(Wire(chunks))))
  }

  /** Folds the parts of one candidate, handing their texts on as they come. */
  method FoldCandidate(builder: TurnBuilder, parts: seq<Part>, ghost seen: seq<Part>) returns (deltas: seq<string>)
    requires builder.parts == Folded(seen)
    modifies builder
    ensures builder.parts == Folded(seen + parts)
    ensures deltas == FlatMap(DeltaOf, parts)
  {
    deltas := [];
    assert seen + parts[..0] == seen;
    for k := 0 to |parts|
      invariant builder.parts == Folded(seen + parts[..k])
      invariant deltas == FlatMap(DeltaOf, parts[..k])
    {
      hide FlatMap, Appended;
      assert parts[..k + 1] == parts[..k] + [parts[k]];
      FlatMapOne(DeltaOf, parts[..k], parts[k]);
      assert (seen + parts[..k + 1])[..|seen| + k] == seen + parts[..k];
      if parts[k].text != "" {
        deltas := deltas + [parts[k].text];
      }
      builder.Append(parts[k]);
    }
    assert parts[..|parts|] == parts;
  }

  method ReadStream(chunks: seq<Chunk>) returns (outcome: Result<Turn, Failure>, deltas: seq<string>)
    ensures outcome == Outcome(chunks)
    ensures deltas == FlatMap(DeltaOf, Wire(chunks))
  {
    var builder := new TurnBuilder();
    var blocked := "";
    deltas := [];
    ghost var seen: seq<Part> := [];
    for i := 0 to |chunks|
      invariant builder.parts == Folded(seen) && deltas == FlatMap(DeltaOf, seen)
      invariant seen + Wire(chunks[i..]) == Wire(chunks)
      invariant LastBlock(chunks[i..], blocked) == LastBlock(chunks, "")
      invariant FirstFailure(chunks[i..]) == FirstFailure(chunks)
    {
      assert chunks[i..][0] == chunks[i] && chunks[i..][1..] == chunks[i + 1..];
      match chunks[i]
      case Unreadable =>
        assert seen + [] == seen;
        return Err(BadChunk), deltas;
      case Failed(message) =>
        assert seen + [] == seen;
        return Err(StreamFailed(message)), deltas;
      case Data(reason, candidates) =>
        if reason != "" {
          blocked := reason;
        }
        if |candidates| == 0 {
          continue;
        }
        var more := FoldCandidate(builder, candidates[0], seen);
        FlatMapAppend(DeltaOf, seen, candidates[0]);
        assert seen + (candidates[0] + Wire(chunks[i + 1..])) == seen + candidates[0] + Wire(chunks[i + 1..]);
        deltas := deltas + more;
        seen := seen + candidates[0];
    }
    assert chunks[|chunks|..] == [] && seen + [] == seen;
    if blocked != "" {
      return Err(Blocked(blocked)), deltas;
    }
    if |builder.parts| == 0 {
      return Err(Empty), deltas;
    }
    var turn := ParseModelTurn(builder.parts);
    outcome := Ok(turn);
  }

  // ---------- Folding does not depend on the pieces ----------

  lemma {:induction false} CharsAppend(a: string, b: string)
    ensures Chars(a + b) == Chars(a) + Chars(b)
  {
    if b == "" {
      assert a + b == a;
    } else {
      var n := |b| - 1;
      assert (a + b)[..|a| + n] == a + b[..n];
      CharsAppend(a, b[..n]);
    }
  }

  lemma GrownTokens(last: Part, part: Part)
    requires last.call.None? && last.signature == "" && part.call.None?
    ensures Tokens(last.(text := last.text + part.text, signature := part.signature)) == Tokens(last) + Tokens(part)
  {
    CharsAppend(last.text, part.text);
  }

  /** A fold neither loses nor invents anything the parts said. */
  lemma AppendKeepsTokens(parts: seq<Part>, part: Part)
    ensures AllTokens(Appended(parts, part)) == AllTokens(parts) + Tokens(part)
  {
    if part.call.None? && Open(parts) && (part.text != "" || part.signature != "") {
      var front, last := parts[..|parts| - 1], parts[|parts| - 1];
      var grown := last.(text := last.text + part.text, signature := part.signature);
      assert Appended(parts, part) == front + [grown];
      FlatMapOne(Tokens, front, grown);
      GrownTokens(last, part);
    } else {
      FlatMapOne(Tokens, parts, part);
    }
  }

  lemma {:induction false} FoldKeepsTokens(wire: seq<Part>)
    ensures AllTokens(Folded(wire)) == AllTokens(wire)
  {
    if wire != [] {
      FoldKeepsTokens(wire[..|wire| - 1]);
      AppendKeepsTokens(Folded(wire[..|wire| - 1]), wire[|wire| - 1]);
    }
  }

  lemma {:induction false} RebuiltAppend(parts: seq<Part>, a: seq<Token>, b: seq<Token>)
    ensures Rebuilt(parts, a + b) == Rebuilt(Rebuilt(parts, a), b)
  {
    if b == [] {
      assert a + b == a;
    } else {
      var n := |b| - 1;
      assert (a + b)[..|a| + n] == a + b[..n];
      RebuiltAppend(parts, a, b[..n]);
    }
  }

  lemma {:induction false} RebuiltChars(parts: seq<Part>, text: string)
    requires text != ""
    ensures var r := Rebuilt(parts, Chars(text));
            r == if Open(parts) then parts[|parts| - 1 := parts[|parts| - 1].(text := parts[|parts| - 1].text + text)]
                 else parts + [Part(text, None, "")]
  {
    var n := |text| - 1;
    assert text == text[..n] + [text[n]];
    if n > 0 {
      RebuiltChars(parts, text[..n]);
      if Open(parts) {
        var last := parts[|parts| - 1].text;
        assert last + text[..n] + [text[n]] == last + text;
      }
    } else {
      assert Rebuilt(parts, []) == parts;
    }
  }

  lemma AppendIsRebuilt(parts: seq<Part>, part: Part)
    ensures Appended(parts, part) == Rebuilt(parts, Tokens(part))
  {
    if part.call.Some? {
      assert [Called(part)][..0] == [];
    } else {
      var ends: seq<Token> := if part.signature == "" then [] else [Signed(part.signature)];
      RebuiltAppend(parts, Chars(part.text), ends);
      if part.text != "" { RebuiltChars(parts, part.text); }
      if ends != [] { assert ends[..0] == []; }
      if Open(parts) {
        assert parts[|parts| - 1].text + "" == parts[|parts| - 1].text;
      }
    }
  }

  /** The fold is what the tokens alone give, one at a time. */
  lemma {:induction false} FoldIsRebuilt(wire: seq<Part>)
    ensures Folded(wire) == Rebuilt([], AllTokens(wire))
  {
    if wire != [] {
      var n := |wire| - 1;
      FoldIsRebuilt(wire[..n]);
      AppendIsRebuilt(Folded(wire[..n]), wire[n]);
      RebuiltAppend([], AllTokens(wire[..n]), Tokens(wire[n]));
    }
  }

  /** Two streams fold to the same turn exactly when they say the same, however either was cut into parts. */
  lemma SameTurnIff(a: seq<Part>, b: seq<Part>)
    ensures Folded(a) == Folded(b) <==> AllTokens(a) == AllTokens(b)
  {
    FoldKeepsTokens(a);
    FoldKeepsTokens(b);
    FoldIsRebuilt(a);
    FoldIsRebuilt(b);
  }

  /** Cutting a text part in two, or sending its signature behind it in an empty part, changes nothing. */
  lemma PiecesFoldAsOne(before: seq<Part>, left: string, right: string, signature: string, after: seq<Part>)
    ensures Folded(before + [Part(left, None, ""), Part(right, None, signature)] + after)
         == Folded(before + [Part(left + right, None, signature)] + after)
  {
    var first, second := Part(left, None, ""), Part(right, None, signature);
    var whole := Part(left + right, None, signature);
    assert before + [first, second] == before + [first] + [second];
    FlatMapAppend(Tokens, before + [first, second], after);
    FlatMapOne(Tokens, before + [first], second);
    FlatMapOne(Tokens, before, first);
    FlatMapAppend(Tokens, before + [whole], after);
    FlatMapOne(Tokens, before, whole);
    GrownTokens(first, second);
    SameTurnIff(before + [first, second] + after, before + [whole] + after);
  }

  lemma AppendKeepsTextAndCalls(parts: seq<Part>, part: Part)
    ensures FlatMap(TextOf, Appended(parts, part)) == FlatMap(TextOf, parts) + part.text
    ensures FlatMap(CallOf, Appended(parts, part)) == FlatMap(CallOf, parts) + CallOf(part)
  {
    hide FlatMap;
    FlatMapOne(TextOf, parts, part);
    FlatMapOne(CallOf, parts, part);
    if part.call.None? && Open(parts) && (part.text != "" || part.signature != "") {
      var front, last := parts[..|parts| - 1], parts[|parts| - 1];
      var grown := Appended(parts, part)[|parts| - 1];
      assert parts == front + [last] && Appended(parts, part) == front + [grown];
      FlatMapOne(TextOf, front, last);
      FlatMapOne(TextOf, front, grown);
      FlatMapOne(CallOf, front, last);
      FlatMapOne(CallOf, front, grown);
      var text := FlatMap(TextOf, front);
      assert text + (last.text + part.text) == text + last.text + part.text;
    }
  }

  lemma ConcatDelta(texts: seq<string>, part: Part)
    ensures Concat(texts + DeltaOf(part)) == Concat(texts) + part.text
  {
    if part.text == "" {
      assert texts + DeltaOf(part) == texts;
    } else {
      assert (texts + [part.text])[..|texts|] == texts;
    }
  }

  /** Calls keep their order, and the text of the turn is exactly what was handed on. */
  lemma {:induction false} FoldKeepsTextAndCalls(wire: seq<Part>)
    ensures FlatMap(CallOf, Folded(wire)) == FlatMap(CallOf, wire)
    ensures FlatMap(TextOf, Folded(wire)) == Concat(FlatMap(DeltaOf, wire))
  {
    if wire != [] {
      var n := |wire| - 1;
      FoldKeepsTextAndCalls(wire[..n]);
      AppendKeepsTextAndCalls(Folded(wire[..n]), wire[n]);
      ConcatDelta(FlatMap(DeltaOf, wire[..n]), wire[n]);
    }
  }

  /** A turn that comes back holds the trimmed deltas and the calls of the stream, in order. */
  lemma TurnIsWhatWasStreamed(chunks: seq<Chunk>)
    ensures Outcome(chunks).Ok? ==>
              && Outcome(chunks).value.content == Trim(Concat(FlatMap(DeltaOf, Wire(chunks))))
              && Outcome(chunks).value.toolCalls == FlatMap(CallOf, Wire(chunks))
  {
    FoldKeepsTextAndCalls(Wire(chunks));
  }
}
