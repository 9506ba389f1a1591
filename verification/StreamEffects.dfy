/** What a model's stream comes to: how it can end, what is handed on, and the parts the turn is made of. */
module StreamEffects {
  import opened Common
  import opened Text
  import opened Sequences
  import opened StreamParts

  // ---------- How a stream ends ----------

  /** The chunk the stream stops at, all before it having been read. */
  predicate StopsAt(chunks: seq<Chunk>, k: nat) {
    k < |chunks| && !chunks[k].Data? && forall j :: 0 <= j < k ==> chunks[j].Data?
  }

  predicate AllRead(chunks: seq<Chunk>) {
    forall j :: 0 <= j < |chunks| ==> chunks[j].Data?
  }

  /** The last reason for which any chunk was blocked. */
  predicate LastReason(chunks: seq<Chunk>, reason: string) {
    exists k :: 0 <= k < |chunks| && chunks[k].Data? && chunks[k].blocked == reason
                && forall j :: k < j < |chunks| && chunks[j].Data? ==> chunks[j].blocked == ""
  }

  predicate NeverBlocked(chunks: seq<Chunk>) {
    forall j :: 0 <= j < |chunks| && chunks[j].Data? ==> chunks[j].blocked == ""
  }

  lemma {:induction false} FailureIs(chunks: seq<Chunk>)
    ensures FirstFailure(chunks).None? <==> AllRead(chunks)
    ensures forall k: nat :: StopsAt(chunks, k) ==>
              FirstFailure(chunks) == Some(if chunks[k].Unreadable? then BadChunk else StreamFailed(chunks[k].message))
  {
    if chunks != [] {
      FailureIs(chunks[1..]);
      if chunks[0].Data? {
        forall k: nat | StopsAt(chunks, k)
          ensures k > 0 && StopsAt(chunks[1..], k - 1) && chunks[1..][k - 1] == chunks[k]
        {
          forall j | 0 <= j < k - 1 ensures chunks[1..][j].Data? {
            assert chunks[1..][j] == chunks[j + 1];
          }
        }
        if AllRead(chunks[1..]) {
          forall j | 0 <= j < |chunks| ensures chunks[j].Data? {
            assert j > 0 ==> chunks[j] == chunks[1..][j - 1];
          }
        }
      }
    }
  }

  lemma {:induction false} BlockIs(chunks: seq<Chunk>, so: string)
    requires AllRead(chunks)
    ensures if NeverBlocked(chunks) then LastBlock(chunks, so) == so
            else LastReason(chunks, LastBlock(chunks, so)) && LastBlock(chunks, so) != ""
  {
    if chunks != [] {
      var rest := chunks[1..];
      var next := if chunks[0].blocked != "" then chunks[0].blocked else so;
      assert forall j :: 0 <= j < |rest| ==> rest[j] == chunks[j + 1];
      BlockIs(rest, next);
      if NeverBlocked(rest) {
        if chunks[0].blocked != "" {
          assert LastReason(chunks, chunks[0].blocked);
        }
      } else {
        var reason := LastBlock(rest, next);
        var k :| 0 <= k < |rest| && rest[k].blocked == reason && forall j :: k < j < |rest| && rest[j].Data? ==> rest[j].blocked == "";
        assert chunks[k + 1].blocked == reason;
      }
    }
  }

  lemma {:induction false} FoldedSays(wire: seq<Part>)
    ensures Folded(wire) == [] <==> AllTokens(wire) == []
  {
    FoldKeepsTokens(wire);
    FoldIsRebuilt(wire);
  }

  /** A stream ends in one of five ways: with the first chunk that is unreadable or carries a failure; if all were read, with
      the last reason for which any was blocked; if none was, with nothing said at all; and else with a turn. */
  lemma OutcomeIs(chunks: seq<Chunk>)
    ensures forall k: nat :: StopsAt(chunks, k) ==>
              Outcome(chunks) == Err(if chunks[k].Unreadable? then BadChunk else StreamFailed(chunks[k].message))
    ensures AllRead(chunks) && !NeverBlocked(chunks) ==>
              Outcome(chunks).Err? && Outcome(chunks).error.Blocked? && LastReason(chunks, Outcome(chunks).error.reason)
    ensures AllRead(chunks) && NeverBlocked(chunks) && AllTokens(Wire(chunks)) == [] ==> Outcome(chunks) == Err(Empty)
    ensures AllRead(chunks) && NeverBlocked(chunks) && AllTokens(Wire(chunks)) != [] ==> Outcome(chunks).Ok?
  {
    hide Wire, Folded, AllTokens, Parsed, FirstFailure, LastBlock, LastReason;
    FailureIs(chunks);
    FoldedSays(Wire(chunks));
    if AllRead(chunks) {
      BlockIs(chunks, "");
    }
  }

  /** What is read of a stream, chunk by chunk: the parts of the first candidate, if there is one. */
  lemma {:induction false} WireAppend(chunks: seq<Chunk>, chunk: Chunk)
    requires AllRead(chunks)
    ensures Wire([]) == []
    ensures Wire(chunks + [chunk])
            == Wire(chunks) + if chunk.Data? && chunk.candidates != [] then chunk.candidates[0] else []
  {
    var all := chunks + [chunk];
    if chunks == [] {
      assert all[1..] == [] && Wire(all[1..]) == [];
    } else {
      assert chunks[0].Data? && all[1..] == chunks[1..] + [chunk];
      forall j | 0 <= j < |chunks[1..]| ensures chunks[1..][j].Data? {
        assert chunks[1..][j] == chunks[j + 1];
      }
      WireAppend(chunks[1..], chunk);
    }
  }

  /** Nothing is read behind the chunk a stream stops at. */
  lemma {:induction false} NothingAfterwards(chunks: seq<Chunk>, k: nat)
    requires StopsAt(chunks, k)
    ensures Wire(chunks) == Wire(chunks[..k])
  {
    if k > 0 {
      assert chunks[0].Data?;
      forall j | 0 <= j < k - 1 ensures chunks[1..][j].Data? {
        assert chunks[1..][j] == chunks[j + 1];
      }
      assert chunks[1..][k - 1] == chunks[k];
      assert chunks[..k][1..] == chunks[1..][..k - 1] && chunks[..k][0] == chunks[0];
      NothingAfterwards(chunks[1..], k - 1);
    } else {
      assert chunks[..0] == [];
    }
  }

  /** What is handed on of it: each text that is not empty, as it came. */
  lemma DeltasAppend(wire: seq<Part>, part: Part)
    ensures FlatMap(DeltaOf, []) == []
    ensures FlatMap(DeltaOf, wire + [part]) == FlatMap(DeltaOf, wire) + if part.text == "" then [] else [part.text]
  {
    FlatMapOne(DeltaOf, wire, part);
  }

  // ---------- The parts of a turn ----------

  /** A text that nothing has closed yet is followed only by a call, and no part is there for nothing. */
  predicate Tight(parts: seq<Part>) {
    && (forall i :: 0 <= i < |parts| ==> parts[i].call.Some? || parts[i].text != "" || parts[i].signature != "")
    && forall i :: 0 <= i && i + 1 < |parts| && parts[i].call.None? && parts[i].signature == "" ==> parts[i + 1].call.Some?
  }

  /** Streamed parts are folded as far as they go; with `FoldKeepsTokens` that leaves one way to fold them. */
  lemma {:induction false} FoldIsTight(wire: seq<Part>)
    ensures Tight(Folded(wire))
  {
    if wire != [] {
      var n := |wire| - 1;
      FoldIsTight(wire[..n]);
      AppendIsTight(Folded(wire[..n]), wire[n]);
    }
  }

  lemma AppendIsTight(parts: seq<Part>, part: Part)
    requires Tight(parts)
    ensures Tight(Appended(parts, part))
  {
    var r := Appended(parts, part);
    forall i | 0 <= i && i + 1 < |r| && r[i].call.None? && r[i].signature == ""
      ensures r[i + 1].call.Some?
    {
      if i + 1 < |parts| {
        assert r[i] == parts[i] && parts[i + 1].call.Some?;
      }
    }
  }

  /** What the turn shows of its parts, in order: a text with its signature, and a call with its signature and the text that
      came in the same part; the content is the texts put together and trimmed, and the calls are all there. */
  lemma ParsedAppend(parts: seq<Part>, part: Part)
    ensures Parsed([]) == Turn("", [], [])
    ensures var before, after := Parsed(parts), Parsed(parts + [part]);
            && after.toolCalls == before.toolCalls + (if part.call.Some? then [part.call.value] else [])
            && after.parts
               == before.parts + (if part.text != "" then [ContentPart(part.text, None, part.signature)] else [])
                  + (if part.call.Some? then [ContentPart(part.text, part.call, part.signature)] else [])
            && after.content == Trim(FlatMap(TextOf, parts) + part.text)
  {
    hide Trim, FlatMap;
    FlatMapOne(TextOf, parts, part);
    FlatMapOne(CallOf, parts, part);
    FlatMapOne(Shown, parts, part);
    NothingParsed();
    var before := Parsed(parts).parts;
    assert before + Shown(part)
           == before + (if part.text != "" then [ContentPart(part.text, None, part.signature)] else [])
              + (if part.call.Some? then [ContentPart(part.text, part.call, part.signature)] else []);
  }

  lemma NothingParsed()
    ensures Parsed([]) == Turn("", [], [])
  {
  }
}
