/** The greedy packer behind word chunks and paragraph groups: consecutive units go into one chunk while they fit,
    counting a separator between neighbours; a unit that alone exceeds the limit stays whole. */
module Packing {
  import opened Text
  import opened TextLaws
  import opened Frames

  const DEFAULT_CHUNK_SIZE := 2000
  const MAX_PASSAGE_RUNES := 900

  /** The size of a chunk: its units and a separator between neighbours. */
  function Width(units: seq<string>, gap: nat): nat {
    if units == [] then 0
    else if |units| == 1 then |units[0]|
    else Width(units[..|units| - 1], gap) + gap + |units[|units| - 1]|
  }

  predicate Fits(units: seq<string>, gap: nat, limit: int) {
    |units| == 1 || Width(units, gap) <= limit
  }

  /** The chunks that come out of an open chunk and the units still to place. */
  function Pack(open: seq<string>, rest: seq<string>, gap: nat, limit: int): seq<seq<string>>
    decreases |rest|
  {
    if rest == [] then
      if open == [] then [] else [open]
    else if open != [] && Width(open, gap) + gap + |rest[0]| > limit then
      [open] + Pack([rest[0]], rest[1..], gap, limit)
    else
      Pack(open + [rest[0]], rest[1..], gap, limit)
  }

  function Greedy(units: seq<string>, gap: nat, limit: int): seq<seq<string>> {
    Pack([], units, gap, limit)
  }

  function Joined(chunks: seq<seq<string>>, separator: string): (r: seq<string>)
    ensures |r| == |chunks|
  {
    if chunks == [] then [] else Joined(chunks[..|chunks| - 1], separator) + [Join(chunks[|chunks| - 1], separator)]
  }

  // ---------- The two procedures ----------

  /** Word chunks of at most `maxRunes` characters. */
  method ChunkText(input: string, maxRunes: int) returns (chunks: seq<string>)
    ensures chunks == Chunked(input, maxRunes)
  {
    var text := Trim(input);
    if text == "" {
      return [];
    }
    var limit := maxRunes;
    if limit <= 0 {
      limit := DEFAULT_CHUNK_SIZE;
    }
    if |text| <= limit {
      return [text];
    }
    var words := Fields(text);
    FieldsAreSolid(text);
    if |words| == 0 {
      return [text];
    }
    chunks := PackWords(words, limit);
  }

  /** The builder loop: the open chunk is a string and its length so far. */
  method PackWords(words: seq<string>, limit: int) returns (chunks: seq<string>)
    requires forall i :: 0 <= i < |words| ==> Solid(words[i])
    ensures chunks == Joined(Greedy(words, 1, limit), " ")
  {
    NothingPacked(words, limit);
    hide Pack, Greedy, Joined, Join, Width, Solid, Trim;
    chunks := [];
    var current := "";
    var currentRunes := 0;
    ghost var open: seq<string> := [];
    ghost var closed: seq<seq<string>> := [];
    for i := 0 to |words|
      invariant current == Join(open, " ") && currentRunes == |current| == Width(open, 1)
      invariant |current| > 0 <==> open != []
      invariant forall j :: 0 <= j < |open| ==> Solid(open[j])
      invariant chunks == Joined(closed, " ")
      invariant closed + Pack(open, words[i..], 1, limit) == Greedy(words, 1, limit)
    {
      var word := words[i];
      assert words[i..][0] == word && words[i..][1..] == words[i + 1..];
      PackStep(closed, open, words[i..], 1, limit);
      var spaceRunes := 0;
      if |current| > 0 {
        spaceRunes := 1;
      }
      if currentRunes + spaceRunes + |word| > limit && |current| > 0 {
        TrimSolidJoin(open, " ");
        JoinedAppend(closed, open, " ");
        closed := closed + [open];
        chunks := chunks + [Trim(current)];
        current := "";
        currentRunes := 0;
        open := [];
      }
      if |current| > 0 {
        current := current + " ";
        currentRunes := currentRunes + 1;
      }
      current := current + word;
      currentRunes := currentRunes + |word|;
      Extend(open, word, " ");
      SolidIsSome(word);
      open := open + [word];
    }
    assert words[|words|..] == [];
    PackEnd(closed, open, 1, limit);
    if |current| > 0 {
      TrimSolidJoin(open, " ");
      JoinedAppend(closed, open, " ");
      chunks := chunks + [Trim(current)];
    }
  }

  lemma NothingPacked(words: seq<string>, limit: int)
    ensures Join([], " ") == "" && Width([], 1) == 0 && Joined([], " ") == []
    ensures words[0..] == words && [] + Pack([], words, 1, limit) == Greedy(words, 1, limit)
  {
  }

  lemma SolidIsSome(word: string)
    requires Solid(word)
    ensures word != ""
  {
  }

  lemma PackEnd(closed: seq<seq<string>>, open: seq<string>, gap: nat, limit: int)
    ensures closed + Pack(open, [], gap, limit) == if open == [] then closed else closed + [open]
  {
  }

  lemma PackStep(closed: seq<seq<string>>, open: seq<string>, rest: seq<string>, gap: nat, limit: int)
    requires rest != []
    ensures closed + Pack(open, rest, gap, limit)
         == if open != [] && Width(open, gap) + gap + |rest[0]| > limit
            then closed + [open] + Pack([] + [rest[0]], rest[1..], gap, limit)
            else closed + Pack(open + [rest[0]], rest[1..], gap, limit)
  {
    assert [] + [rest[0]] == [rest[0]];
    var after := Pack([rest[0]], rest[1..], gap, limit);
    assert closed + ([open] + after) == closed + [open] + after;
  }

  lemma JoinedAppend(closed: seq<seq<string>>, chunk: seq<string>, separator: string)
    ensures Joined(closed + [chunk], separator) == Joined(closed, separator) + [Join(chunk, separator)]
  {
    assert (closed + [chunk])[..|closed|] == closed;
  }

  lemma Extend(open: seq<string>, unit: string, separator: string)
    ensures Join(open + [unit], separator) == if open == [] then unit else Join(open, separator) + separator + unit
    ensures forall gap :: Width(open + [unit], gap) == if open == [] then |unit| else Width(open, gap) + gap + |unit|
  {
    assert (open + [unit])[..|open|] == open;
  }

  /** What `ChunkText` comes to: nothing for blank text, the trimmed text when it fits, packed words otherwise. */
  function Chunked(input: string, maxRunes: int): seq<string> {
    var text := Trim(input);
    var limit := if maxRunes <= 0 then DEFAULT_CHUNK_SIZE else maxRunes;
    if text == "" then []
    else if |text| <= limit then [text]
    else if Fields(text) == [] then [text]
    else Joined(Greedy(Fields(text), 1, limit), " ")
  }

  /** The paragraphs of a body cut at double newlines: trimmed, blank ones left out. */
  function Paragraphs(pieces: seq<string>): (r: seq<string>)
    ensures forall i :: 0 <= i < |r| ==> r[i] != ""
  {
    if pieces == [] then []
    else (if Trim(pieces[0]) == "" then [] else [Trim(pieces[0])]) + Paragraphs(pieces[1..])
  }

  /** What `GroupParagraphs` comes to. */
  function Grouped(body: string, maxRunes: int): seq<string> {
    Joined(Greedy(Paragraphs(Pieces(body)), 2, maxRunes), "\n\n")
  }

  lemma NothingGrouped(pieces: seq<string>, limit: int)
    ensures Paragraphs([]) == [] && Width([], 2) == 0 && Joined([], "\n\n") == []
    ensures pieces[0..] == pieces && [] + Pack([], Paragraphs(pieces), 2, limit) == Greedy(Paragraphs(pieces), 2, limit)
  {
  }

  lemma OneParagraph(pieces: seq<string>, i: nat)
    requires i < |pieces|
    ensures var waiting, rest := Paragraphs(pieces[i..]), Paragraphs(pieces[i + 1..]);
            if Trim(pieces[i]) == "" then waiting == rest
            else waiting != [] && waiting[0] == Trim(pieces[i]) && waiting[1..] == rest
  {
    hide Trim;
    assert pieces[i..][0] == pieces[i] && pieces[i..][1..] == pieces[i + 1..];
  }

  /** Packs the whole paragraphs of a body. */
  method GroupParagraphs(body: string, maxRunes: int) returns (out: seq<string>)
    ensures out == Grouped(body, maxRunes)
  {
    var pieces := Pieces(body);
    NothingGrouped(pieces, maxRunes);
    hide Pack, Greedy, Joined, Join, Width, Trim, Paragraphs, Pieces;
    out := [];
    var current: seq<string> := [];
    var size := 0;
    ghost var closed: seq<seq<string>> := [];
    for i := 0 to |pieces|
      invariant size == Width(current, 2)
      invariant out == Joined(closed, "\n\n")
      invariant closed + Pack(current, Paragraphs(pieces[i..]), 2, maxRunes) == Greedy(Paragraphs(pieces), 2, maxRunes)
    {
      var para := Trim(pieces[i]);
      ghost var waiting := Paragraphs(pieces[i..]);
      OneParagraph(pieces, i);
      if para == "" {
        continue;
      }
      PackStep(closed, current, waiting, 2, maxRunes);
      var n := |para|;
      if |current| > 0 && size + 2 + n > maxRunes {
        JoinedAppend(closed, current, "\n\n");
        closed := closed + [current];
        out := out + [Join(current, "\n\n")];
        current := [];
        size := 0;
      }
      if |current| > 0 {
        size := size + 2;
      }
      Extend(current, para, "\n\n");
      current := current + [para];
      size := size + n;
    }
    assert pieces[|pieces|..] == [];
    PackEnd(closed, current, 2, maxRunes);
    if |current| > 0 {
      JoinedAppend(closed, current, "\n\n");
      out := out + [Join(current, "\n\n")];
    }
  }
}
