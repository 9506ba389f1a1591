/** Ingested text cut into chunks: by its headings where it has any, each chunk carrying its heading path, and an over-long
    section in parts that begin with the tail of the part before. */
module Markdown {
  import opened Text
  import opened TextLaws
  import opened Packing
  import opened PackingLaws
  import opened Headings
  import Frames

  const OVERLAP := 200
  const BOUNDARIES: seq<Mark> := [". ", "? ", "! ", "\n"]

  type Mark = s: string | s != "" witness " "

  datatype Chunk = Chunk(text: string, breadcrumb: string, headings: seq<string>)

  datatype Numbered = Numbered(chunk: Chunk, index: nat, total: nat)

  // ---------- One chunk ----------

  /** The levels of a path that have a heading. */
  function Present(headings: seq<string>): seq<string> {
    if headings == [] then []
    else
      var front := Present(headings[..|headings| - 1]);
      if headings[|headings| - 1] != "" then front + [headings[|headings| - 1]] else front
  }

  function Prefix(headings: seq<string>): string {
    var crumbs := Join(Present(headings), " > ");
    if crumbs == "" then "" else "> " + crumbs + "\n\n"
  }

  function ChunkOf(headings: seq<string>, body: string): Chunk {
    Chunk(Prefix(headings) + body, Join(Present(headings), " > "), Present(headings))
  }

  /** Where `part` first occurs; -1 if nowhere. */
  function Index(s: string, part: Mark): (i: int)
    ensures -1 <= i <= |s| - |part| || i == -1
    ensures i >= 0 ==> part <= s[i..]
    ensures forall j: nat :: j <= |s| && part <= s[j..] ==> 0 <= i <= j
    decreases |s|
  {
    if part <= s then 0
    else if s == "" then -1
    else
      var i := Index(s[1..], part);
      assert forall j: nat :: 0 < j <= |s| ==> s[1..][j - 1..] == s[j..];
      if i < 0 then -1 else i + 1
  }

  /** The text from the first boundary on that leaves at least half the overlap, if any boundary does. */
  function Snapped(tail: string, boundaries: seq<Mark>, runes: nat): string {
    if boundaries == [] then Trim(tail)
    else
      var i := Index(tail, boundaries[0]);
      if i >= 0 && |Trim(tail[i + |boundaries[0]|..])| * 2 >= runes then Trim(tail[i + |boundaries[0]|..])
      else Snapped(tail, boundaries[1..], runes)
  }

  function OverlapOf(previous: string, runes: nat): string {
    if |previous| <= runes then previous else Snapped(previous[|previous| - runes..], BOUNDARIES, runes)
  }

  /** The parts of an over-long body, each after the first behind the tail of the one before. */
  function Overlapped(headings: seq<string>, parts: seq<string>): (r: seq<Chunk>)
    ensures |r| == |parts|
  {
    if parts == [] then []
    else
      var n := |parts| - 1;
      Overlapped(headings, parts[..n])
      + [ChunkOf(headings, if n == 0 then parts[0] else OverlapOf(parts[n - 1], OVERLAP) + " " + parts[n])]
  }

  /** What of a section's text each of its chunks says itself. */
  function OwnParts(s: Section, limit: int): seq<string> {
    var body := Trim(s.body);
    if body == "" then [] else if |body| <= limit then [body] else Chunked(body, limit)
  }

  function ChunksIn(s: Section, limit: int): seq<Chunk> {
    var body := Trim(s.body);
    if body == "" then []
    else if |body| <= limit then [ChunkOf(s.headings, body)]
    else Overlapped(s.headings, Chunked(body, limit))
  }

  function ChunksOf(sections: seq<Section>, limit: int): seq<Chunk> {
    if sections == [] then []
    else ChunksOf(sections[..|sections| - 1], limit) + ChunksIn(sections[|sections| - 1], limit)
  }

  function OwnOf(sections: seq<Section>, limit: int): seq<string> {
    if sections == [] then []
    else OwnOf(sections[..|sections| - 1], limit) + OwnParts(sections[|sections| - 1], limit)
  }

  function MarkdownChunks(text: string, limit: int): seq<Chunk> {
    var sections := SectionsOf(Blocks(SplitLines(text)));
    if |sections| == 1 && |sections[0].body| <= limit then [ChunkOf(sections[0].headings, sections[0].body)]
    else ChunksOf(sections, limit)
  }

  function Plain(parts: seq<string>): (r: seq<Chunk>)
    ensures |r| == |parts| && forall i :: 0 <= i < |r| ==> r[i] == Chunk(parts[i], "", [])
  {
    seq(|parts|, i requires 0 <= i < |parts| => Chunk(parts[i], "", []))
  }

  function NumberedAll(chunks: seq<Chunk>): (r: seq<Numbered>)
    ensures |r| == |chunks| && forall i :: 0 <= i < |r| ==> r[i] == Numbered(chunks[i], i, |chunks|)
  {
    seq(|chunks|, i requires 0 <= i < |chunks| => Numbered(chunks[i], i, |chunks|))
  }

  function Limit(maxRunes: int): int {
    if maxRunes <= 0 then DEFAULT_CHUNK_SIZE else maxRunes
  }

  function Content(input: string, maxRunes: int): seq<Chunk> {
    var text := Trim(input);
    if text == "" then []
    else
      var chunks := MarkdownChunks(text, Limit(maxRunes));
      if chunks == [] then Plain(Chunked(text, Limit(maxRunes))) else chunks
  }

  // ---------- The procedures ----------

  method NewChunk(headings: seq<string>, body: string) returns (c: Chunk)
    ensures c == ChunkOf(headings, body)
  {
    var present: seq<string> := [];
    for i := 0 to |headings|
      invariant present == Present(headings[..i])
    {
      assert headings[..i + 1][..i] == headings[..i];
      if headings[i] != "" {
        present := present + [headings[i]];
      }
    }
    assert headings[..|headings|] == headings;
    hide Present, Join;
    var breadcrumb := Join(present, " > ");
    var text := body;
    if breadcrumb != "" {
      text := "> " + breadcrumb + "\n\n" + body;
    } else {
      assert "" + body == body;
    }
    c := Chunk(text, breadcrumb, present);
  }

  method OverlapFrom(previous: string, runes: nat) returns (overlap: string)
    ensures overlap == OverlapOf(previous, runes)
  {
    if |previous| <= runes {
      return previous;
    }
    overlap := SnapForward(previous[|previous| - runes..], BOUNDARIES, runes);
  }

  method SnapForward(tail: string, boundaries: seq<Mark>, runes: nat) returns (overlap: string)
    ensures overlap == Snapped(tail, boundaries, runes)
  {
    hide Trim, Index;
    for k := 0 to |boundaries|
      invariant Snapped(tail, boundaries[k..], runes) == Snapped(tail, boundaries, runes)
    {
      assert boundaries[k..][0] == boundaries[k] && boundaries[k..][1..] == boundaries[k + 1..];
      var i := Index(tail, boundaries[k]);
      if i < 0 {
        continue;
      }
      var snapped := Trim(tail[i + |boundaries[k]|..]);
      if |snapped| * 2 >= runes {
        return snapped;
      }
    }
    return Trim(tail);
  }

  method SplitOver(headings: seq<string>, parts: seq<string>) returns (chunks: seq<Chunk>)
    ensures chunks == Overlapped(headings, parts)
  {
    hide ChunkOf, OverlapOf;
    chunks := [];
    for i := 0 to |parts|
      invariant chunks == Overlapped(headings, parts[..i])
    {
      assert parts[..i + 1][..i] == parts[..i];
      var part := parts[i];
      if i > 0 {
        var overlap := OverlapFrom(parts[i - 1], OVERLAP);
        part := overlap + " " + part;
      }
      var chunk := NewChunk(headings, part);
      chunks := chunks + [chunk];
    }
    assert parts[..|parts|] == parts;
  }

  method ChunkMarkdown(text: string, maxRunes: int) returns (chunks: seq<Chunk>)
    requires maxRunes > 0
    ensures chunks == MarkdownChunks(text, maxRunes)
  {
    hide SectionsOf, Blocks, SplitLines, Trim, Chunked, ChunkOf, Overlapped;
    var sections := SplitSections(text);
    if |sections| == 0 {
      return [];
    }
    if |sections| == 1 && |sections[0].body| <= maxRunes {
      var only := NewChunk(sections[0].headings, sections[0].body);
      return [only];
    }
    chunks := [];
    for i := 0 to |sections|
      invariant chunks == ChunksOf(sections[..i], maxRunes)
    {
      assert sections[..i + 1][..i] == sections[..i];
      var s := sections[i];
      var body := Trim(s.body);
      if body == "" {
        continue;
      }
      if |body| <= maxRunes {
        var whole := NewChunk(s.headings, body);
        chunks := chunks + [whole];
        continue;
      }
      var parts := ChunkText(body, maxRunes);
      var more := SplitOver(s.headings, parts);
      chunks := chunks + more;
    }
    assert sections[..|sections|] == sections;
  }

  method ChunkContent(input: string, maxRunes: int) returns (out: seq<Numbered>)
    ensures out == NumberedAll(Content(input, maxRunes))
  {
    hide Trim, MarkdownChunks, Chunked;
    var text := Trim(input);
    if text == "" {
      return [];
    }
    var limit := Limit(maxRunes);
    var chunks := ChunkMarkdown(text, limit);
    if |chunks| == 0 {
      var parts := ChunkText(text, limit);
      chunks := Plain(parts);
    }
    out := [];
    for i := 0 to |chunks|
      invariant out == NumberedAll(chunks)[..i]
    {
      out := out + [Numbered(chunks[i], i, |chunks|)];
    }
    assert NumberedAll(chunks)[..|chunks|] == NumberedAll(chunks);
  }

  // ---------- Nothing is lost ----------

  predicate EndsWith(s: string, tail: string) {
    |tail| <= |s| && s[|s| - |tail|..] == tail
  }

  /** Each chunk ends with its own part; what is before it is the heading path and, in a later part, the overlap. */
  ghost predicate Carry(chunks: seq<Chunk>, own: seq<string>) {
    |chunks| == |own| && forall i :: 0 <= i < |own| ==> EndsWith(chunks[i].text, own[i])
  }

  lemma CarryAppend(a: seq<Chunk>, x: seq<string>, b: seq<Chunk>, y: seq<string>)
    requires Carry(a, x) && Carry(b, y)
    ensures Carry(a + b, x + y)
  {
  }

  lemma ChunkEnds(headings: seq<string>, before: string, own: string)
    ensures EndsWith(ChunkOf(headings, before + own).text, own)
  {
    hide Prefix;
    var text := Prefix(headings) + (before + own);
    assert text[|text| - |own|..] == own;
  }

  lemma {:induction false} OverlappedCarry(headings: seq<string>, parts: seq<string>)
    ensures Carry(Overlapped(headings, parts), parts)
  {
    if parts != [] {
      hide ChunkOf, OverlapOf, EndsWith;
      var n := |parts| - 1;
      OverlappedCarry(headings, parts[..n]);
      var before := if n == 0 then "" else OverlapOf(parts[n - 1], OVERLAP) + " ";
      ChunkEnds(headings, before, parts[n]);
      assert n == 0 ==> "" + parts[0] == parts[0];
      CarryAppend(Overlapped(headings, parts[..n]), parts[..n], [ChunkOf(headings, before + parts[n])], [parts[n]]);
      assert parts[..n] + [parts[n]] == parts;
    }
  }

  lemma SectionCarries(s: Section, limit: int)
    ensures Carry(ChunksIn(s, limit), OwnParts(s, limit))
  {
    hide ChunkOf, Overlapped, Trim, Chunked, EndsWith;
    var body := Trim(s.body);
    if body != "" && |body| <= limit {
      ChunkEnds(s.headings, "", body);
      assert "" + body == body;
    } else if body != "" {
      hide Carry;
      OverlappedCarry(s.headings, Chunked(body, limit));
    }
  }

  lemma SectionSays(s: Section, limit: int)
    ensures WordsOf(OwnParts(s, limit)) == Fields(s.body)
  {
    hide Trim, Fields, Chunked;
    var body := Trim(s.body);
    FieldsOfTrim(s.body);
    BlankContent();
    if body != "" && |body| <= limit {
      assert [body][..0] == [];
    } else if body != "" {
      hide WordsOf;
      ChunkedKeepsWords(body, limit);
    }
  }

  lemma {:induction false} SectionsCarry(sections: seq<Section>, limit: int)
    ensures Carry(ChunksOf(sections, limit), OwnOf(sections, limit))
    ensures WordsOf(OwnOf(sections, limit)) == WordsOf(Bodies(sections))
  {
    if sections != [] {
      hide ChunksIn, OwnParts, Carry, Fields;
      var n := |sections| - 1;
      SectionsCarry(sections[..n], limit);
      SectionCarries(sections[n], limit);
      SectionSays(sections[n], limit);
      CarryAppend(ChunksOf(sections[..n], limit), OwnOf(sections[..n], limit), ChunksIn(sections[n], limit),
                  OwnParts(sections[n], limit));
      WordsOfAppend(OwnOf(sections[..n], limit), OwnParts(sections[n], limit));
      assert (Bodies(sections[..n]) + [sections[n].body])[..n] == Bodies(sections[..n]) by {
        BodiesMany(sections[..n]);
      }
    }
  }

  lemma {:induction false} BodiesMany(sections: seq<Section>)
    ensures |Bodies(sections)| == |sections|
  {
    if sections != [] {
      BodiesMany(sections[..|sections| - 1]);
    }
  }

  /** What a document's chunks say themselves. */
  function Own(input: string, maxRunes: int): seq<string> {
    var text := Trim(input);
    var sections := SectionsOf(Blocks(SplitLines(text)));
    if text == "" then []
    else if MarkdownChunks(text, Limit(maxRunes)) == [] then Chunked(text, Limit(maxRunes))
    else if |sections| == 1 && |sections[0].body| <= Limit(maxRunes) then [sections[0].body]
    else OwnOf(sections, Limit(maxRunes))
  }

  lemma PlainCarry(parts: seq<string>)
    ensures Carry(Plain(parts), parts)
  {
    forall i | 0 <= i < |parts|
      ensures EndsWith(Plain(parts)[i].text, parts[i])
    {
      assert parts[i][0..] == parts[i];
    }
  }

  /** Chunking a document loses no word outside its headings and changes no order, whatever it adds in front of the
      parts; a document that is nothing but headings is chunked as plain text, headings and all. */
  lemma ContentKeepsWords(input: string, maxRunes: int)
    ensures Carry(Content(input, maxRunes), Own(input, maxRunes))
    ensures var text := Trim(input);
            WordsOf(Own(input, maxRunes))
            == if text == "" || MarkdownChunks(text, Limit(maxRunes)) == [] then Fields(text) else WordsOf(BodyLines(SplitLines(text)))
  {
    hide SectionsOf, Blocks, SplitLines, Trim, Chunked, ChunksOf, Fields, Carry;
    var text, limit := Trim(input), Limit(maxRunes);
    var sections := SectionsOf(Blocks(SplitLines(text)));
    if text == "" {
      BlankContent();
    } else if MarkdownChunks(text, limit) == [] {
      PlainCarry(Chunked(text, limit));
      ChunkedKeepsWords(text, limit);
    } else {
      Headings.SectionsKeepWords(text);
      if |sections| == 1 && |sections[0].body| <= limit {
        OneSection(sections[0]);
        assert sections == [sections[0]];
      } else {
        SectionsCarry(sections, limit);
      }
    }
  }

  lemma BlankContent()
    ensures Carry([], []) && Fields("") == []
  {
  }

  lemma OneSection(s: Section)
    ensures Carry([ChunkOf(s.headings, s.body)], [s.body])
    ensures WordsOf([s.body]) == WordsOf(Bodies([s]))
  {
    ChunkEnds(s.headings, "", s.body);
    assert "" + s.body == s.body && [s][..0] == [] && Bodies([s]) == [] + [s.body];
  }

  // ---------- The overlap ----------

  ghost predicate Inside(part: string, whole: string) {
    exists i, j :: 0 <= i <= j <= |whole| && part == whole[i..j]
  }

  lemma {:induction false} TrimLeftIsInside(s: string) returns (i: nat)
    ensures i <= |s| && TrimLeft(s) == s[i..]
  {
    if s == "" || !IsSpace(s[0]) {
      i := 0;
    } else {
      i := TrimLeftIsInside(s[1..]);
      i := i + 1;
    }
  }

  lemma {:induction false} TrimRightIsInside(s: string) returns (j: nat)
    ensures j <= |s| && TrimRight(s) == s[..j]
  {
    if s == "" || !IsSpace(s[|s| - 1]) {
      j := |s|;
    } else {
      j := TrimRightIsInside(s[..|s| - 1]);
    }
  }

  lemma TrimIsInside(s: string, from: nat, whole: string)
    requires from <= |whole| && s == whole[from..]
    ensures Inside(Trim(s), whole) && |Trim(s)| <= |s|
  {
    var i := TrimLeftIsInside(s);
    var j := TrimRightIsInside(TrimLeft(s));
    assert Trim(s) == s[i..][..j];
    assert whole[from + i..from + i + j] == s[i..][..j];
  }

  lemma {:induction false} SnappedIsInside(tail: string, from: nat, whole: string, boundaries: seq<Mark>, runes: nat)
    requires from <= |whole| && tail == whole[from..]
    ensures Inside(Snapped(tail, boundaries, runes), whole) && |Snapped(tail, boundaries, runes)| <= |tail|
    decreases |boundaries|
  {
    hide Trim, Index, Inside;
    if boundaries == [] {
      TrimIsInside(tail, from, whole);
    } else {
      var i := Index(tail, boundaries[0]);
      if i >= 0 {
        var rest := tail[i + |boundaries[0]|..];
        assert rest == whole[from + i + |boundaries[0]|..];
        TrimIsInside(rest, from + i + |boundaries[0]|, whole);
      }
      SnappedIsInside(tail, from, whole, boundaries[1..], runes);
    }
  }

  /** The overlap is a stretch of the part before, within the limit, taken from its last `runes` characters. */
  lemma OverlapIsInside(previous: string, runes: nat)
    ensures Inside(OverlapOf(previous, runes), previous) && |OverlapOf(previous, runes)| <= runes
  {
    hide Snapped;
    if |previous| <= runes {
      assert previous[0..|previous|] == previous;
    } else {
      hide Inside;
      SnappedIsInside(previous[|previous| - runes..], |previous| - runes, previous, BOUNDARIES, runes);
    }
  }
}
