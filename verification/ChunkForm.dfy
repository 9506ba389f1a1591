/** The form of what markdown chunking puts out: which lines are headings, what stands in front of a chunk, and how much of
    one part is carried into the next. */
module ChunkForm {
  import opened Common
  import opened Text
  import opened TextLaws
  import opened Headings
  import opened Packing
  import opened PackingLaws
  import opened Markdown

  // ---------- Headings ----------

  function Hash(n: nat): (s: string)
    ensures |s| == n && forall i :: 0 <= i < n ==> s[i] == '#'
  {
    seq(n, i => '#')
  }

  lemma {:induction false} HashesAre(s: string)
    ensures var n := Hashes(s); s[..n] == Hash(n) && (n < |s| ==> s[n] != '#')
  {
    if s != "" && s[0] == '#' {
      HashesAre(s[1..]);
      var n := Hashes(s);
      assert s[..n] == [s[0]] + s[1..][..n - 1];
      assert forall i :: 0 <= i < n ==> s[..n][i] == '#';
    }
  }

  lemma {:induction false} HashesOf(n: nat, rest: string)
    requires rest != "" && rest[0] != '#'
    ensures Hashes(Hash(n) + rest) == n
  {
    var s := Hash(n) + rest;
    if n > 0 {
      assert s[1..] == Hash(n - 1) + rest;
      HashesOf(n - 1, rest);
    }
  }

  /** A line is a heading of a level exactly when, trimmed, it is that many hashes, from one to six, a space, and something
      else; that, trimmed, is its title. */
  lemma HeaderIs(line: string, level: nat, title: string)
    ensures HeaderOf(line) == Some(Heading(level, title))
            <==> 1 <= level <= 6 && title != "" && exists rest :: Trim(line) == Hash(level) + " " + rest && Trim(rest) == title
  {
    hide Trim, Hashes;
    var trimmed := Trim(line);
    HashesAre(trimmed);
    if HeaderOf(line) == Some(Heading(level, title)) {
      var n := Hashes(trimmed);
      var rest := trimmed[n..];
      assert trimmed == Hash(n) + " " + rest[1..];
      TrimAfterSpace(rest[1..]);
      assert " " + rest[1..] == rest;
      assert Trim(rest[1..]) == title;
    }
    if 1 <= level <= 6 && title != "" && exists rest :: Trim(line) == Hash(level) + " " + rest && Trim(rest) == title {
      var rest :| Trim(line) == Hash(level) + " " + rest && Trim(rest) == title;
      assert Hash(level) + " " + rest == Hash(level) + (" " + rest);
      HashesOf(level, " " + rest);
      assert trimmed[level..] == " " + rest;
      TrimAfterSpace(rest);
    }
  }

  lemma TrimAfterSpace(rest: string)
    ensures Trim(" " + rest) == Trim(rest)
  {
    assert (" " + rest)[1..] == rest;
  }

  // ---------- What a chunk says before its own text ----------

  /** The levels there are, joined with a sign that points down the path. */
  function Crumbs(headings: seq<string>): string {
    Join(Present(headings), " > ")
  }

  /** The levels kept are those with a title, in order. */
  lemma PresentAppend(headings: seq<string>, title: string)
    ensures Present([]) == []
    ensures Present(headings + [title]) == Present(headings) + if title == "" then [] else [title]
  {
    assert (headings + [title])[..|headings|] == headings;
  }

  /** A line of crumbs and an empty line, if there are any. */
  predicate IsChunk(c: Chunk, headings: seq<string>, body: string) {
    && c.headings == Present(headings) && c.breadcrumb == Crumbs(headings)
    && c.text == if Crumbs(headings) == "" then body else "> " + Crumbs(headings) + "\n\n" + body
  }

  lemma ChunkOfIs(headings: seq<string>, body: string)
    ensures IsChunk(ChunkOf(headings, body), headings, body)
  {
    assert "" + body == body;
  }

  /** The chunks of a section: none for a blank one; one for a body that fits; else its packed words, each part after the
      first with what is carried over from the part before, and a space, in front of it. */
  lemma SectionChunksAre(s: Section, limit: int)
    requires limit > 0
    ensures var body, chunks := Trim(s.body), ChunksIn(s, limit);
            && (body == "" ==> chunks == [])
            && (body != "" && |body| <= limit ==> |chunks| == 1 && IsChunk(chunks[0], s.headings, body))
            && (|body| > limit ==>
                  exists parts :: PackedWith(parts, Fields(body), " ", limit) && AreParts(chunks, s.headings, parts))
  {
    hide Trim, Chunked, ChunkOf, OverlapOf, PackedWith, Fields, IsChunk;
    var body := Trim(s.body);
    if body != "" && |body| <= limit {
      ChunkOfIs(s.headings, body);
    }
    if |body| > limit {
      var parts := Chunked(body, limit);
      TrimAgain(s.body);
      ChunkedIs(body, limit);
      assert PackedWith(parts, Fields(body), " ", limit);
      OverlappedAreParts(s.headings, parts);
      SectionIsOverlapped(s, limit);
    }
  }

  lemma SectionIsOverlapped(s: Section, limit: int)
    requires limit > 0 && |Trim(s.body)| > limit
    ensures ChunksIn(s, limit) == Overlapped(s.headings, Chunked(Trim(s.body), limit))
  {
    hide Trim, Chunked, Overlapped;
  }

  lemma OverlappedAreParts(headings: seq<string>, parts: seq<string>)
    ensures AreParts(Overlapped(headings, parts), headings, parts)
  {
    hide Overlapped, ChunkOf, OverlapOf, IsChunk;
    forall i | 0 <= i < |parts|
      ensures IsChunk(Overlapped(headings, parts)[i], headings,
                      if i == 0 then parts[0] else OverlapOf(parts[i - 1], 200) + " " + parts[i])
    {
      OverlappedAt(headings, parts, i);
      ChunkOfIs(headings, if i == 0 then parts[0] else OverlapOf(parts[i - 1], 200) + " " + parts[i]);
    }
  }

  /** Each part behind what is carried over from the one before. */
  predicate AreParts(chunks: seq<Chunk>, headings: seq<string>, parts: seq<string>) {
    && |chunks| == |parts|
    && forall i :: 0 <= i < |parts| ==>
         IsChunk(chunks[i], headings, if i == 0 then parts[0] else OverlapOf(parts[i - 1], 200) + " " + parts[i])
  }

  lemma {:induction false} OverlappedAt(headings: seq<string>, parts: seq<string>, i: nat)
    requires i < |parts|
    ensures Overlapped(headings, parts)[i]
            == ChunkOf(headings, if i == 0 then parts[0] else OverlapOf(parts[i - 1], 200) + " " + parts[i])
  {
    hide ChunkOf, OverlapOf;
    if i < |parts| - 1 {
      OverlappedAt(headings, parts[..|parts| - 1], i);
    }
  }

  lemma {:induction false} LeftOfSolid(s: string)
    requires s == "" || !IsSpace(s[0])
    ensures TrimLeft(s) == s
  {
  }

  lemma {:induction false} RightEndsSolid(s: string)
    ensures TrimRight(s) != "" ==> !IsSpace(TrimRight(s)[|TrimRight(s)| - 1])
  {
    if s != "" && IsSpace(s[|s| - 1]) {
      RightEndsSolid(s[..|s| - 1]);
    }
  }

  lemma RightOfSolid(s: string)
    requires s == "" || !IsSpace(s[|s| - 1])
    ensures TrimRight(s) == s
  {
  }

  lemma TrimAgain(s: string)
    ensures Trim(Trim(s)) == Trim(s)
  {
    TrimStartsSolid(s);
    RightEndsSolid(TrimLeft(s));
    LeftOfSolid(Trim(s));
    RightOfSolid(Trim(s));
  }

  /** The chunks of a document: none for a blank one; of one that has text besides its headings, those of its sections, in
      turn; of one that is nothing but headings, its words packed, with nothing in front.  A chunk holds 2000 characters of
      its own unless told otherwise. */
  lemma ContentIs(input: string, maxRunes: int)
    ensures var text, limit := Trim(input), if maxRunes <= 0 then 2000 else maxRunes;
            var sections := SectionsOf(Blocks(SplitLines(text)));
            && (text == "" ==> Content(input, maxRunes) == [])
            && (text != "" && ChunksOf(sections, limit) != [] ==> Content(input, maxRunes) == ChunksOf(sections, limit))
            && (text != "" && ChunksOf(sections, limit) == [] ==>
                  |Content(input, maxRunes)| == |Chunked(text, limit)|
                  && forall i :: 0 <= i < |Chunked(text, limit)| ==>
                       Content(input, maxRunes)[i] == Chunk(Chunked(text, limit)[i], "", []))
  {
    hide Trim, Blocks, SplitLines, Chunked, SectionsOf, ChunksIn, ChunkOf;
    var text, limit := Trim(input), if maxRunes <= 0 then 2000 else maxRunes;
    var sections := SectionsOf(Blocks(SplitLines(text)));
    SectionsAreTrimmed(Blocks(SplitLines(text)));
    if |sections| == 1 && |sections[0].body| <= limit {
      OneSectionFits(sections[0], limit);
      ChunksAppend([], sections[0], limit);
      assert sections == [] + [sections[0]];
    }
  }

  /** Section by section. */
  lemma ChunksAppend(sections: seq<Section>, s: Section, limit: int)
    ensures ChunksOf([], limit) == []
    ensures ChunksOf(sections + [s], limit) == ChunksOf(sections, limit) + ChunksIn(s, limit)
  {
    assert (sections + [s])[..|sections|] == sections;
  }

  lemma OneSectionFits(s: Section, limit: int)
    requires |s.body| <= limit && Trim(s.body) == s.body != ""
    ensures ChunksIn(s, limit) == [ChunkOf(s.headings, s.body)]
  {
    hide Trim;
  }

  lemma {:induction false} SectionsAreTrimmed(blocks: seq<Block>)
    ensures forall s :: s in SectionsOf(blocks) ==> Trim(s.body) == s.body != ""
  {
    hide Trim, PathOf;
    if blocks != [] {
      var n := |blocks| - 1;
      SectionsAreTrimmed(blocks[..n]);
      TrimAgain(Join(blocks[n].lines, "\n"));
    }
  }

  // ---------- What is carried over ----------

  predicate StandsAt(tail: string, end: Mark, j: nat) {
    j + |end| <= |tail| && tail[j..j + |end|] == end
  }

  /** A place in the tail right behind the first of a kind of sentence end. */
  predicate Behind(tail: string, end: Mark, k: nat) {
    k >= |end| && StandsAt(tail, end, k - |end|) && forall j: nat :: j < k - |end| ==> !StandsAt(tail, end, j)
  }

  /** From there on at least half of what may be carried is left. */
  predicate LeavesHalf(tail: string, end: Mark, k: nat, runes: nat) {
    Behind(tail, end, k) && |Trim(tail[k..])| * 2 >= runes
  }

  predicate SnapsTo(tail: string, end: Mark, k: nat, runes: nat, out: string) {
    LeavesHalf(tail, end, k, runes) && out == Trim(tail[k..])
  }

  lemma StandsIff(tail: string, end: Mark, j: nat)
    ensures StandsAt(tail, end, j) <==> j <= |tail| && end <= tail[j..]
  {
    if j + |end| <= |tail| {
      assert tail[j..][..|end|] == tail[j..j + |end|];
    }
  }

  lemma IndexIsBehind(tail: string, end: Mark, k: nat)
    ensures Behind(tail, end, k) <==> Index(tail, end) >= 0 && k == Index(tail, end) + |end|
  {
    var i := Index(tail, end);
    hide Index;
    forall j: nat
      ensures StandsAt(tail, end, j) <==> j <= |tail| && end <= tail[j..]
    {
      StandsIff(tail, end, j);
    }
    hide StandsAt;
    if i >= 0 {
      assert StandsAt(tail, end, i);
    }
    if Behind(tail, end, k) {
      assert StandsAt(tail, end, k - |end|);
    }
  }

  ghost predicate NoneLeavesHalf(tail: string, ends: seq<Mark>, runes: nat) {
    forall c: nat, l: nat :: c < |ends| ==> !LeavesHalf(tail, ends[c], l, runes)
  }

  /** Snapped behind this kind of end, no kind before it leaving half. */
  ghost predicate SnapsAt(tail: string, ends: seq<Mark>, runes: nat, out: string, b: nat) {
    && b < |ends| && NoneLeavesHalf(tail, ends[..b], runes)
    && exists k: nat :: SnapsTo(tail, ends[b], k, runes, out)
  }

  lemma FirstEnd(tail: string, end: Mark, runes: nat, l: nat)
    ensures LeavesHalf(tail, end, l, runes)
            <==> Index(tail, end) >= 0 && l == Index(tail, end) + |end| && |Trim(tail[l..])| * 2 >= runes
  {
    hide Trim, Index, Behind;
    IndexIsBehind(tail, end, l);
  }

  lemma NoneMore(tail: string, ends: seq<Mark>, runes: nat)
    requires ends != [] && (forall l: nat :: !LeavesHalf(tail, ends[0], l, runes)) && NoneLeavesHalf(tail, ends[1..], runes)
    ensures NoneLeavesHalf(tail, ends, runes)
  {
    hide LeavesHalf;
    forall c: nat, l: nat | c < |ends|
      ensures !LeavesHalf(tail, ends[c], l, runes)
    {
      if c > 0 {
        assert ends[1..][c - 1] == ends[c];
      }
    }
  }

  /** Snapped behind the first kind of end whose first place leaves half, or left whole where none does. */
  ghost predicate Carries(tail: string, ends: seq<Mark>, runes: nat, out: string) {
    (exists b: nat :: SnapsAt(tail, ends, runes, out, b)) || (NoneLeavesHalf(tail, ends, runes) && out == Trim(tail))
  }

  lemma CarriesAt(tail: string, ends: seq<Mark>, runes: nat, out: string, b: nat)
    requires SnapsAt(tail, ends, runes, out, b)
    ensures Carries(tail, ends, runes, out)
  {
  }

  lemma SnapsLater(tail: string, ends: seq<Mark>, runes: nat, out: string, b: nat)
    requires ends != [] && (forall l: nat :: !LeavesHalf(tail, ends[0], l, runes))
    requires SnapsAt(tail, ends[1..], runes, out, b)
    ensures SnapsAt(tail, ends, runes, out, b + 1)
  {
    hide Trim, LeavesHalf, NoneLeavesHalf, SnapsTo;
    assert ends[..b + 1][1..] == ends[1..][..b] && ends[b + 1] == ends[1..][b];
    NoneMore(tail, ends[..b + 1], runes);
  }

  /** An end that leaves no half is passed over. */
  lemma CarriesLater(tail: string, ends: seq<Mark>, runes: nat, out: string)
    requires ends != [] && (forall l: nat :: !LeavesHalf(tail, ends[0], l, runes)) && Carries(tail, ends[1..], runes, out)
    ensures Carries(tail, ends, runes, out)
  {
    hide Trim, LeavesHalf, NoneLeavesHalf, SnapsAt;
    if NoneLeavesHalf(tail, ends[1..], runes) && out == Trim(tail) {
      NoneMore(tail, ends, runes);
    } else {
      var b: nat :| SnapsAt(tail, ends[1..], runes, out, b);
      SnapsLater(tail, ends, runes, out, b);
    }
  }

  /** A text is snapped behind the first kind of end whose first place leaves half, or left whole where none does. */
  lemma {:induction false} SnappedIs(tail: string, ends: seq<Mark>, runes: nat)
    ensures Carries(tail, ends, runes, Snapped(tail, ends, runes))
    decreases |ends|
  {
    hide Trim, Index, LeavesHalf;
    var out := Snapped(tail, ends, runes);
    if ends != [] {
      var i := Index(tail, ends[0]);
      forall l: nat
        ensures LeavesHalf(tail, ends[0], l, runes) <==> i >= 0 && l == i + |ends[0]| && |Trim(tail[l..])| * 2 >= runes
      {
        FirstEnd(tail, ends[0], runes, l);
      }
      if i >= 0 && |Trim(tail[i + |ends[0]|..])| * 2 >= runes {
        assert SnapsTo(tail, ends[0], i + |ends[0]|, runes, out);
        CarriesAt(tail, ends, runes, out, 0);
      } else {
        SnappedIs(tail, ends[1..], runes);
        CarriesLater(tail, ends, runes, out);
      }
    }
  }

  /** Where a sentence may be taken to end. */
  const ENDS: seq<Mark> := [". ", "? ", "! ", "\n"]

  /** What is carried over: all of a part no longer than what may be; else the last characters of it, snapped behind a
      sentence where that leaves half, without white space around them. */
  lemma OverlapIs(previous: string, runes: nat)
    ensures |previous| <= runes ==> OverlapOf(previous, runes) == previous
    ensures |previous| > runes ==>
              Carries(previous[|previous| - runes..], ENDS, runes, OverlapOf(previous, runes))
  {
    hide Carries, Snapped, Trim;
    assert BOUNDARIES == ENDS;
    if |previous| > runes {
      SnappedIs(previous[|previous| - runes..], ENDS, runes);
    }
  }

  lemma {:induction false} SomethingLeft(s: string)
    requires s != "" && !IsSpace(s[|s| - 1])
    ensures TrimLeft(s) != "" && TrimLeft(s)[|TrimLeft(s)| - 1] == s[|s| - 1]
  {
    if IsSpace(s[0]) {
      SomethingLeft(s[1..]);
    }
  }

  /** Something is always carried over from a part that does not end in white space. */
  lemma SomethingIsCarried(previous: string, runes: nat)
    requires runes > 0 && previous != "" && !IsSpace(previous[|previous| - 1])
    ensures OverlapOf(previous, runes) != ""
  {
    hide Trim, Snapped, IsSpace, SnapsTo, NoneLeavesHalf, OverlapOf;
    OverlapIs(previous, runes);
    if |previous| > runes {
      var tail := previous[|previous| - runes..];
      if NoneLeavesHalf(tail, ENDS, runes) && OverlapOf(previous, runes) == Trim(tail) {
        SomethingTrimmed(tail);
      } else {
        var b: nat :| SnapsAt(tail, ENDS, runes, OverlapOf(previous, runes), b);
        var k: nat :| SnapsTo(tail, ENDS[b], k, runes, OverlapOf(previous, runes));
        HalfIsSome(tail, ENDS[b], k, runes, OverlapOf(previous, runes));
      }
    }
  }

  lemma HalfIsSome(tail: string, end: Mark, k: nat, runes: nat, out: string)
    requires runes > 0 && SnapsTo(tail, end, k, runes, out)
    ensures out != ""
  {
    hide Trim;
  }

  lemma SomethingTrimmed(s: string)
    requires s != "" && !IsSpace(s[|s| - 1])
    ensures Trim(s) != ""
  {
    SomethingLeft(s);
    RightOfSolid(TrimLeft(s));
  }
}
