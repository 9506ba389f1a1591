/** What the packer guarantees: nothing lost or reordered, nothing over the limit that could be split, and no
    legal grouping with fewer chunks. */
module PackingLaws {
  import opened Text
  import opened TextLaws
  import opened Frames
  import opened Packing

  function Flatten<T>(groups: seq<seq<T>>): seq<T> {
    if groups == [] then [] else groups[0] + Flatten(groups[1..])
  }

  /** Groups of neighbours, each within the limit unless it is a single unit. */
  ghost predicate Legal(groups: seq<seq<string>>, gap: nat, limit: int) {
    forall i :: 0 <= i < |groups| ==> groups[i] != [] && Fits(groups[i], gap, limit)
  }

  lemma {:induction false} PackKeepsUnits(open: seq<string>, rest: seq<string>, gap: nat, limit: int)
    ensures Flatten(Pack(open, rest, gap, limit)) == open + rest
    decreases |rest|
  {
    if rest == [] {
      assert open != [] ==> [open][1..] == [];
    } else if open != [] && Width(open, gap) + gap + |rest[0]| > limit {
      PackKeepsUnits([rest[0]], rest[1..], gap, limit);
      assert [rest[0]] + rest[1..] == rest;
    } else {
      PackKeepsUnits(open + [rest[0]], rest[1..], gap, limit);
      assert open + [rest[0]] + rest[1..] == open + rest;
    }
  }

  /** Every unit comes back, once and in order. */
  lemma GreedyKeepsUnits(units: seq<string>, gap: nat, limit: int)
    ensures Flatten(Greedy(units, gap, limit)) == units
  {
    PackKeepsUnits([], units, gap, limit);
  }

  lemma {:induction false} PackIsLegal(open: seq<string>, rest: seq<string>, gap: nat, limit: int)
    requires open == [] || Fits(open, gap, limit)
    ensures Legal(Pack(open, rest, gap, limit), gap, limit)
    decreases |rest|
  {
    if rest == [] {
    } else if open != [] && Width(open, gap) + gap + |rest[0]| > limit {
      PackIsLegal([rest[0]], rest[1..], gap, limit);
    } else {
      Extend(open, rest[0], "");
      PackIsLegal(open + [rest[0]], rest[1..], gap, limit);
    }
  }

  /** Each chunk is within the limit or is one oversized unit. */
  lemma GreedyIsLegal(units: seq<string>, gap: nat, limit: int)
    ensures Legal(Greedy(units, gap, limit), gap, limit)
  {
    PackIsLegal([], units, gap, limit);
  }

  lemma {:induction false} WidthDropFirst(units: seq<string>, gap: nat)
    requires units != []
    ensures Width(units[1..], gap) <= Width(units, gap)
  {
    if |units| > 1 {
      var n := |units| - 1;
      assert units[1..][..n - 1] == units[..n][1..];
      WidthDropFirst(units[..n], gap);
    }
  }

  lemma {:induction false} WidthOfSlice(units: seq<string>, i: nat, j: nat, gap: nat)
    requires i <= j <= |units|
    ensures Width(units[i..j], gap) <= Width(units, gap)
    decreases |units|
  {
    if j < |units| {
      var front := units[..|units| - 1];
      assert front[i..j] == units[i..j];
      WidthOfSlice(front, i, j, gap);
    } else if i > 0 {
      assert units[1..][i - 1..j - 1] == units[i..j];
      WidthDropFirst(units, gap);
      WidthOfSlice(units[1..], i - 1, j - 1, gap);
    } else {
      assert units[i..j] == units;
    }
  }

  ghost predicate IsSuffix(tail: seq<string>, whole: seq<string>) {
    |tail| <= |whole| && whole[|whole| - |tail|..] == tail
  }

  lemma TooWideForOne(
    open: seq<string>, rest: seq<string>, head: seq<string>, after: seq<string>, start: nat, gap: nat, limit: int)
    requires open != [] && rest != [] && Width(open, gap) + gap + |rest[0]| > limit
    requires start <= |head + after| && (head + after)[start..] == open + rest
    requires Fits(head, gap, limit)
    ensures start + |open| >= |head|
  {
    if start + |open| < |head| {
      var together := open + [rest[0]];
      assert head[start..start + |open| + 1] == together by {
        forall i | 0 <= i <= |open| ensures head[start + i] == together[i] {
          assert (head + after)[start..][i] == (open + rest)[i];
        }
      }
      Extend(open, rest[0], "");
      WidthOfSlice(head, start, start + |open| + 1, gap);
    }
  }

  /** A chunk that cannot take the next unit holds the end of the first group, whatever that group is. */
  lemma OpenEndsInAGroup(open: seq<string>, rest: seq<string>, groups: seq<seq<string>>, gap: nat, limit: int)
    requires Legal(groups, gap, limit)
    requires IsSuffix(open + rest, Flatten(groups))
    requires open != [] && rest != [] && Width(open, gap) + gap + |rest[0]| > limit
    ensures groups != [] && IsSuffix(rest, Flatten(groups[1..]))
  {
    hide Width, Fits;
    var whole := Flatten(groups);
    var start := |whole| - |open + rest|;
    var head, after := groups[0], Flatten(groups[1..]);
    assert whole == head + after;
    TooWideForOne(open, rest, head, after, start, gap, limit);
    assert whole[start..][|open|..] == rest;
    assert whole[|whole| - |rest|..] == after[|after| - |rest|..];
  }

  /** The packer stays ahead of any legal grouping of text that ends the same way. */
  lemma {:induction false} PackStaysAhead(
    open: seq<string>, rest: seq<string>, groups: seq<seq<string>>, gap: nat, limit: int)
    requires Legal(groups, gap, limit)
    requires IsSuffix(open + rest, Flatten(groups))
    ensures |Pack(open, rest, gap, limit)| <= |groups|
    decreases |rest|
  {
    if rest == [] {
    } else if open != [] && Width(open, gap) + gap + |rest[0]| > limit {
      OpenEndsInAGroup(open, rest, groups, gap, limit);
      assert [rest[0]] + rest[1..] == rest;
      PackStaysAhead([rest[0]], rest[1..], groups[1..], gap, limit);
    } else {
      assert open + [rest[0]] + rest[1..] == open + rest;
      PackStaysAhead(open + [rest[0]], rest[1..], groups, gap, limit);
    }
  }

  /** No split into consecutive groups under the same rule uses fewer chunks. */
  lemma GreedyIsShortest(units: seq<string>, groups: seq<seq<string>>, gap: nat, limit: int)
    requires Legal(groups, gap, limit) && Flatten(groups) == units
    ensures |Greedy(units, gap, limit)| <= |groups|
  {
    assert [] + units == units;
    PackStaysAhead([], units, groups, gap, limit);
  }

  // ---------- Back to text ----------

  lemma {:induction false} JoinWidth(units: seq<string>, separator: string)
    ensures |Join(units, separator)| == Width(units, |separator|)
  {
    if |units| > 1 { JoinWidth(units[..|units| - 1], separator); }
  }

  lemma {:induction false} JoinedAre(groups: seq<seq<string>>, separator: string)
    ensures forall i :: 0 <= i < |groups| ==> Joined(groups, separator)[i] == Join(groups[i], separator)
  {
    if groups != [] { JoinedAre(groups[..|groups| - 1], separator); }
  }

  /** The words of packed chunks are the words of the units, whatever white space joins them. */
  lemma {:induction false} WordsOfJoined(groups: seq<seq<string>>, separator: string)
    requires separator != "" && Blank(separator)
    ensures WordsOf(Joined(groups, separator)) == WordsOf(Flatten(groups))
  {
    if groups != [] {
      var n := |groups| - 1;
      FlattenAppend(groups[..n], groups[n]);
      assert groups[..n] + [groups[n]] == groups;
      WordsOfJoined(groups[..n], separator);
      WordsOfJoin(groups[n], separator);
      WordsOfAppend(Flatten(groups[..n]), groups[n]);
    }
  }

  lemma {:induction false} FlattenAppend<T>(groups: seq<seq<T>>, group: seq<T>)
    ensures Flatten(groups + [group]) == Flatten(groups) + group
  {
    if groups == [] {
      assert Flatten([group]) == group + Flatten<T>([]);
    } else {
      assert (groups + [group])[1..] == groups[1..] + [group];
      FlattenAppend(groups[1..], group);
    }
  }

  /** Chunking a text loses no word and changes no order, at any limit. */
  lemma ChunkedKeepsWords(input: string, maxRunes: int)
    ensures WordsOf(Chunked(input, maxRunes)) == Fields(input)
  {
    var text := Trim(input);
    var limit := if maxRunes <= 0 then DEFAULT_CHUNK_SIZE else maxRunes;
    FieldsOfTrim(input);
    var words := Fields(text);
    FieldsAreSolid(text);
    if |text| <= limit || words == [] {
      assert [text][..0] == [];
    } else {
      GreedyKeepsUnits(words, 1, limit);
      WordsOfJoined(Greedy(words, 1, limit), " ");
      WordsOfSolid(words);
    }
  }

  lemma PiecesCut(s: string)
    ensures var i := FirstBreak(s);
            if i < 0 then Pieces(s) == [s] else i + 2 <= |s| && Pieces(s) == [s[..i]] + Pieces(s[i + 2..])
  {
    hide FirstBreak;
    var i := FirstBreak(s);
    if i >= 0 {
      var rest := s[i + 2..];
      var done, last := Complete(rest), [Partial(rest)];
      assert Complete(s) == [s[..i]] + done && Partial(s) == Partial(rest);
      hide Complete, Partial;
      assert [s[..i]] + done + last == [s[..i]] + (done + last);
    }
  }

  lemma TextCut(s: string, i: nat)
    requires BreakAt(s, i)
    ensures s == s[..i] + "\n\n" + s[i + 2..] && Blank("\n\n")
  {
    assert s[i..i + 2] == "\n\n";
    assert s == s[..i] + s[i..i + 2] + s[i + 2..];
  }

  lemma {:induction false} WordsOfPieces(s: string)
    ensures WordsOf(Pieces(s)) == Fields(s)
    decreases |s|
  {
    hide Fields, Pieces, Blank, FirstBreak;
    var i := FirstBreak(s);
    PiecesCut(s);
    if i < 0 {
      assert [s][..0] == [];
    } else {
      var rest := s[i + 2..];
      TextCut(s, i);
      FieldsAcrossBlank(s[..i], "\n\n", rest);
      WordsOfAppend([s[..i]], Pieces(rest));
      assert [s[..i]][..0] == [];
      WordsOfPieces(rest);
    }
  }

  lemma {:induction false} WordsOfParagraphs(pieces: seq<string>)
    ensures WordsOf(Paragraphs(pieces)) == WordsOf(pieces)
  {
    if pieces != [] {
      var first := Trim(pieces[0]);
      var kept := if first == "" then [] else [first];
      FieldsOfTrim(pieces[0]);
      assert [pieces[0]] + pieces[1..] == pieces;
      assert [pieces[0]][..0] == [] && [first][..0] == [];
      WordsOfAppend(kept, Paragraphs(pieces[1..]));
      WordsOfAppend([pieces[0]], pieces[1..]);
      WordsOfParagraphs(pieces[1..]);
    }
  }

  /** Grouping the paragraphs of a body loses no word and changes no order. */
  lemma GroupedKeepsWords(body: string, maxRunes: int)
    ensures WordsOf(Grouped(body, maxRunes)) == Fields(body)
  {
    var paragraphs := Paragraphs(Pieces(body));
    WordsOfPieces(body);
    WordsOfParagraphs(Pieces(body));
    GreedyKeepsUnits(paragraphs, 2, maxRunes);
    WordsOfJoined(Greedy(paragraphs, 2, maxRunes), "\n\n");
  }

  /** Every chunk of a text is within the limit or is a single word. */
  lemma ChunkedWithinLimit(input: string, maxRunes: int)
    ensures var limit := if maxRunes <= 0 then DEFAULT_CHUNK_SIZE else maxRunes;
            forall c :: c in Chunked(input, maxRunes) ==> |c| <= limit || |Fields(c)| <= 1
  {
    var text := Trim(input);
    var limit := if maxRunes <= 0 then DEFAULT_CHUNK_SIZE else maxRunes;
    var words := Fields(text);
    var groups := Greedy(words, 1, limit);
    FieldsAreSolid(text);
    GreedyIsLegal(words, 1, limit);
    GreedyKeepsUnits(words, 1, limit);
    JoinedAre(groups, " ");
    forall i | 0 <= i < |groups|
      ensures |Join(groups[i], " ")| <= limit || |Fields(Join(groups[i], " "))| == 1
    {
      JoinWidth(groups[i], " ");
      if |groups[i]| == 1 {
        GroupWithin(groups, i);
        assert groups[i] == [groups[i][0]] && groups[i][0] in words;
        FieldsOfWord(groups[i][0]);
      }
    }
  }

  lemma {:induction false} GroupWithin<T>(groups: seq<seq<T>>, i: nat)
    requires i < |groups|
    ensures forall x :: x in groups[i] ==> x in Flatten(groups)
  {
    if i > 0 { GroupWithin(groups[1..], i - 1); }
  }

  // ---------- The one greedy grouping ----------

  /** No group has room left for the unit that opens the next. */
  ghost predicate Full(groups: seq<seq<string>>, gap: nat, limit: int) {
    forall i :: 0 <= i && i + 1 < |groups| && groups[i + 1] != [] ==> Width(groups[i], gap) + gap + |groups[i + 1][0]| > limit
  }

  lemma {:induction false} WidthOfPrefix(units: seq<string>, n: nat, gap: nat)
    requires 0 < n <= |units|
    ensures Width(units[..n], gap) <= Width(units, gap)
  {
    if n < |units| {
      var m := |units| - 1;
      WidthOfPrefix(units[..m], n, gap);
      assert units[..m][..n] == units[..n];
    } else {
      assert units[..n] == units;
    }
  }

  lemma FlattenNothing(groups: seq<seq<string>>)
    requires Flatten(groups) == [] && forall i :: 0 <= i < |groups| ==> groups[i] != []
    ensures groups == []
  {
  }

  lemma TailIsLegal(groups: seq<seq<string>>, gap: nat, limit: int)
    requires groups != [] && Legal(groups, gap, limit) && Full(groups, gap, limit)
    ensures Legal(groups[1..], gap, limit) && Full(groups[1..], gap, limit)
    ensures groups == [groups[0]] + groups[1..]
  {
  }

  /** What is open is the start of the first group. */
  ghost predicate Opens(open: seq<string>, rest: seq<string>, groups: seq<seq<string>>, gap: nat, limit: int) {
    && Legal(groups, gap, limit) && Full(groups, gap, limit) && Flatten(groups) == open + rest
    && (open != [] ==> groups != [] && open <= groups[0])
  }

  lemma AllOpened(open: seq<string>, groups: seq<seq<string>>, gap: nat, limit: int)
    requires Opens(open, [], groups, gap, limit)
    ensures groups == if open == [] then [] else [open]
  {
    if open == [] {
      FlattenNothing(groups);
    } else {
      assert Flatten(groups) == groups[0] + Flatten(groups[1..]);
      assert |groups[0]| <= |open|;
      assert groups[0] == open && Flatten(groups[1..]) == [];
      TailIsLegal(groups, gap, limit);
      FlattenNothing(groups[1..]);
    }
  }

  /** The first group is as long as what is open: the next unit has no room there. */
  lemma GroupEnds(open: seq<string>, rest: seq<string>, groups: seq<seq<string>>, gap: nat, limit: int)
    requires Opens(open, rest, groups, gap, limit) && rest != [] && open != [] && groups[0] == open
    ensures Width(open, gap) + gap + |rest[0]| > limit
    ensures Opens([rest[0]], rest[1..], groups[1..], gap, limit)
  {
    assert Flatten(groups) == groups[0] + Flatten(groups[1..]);
    assert Flatten(groups[1..]) == (open + rest)[|open|..] == rest;
    TailIsLegal(groups, gap, limit);
    assert groups[1..] != [];
    assert groups[1] != [] && Flatten(groups[1..]) == groups[1] + Flatten(groups[2..]);
    assert groups[1][0] == rest[0];
    assert [rest[0]] + rest[1..] == rest;
    assert groups[1..][0] == groups[1];
  }

  /** It is longer: the next unit is in it, so there was room. */
  lemma GroupGoesOn(open: seq<string>, rest: seq<string>, groups: seq<seq<string>>, gap: nat, limit: int)
    requires Opens(open, rest, groups, gap, limit) && rest != [] && (open != [] ==> !OpensAll(open, groups))
    ensures open != [] ==> Width(open, gap) + gap + |rest[0]| <= limit
    ensures Opens(open + [rest[0]], rest[1..], groups, gap, limit)
  {
    assert groups != [] && groups[0] != [];
    assert Flatten(groups) == groups[0] + Flatten(groups[1..]);
    var n := |open|;
    assert |groups[0]| > n && groups[0][n] == (open + rest)[n] == rest[0];
    var more := open + [rest[0]];
    assert more == groups[0][..n + 1];
    assert more + rest[1..] == open + rest;
    if open != [] {
      assert Fits(groups[0], gap, limit);
      WidthOfPrefix(groups[0], n + 1, gap);
      assert more[..n] == open;
    }
  }

  lemma {:induction false} PackIsTheOnly(open: seq<string>, rest: seq<string>, groups: seq<seq<string>>, gap: nat, limit: int)
    requires Opens(open, rest, groups, gap, limit)
    ensures Pack(open, rest, gap, limit) == groups
    decreases |rest|
  {
    hide Opens, Width, Flatten;
    if rest == [] {
      AllOpened(open, groups, gap, limit);
    } else if open != [] && OpensAll(open, groups) {
      GroupEnds(open, rest, groups, gap, limit);
      PackIsTheOnly([rest[0]], rest[1..], groups[1..], gap, limit);
      FirstAndRest(open, rest, groups, gap, limit);
    } else {
      GroupGoesOn(open, rest, groups, gap, limit);
      PackIsTheOnly(open + [rest[0]], rest[1..], groups, gap, limit);
    }
  }

  ghost predicate OpensAll(open: seq<string>, groups: seq<seq<string>>) {
    groups != [] && groups[0] == open
  }

  lemma FirstAndRest(open: seq<string>, rest: seq<string>, groups: seq<seq<string>>, gap: nat, limit: int)
    requires Opens(open, rest, groups, gap, limit) && OpensAll(open, groups)
    ensures groups == [open] + groups[1..]
  {
  }

  lemma {:induction false} PackIsFull(open: seq<string>, rest: seq<string>, gap: nat, limit: int)
    ensures Full(Pack(open, rest, gap, limit), gap, limit)
    ensures open != [] ==> Pack(open, rest, gap, limit) != [] && open <= Pack(open, rest, gap, limit)[0]
    decreases |rest|
  {
    if rest != [] {
      if open != [] && Width(open, gap) + gap + |rest[0]| > limit {
        PackIsFull([rest[0]], rest[1..], gap, limit);
        var after := Pack([rest[0]], rest[1..], gap, limit);
        hide Pack, Width;
        assert after[0][0] == rest[0];
        FullInFront(open, after, gap, limit);
      } else {
        PackIsFull(open + [rest[0]], rest[1..], gap, limit);
      }
    }
  }

  lemma FullInFront(open: seq<string>, after: seq<seq<string>>, gap: nat, limit: int)
    requires Full(after, gap, limit) && after != [] && after[0] != [] && Width(open, gap) + gap + |after[0][0]| > limit
    ensures Full([open] + after, gap, limit)
  {
    var all := [open] + after;
    forall i | 0 <= i && i + 1 < |all| && all[i + 1] != []
      ensures Width(all[i], gap) + gap + |all[i + 1][0]| > limit
    {
      if i > 0 {
        assert all[i] == after[i - 1] && all[i + 1] == after[i];
      }
    }
  }

  /** Among the legal groupings of the units there is one, and only one, in which no group has room for what opens the
      next, and the packer gives it. */
  lemma GreedyIsTheOnly(units: seq<string>, groups: seq<seq<string>>, gap: nat, limit: int)
    ensures groups == Greedy(units, gap, limit)
            <==> Flatten(groups) == units && Legal(groups, gap, limit) && Full(groups, gap, limit)
  {
    GreedyKeepsUnits(units, gap, limit);
    GreedyIsLegal(units, gap, limit);
    PackIsFull([], units, gap, limit);
    if Flatten(groups) == units && Legal(groups, gap, limit) && Full(groups, gap, limit) {
      assert [] + units == units;
      PackIsTheOnly([], units, groups, gap, limit);
    }
  }

  // ---------- What the chunks of a text are ----------

  /** Chunks of neighbouring units put together with a separator: each is within the limit or a single unit, and none could
      have taken the unit that opens the next. */
  ghost predicate PackedWith(chunks: seq<string>, units: seq<string>, separator: string, limit: int) {
    exists groups :: Flatten(groups) == units && IsPacked(chunks, groups, separator, limit)
  }

  ghost predicate IsPacked(chunks: seq<string>, groups: seq<seq<string>>, separator: string, limit: int) {
    && |chunks| == |groups|
    && (forall i :: 0 <= i < |groups| ==>
          groups[i] != [] && chunks[i] == Join(groups[i], separator) && (|chunks[i]| <= limit || |groups[i]| == 1))
    && forall i :: 0 <= i && i + 1 < |groups| && groups[i + 1] != [] ==>
         |chunks[i]| + |separator| + |groups[i + 1][0]| > limit
  }

  lemma JoinedIsPacked(units: seq<string>, separator: string, limit: int)
    ensures PackedWith(Joined(Greedy(units, |separator|, limit), separator), units, separator, limit)
  {
    hide Join, Greedy, Flatten, Width, Joined;
    var groups := Greedy(units, |separator|, limit);
    var chunks := Joined(groups, separator);
    GreedyIsTheOnly(units, groups, |separator|, limit);
    JoinedAre(groups, separator);
    forall i | 0 <= i < |groups|
      ensures groups[i] != [] && chunks[i] == Join(groups[i], separator) && |chunks[i]| == Width(groups[i], |separator|)
    {
      JoinWidth(groups[i], separator);
    }
    assert IsPacked(chunks, groups, separator, limit);
  }

  /** Nothing for blank text; the trimmed text itself where it fits, in 2000 characters unless told otherwise; else its words
      packed with a space between them. */
  lemma ChunkedIs(input: string, maxRunes: int)
    ensures var text := Trim(input);
            var limit := if maxRunes <= 0 then 2000 else maxRunes;
            && (text == "" ==> Chunked(input, maxRunes) == [])
            && (text != "" && |text| <= limit ==> Chunked(input, maxRunes) == [text])
            && (|text| > limit ==> PackedWith(Chunked(input, maxRunes), Fields(text), " ", limit))
  {
    hide Trim, Greedy, Joined, Fields;
    var text := Trim(input);
    var limit := if maxRunes <= 0 then 2000 else maxRunes;
    if |text| > limit {
      SomethingHasWords(input);
      JoinedIsPacked(Fields(text), " ", limit);
    }
  }

  lemma SomethingHasWords(input: string)
    ensures Trim(input) != "" ==> Fields(Trim(input)) != []
  {
    TrimStartsSolid(input);
    FieldsStart(Trim(input));
  }

  lemma {:induction false} LeftStartsSolid(s: string)
    ensures TrimLeft(s) != "" ==> !IsSpace(TrimLeft(s)[0])
  {
    if s != "" && IsSpace(s[0]) {
      LeftStartsSolid(s[1..]);
    }
  }

  lemma {:induction false} RightStartsTheSame(s: string)
    ensures TrimRight(s) <= s
  {
    if s != "" && IsSpace(s[|s| - 1]) {
      RightStartsTheSame(s[..|s| - 1]);
    }
  }

  lemma TrimStartsSolid(s: string)
    ensures Trim(s) != "" ==> !IsSpace(Trim(s)[0])
  {
    LeftStartsSolid(s);
    RightStartsTheSame(TrimLeft(s));
  }

  lemma FieldsStart(s: string)
    ensures s != "" && !IsSpace(s[0]) ==> Fields(s) != []
  {
  }

  /** The paragraphs of a body, trimmed and without the blank ones, packed with a blank line between them. */
  lemma GroupedIs(body: string, maxRunes: int)
    ensures PackedWith(Grouped(body, maxRunes), Paragraphs(Pieces(body)), "\n\n", maxRunes)
  {
    hide Greedy, Joined, Paragraphs, Pieces;
    JoinedIsPacked(Paragraphs(Pieces(body)), "\n\n", maxRunes);
  }

  /** Piece by piece: a piece gives its trimmed text as a paragraph, unless nothing is left of it. */
  lemma {:induction false} ParagraphsAppend(pieces: seq<string>, piece: string)
    ensures Paragraphs([]) == []
    ensures Paragraphs(pieces + [piece]) == Paragraphs(pieces) + if Trim(piece) == "" then [] else [Trim(piece)]
  {
    hide Trim;
    var all := pieces + [piece];
    if pieces == [] {
      assert all[1..] == [] && Paragraphs(all[1..]) == [];
    } else {
      assert all[1..] == pieces[1..] + [piece];
      ParagraphsAppend(pieces[1..], piece);
    }
  }
}
