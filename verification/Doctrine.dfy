/** A lens's doctrine cut into sections at its second-level headings, and each section into passages. */
module Doctrine {
  import opened Text
  import opened TextLaws
  import opened Packing
  import opened PackingLaws
  import opened Frames
  import Sequences

  const MARK := "## "

  datatype Section = Section(heading: string, body: string)

  datatype Passage = Passage(section: string, text: string)

  /** A stretch of lines and the heading above it, empty before the first. */
  datatype Block = Block(heading: string, lines: seq<string>)

  predicate IsHeading(line: string) {
    MARK <= line
  }

  function Title(line: string): string
    requires IsHeading(line)
  {
    Trim(line[|MARK|..])
  }

  function Blocks(lines: seq<string>): (r: seq<Block>)
    ensures r != []
  {
    if lines == [] then [Block("", [])]
    else
      var front := Blocks(lines[..|lines| - 1]);
      var line := lines[|lines| - 1];
      if IsHeading(line) then front + [Block(Title(line), [])]
      else front[..|front| - 1] + [Block(front[|front| - 1].heading, front[|front| - 1].lines + [line])]
  }

  /** The lines as the builder holds them, a newline behind each. */
  function Written(lines: seq<string>): string {
    if lines == [] then "" else Written(lines[..|lines| - 1]) + lines[|lines| - 1] + "\n"
  }

  /** A block is a section if anything is left of it after trimming. */
  function SectionOf(block: Block): seq<Section> {
    var body := Trim(Written(block.lines));
    if body == "" then [] else [Section(block.heading, body)]
  }

  function SectionsOf(blocks: seq<Block>): seq<Section> {
    if blocks == [] then [] else SectionsOf(blocks[..|blocks| - 1]) + SectionOf(blocks[|blocks| - 1])
  }

  function Under(heading: string, texts: seq<string>): (r: seq<Passage>)
    ensures |r| == |texts| && forall i :: 0 <= i < |r| ==> r[i] == Passage(heading, texts[i])
  {
    seq(|texts|, i requires 0 <= i < |texts| => Passage(heading, texts[i]))
  }

  function PassagesIn(sections: seq<Section>): seq<Passage> {
    if sections == [] then []
    else
      var last := sections[|sections| - 1];
      PassagesIn(sections[..|sections| - 1]) + Under(last.heading, Grouped(last.body, MAX_PASSAGE_RUNES))
  }

  // ---------- The procedures ----------

  method Flush(out: seq<Section>, heading: string, body: string, ghost closed: seq<Block>, ghost open: Block)
    returns (r: seq<Section>)
    requires out == SectionsOf(closed) && heading == open.heading && body == Written(open.lines)
    ensures r == SectionsOf(closed + [open])
  {
    assert (closed + [open])[..|closed|] == closed;
    r := out;
    var text := Trim(body);
    if text != "" {
      r := out + [Section(heading, text)];
    }
  }

  method SplitSections(doctrine: string) returns (out: seq<Section>)
    ensures out == SectionsOf(Blocks(SplitLines(doctrine)))
  {
    NothingYet();
    hide Blocks, SectionsOf, Written, SplitLines, Trim;
    var lines := SplitLines(doctrine);
    out := [];
    var heading := "";
    var body := "";
    ghost var closed: seq<Block> := [];
    ghost var open := Block("", []);
    for i := 0 to |lines|
      invariant Blocks(lines[..i]) == closed + [open]
      invariant out == SectionsOf(closed) && heading == open.heading && body == Written(open.lines)
    {
      assert lines[..i + 1] == lines[..i] + [lines[i]];
      BlocksOneMore(lines[..i], lines[i], closed, open);
      if MARK <= lines[i] {
        out := Flush(out, heading, body, closed, open);
        heading := Title(lines[i]);
        body := "";
        closed := closed + [open];
        open := Block(heading, []);
        continue;
      }
      body := body + lines[i] + "\n";
      open := Block(open.heading, open.lines + [lines[i]]);
    }
    assert lines[..|lines|] == lines;
    out := Flush(out, heading, body, closed, open);
  }

  lemma NothingYet()
    ensures Blocks([]) == [Block("", [])] && SectionsOf([]) == [] && Written([]) == ""
  {
  }

  lemma BlocksOneMore(lines: seq<string>, line: string, closed: seq<Block>, open: Block)
    requires Blocks(lines) == closed + [open]
    ensures Blocks(lines + [line])
            == if IsHeading(line) then closed + [open] + [Block(Title(line), [])]
               else closed + [Block(open.heading, open.lines + [line])]
    ensures Written(open.lines + [line]) == Written(open.lines) + line + "\n"
  {
    assert (lines + [line])[..|lines|] == lines && (closed + [open])[..|closed|] == closed;
    assert (open.lines + [line])[..|open.lines|] == open.lines;
  }

  method Passages(doctrine: string) returns (out: seq<Passage>)
    ensures out == PassagesIn(SectionsOf(Blocks(SplitLines(doctrine))))
  {
    hide Blocks, SectionsOf, SplitLines, Grouped;
    var sections := SplitSections(doctrine);
    out := [];
    for i := 0 to |sections|
      invariant out == PassagesIn(sections[..i])
    {
      assert sections[..i + 1][..i] == sections[..i];
      var texts := GroupParagraphs(sections[i].body, MAX_PASSAGE_RUNES);
      var before := out;
      for k := 0 to |texts|
        invariant out == before + Under(sections[i].heading, texts)[..k]
      {
        out := out + [Passage(sections[i].heading, texts[k])];
      }
      assert Under(sections[i].heading, texts)[..|texts|] == Under(sections[i].heading, texts);
    }
    assert sections[..|sections|] == sections;
  }

  // ---------- Where a passage stands ----------

  function Headings(lines: seq<string>): seq<string> {
    if lines == [] then []
    else
      var front := Headings(lines[..|lines| - 1]);
      if IsHeading(lines[|lines| - 1]) then front + [Title(lines[|lines| - 1])] else front
  }

  function BodyLines(lines: seq<string>): seq<string> {
    if lines == [] then []
    else
      var front := BodyLines(lines[..|lines| - 1]);
      if IsHeading(lines[|lines| - 1]) then front else front + [lines[|lines| - 1]]
  }

  function LinesOf(block: Block): seq<string> {
    block.lines
  }

  ghost predicate Follow(blocks: seq<Block>, headings: seq<string>) {
    && |blocks| == |headings| + 1
    && blocks[0].heading == ""
    && forall i :: 0 <= i < |headings| ==> blocks[i + 1].heading == headings[i]
  }

  lemma FollowOneMore(closed: seq<Block>, open: Block, headings: seq<string>, title: string, lines: seq<string>)
    requires Follow(closed + [open], headings)
    ensures Follow(closed + [open] + [Block(title, [])], headings + [title])
    ensures Follow(closed + [Block(open.heading, lines)], headings)
  {
    var before := closed + [open];
    var grown := before + [Block(title, [])];
    assert forall i :: 0 <= i < |before| ==> grown[i] == before[i];
    var same := closed + [Block(open.heading, lines)];
    assert forall i :: 0 <= i < |before| ==> same[i].heading == before[i].heading;
  }

  lemma LinesOneMore(closed: seq<Block>, open: Block, title: string, line: string)
    ensures var all := Sequences.FlatMap(LinesOf, closed + [open]);
            && Sequences.FlatMap(LinesOf, closed + [open] + [Block(title, [])]) == all
            && Sequences.FlatMap(LinesOf, closed + [Block(open.heading, open.lines + [line])]) == all + [line]
  {
    Sequences.FlatMapOne(LinesOf, closed, open);
    Sequences.FlatMapOne(LinesOf, closed + [open], Block(title, []));
    Sequences.FlatMapOne(LinesOf, closed, Block(open.heading, open.lines + [line]));
  }

  lemma HeadingOrLine(lines: seq<string>, line: string)
    ensures Headings(lines + [line]) == if IsHeading(line) then Headings(lines) + [Title(line)] else Headings(lines)
    ensures BodyLines(lines + [line]) == if IsHeading(line) then BodyLines(lines) else BodyLines(lines) + [line]
  {
    assert (lines + [line])[..|lines|] == lines;
  }

  /** One block before the first heading and one after each, in order; and the blocks hold the other lines, all of them
      and in order. */
  lemma {:induction false} BlocksAre(lines: seq<string>)
    ensures Follow(Blocks(lines), Headings(lines))
    ensures Sequences.FlatMap(LinesOf, Blocks(lines)) == BodyLines(lines)
    decreases |lines|
  {
    if lines == [] {
      Sequences.FlatMapOne(LinesOf, [], Block("", []));
      assert [] + [Block("", [])] == [Block("", [])];
    } else {
      hide *;
      var n := |lines| - 1;
      var before := Blocks(lines[..n]);
      var closed, open := before[..|before| - 1], before[|before| - 1];
      BlocksAre(lines[..n]);
      assert before == closed + [open] && lines == lines[..n] + [lines[n]];
      BlocksOneMore(lines[..n], lines[n], closed, open);
      HeadingOrLine(lines[..n], lines[n]);
      var title := if IsHeading(lines[n]) then Title(lines[n]) else "";
      FollowOneMore(closed, open, Headings(lines[..n]), title, open.lines + [lines[n]]);
      LinesOneMore(closed, open, title, lines[n]);
    }
  }

  // ---------- Nothing is lost ----------

  function BodyOf(s: Section): seq<string> {
    Fields(s.body)
  }

  lemma {:induction false} WrittenKeepsWords(lines: seq<string>)
    ensures Fields(Written(lines)) == WordsOf(lines)
  {
    if lines != [] {
      var n := |lines| - 1;
      WrittenKeepsWords(lines[..n]);
      NewlineEnds(Written(lines[..n]), lines[n], n == 0);
    }
  }

  lemma NewlineEnds(before: string, line: string, first: bool)
    requires first ==> before == ""
    requires !first ==> before != "" && before[|before| - 1] == '\n'
    ensures Fields(before + line + "\n") == Fields(before) + Fields(line)
  {
    assert IsSpace('\n');
    hide IsSpace, Fields;
    FieldsAcrossSpace(before + line, '\n', "");
    assert before + line + "\n" == before + line + ['\n'] + "";
    FieldsOfNothing();
    if first {
      assert before + line == line;
    } else {
      var m := |before| - 1;
      FieldsAcrossSpace(before[..m], '\n', line);
      FieldsAcrossSpace(before[..m], '\n', "");
      assert before + line == before[..m] + ['\n'] + line && before == before[..m] + ['\n'] + "";
    }
  }

  lemma FieldsOfNothing()
    ensures Fields("") == []
  {
  }

  lemma SectionKeepsWords(block: Block)
    ensures Sequences.FlatMap(BodyOf, SectionOf(block)) == WordsOf(block.lines)
  {
    hide Written, Trim, Fields;
    WrittenKeepsWords(block.lines);
    FieldsOfTrim(Written(block.lines));
    FieldsOfNothing();
    var body := Trim(Written(block.lines));
    if body != "" {
      Sequences.FlatMapOne(BodyOf, [], Section(block.heading, body));
      assert [] + [Section(block.heading, body)] == [Section(block.heading, body)];
    }
  }

  lemma {:induction false} SectionsKeepWords(blocks: seq<Block>)
    ensures Sequences.FlatMap(BodyOf, SectionsOf(blocks)) == WordsOf(Sequences.FlatMap(LinesOf, blocks))
  {
    if blocks != [] {
      var n := |blocks| - 1;
      hide SectionOf;
      SectionsKeepWords(blocks[..n]);
      SectionKeepsWords(blocks[n]);
      Sequences.FlatMapAppend(BodyOf, SectionsOf(blocks[..n]), SectionOf(blocks[n]));
      WordsOfAppend(Sequences.FlatMap(LinesOf, blocks[..n]), blocks[n].lines);
    }
  }

  function TextsOf(passages: seq<Passage>): (r: seq<string>)
    ensures |r| == |passages| && forall i :: 0 <= i < |r| ==> r[i] == passages[i].text
  {
    seq(|passages|, i requires 0 <= i < |passages| => passages[i].text)
  }

  lemma TextsAppend(passages: seq<Passage>, heading: string, texts: seq<string>)
    ensures TextsOf(passages + Under(heading, texts)) == TextsOf(passages) + texts
  {
  }

  lemma {:induction false} PassagesKeepBodies(sections: seq<Section>)
    ensures WordsOf(TextsOf(PassagesIn(sections))) == Sequences.FlatMap(BodyOf, sections)
  {
    if sections != [] {
      var n := |sections| - 1;
      var last := sections[n];
      hide Grouped, Fields, WordsOf;
      PassagesKeepBodies(sections[..n]);
      GroupedKeepsWords(last.body, MAX_PASSAGE_RUNES);
      var texts := Grouped(last.body, MAX_PASSAGE_RUNES);
      TextsAppend(PassagesIn(sections[..n]), last.heading, texts);
      WordsOfAppend(TextsOf(PassagesIn(sections[..n])), texts);
    }
  }

  /** The passages of a doctrine say every word outside its headings, once and in order. */
  lemma PassagesKeepWords(doctrine: string)
    ensures var lines := SplitLines(doctrine);
            WordsOf(TextsOf(PassagesIn(SectionsOf(Blocks(lines))))) == WordsOf(BodyLines(lines))
  {
    hide *;
    var lines := SplitLines(doctrine);
    PassagesKeepBodies(SectionsOf(Blocks(lines)));
    SectionsKeepWords(Blocks(lines));
    BlocksAre(lines);
  }

  /** A passage is within the limit or is one paragraph left whole. */
  lemma PassagesAreWhole(body: string, i: nat)
    requires i < |Grouped(body, MAX_PASSAGE_RUNES)|
    ensures var text := Grouped(body, MAX_PASSAGE_RUNES)[i];
            |text| <= MAX_PASSAGE_RUNES || text in Paragraphs(Pieces(body))
  {
    var paragraphs := Paragraphs(Pieces(body));
    hide Paragraphs, Pieces, Greedy, Joined, Join, Width;
    var groups := Greedy(paragraphs, 2, MAX_PASSAGE_RUNES);
    GreedyIsLegal(paragraphs, 2, MAX_PASSAGE_RUNES);
    GreedyKeepsUnits(paragraphs, 2, MAX_PASSAGE_RUNES);
    JoinedAre(groups, "\n\n");
    JoinWidth(groups[i], "\n\n");
    GroupWithin(groups, i);
    if |groups[i]| == 1 {
      assert groups[i] == [groups[i][0]];
      JoinOfOne(groups[i][0], "\n\n");
    }
  }

  lemma JoinOfOne(text: string, separator: string)
    ensures Join([text], separator) == text
  {
  }

  // ---------- Block by block ----------

  /** A heading is a line that starts with two hashes and a space; its title is the rest, trimmed. */
  lemma HeadingIs(line: string)
    ensures IsHeading(line) <==> |line| >= 3 && line[..3] == "## "
    ensures IsHeading(line) ==> Title(line) == Trim(line[3..])
  {
    hide Trim;
    if |line| >= 3 && line[..3] == "## " {
      assert forall i :: 0 <= i < 3 ==> line[i] == line[..3][i];
    }
  }

  /** What a block gives: passages under its own heading, packed from its own paragraphs to 900 characters, that say its
      words, all of them and in order. */
  lemma BlockPassages(block: Block)
    ensures var ps := PassagesIn(SectionOf(block));
            && (forall k :: 0 <= k < |ps| ==> ps[k].section == block.heading)
            && WordsOf(TextsOf(ps)) == WordsOf(block.lines)
            && (ps != [] ==> PackedWith(TextsOf(ps), Paragraphs(Pieces(Trim(Written(block.lines)))), "\n\n", 900))
  {
    hide Trim, Written, Grouped, WordsOf, Paragraphs, Pieces, PackedWith, Fields;
    var sections := SectionOf(block);
    PassagesKeepBodies(sections);
    SectionKeepsWords(block);
    var body := Trim(Written(block.lines));
    if body != "" {
      assert sections == [Section(block.heading, body)];
      OneSectionGives(sections[0]);
      GroupedIs(body, 900);
    }
  }

  lemma OneSectionGives(s: Section)
    ensures PassagesIn([s]) == Under(s.heading, Grouped(s.body, 900))
    ensures TextsOf(PassagesIn([s])) == Grouped(s.body, 900)
  {
    hide Grouped;
    var none := [s][..0];
    assert PassagesIn(none) == [];
    assert PassagesIn([s]) == [] + Under(s.heading, Grouped(s.body, 900));
  }

  lemma {:induction false} PassagesAppend(a: seq<Section>, b: seq<Section>)
    ensures PassagesIn(a + b) == PassagesIn(a) + PassagesIn(b)
    decreases |b|, 0
  {
    if b == [] {
      assert a + b == a;
      assert PassagesIn(b) == [];
    } else {
      AppendStep(a, b[..|b| - 1], b[|b| - 1]);
      assert b == b[..|b| - 1] + [b[|b| - 1]];
    }
  }

  lemma {:induction false} AppendStep(a: seq<Section>, b: seq<Section>, s: Section)
    ensures PassagesIn(a + (b + [s])) == PassagesIn(a) + PassagesIn(b + [s])
    decreases |b|, 1
  {
    hide PassagesIn, Under, Grouped;
    PassagesAppend(a, b);
    PassagesOneMore(a + b, s);
    PassagesOneMore(b, s);
    assert a + (b + [s]) == a + b + [s];
    var more := Under(s.heading, Grouped(s.body, MAX_PASSAGE_RUNES));
    assert PassagesIn(a) + PassagesIn(b) + more == PassagesIn(a) + (PassagesIn(b) + more);
  }

  lemma PassagesOneMore(sections: seq<Section>, s: Section)
    ensures PassagesIn(sections + [s]) == PassagesIn(sections) + Under(s.heading, Grouped(s.body, MAX_PASSAGE_RUNES))
  {
    hide Grouped, Under;
    assert (sections + [s])[..|sections|] == sections;
  }

  /** The passages of a doctrine are those of its blocks, one block after the other. */
  lemma BlocksInTurn(blocks: seq<Block>, block: Block)
    ensures PassagesIn(SectionsOf([])) == []
    ensures PassagesIn(SectionsOf(blocks + [block])) == PassagesIn(SectionsOf(blocks)) + PassagesIn(SectionOf(block))
  {
    hide SectionOf, Grouped;
    assert (blocks + [block])[..|blocks|] == blocks;
    PassagesAppend(SectionsOf(blocks), SectionOf(block));
  }
}
