/** Markdown cut into sections that know their whole heading path. */
module Headings {
  import opened Common
  import opened Text
  import opened TextLaws

  const MAX_LEVEL := 6

  datatype Heading = Heading(level: nat, title: string)

  datatype Section = Section(headings: seq<string>, body: string)

  function Hashes(s: string): (n: nat)
    ensures n <= |s|
  {
    if s == "" || s[0] != '#' then 0 else 1 + Hashes(s[1..])
  }

  /** One to six hashes, a space, and a title. */
  function HeaderOf(line: string): (h: Option<Heading>)
    ensures h.Some? ==> 1 <= h.value.level <= MAX_LEVEL && h.value.title != ""
  {
    var trimmed := Trim(line);
    var hashes := Hashes(trimmed);
    if hashes == 0 || hashes > MAX_LEVEL then None
    else
      var rest := trimmed[hashes..];
      if !(" " <= rest) || Trim(rest) == "" then None else Some(Heading(hashes, Trim(rest)))
  }

  // ---------- What a path means ----------

  /** The title that stands at `level` after these headings: the last one at that level, unless a heading of a
      smaller level came after it. */
  function Slot(heads: seq<Heading>, level: nat): string {
    if heads == [] then ""
    else
      var last := heads[|heads| - 1];
      if last.level == level then last.title
      else if last.level < level then ""
      else Slot(heads[..|heads| - 1], level)
  }

  /** One slot for each level down to that of the last heading. */
  function PathOf(heads: seq<Heading>): (path: seq<string>) {
    if heads == [] then []
    else seq(heads[|heads| - 1].level, k requires 0 <= k => Slot(heads, k + 1))
  }

  /** A stretch of lines under the headings met so far. */
  datatype Block = Block(heads: seq<Heading>, lines: seq<string>)

  function Blocks(lines: seq<string>): (r: seq<Block>)
    ensures r != []
  {
    if lines == [] then [Block([], [])]
    else
      var front := Blocks(lines[..|lines| - 1]);
      var open := front[|front| - 1];
      var head := HeaderOf(lines[|lines| - 1]);
      if head.Some? then front + [Block(open.heads + [head.value], [])]
      else front[..|front| - 1] + [Block(open.heads, open.lines + [lines[|lines| - 1]])]
  }

  /** A block is a section if anything is left of its lines after trimming. */
  function SectionOf(block: Block): seq<Section> {
    var body := Trim(Join(block.lines, "\n"));
    if body == "" then [] else [Section(PathOf(block.heads), body)]
  }

  function SectionsOf(blocks: seq<Block>): seq<Section> {
    if blocks == [] then [] else SectionsOf(blocks[..|blocks| - 1]) + SectionOf(blocks[|blocks| - 1])
  }

  // ---------- The walk ----------

  /** Pop to the parent level, pad the levels that were never present, push. */
  method Push(before: seq<string>, level: nat, title: string) returns (stack: seq<string>)
    requires level >= 1
    ensures |stack| == level
    ensures forall k :: 0 <= k < level ==>
              stack[k] == if k == level - 1 then title else if k < |before| then before[k] else ""
  {
    stack := before;
    if level - 1 < |stack| {
      stack := stack[..level - 1];
    }
    while |stack| < level - 1
      invariant |stack| <= level - 1
      invariant forall k :: 0 <= k < |stack| ==> stack[k] == if k < |before| then before[k] else ""
      invariant |before| <= |stack| || level - 1 == |stack|
    {
      stack := stack + [""];
    }
    stack := stack + [title];
  }

  /** Adds the section the open lines make under the current stack, if any. */
  method Flush(sections: seq<Section>, stack: seq<string>, current: string, ghost closed: seq<Block>, ghost open: Block)
    returns (r: seq<Section>)
    requires sections == SectionsOf(closed) && stack == PathOf(open.heads) && current == Built(open.lines)
    ensures r == SectionsOf(closed + [open])
  {
    BuiltTrims(open.lines);
    SectionsOfOne(closed, open);
    r := sections;
    var body := Trim(current);
    if body != "" {
      r := sections + [Section(stack, body)];
    }
  }

  method SplitSections(text: string) returns (sections: seq<Section>)
    ensures sections == SectionsOf(Blocks(SplitLines(text)))
  {
    var lines := SplitLines(text);
    NothingRead();
    hide Blocks, SectionsOf, PathOf, Built, HeaderOf, SplitLines;
    sections := [];
    var stack: seq<string> := [];
    var current := "";
    ghost var closed: seq<Block> := [];
    ghost var open := Block([], []);
    for i := 0 to |lines|
      invariant Blocks(lines[..i]) == closed + [open]
      invariant sections == SectionsOf(closed)
      invariant stack == PathOf(open.heads) && current == Built(open.lines)
    {
      assert lines[..i + 1] == lines[..i] + [lines[i]];
      var head := HeaderOf(lines[i]);
      BlocksStep(lines[..i], lines[i], closed, open);
      if head.None? {
        if |current| > 0 {
          current := current + "\n";
        }
        current := current + lines[i];
        BuiltStep(open.lines, lines[i]);
        open := Block(open.heads, open.lines + [lines[i]]);
        continue;
      }
      sections := Flush(sections, stack, current, closed, open);
      current := "";
      stack := Pushed(stack, head.value, open.heads);
      closed := closed + [open];
      open := Block(open.heads + [head.value], []);
    }
    assert lines[..|lines|] == lines;
    sections := Flush(sections, stack, current, closed, open);
  }

  lemma NothingRead()
    ensures Blocks([]) == [Block([], [])] && SectionsOf([]) == [] && PathOf([]) == [] && Built([]) == ""
  {
  }

  method Pushed(before: seq<string>, head: Heading, ghost heads: seq<Heading>) returns (stack: seq<string>)
    requires before == PathOf(heads) && head.level >= 1
    ensures stack == PathOf(heads + [head])
  {
    stack := Push(before, head.level, head.title);
    PushIsPath(heads, head);
  }

  lemma BlocksStep(lines: seq<string>, line: string, closed: seq<Block>, open: Block)
    requires Blocks(lines) == closed + [open]
    ensures Blocks(lines + [line])
         == if HeaderOf(line).Some? then closed + [open] + [Block(open.heads + [HeaderOf(line).value], [])]
            else closed + [Block(open.heads, open.lines + [line])]
  {
    assert (lines + [line])[..|lines|] == lines;
    assert (closed + [open])[..|closed|] == closed;
  }

  lemma BuiltStep(lines: seq<string>, line: string)
    ensures Built(lines + [line]) == if Built(lines) == "" then line else Built(lines) + "\n" + line
  {
    assert (lines + [line])[..|lines|] == lines;
  }

  // ---------- Why the stack is the path ----------

  /** Below the last level nothing stands. */
  lemma SlotBelow(heads: seq<Heading>, level: nat)
    requires heads != [] && heads[|heads| - 1].level < level
    ensures Slot(heads, level) == ""
  {
  }

  /** Pushing a heading keeps every slot above it and sets its own. */
  lemma PushIsPath(heads: seq<Heading>, head: Heading)
    requires head.level >= 1
    ensures var path := PathOf(heads + [head]);
            && |path| == head.level
            && forall k :: 0 <= k < head.level ==>
                 path[k] == if k == head.level - 1 then head.title
                            else if k < |PathOf(heads)| then PathOf(heads)[k] else ""
  {
    assert (heads + [head])[..|heads|] == heads;
    forall k | 0 <= k < head.level
      ensures PathOf(heads + [head])[k]
           == if k == head.level - 1 then head.title else if k < |PathOf(heads)| then PathOf(heads)[k] else ""
    {
      assert PathOf(heads + [head])[k] == Slot(heads + [head], k + 1);
      assert (heads + [head])[|heads|] == head;
      if k < head.level - 1 {
        assert Slot(heads + [head], k + 1) == Slot(heads, k + 1);
        if k < |PathOf(heads)| {
          assert PathOf(heads)[k] == Slot(heads, k + 1);
        } else if heads != [] {
          SlotBelow(heads, k + 1);
        }
      }
    }
  }

  /** The declarative reading of a slot: it holds a title exactly when the last heading of that level has it and no
      heading of a smaller level followed, and is empty when no heading of that level is still in force. */
  lemma {:induction false} SlotMeaning(heads: seq<Heading>, level: nat)
    ensures forall i :: InForce(heads, level, i) ==> Slot(heads, level) == heads[i].title
    ensures (forall i :: !InForce(heads, level, i)) ==> Slot(heads, level) == ""
  {
    if heads != [] {
      var n := |heads| - 1;
      SlotMeaning(heads[..n], level);
      forall i | InForce(heads, level, i) ensures Slot(heads, level) == heads[i].title {
        if i < n {
          assert heads[n].level > level;
          assert InForce(heads[..n], level, i);
        }
      }
      if forall i :: !InForce(heads, level, i) {
        assert !InForce(heads, level, n);
        forall i ensures heads[n].level > level ==> !InForce(heads[..n], level, i) {
          if heads[n].level > level && InForce(heads[..n], level, i) {
            assert InForce(heads, level, i);
          }
        }
      }
    }
  }

  /** Heading `i` has this level and every later one is deeper. */
  ghost predicate InForce(heads: seq<Heading>, level: nat, i: int) {
    && 0 <= i < |heads| && heads[i].level == level
    && forall j :: i < j < |heads| ==> heads[j].level > level
  }

  // ---------- Why the builder's text is the block's ----------

  /** The builder's text: lines joined by newlines, except that none is written while it is still empty. */
  ghost function Built(lines: seq<string>): string {
    if lines == [] then ""
    else
      var front := Built(lines[..|lines| - 1]);
      if front == "" then lines[|lines| - 1] else front + "\n" + lines[|lines| - 1]
  }

  lemma {:induction false} BuiltIsJoinLessLeadingNewlines(lines: seq<string>) returns (pad: string)
    ensures Blank(pad) && Join(lines, "\n") == pad + Built(lines)
  {
    if |lines| <= 1 {
      pad := "";
      if |lines| == 1 { assert Built(lines[..0]) == ""; }
      assert Join(lines, "\n") == "" + Built(lines);
    } else {
      var n := |lines| - 1;
      var front := BuiltIsJoinLessLeadingNewlines(lines[..n]);
      if Built(lines[..n]) == "" {
        pad := front + "\n";
        assert Join(lines, "\n") == front + "" + "\n" + lines[n];
        assert front + "" + "\n" + lines[n] == pad + lines[n];
      } else {
        pad := front;
        assert Join(lines, "\n") == front + Built(lines[..n]) + "\n" + lines[n];
        assert front + Built(lines[..n]) + "\n" + lines[n] == front + Built(lines);
      }
    }
  }

  lemma {:induction false} TrimLeftSkips(pad: string, s: string)
    requires Blank(pad)
    ensures TrimLeft(pad + s) == TrimLeft(s)
  {
    if pad == "" {
      assert pad + s == s;
    } else {
      assert (pad + s)[1..] == pad[1..] + s;
      TrimLeftSkips(pad[1..], s);
    }
  }

  lemma BuiltTrims(lines: seq<string>)
    ensures Trim(Built(lines)) == Trim(Join(lines, "\n"))
  {
    var pad := BuiltIsJoinLessLeadingNewlines(lines);
    TrimLeftSkips(pad, Built(lines));
  }

  lemma SectionsOfOne(blocks: seq<Block>, block: Block)
    ensures SectionsOf(blocks + [block]) == SectionsOf(blocks) + SectionOf(block)
  {
    assert (blocks + [block])[..|blocks|] == blocks;
  }

  // ---------- Nothing is lost ----------

  /** The headings of a document, in order. */
  function HeadsOf(lines: seq<string>): seq<Heading> {
    if lines == [] then []
    else
      var head := HeaderOf(lines[|lines| - 1]);
      HeadsOf(lines[..|lines| - 1]) + (if head.Some? then [head.value] else [])
  }

  /** The lines that are not headings, in order. */
  function BodyLines(lines: seq<string>): seq<string> {
    if lines == [] then []
    else BodyLines(lines[..|lines| - 1])
         + (if HeaderOf(lines[|lines| - 1]).Some? then [] else [lines[|lines| - 1]])
  }

  function LinesOf(blocks: seq<Block>): seq<string> {
    if blocks == [] then [] else LinesOf(blocks[..|blocks| - 1]) + blocks[|blocks| - 1].lines
  }

  lemma LinesOfOne(blocks: seq<Block>, block: Block)
    ensures LinesOf(blocks + [block]) == LinesOf(blocks) + block.lines
  {
    assert (blocks + [block])[..|blocks|] == blocks;
  }

  lemma HeadsOrBody(lines: seq<string>, line: string)
    ensures HeadsOf(lines + [line])
         == if HeaderOf(line).Some? then HeadsOf(lines) + [HeaderOf(line).value] else HeadsOf(lines)
    ensures BodyLines(lines + [line]) == BodyLines(lines) + if HeaderOf(line).Some? then [] else [line]
  {
    assert (lines + [line])[..|lines|] == lines;
  }

  lemma OneMoreLine(lines: seq<string>, line: string, closed: seq<Block>, open: Block)
    requires Blocks(lines) == closed + [open]
    ensures LinesOf(Blocks(lines + [line])) == LinesOf(Blocks(lines)) + if HeaderOf(line).Some? then [] else [line]
  {
    hide Blocks, HeaderOf, LinesOf;
    BlocksStep(lines, line, closed, open);
    LinesOfOne(closed, open);
    LinesOfOne(closed, Block(open.heads, open.lines + [line]));
    if HeaderOf(line).Some? {
      LinesOfOne(closed + [open], Block(open.heads + [HeaderOf(line).value], []));
    }
  }

  lemma {:induction false} BlocksKeepLines(lines: seq<string>)
    ensures LinesOf(Blocks(lines)) == BodyLines(lines)
    decreases |lines|
  {
    if lines == [] {
      LinesOfOne([], Block([], []));
    } else {
      hide *;
      var n := |lines| - 1;
      var before := Blocks(lines[..n]);
      var m := |before| - 1;
      BlocksKeepLines(lines[..n]);
      assert before == before[..m] + [before[m]] && lines == lines[..n] + [lines[n]];
      HeadsOrBody(lines[..n], lines[n]);
      OneMoreLine(lines[..n], lines[n], before[..m], before[m]);
    }
  }

  ghost predicate Follow(blocks: seq<Block>, heads: seq<Heading>) {
    && |blocks| == |heads| + 1
    && forall i :: 0 <= i < |blocks| ==> blocks[i].heads == heads[..i]
  }

  lemma FollowOneMore(closed: seq<Block>, open: Block, heads: seq<Heading>, head: Heading)
    requires Follow(closed + [open], heads)
    ensures Follow(closed + [open] + [Block(open.heads + [head], [])], heads + [head])
  {
    var before := closed + [open];
    var grown := heads + [head];
    assert before[|closed|] == open && heads[..|heads|] == heads && grown[..|grown|] == grown;
    forall i | 0 <= i < |before| ensures grown[..i] == before[i].heads {}
  }

  lemma FollowSame(closed: seq<Block>, open: Block, heads: seq<Heading>, lines: seq<string>)
    requires Follow(closed + [open], heads)
    ensures Follow(closed + [Block(open.heads, lines)], heads)
  {
    assert (closed + [open])[|closed|] == open;
    forall i | 0 <= i < |closed| ensures closed[i].heads == heads[..i] {
      assert (closed + [open])[i] == closed[i];
    }
  }

  lemma NoHeadsYet()
    ensures Follow(Blocks([]), HeadsOf([]))
  {
  }

  lemma {:induction false} BlocksFollowHeads(lines: seq<string>)
    ensures Follow(Blocks(lines), HeadsOf(lines))
    decreases |lines|
  {
    hide *;
    if lines == [] {
      NoHeadsYet();
    } else {
      var n := |lines| - 1;
      var before := Blocks(lines[..n]);
      var m := |before| - 1;
      BlocksFollowHeads(lines[..n]);
      assert before == before[..m] + [before[m]] && lines == lines[..n] + [lines[n]];
      FollowStep(lines[..n], lines[n], before[..m], before[m]);
    }
  }

  lemma FollowStep(lines: seq<string>, line: string, closed: seq<Block>, open: Block)
    requires Blocks(lines) == closed + [open] && Follow(Blocks(lines), HeadsOf(lines))
    ensures Follow(Blocks(lines + [line]), HeadsOf(lines + [line]))
  {
    hide *;
    BlocksStep(lines, line, closed, open);
    HeadsOrBody(lines, line);
    if HeaderOf(line).Some? {
      FollowOneMore(closed, open, HeadsOf(lines), HeaderOf(line).value);
    } else {
      FollowSame(closed, open, HeadsOf(lines), open.lines + [line]);
    }
  }

  /** There is one block per heading and one before the first; block `i` stands under the first `i` headings, and the
      blocks' lines are the non-heading lines, all of them and in order. */
  lemma BlocksPartition(lines: seq<string>)
    ensures LinesOf(Blocks(lines)) == BodyLines(lines)
    ensures |Blocks(lines)| == |HeadsOf(lines)| + 1
    ensures forall i :: 0 <= i < |Blocks(lines)| ==> Blocks(lines)[i].heads == HeadsOf(lines)[..i]
  {
    BlocksKeepLines(lines);
    BlocksFollowHeads(lines);
  }

  function Bodies(sections: seq<Section>): (r: seq<string>)
  {
    if sections == [] then [] else Bodies(sections[..|sections| - 1]) + [sections[|sections| - 1].body]
  }

  lemma {:induction false} WordsOfSections(blocks: seq<Block>)
    ensures WordsOf(Bodies(SectionsOf(blocks))) == WordsOf(LinesOf(blocks))
  {
    if blocks != [] {
      var n := |blocks| - 1;
      var body := Trim(Join(blocks[n].lines, "\n"));
      var front := SectionsOf(blocks[..n]);
      WordsOfSections(blocks[..n]);
      WordsOfAppend(LinesOf(blocks[..n]), blocks[n].lines);
      WordsOfJoin(blocks[n].lines, "\n");
      FieldsOfTrim(Join(blocks[n].lines, "\n"));
      if body == "" {
        assert SectionsOf(blocks) == front;
        assert Fields("") == [];
      } else {
        var last := Section(PathOf(blocks[n].heads), body);
        assert SectionsOf(blocks) == front + [last];
        assert (front + [last])[..|front|] == front;
        assert (Bodies(front) + [body])[..|Bodies(front)|] == Bodies(front);
      }
    }
  }

  /** Every word outside the headings reaches a section, once and in order. */
  lemma SectionsKeepWords(text: string)
    ensures WordsOf(Bodies(SectionsOf(Blocks(SplitLines(text))))) == WordsOf(BodyLines(SplitLines(text)))
  {
    BlocksPartition(SplitLines(text));
    WordsOfSections(Blocks(SplitLines(text)));
  }

  /** Each section carries the path of the headings above it, and a body that is not blank. */
  lemma {:induction false} SectionsStandUnderTheirPath(blocks: seq<Block>)
    ensures forall s :: s in SectionsOf(blocks) ==>
              exists i :: 0 <= i < |blocks| && s.headings == PathOf(blocks[i].heads)
                          && s.body == Trim(Join(blocks[i].lines, "\n")) && s.body != ""
  {
    if blocks != [] {
      var n := |blocks| - 1;
      SectionsStandUnderTheirPath(blocks[..n]);
      assert forall i :: 0 <= i < n ==> blocks[..n][i] == blocks[i];
    }
  }
}
