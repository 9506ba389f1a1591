/** Text cut at blank lines: the browser's event-stream frames, read from a network that may cut anywhere, and the
    paragraph pieces of a body.  The stream format is section 9.2 of the WHATWG HTML Standard. */
module Frames {
  import opened Common
  import opened Text
  import opened Sequences

  predicate BreakAt(s: string, i: nat) {
    i + 1 < |s| && s[i] == '\n' && s[i + 1] == '\n'
  }

  /** Where the leftmost double newline starts; -1 if there is none. */
  function FirstBreak(s: string): (i: int)
    ensures i == -1 || (0 <= i && BreakAt(s, i))
    ensures forall j: nat :: BreakAt(s, j) ==> 0 <= i <= j
  {
    if |s| < 2 then -1
    else if BreakAt(s, 0) then 0
    else
      var i := FirstBreak(s[1..]);
      assert forall j: nat :: BreakAt(s, j) ==> j > 0 && BreakAt(s[1..], j - 1);
      if i < 0 then -1 else i + 1
  }

  /** The pieces that end in a double newline, cut at successive leftmost ones. */
  function Complete(s: string): seq<string>
    decreases |s|
  {
    var i := FirstBreak(s);
    if i < 0 then [] else [s[..i]] + Complete(s[i + 2..])
  }

  /** What is left after the last complete piece. */
  function Partial(s: string): (r: string)
    ensures FirstBreak(r) < 0
    decreases |s|
  {
    var i := FirstBreak(s);
    if i < 0 then s else Partial(s[i + 2..])
  }

  /** Whole text pieces: those complete and the last. */
  function Pieces(s: string): seq<string> {
    Complete(s) + [Partial(s)]
  }

  // ---------- One frame ----------

  /** What the browser's `trim` removes; it differs from Unicode white space in U+0085 and U+FEFF. */
  predicate IsBrowserSpace(c: char) {
    (IsSpace(c) && c != '\U{0085}') || c == '\U{FEFF}'
  }

  function TrimStart(s: string): string {
    if s == "" || !IsBrowserSpace(s[0]) then s else TrimStart(s[1..])
  }

  function TrimEnd(s: string): string {
    if s == "" || !IsBrowserSpace(s[|s| - 1]) then s else TrimEnd(s[..|s| - 1])
  }

  datatype Event = Event(name: string, data: string)

  datatype Fold = Fold(name: string, data: seq<string>)

  function Field(fold: Fold, line: string): Fold {
    if "event:" <= line then fold.(name := TrimEnd(TrimStart(line[6..])))
    else if "data:" <= line then fold.(data := fold.data + [TrimStart(line[5..])])
    else fold
  }

  function FoldLines(lines: seq<string>): Fold {
    if lines == [] then Fold("message", [])
    else Field(FoldLines(lines[..|lines| - 1]), lines[|lines| - 1])
  }

  /** A frame without data delivers nothing. */
  function Decode(frame: string): seq<Event> {
    var fold := FoldLines(SplitLines(frame));
    if fold.data == [] then [] else [Event(fold.name, Join(fold.data, "\n"))]
  }

  // ---------- The reader ----------

  method DecodeFrame(frame: string) returns (events: seq<Event>)
    ensures events == Decode(frame)
  {
    var name := "message";
    var data: seq<string> := [];
    var lines := SplitLines(frame);
    for i := 0 to |lines|
      invariant Fold(name, data) == FoldLines(lines[..i])
    {
      assert lines[..i + 1][..i] == lines[..i];
      var line := lines[i];
      if "event:" <= line {
        name := TrimEnd(TrimStart(line[6..]));
      } else if "data:" <= line {
        data := data + [TrimStart(line[5..])];
      }
    }
    assert lines[..|lines|] == lines;
    events := [];
    if |data| > 0 {
      events := [Event(name, Join(data, "\n"))];
    }
  }

  lemma FlatMapOfNone()
    ensures FlatMap(Decode, []) == []
  {
  }

  /** Delivers the complete frames in the buffer and keeps the partial one. */
  method Drain(full: string) returns (events: seq<Event>, buffer: string)
    ensures events == FlatMap(Decode, Complete(full)) && buffer == Partial(full)
  {
    FlatMapOfNone();
    hide Decode, FlatMap;
    events := [];
    buffer := full;
    ghost var done: seq<string> := [];
    var end := FirstBreak(buffer);
    while end != -1
      invariant end == FirstBreak(buffer)
      invariant done + Complete(buffer) == Complete(full) && Partial(buffer) == Partial(full)
      invariant events == FlatMap(Decode, done)
      decreases |buffer|
    {
      var frame := buffer[..end];
      assert done + Complete(buffer) == done + [frame] + Complete(buffer[end + 2..]);
      FlatMapOne(Decode, done, frame);
      buffer := buffer[end + 2..];
      var decoded := DecodeFrame(frame);
      events := events + decoded;
      done := done + [frame];
      end := FirstBreak(buffer);
    }
    assert done == done + Complete(buffer);
  }

  /** Reads the stream however it was cut, delivering events as frames complete.  What is delivered and kept depends
      only on the text as a whole. */
  method ReadStream(cuts: seq<string>) returns (events: seq<Event>, buffer: string)
    ensures events == FlatMap(Decode, Complete(Concat(cuts)))
    ensures buffer == Partial(Concat(cuts))
  {
    events := [];
    buffer := "";
    for i := 0 to |cuts|
      invariant events == FlatMap(Decode, Complete(Concat(cuts[..i])))
      invariant buffer == Partial(Concat(cuts[..i]))
    {
      assert cuts[..i + 1][..i] == cuts[..i];
      ghost var text := Concat(cuts[..i]);
      CompleteAppend(text, cuts[i]);
      FlatMapAppend(Decode, Complete(text), Complete(buffer + cuts[i]));
      var delivered;
      delivered, buffer := Drain(buffer + cuts[i]);
      events := events + delivered;
    }
    assert cuts[..|cuts|] == cuts;
  }

  // ---------- Cuts cannot be seen ----------

  lemma {:induction false} FirstBreakAppend(a: string, b: string)
    requires FirstBreak(a) >= 0
    ensures FirstBreak(a + b) == FirstBreak(a)
  {
    if !BreakAt(a, 0) {
      assert (a + b)[1..] == a[1..] + b;
      FirstBreakAppend(a[1..], b);
    }
  }

  /** Text that arrives later completes the pending piece and never changes the pieces already cut. */
  lemma {:induction false} CompleteAppend(a: string, b: string)
    ensures Complete(a + b) == Complete(a) + Complete(Partial(a) + b)
    ensures Partial(a + b) == Partial(Partial(a) + b)
    decreases |a|
  {
    hide FirstBreak;
    var i := FirstBreak(a);
    if i >= 0 {
      FirstBreakAppend(a, b);
      assert (a + b)[..i] == a[..i] && (a + b)[i + 2..] == a[i + 2..] + b;
      CompleteAppend(a[i + 2..], b);
    }
  }

  // ---------- What the cut pieces are ----------

  /** Pieces put back, each followed by its double newline, and then the remainder. */
  function Rebuild(pieces: seq<string>, rest: string): string {
    if pieces == [] then rest else pieces[0] + "\n\n" + Rebuild(pieces[1..], rest)
  }

  /** Each piece ends at the first double newline there is, and the remainder holds none. */
  ghost predicate IsCut(pieces: seq<string>, rest: string) {
    && (forall i :: 0 <= i < |pieces| ==> FirstBreak(pieces[i] + "\n\n") == |pieces[i]|)
    && FirstBreak(rest) < 0
  }

  lemma PieceEndsAtBreak(s: string, i: nat)
    requires FirstBreak(s) == i
    ensures s == s[..i] + "\n\n" + s[i + 2..] && FirstBreak(s[..i] + "\n\n") == i
  {
    hide FirstBreak;
    assert s[i..i + 2] == "\n\n";
    var piece := s[..i] + "\n\n";
    assert BreakAt(piece, i);
    assert forall j: nat :: BreakAt(piece, j) && j < i ==> BreakAt(s, j);
  }

  lemma {:induction false} CompleteIsCut(s: string)
    ensures IsCut(Complete(s), Partial(s)) && Rebuild(Complete(s), Partial(s)) == s
    decreases |s|
  {
    hide FirstBreak;
    var i := FirstBreak(s);
    if i >= 0 {
      CompleteIsCut(s[i + 2..]);
      PieceEndsAtBreak(s, i);
    }
  }

  /** The batch cut is the only one: any pieces cut at first double newlines that rebuild the text are its pieces. */
  lemma {:induction false} CutIsUnique(pieces: seq<string>, rest: string)
    requires IsCut(pieces, rest)
    ensures Complete(Rebuild(pieces, rest)) == pieces && Partial(Rebuild(pieces, rest)) == rest
  {
    if pieces != [] {
      var tail := Rebuild(pieces[1..], rest);
      var s := Rebuild(pieces, rest);
      assert s == pieces[0] + "\n\n" + tail;
      FirstBreakAppend(pieces[0] + "\n\n", tail);
      assert s[..|pieces[0]|] == pieces[0] && s[|pieces[0]| + 2..] == tail;
      CutIsUnique(pieces[1..], rest);
    }
  }
}
