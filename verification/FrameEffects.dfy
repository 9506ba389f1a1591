/** What the browser makes of a frame, and what trimming leaves. */
module FrameEffects {
  import opened Common
  import opened Text
  import opened Sequences
  import opened Frames

  // ---------- Trimming ----------

  /** What is left after trimming stands between white space and has none at its own ends. */
  predicate IsTrimmed(s: string, before: string, middle: string, after: string, space: char -> bool) {
    && s == before + middle + after
    && (forall i :: 0 <= i < |before| ==> space(before[i])) && (forall i :: 0 <= i < |after| ==> space(after[i]))
    && (middle != "" ==> !space(middle[0]) && !space(middle[|middle| - 1]))
  }

  lemma {:induction false} LeftTrims(s: string) returns (before: string)
    ensures s == before + TrimLeft(s) && (forall i :: 0 <= i < |before| ==> IsSpace(before[i]))
    ensures TrimLeft(s) != "" ==> !IsSpace(TrimLeft(s)[0])
  {
    if s != "" && IsSpace(s[0]) {
      before := LeftTrims(s[1..]);
      before := [s[0]] + before;
      assert s == [s[0]] + s[1..];
    } else {
      before := "";
      assert s == "" + s;
    }
  }

  lemma {:induction false} RightTrims(s: string) returns (after: string)
    ensures s == TrimRight(s) + after && (forall i :: 0 <= i < |after| ==> IsSpace(after[i]))
    ensures TrimRight(s) != "" ==> TrimRight(s)[0] == s[0] && !IsSpace(TrimRight(s)[|TrimRight(s)| - 1])
  {
    if s != "" && IsSpace(s[|s| - 1]) {
      after := RightTrims(s[..|s| - 1]);
      after := after + [s[|s| - 1]];
      assert s == s[..|s| - 1] + [s[|s| - 1]];
    } else {
      after := "";
      assert s == s + "";
    }
  }

  lemma TrimIs(s: string) returns (before: string, after: string)
    ensures IsTrimmed(s, before, Trim(s), after, IsSpace)
  {
    before := LeftTrims(s);
    after := RightTrims(TrimLeft(s));
    assert s == before + (Trim(s) + after);
  }

  lemma {:induction false} StartTrims(s: string) returns (before: string)
    ensures s == before + TrimStart(s) && (forall i :: 0 <= i < |before| ==> IsBrowserSpace(before[i]))
    ensures TrimStart(s) != "" ==> !IsBrowserSpace(TrimStart(s)[0])
  {
    if s != "" && IsBrowserSpace(s[0]) {
      before := StartTrims(s[1..]);
      before := [s[0]] + before;
      assert s == [s[0]] + s[1..];
    } else {
      before := "";
      assert s == "" + s;
    }
  }

  lemma {:induction false} EndTrims(s: string) returns (after: string)
    ensures s == TrimEnd(s) + after && (forall i :: 0 <= i < |after| ==> IsBrowserSpace(after[i]))
    ensures TrimEnd(s) != "" ==> TrimEnd(s)[0] == s[0] && !IsBrowserSpace(TrimEnd(s)[|TrimEnd(s)| - 1])
  {
    if s != "" && IsBrowserSpace(s[|s| - 1]) {
      after := EndTrims(s[..|s| - 1]);
      after := after + [s[|s| - 1]];
      assert s == s[..|s| - 1] + [s[|s| - 1]];
    } else {
      after := "";
      assert s == s + "";
    }
  }

  lemma BrowserTrimIs(s: string) returns (before: string, after: string)
    ensures IsTrimmed(s, before, TrimEnd(TrimStart(s)), after, IsBrowserSpace)
  {
    before := StartTrims(s);
    after := EndTrims(TrimStart(s));
    assert s == before + (TrimEnd(TrimStart(s)) + after);
  }

  /** The two trims know the same white space but for two characters. */
  lemma SpacesDiffer(c: char)
    ensures IsSpace(c) != IsBrowserSpace(c) <==> c == '\U{0085}' || c == '\U{FEFF}'
    ensures IsSpace('\U{0085}') && IsBrowserSpace('\U{FEFF}')
  {
  }

  predicate Plain(s: string) {
    forall i :: 0 <= i < |s| ==> s[i] != '\U{0085}' && s[i] != '\U{FEFF}'
  }

  lemma {:induction false} StartsAgree(s: string)
    requires Plain(s)
    ensures TrimStart(s) == TrimLeft(s) && Plain(TrimLeft(s))
  {
    hide IsSpace, IsBrowserSpace;
    if s != "" {
      SpacesDiffer(s[0]);
      assert Plain(s[1..]);
      StartsAgree(s[1..]);
    }
  }

  lemma {:induction false} EndsAgree(s: string)
    requires Plain(s)
    ensures TrimEnd(s) == TrimRight(s)
  {
    hide IsSpace, IsBrowserSpace;
    if s != "" {
      SpacesDiffer(s[|s| - 1]);
      assert Plain(s[..|s| - 1]);
      EndsAgree(s[..|s| - 1]);
    }
  }

  /** A text without those two is trimmed alike in the browser and by the program. */
  lemma TrimsAgree(s: string)
    requires Plain(s)
    ensures TrimEnd(TrimStart(s)) == Trim(s)
  {
    StartsAgree(s);
    EndsAgree(TrimLeft(s));
  }

  // ---------- A frame ----------

  predicate StartsWith(line: string, mark: string) {
    |line| >= |mark| && line[..|mark|] == mark
  }

  /** The line that names the event: the last one marked so. */
  predicate NamedBy(lines: seq<string>, k: nat) {
    && k < |lines| && StartsWith(lines[k], "event:")
    && forall j :: k < j < |lines| ==> !StartsWith(lines[j], "event:")
  }

  /** The lines of data, in order, without the white space in front. */
  function DataLines(lines: seq<string>): seq<string> {
    if lines == [] then []
    else
      var last := lines[|lines| - 1];
      DataLines(lines[..|lines| - 1]) + (if StartsWith(last, "data:") then [TrimStart(last[5..])] else [])
  }

  lemma MarksDiffer(line: string)
    ensures StartsWith(line, "event:") <==> "event:" <= line
    ensures StartsWith(line, "data:") <==> "data:" <= line
    ensures !(StartsWith(line, "event:") && StartsWith(line, "data:"))
  {
    assert "event:" <= line ==> line[0] == 'e';
    assert "data:" <= line ==> line[0] == 'd';
  }

  lemma NamedBefore(lines: seq<string>, k: nat)
    requires NamedBy(lines, k)
    ensures k == |lines| - 1 || (k < |lines| - 1 && NamedBy(lines[..|lines| - 1], k) && !StartsWith(lines[|lines| - 1], "event:"))
    ensures k == |lines| - 1 ==> StartsWith(lines[k], "event:")
  {
    hide StartsWith;
    var before := lines[..|lines| - 1];
    forall j | k < j < |before| ensures !StartsWith(before[j], "event:") {
      assert before[j] == lines[j];
    }
  }

  lemma {:induction false} FoldIs(lines: seq<string>)
    ensures FoldLines(lines).data == DataLines(lines)
    ensures forall k: nat :: NamedBy(lines, k) ==> FoldLines(lines).name == TrimEnd(TrimStart(lines[k][6..]))
    ensures (forall k :: 0 <= k < |lines| ==> !StartsWith(lines[k], "event:")) ==> FoldLines(lines).name == "message"
  {
    if lines != [] {
      hide StartsWith, TrimStart, TrimEnd, NamedBy;
      var n := |lines| - 1;
      FoldIs(lines[..n]);
      MarksDiffer(lines[n]);
      forall k: nat | NamedBy(lines, k)
        ensures FoldLines(lines).name == TrimEnd(TrimStart(lines[k][6..]))
      {
        NamedBefore(lines, k);
      }
    }
  }

  /** A frame with lines of data is one event, the data lines put together with newlines; its name is what the last line that
      names one says, trimmed, or "message" where none does.  A frame without data is none. */
  lemma DecodeIs(frame: string)
    ensures var lines := SplitLines(frame);
            && (DataLines(lines) == [] ==> Decode(frame) == [])
            && (DataLines(lines) != [] ==>
                  && |Decode(frame)| == 1 && Decode(frame)[0].data == Join(DataLines(lines), "\n")
                  && (forall k: nat :: NamedBy(lines, k) ==> Decode(frame)[0].name == TrimEnd(TrimStart(lines[k][6..])))
                  && ((forall k :: 0 <= k < |lines| ==> !StartsWith(lines[k], "event:")) ==>
                        Decode(frame)[0].name == "message"))
  {
    hide SplitLines, Join, StartsWith, NamedBy, DataLines, FoldLines;
    FoldIs(SplitLines(frame));
  }

  lemma JoinLast(parts: seq<string>, last: string, separator: string)
    requires parts != []
    ensures Join(parts + [last], separator) == Join(parts, separator) + separator + last
  {
    assert (parts + [last])[..|parts|] == parts;
  }

  lemma Onto(a: string, b: string, c: string, d: string)
    ensures a + b + c + d == a + (b + c + d)
  {
  }

  lemma {:induction false} JoinBefore(head: string, parts: seq<string>, separator: string)
    requires parts != []
    ensures Join([head] + parts, separator) == head + separator + Join(parts, separator)
  {
    var n := |parts| - 1;
    if n == 0 {
      JoinLast([head], parts[0], separator);
      assert [head] + parts == [head] + [parts[0]];
    } else {
      hide Join;
      var front := parts[..n];
      JoinBefore(head, front, separator);
      JoinLast(front, parts[n], separator);
      JoinLast([head] + front, parts[n], separator);
      assert parts == front + [parts[n]] && [head] + parts == [head] + front + [parts[n]];
      Onto(head + separator, Join(front, separator), separator, parts[n]);
    }
  }

  lemma {:induction false} JoinOnto(head: string, parts: seq<string>, separator: string)
    requires parts != []
    ensures Join([head + parts[0]] + parts[1..], separator) == head + Join(parts, separator)
  {
    var n := |parts| - 1;
    if n > 0 {
      hide Join;
      var front := parts[..n];
      JoinOnto(head, front, separator);
      JoinLast(front, parts[n], separator);
      JoinLast([head + front[0]] + front[1..], parts[n], separator);
      assert parts == front + [parts[n]] && front[0] == parts[0];
      assert [head + parts[0]] + parts[1..] == [head + front[0]] + front[1..] + [parts[n]];
      Onto(head, Join(front, separator), separator, parts[n]);
    }
  }

  predicate OneLine(line: string) {
    forall i :: 0 <= i < |line| ==> line[i] != '\n'
  }

  /** Lines are what stands between newlines: put back together with them they are the text, and none holds one. */
  lemma {:induction false} LinesAre(s: string)
    ensures Join(SplitLines(s), "\n") == s && SplitLines(s) != []
    ensures forall k :: 0 <= k < |SplitLines(s)| ==> OneLine(SplitLines(s)[k])
    decreases |s|
  {
    if s != "" {
      hide Join;
      var rest := SplitLines(s[1..]);
      LinesAre(s[1..]);
      assert s == [s[0]] + s[1..];
      if s[0] == '\n' {
        JoinBefore("", rest, "\n");
      } else {
        JoinOnto([s[0]], rest, "\n");
        assert OneLine(rest[0]);
      }
    }
  }
}
