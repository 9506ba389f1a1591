/** White space, trimming and splitting of text, read as sequences of characters. */
module Text {

  /** The Unicode characters with the White_Space property. */
  predicate IsSpace(c: char) {
    || c == '\t' || c == '\n' || c == '\U{000B}' || c == '\U{000C}' || c == '\r' || c == ' '
    || c == '\U{0085}' || c == '\U{00A0}' || c == '\U{1680}' || '\U{2000}' <= c <= '\U{200A}'
    || c == '\U{2028}' || c == '\U{2029}' || c == '\U{202F}' || c == '\U{205F}' || c == '\U{3000}'
  }

  predicate Blank(s: string) {
    forall i :: 0 <= i < |s| ==> IsSpace(s[i])
  }

  predicate Solid(s: string) {
    s != "" && forall i :: 0 <= i < |s| ==> !IsSpace(s[i])
  }

  function TrimLeft(s: string): string {
    if s == "" || !IsSpace(s[0]) then s else TrimLeft(s[1..])
  }

  function TrimRight(s: string): string {
    if s == "" || !IsSpace(s[|s| - 1]) then s else TrimRight(s[..|s| - 1])
  }

  function Trim(s: string): string {
    TrimRight(TrimLeft(s))
  }

  /** The maximal runs of characters that are not white space. */
  function Fields(s: string): (r: seq<string>)
    decreases |s|
  {
    if s == "" then []
    else if IsSpace(s[0]) then Fields(s[1..])
    else
      var n := WordLength(s);
      [s[..n]] + Fields(s[n..])
  }

  /** The length of the leading run of characters that are not white space. */
  function WordLength(s: string): (n: nat)
    ensures n <= |s|
    ensures s != "" && !IsSpace(s[0]) ==> n > 0
    ensures forall i :: 0 <= i < n ==> !IsSpace(s[i])
    ensures n < |s| ==> IsSpace(s[n])
  {
    if s == "" || IsSpace(s[0]) then 0 else 1 + WordLength(s[1..])
  }

  function Join(parts: seq<string>, separator: string): string {
    if parts == [] then ""
    else if |parts| == 1 then parts[0]
    else Join(parts[..|parts| - 1], separator) + separator + parts[|parts| - 1]
  }

  /** The pieces between newlines; always at least one. */
  function SplitLines(s: string): (r: seq<string>)
    ensures r != []
    decreases |s|
  {
    if s == "" then [""]
    else if s[0] == '\n' then [""] + SplitLines(s[1..])
    else
      var rest := SplitLines(s[1..]);
      [[s[0]] + rest[0]] + rest[1..]
  }

  function Concat(texts: seq<string>): string {
    if texts == [] then "" else Concat(texts[..|texts| - 1]) + texts[|texts| - 1]
  }

  predicate IsDigit(c: char) {
    '0' <= c <= '9'
  }

  /** The words of several texts, in order. */
  function WordsOf(texts: seq<string>): seq<string> {
    if texts == [] then [] else WordsOf(texts[..|texts| - 1]) + Fields(texts[|texts| - 1])
  }

}

/** How words behave under trimming and joining. */
module TextLaws {
  import opened Text

  lemma {:induction false} FieldsAreSolid(s: string)
    ensures forall i :: 0 <= i < |Fields(s)| ==> Solid(Fields(s)[i])
    ensures !Blank(s) ==> Fields(s) != []
    decreases |s|
  {
    if s != "" {
      if IsSpace(s[0]) {
        FieldsAreSolid(s[1..]);
        if !Blank(s) {
          var i :| 0 <= i < |s| && !IsSpace(s[i]);
          assert s[1..][i - 1] == s[i];
        }
      } else {
        FieldsAreSolid(s[WordLength(s)..]);
      }
    }
  }

  lemma {:induction false} WordLengthOfSolid(word: string, more: string)
    requires forall i :: 0 <= i < |word| ==> !IsSpace(word[i])
    requires more == "" || IsSpace(more[0])
    ensures WordLength(word + more) == |word|
  {
    if word != "" {
      assert (word + more)[1..] == word[1..] + more;
      WordLengthOfSolid(word[1..], more);
    } else {
      assert word + more == more;
    }
  }

  lemma FieldsFromWord(word: string, more: string)
    requires Solid(word) && (more == "" || IsSpace(more[0]))
    ensures Fields(word + more) == [word] + Fields(more)
  {
    hide IsSpace;
    WordLengthOfSolid(word, more);
    assert (word + more)[0] == word[0];
    assert (word + more)[..|word|] == word && (word + more)[|word|..] == more;
  }

  lemma FieldsOfWord(word: string)
    requires Solid(word)
    ensures Fields(word) == [word]
  {
    WordLengthOfSolid(word, "");
    assert word + "" == word;
    assert word[..|word|] == word && word[|word|..] == "";
  }

  /** A white-space character separates the words on its two sides. */
  lemma {:induction false} FieldsAcrossSpace(s: string, c: char, more: string)
    requires IsSpace(c)
    ensures Fields(s + [c] + more) == Fields(s) + Fields(more)
    decreases |s|
  {
    var whole := s + [c] + more;
    if s == "" {
      assert whole == [c] + more && whole[1..] == more;
    } else if IsSpace(s[0]) {
      assert whole[1..] == s[1..] + [c] + more;
      FieldsAcrossSpace(s[1..], c, more);
    } else {
      hide IsSpace;
      var n := WordLength(s);
      var tail := s[n..] + [c] + more;
      assert s[..n] + s[n..] == s;
      assert whole == s[..n] + tail;
      FieldsFromWord(s[..n], s[n..]);
      FieldsFromWord(s[..n], tail);
      hide Fields, WordLength;
      FieldsAcrossSpace(s[n..], c, more);
      assert [s[..n]] + (Fields(s[n..]) + Fields(more)) == [s[..n]] + Fields(s[n..]) + Fields(more);
    }
  }

  lemma {:induction false} FieldsSkipBlank(blank: string, more: string)
    requires Blank(blank)
    ensures Fields(blank + more) == Fields(more)
  {
    if blank == "" {
      assert blank + more == more;
    } else {
      assert (blank + more)[1..] == blank[1..] + more;
      FieldsSkipBlank(blank[1..], more);
    }
  }

  lemma FieldsAcrossBlank(s: string, blank: string, more: string)
    requires blank != "" && Blank(blank)
    ensures Fields(s + blank + more) == Fields(s) + Fields(more)
  {
    var tail := blank[1..] + more;
    assert s + blank + more == s + [blank[0]] + tail;
    FieldsAcrossSpace(s, blank[0], tail);
    FieldsSkipBlank(blank[1..], more);
  }

  /** Joining with white space keeps every word. */
  lemma {:induction false} WordsOfJoin(parts: seq<string>, separator: string)
    requires separator != "" && Blank(separator)
    ensures Fields(Join(parts, separator)) == WordsOf(parts)
  {
    if |parts| > 1 {
      var n := |parts| - 1;
      WordsOfJoin(parts[..n], separator);
      FieldsAcrossBlank(Join(parts[..n], separator), separator, parts[n]);
    } else if |parts| == 1 {
      assert WordsOf(parts[..0]) == [];
    }
  }

  lemma {:induction false} WordsOfAppend(a: seq<string>, b: seq<string>)
    ensures WordsOf(a + b) == WordsOf(a) + WordsOf(b)
  {
    if b == [] {
      assert a + b == a;
    } else {
      var n := |b| - 1;
      assert (a + b)[..|a| + n] == a + b[..n];
      WordsOfAppend(a, b[..n]);
    }
  }

  lemma {:induction false} WordsOfSolid(words: seq<string>)
    requires forall i :: 0 <= i < |words| ==> Solid(words[i])
    ensures WordsOf(words) == words
  {
    if words != [] {
      var n := |words| - 1;
      WordsOfSolid(words[..n]);
      FieldsOfWord(words[n]);
      assert words == words[..n] + [words[n]];
    }
  }

  lemma {:induction false} FieldsOfTrimRight(s: string)
    ensures Fields(TrimRight(s)) == Fields(s)
    decreases |s|
  {
    if s != "" && IsSpace(s[|s| - 1]) {
      var n := |s| - 1;
      assert s == s[..n] + [s[n]] + "";
      FieldsAcrossSpace(s[..n], s[n], "");
      FieldsOfTrimRight(s[..n]);
    }
  }

  lemma {:induction false} FieldsOfTrimLeft(s: string)
    ensures Fields(TrimLeft(s)) == Fields(s)
    decreases |s|
  {
    if s != "" && IsSpace(s[0]) { FieldsOfTrimLeft(s[1..]); }
  }

  lemma FieldsOfTrim(s: string)
    ensures Fields(Trim(s)) == Fields(s)
  {
    FieldsOfTrimLeft(s);
    FieldsOfTrimRight(TrimLeft(s));
  }

  /** Units without white space at their ends, joined, have nothing to trim. */
  lemma TrimSolidJoin(units: seq<string>, separator: string)
    requires units != [] && forall i :: 0 <= i < |units| ==> Solid(units[i])
    ensures Trim(Join(units, separator)) == Join(units, separator)
  {
    JoinEnds(units, separator);
  }

  lemma {:induction false} JoinEnds(units: seq<string>, separator: string)
    requires units != [] && forall i :: 0 <= i < |units| ==> Solid(units[i])
    ensures var joined := Join(units, separator);
            joined != "" && !IsSpace(joined[0]) && !IsSpace(joined[|joined| - 1])
  {
    if |units| > 1 { JoinEnds(units[..|units| - 1], separator); }
  }
}
