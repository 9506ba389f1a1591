/** An order written out as numbers is read back as it was meant. */
module ModelEffects {
  import opened ModelOrder
  import opened Rerank
  import opened Sequences
  import opened Text

  predicate Digits(s: string) {
    forall i :: 0 <= i < |s| ==> IsDigit(s[i])
  }

  predicate NoDigits(s: string) {
    forall i :: 0 <= i < |s| ==> !IsDigit(s[i])
  }

  // ---------- Numerals ----------

  function Digit(d: nat): (c: char)
    requires d < 10
    ensures IsDigit(c)
  {
    "0123456789"[d]
  }

  /** A number in tens. */
  function Numeral(n: nat): (s: string)
    ensures s != "" && Digits(s)
  {
    if n < 10 then [Digit(n)] else Numeral(n / 10) + [Digit(n % 10)]
  }

  lemma {:induction false} NumeralIsRead(n: nat)
    ensures Value(Numeral(n)) == n
  {
    var s := Numeral(n);
    var front := s[..|s| - 1];
    if n >= 10 {
      NumeralIsRead(n / 10);
      assert front == Numeral(n / 10);
    } else {
      assert front == "";
    }
  }

  // ---------- Runs ----------

  lemma {:induction false} RunsOverDigits(s: string, d: string)
    requires Digits(d)
    ensures Runs(s + d) == (Runs(s).0, Runs(s).1 + d)
  {
    if d == "" {
      assert s + d == s;
      assert Runs(s).1 + d == Runs(s).1;
    } else {
      var n := |d| - 1;
      assert (s + d)[..|s| + n] == s + d[..n];
      RunsOverDigits(s, d[..n]);
      assert Runs(s).1 + d[..n] + [d[n]] == Runs(s).1 + d;
    }
  }

  lemma {:induction false} RunsOverGap(s: string, gap: string)
    requires gap != "" && NoDigits(gap)
    ensures Runs(s + gap) == (Runs(s).0 + Close(Runs(s).1), "")
  {
    var n := |gap| - 1;
    assert (s + gap)[..|s| + n] == s + gap[..n];
    if n == 0 {
      assert s + gap[..n] == s;
    } else {
      RunsOverGap(s, gap[..n]);
      assert Runs(s).0 + Close(Runs(s).1) + Close("") == Runs(s).0 + Close(Runs(s).1);
    }
  }

  predicate AllNumerals(tokens: seq<string>) {
    forall k :: 0 <= k < |tokens| ==> tokens[k] != "" && Digits(tokens[k])
  }

  lemma {:induction false} RunsOfJoin(tokens: seq<string>, gap: string)
    requires tokens != [] && AllNumerals(tokens) && gap != "" && NoDigits(gap)
    ensures Runs(Join(tokens, gap)) == (tokens[..|tokens| - 1], tokens[|tokens| - 1])
  {
    hide Runs, Digits, NoDigits;
    var n := |tokens| - 1;
    if n == 0 {
      NothingRun();
      RunsOverDigits("", tokens[0]);
      assert "" + tokens[0] == tokens[0];
    } else {
      var front := tokens[..n];
      RunsOfJoin(front, gap);
      RunsOverGap(Join(front, gap), gap);
      RunsOverDigits(Join(front, gap) + gap, tokens[n]);
      assert front[..n - 1] + [front[n - 1]] == front;
      assert "" + tokens[n] == tokens[n];
    }
  }

  lemma NothingRun()
    ensures Runs("") == ([], "")
  {
  }

  /** Numerals with anything but digits between them are the tokens of the text they make. */
  lemma JoinIsRead(tokens: seq<string>, gap: string)
    requires AllNumerals(tokens) && gap != "" && NoDigits(gap)
    ensures Tokens(Join(tokens, gap)) == tokens
  {
    hide Runs;
    if tokens == [] {
      NothingRun();
    } else {
      RunsOfJoin(tokens, gap);
      assert tokens == tokens[..|tokens| - 1] + [tokens[|tokens| - 1]];
    }
  }

  // ---------- An order written and read ----------

  /** The candidates at these places, numbered from one. */
  function NumbersOf(places: seq<nat>): (r: seq<nat>)
    ensures |r| == |places| && forall k :: 0 <= k < |r| ==> r[k] == places[k] + 1
  {
    seq(|places|, k requires 0 <= k < |places| => places[k] + 1)
  }

  function NumeralsOf(numbers: seq<nat>): (r: seq<string>)
    ensures |r| == |numbers| && forall k :: 0 <= k < |r| ==> r[k] == Numeral(numbers[k])
    ensures AllNumerals(r)
  {
    seq(|numbers|, k requires 0 <= k < |numbers| => Numeral(numbers[k]))
  }

  lemma NumbersAreRead(numbers: seq<nat>, gap: string)
    requires gap != "" && NoDigits(gap)
    ensures Numbers(Join(NumeralsOf(numbers), gap)) == numbers
  {
    hide Tokens, Join, Numeral, Value, Digits, NoDigits, AllNumerals;
    JoinIsRead(NumeralsOf(numbers), gap);
    forall k | 0 <= k < |numbers| ensures Numbers(Join(NumeralsOf(numbers), gap))[k] == numbers[k] {
      NumeralIsRead(numbers[k]);
    }
  }

  predicate Within(places: seq<nat>, count: nat) {
    Distinct(places) && forall k :: 0 <= k < |places| ==> places[k] < count && places[k] < 0x7fff_ffff_ffff_ffff
  }

  lemma {:induction false} PlacesAreKept(places: seq<nat>, count: nat)
    requires Within(places, count)
    ensures Parsed(NumbersOf(places), count) == places
  {
    if places != [] {
      var n := |places| - 1;
      assert NumbersOf(places)[..n] == NumbersOf(places[..n]);
      PlacesAreKept(places[..n], count);
      assert places == places[..n] + [places[n]];
    }
  }

  /** Whatever order of candidates a model means: written out as their numbers, with anything but digits between, it is read as
      just that order. */
  lemma OrderIsRead(places: seq<nat>, count: nat, gap: string)
    requires Within(places, count) && gap != "" && NoDigits(gap)
    ensures Parsed(Numbers(Join(NumeralsOf(NumbersOf(places)), gap)), count) == places
  {
    hide Parsed, Numbers, Join, NumeralsOf, NumbersOf, Within, NoDigits;
    NumbersAreRead(NumbersOf(places), gap);
    PlacesAreKept(places, count);
  }
}
