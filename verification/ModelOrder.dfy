/** A model's ranking of numbered candidates: read out of whatever it answered, and applied without losing any. */
module ModelOrder {
  import opened Ranking
  import opened Rerank
  import opened RerankLaws
  import opened Sequences
  import opened Text

  function Value(token: string): nat
    requires forall i :: 0 <= i < |token| ==> IsDigit(token[i])
  {
    if token == "" then 0
    else
      assert IsDigit(token[|token| - 1]);
      Value(token[..|token| - 1]) * 10 + (token[|token| - 1] - '0') as nat
  }

  function Close(open: string): seq<string> {
    if open == "" then [] else [open]
  }

  /** The runs of digits that have ended, and the one still open. */
  function Runs(s: string): (r: (seq<string>, string))
    ensures forall i :: 0 <= i < |r.1| ==> IsDigit(r.1[i])
    ensures forall k, i :: 0 <= k < |r.0| && 0 <= i < |r.0[k]| ==> IsDigit(r.0[k][i])
  {
    if s == "" then ([], "")
    else
      var (closed, open) := Runs(s[..|s| - 1]);
      var c := s[|s| - 1];
      if IsDigit(c) then (closed, open + [c]) else (closed + Close(open), "")
  }

  /** The maximal runs of digits. */
  function Tokens(s: string): (r: seq<string>)
    ensures forall k, i :: 0 <= k < |r| && 0 <= i < |r[k]| ==> IsDigit(r[k][i])
  {
    var (closed, open) := Runs(s);
    closed + Close(open)
  }

  /** The numbers in an answer. */
  function Numbers(answer: string): (r: seq<nat>) {
    var tokens := Tokens(answer);
    seq(|tokens|, k requires 0 <= k < |tokens| => Value(tokens[k]))
  }

  /** Candidates are numbered from one; numbers beyond the machine's are no numbers.  Each place counts once. */
  function Parsed(numbers: seq<nat>, count: nat): (r: seq<nat>)
    ensures forall p :: p in r ==> p < count
  {
    if numbers == [] then []
    else
      var before := Parsed(numbers[..|numbers| - 1], count);
      var n := numbers[|numbers| - 1];
      if n <= MAX_INT && 1 <= n <= count && n - 1 !in before then before + [n - 1] else before
  }

  method ParseRerankOrder(answer: string, count: nat) returns (order: seq<nat>)
    ensures order == Parsed(Numbers(answer), count)
  {
    var seen: set<nat> := {};
    order := [];
    ghost var numbers := Numbers(answer);
    var tokens := Tokens(answer);
    for k := 0 to |tokens|
      invariant order == Parsed(numbers[..k], count)
      invariant forall p :: p in seen <==> p in order
    {
      hide Tokens, Value;
      assert numbers[..k + 1][..k] == numbers[..k];
      var n := Value(tokens[k]);
      if n > MAX_INT {
        continue;
      }
      var place := n - 1;
      if place < 0 || place >= count {
        continue;
      }
      if place in seen {
        continue;
      }
      seen := seen + {place};
      order := order + [place];
    }
    assert numbers[..|tokens|] == numbers;
  }

  /** The places an order names that exist, each once. */
  function Kept(order: seq<int>, count: nat): (r: seq<nat>)
    ensures forall k :: 0 <= k < |r| ==> r[k] < count
    ensures forall p :: p in r <==> p in order && 0 <= p < count
    ensures Distinct(r)
  {
    if order == [] then []
    else
      var n := |order| - 1;
      assert order == order[..n] + [order[n]];
      var before := Kept(order[..n], count);
      if 0 <= order[n] < count && order[n] !in before then before + [order[n]] else before
  }

  /** The places named first, then the others as they were. */
  function Arranged(order: seq<int>, count: nat): (r: seq<nat>)
    ensures forall k :: 0 <= k < |r| ==> r[k] < count
  {
    Kept(order, count) + Rest(count, Kept(order, count))
  }

  function Places<T>(candidates: seq<T>, places: seq<nat>): (r: seq<T>)
    requires forall k :: 0 <= k < |places| ==> places[k] < |candidates|
    ensures |r| == |places| && forall k :: 0 <= k < |r| ==> r[k] == candidates[places[k]]
  {
    seq(|places|, k requires 0 <= k < |places| => candidates[places[k]])
  }

  method ApplyRerankOrder<T>(candidates: seq<T>, order: seq<int>) returns (out: seq<T>)
    ensures out == Places(candidates, Arranged(order, |candidates|))
  {
    var n := |candidates|;
    if |order| == 0 {
      RestOfNone(n);
      return candidates;
    }
    out := [];
    var used: set<int> := {};
    ghost var places: seq<nat> := [];
    for k := 0 to |order|
      invariant places == Kept(order[..k], n) && out == Places(candidates, places)
      invariant forall p :: p in used <==> p in places
    {
      assert order[..k + 1][..k] == order[..k];
      if order[k] < 0 || order[k] >= n {
        continue;
      }
      if order[k] in used {
        continue;
      }
      used := used + {order[k]};
      out := out + [candidates[order[k]]];
      places := places + [order[k]];
    }
    assert order[..|order|] == order;
    ghost var kept := places;
    for i := 0 to n
      invariant places == kept + Rest(i, kept) && forall k :: 0 <= k < |places| ==> places[k] < n
      invariant out == Places(candidates, places)
    {
      if i !in used {
        out := out + [candidates[i]];
        places := places + [i];
      }
    }
  }

  // ---------- Nothing is lost ----------

  lemma ArrangedIsPermutation(order: seq<int>, count: nat)
    ensures Covers(Arranged(order, count), count)
  {
    hide Rest;
    var kept := Kept(order, count);
    var rest := Rest(count, kept);
    RestIs(count, kept);
    forall j, k | 0 <= j < |kept| && 0 <= k < |rest|
      ensures kept[j] != rest[k]
    {
      assert kept[j] in kept && rest[k] in rest;
    }
  }

  /** Every place below `n` once, and no other. */
  predicate Covers(places: seq<nat>, n: nat) {
    Distinct(places) && (forall i :: i in places ==> i < n) && forall i :: 0 <= i < n ==> i in places
  }

  lemma CoversLess(places: seq<nat>, n: nat, k: nat)
    requires Covers(places, n + 1) && k < |places| && places[k] == n
    ensures Covers(places[..k] + places[k + 1..], n)
  {
    var less := places[..k] + places[k + 1..];
    forall i: nat
      ensures i in less <==> i in places && i != n
    {
      LessOne(places, k, i);
    }
  }

  lemma PlacesWithout<T>(items: seq<T>, places: seq<nat>, k: nat)
    requires items != [] && k < |places| && places[k] == |items| - 1
    requires forall j :: 0 <= j < |places| ==> if j == k then places[j] < |items| else places[j] < |items| - 1
    ensures var n := |items| - 1;
            var out := Places(items, places);
            var less := places[..k] + places[k + 1..];
            && (forall j :: 0 <= j < |less| ==> less[j] < n)
            && out == out[..k] + [items[n]] + out[k + 1..]
            && Places(items[..n], less) == out[..k] + out[k + 1..]
  {
  }

  lemma MoveOut<T>(a: seq<T>, x: T, b: seq<T>)
    ensures multiset(a + [x] + b) == multiset(a + b) + multiset{x}
  {
  }

  lemma CoversRange(places: seq<nat>, n: nat)
    requires Covers(places, n)
    ensures forall k :: 0 <= k < |places| ==> places[k] < n
    ensures n == 0 ==> places == []
    ensures n > 0 ==> exists k :: 0 <= k < |places| && places[k] == n - 1
  {
    forall k | 0 <= k < |places|
      ensures places[k] < n
    {
      assert places[k] in places;
    }
    if n == 0 {
      EmptyOrInhabited(places);
    } else {
      assert n - 1 in places;
    }
  }

  lemma {:induction false} PermutedMembers<T>(items: seq<T>, places: seq<nat>)
    requires Covers(places, |items|)
    ensures (forall k :: 0 <= k < |places| ==> places[k] < |items|) && multiset(Places(items, places)) == multiset(items)
  {
    hide Covers;
    CoversRange(places, |items|);
    if items != [] {
      hide Places;
      var n := |items| - 1;
      var k :| 0 <= k < |places| && places[k] == n;
      CoversLess(places, n, k);
      OthersBelow(places, n, k);
      var less := places[..k] + places[k + 1..];
      CoversRange(less, n);
      PermutedMembers(items[..n], less);
      PermutedStep(items, places, k, less);
    }
  }

  lemma PermutedStep<T>(items: seq<T>, places: seq<nat>, k: nat, less: seq<nat>)
    requires items != [] && k < |places| && places[k] == |items| - 1
    requires forall j :: 0 <= j < |places| ==> if j == k then places[j] < |items| else places[j] < |items| - 1
    requires less == places[..k] + places[k + 1..] && forall j :: 0 <= j < |less| ==> less[j] < |items| - 1
    requires multiset(Places(items[..|items| - 1], less)) == multiset(items[..|items| - 1])
    ensures multiset(Places(items, places)) == multiset(items)
  {
    PlacesWithout(items, places, k);
    hide Places;
    var out := Places(items, places);
    MoveOut(out[..k], items[|items| - 1], out[k + 1..]);
    LastOut(items);
  }

  lemma LastOut<T>(items: seq<T>)
    requires items != []
    ensures multiset(items) == multiset(items[..|items| - 1]) + multiset{items[|items| - 1]}
  {
    assert items == items[..|items| - 1] + [items[|items| - 1]];
  }

  lemma OthersBelow(places: seq<nat>, n: nat, k: nat)
    requires Covers(places, n + 1) && k < |places| && places[k] == n
    ensures forall j :: 0 <= j < |places| && j != k ==> places[j] < n
  {
    CoversRange(places, n + 1);
  }

  lemma LessOne(places: seq<nat>, k: nat, i: nat)
    requires Distinct(places) && k < |places|
    ensures i in places[..k] + places[k + 1..] <==> i in places && i != places[k]
  {
    assert places == places[..k] + [places[k]] + places[k + 1..];
  }

  /** By some point of the answer the one number had been met and the other not. */
  predicate MetBefore(numbers: seq<nat>, first: nat, second: nat) {
    exists i :: 0 <= i <= |numbers| && first in numbers[..i] && second !in numbers[..i]
  }

  predicate InOrderMet(numbers: seq<nat>, order: seq<nat>) {
    forall j, k :: 0 <= j < k < |order| ==> MetBefore(numbers, order[j] + 1, order[k] + 1)
  }

  lemma MetStays(numbers: seq<nat>, more: nat, first: nat, second: nat)
    requires MetBefore(numbers, first, second)
    ensures MetBefore(numbers + [more], first, second)
  {
    var i :| 0 <= i <= |numbers| && first in numbers[..i] && second !in numbers[..i];
    assert (numbers + [more])[..i] == numbers[..i];
  }

  lemma MetOneMore(numbers: seq<nat>, order: seq<nat>, more: nat)
    requires InOrderMet(numbers, order)
    ensures InOrderMet(numbers + [more], order)
    ensures (forall p :: p in order ==> p + 1 in numbers) && more > 0 && more !in numbers ==>
              InOrderMet(numbers + [more], order + [more - 1])
  {
    hide MetBefore;
    forall j, k | 0 <= j < k < |order|
      ensures MetBefore(numbers + [more], order[j] + 1, order[k] + 1)
    {
      MetStays(numbers, more, order[j] + 1, order[k] + 1);
    }
    if (forall p :: p in order ==> p + 1 in numbers) && more > 0 && more !in numbers {
      forall j | 0 <= j < |order|
        ensures MetBefore(numbers + [more], order[j] + 1, more)
      {
        assert order[j] in order;
        MetByNow(numbers, more, order[j] + 1);
      }
    }
  }

  lemma MetByNow(numbers: seq<nat>, more: nat, first: nat)
    requires first in numbers && more !in numbers
    ensures MetBefore(numbers + [more], first, more)
  {
    assert (numbers + [more])[..|numbers|] == numbers;
  }

  /** A place is named exactly when its number is met and fits a machine word; each once, in the order first met. */
  lemma {:induction false} ParsedIs(numbers: seq<nat>, count: nat)
    ensures Distinct(Parsed(numbers, count))
    ensures forall p: nat :: p in Parsed(numbers, count) <==> p < count && p + 1 <= MAX_INT && p + 1 in numbers
    ensures InOrderMet(numbers, Parsed(numbers, count))
  {
    if numbers != [] {
      hide InOrderMet;
      var n := |numbers| - 1;
      assert numbers == numbers[..n] + [numbers[n]];
      ParsedIs(numbers[..n], count);
      MetOneMore(numbers[..n], Parsed(numbers[..n], count), numbers[n]);
    } else {
      NothingMet();
    }
  }

  lemma NothingMet()
    ensures InOrderMet([], [])
  {
  }

  lemma {:induction false} KeptAsIs(order: seq<nat>, count: nat)
    requires Distinct(order) && forall p :: p in order ==> p < count
    ensures Kept(order, count) == order
  {
    if order != [] {
      var n := |order| - 1;
      assert order == order[..n] + [order[n]];
      assert forall p :: p in order[..n] ==> p in order;
      KeptAsIs(order[..n], count);
      assert order[n] in order;
    }
  }

  /** Whatever the model answered: the places it named come first, in the order first named, then all the others as they
      were; nothing is lost and nothing doubled. */
  lemma NothingIsLost<T>(candidates: seq<T>, answer: string)
    ensures var order := Parsed(Numbers(answer), |candidates|);
            var places := Arranged(order, |candidates|);
            && Covers(places, |candidates|)
            && multiset(Places(candidates, places)) == multiset(candidates)
            && |order| <= |places| && places[..|order|] == order
            && forall j, k :: |order| <= j < k < |places| ==> places[j] < places[k]
  {
    var n := |candidates|;
    var order := Parsed(Numbers(answer), n);
    ParsedIs(Numbers(answer), n);
    hide *;
    KeptAsIs(order, n);
    ArrangedTail(order, n);
    ArrangedIsPermutation(order, n);
    PermutedMembers(candidates, Arranged(order, n));
  }

  lemma ArrangedTail(order: seq<nat>, count: nat)
    requires Kept(order, count) == order
    ensures var places := Arranged(order, count);
            && |order| <= |places| && places[..|order|] == order
            && forall j, k :: |order| <= j < k < |places| ==> places[j] < places[k]
  {
    hide Rest, Kept;
    RestIs(count, order);
    var places, rest := Arranged(order, count), Rest(count, order);
    assert forall j :: |order| <= j < |places| ==> places[j] == rest[j - |order|];
  }

  // ---------- What the model's order changes ----------

  /** Where more is found than is wanted and no two candidates tie, nothing the model answers changes what is selected. */
  lemma ModelOnlyBreaksTies(scored: seq<Scored>, alike: Similarity, topK: nat, answer: string)
    requires DistinctIds(scored) && |scored| > topK && Untied(scored, alike, Selected(scored, alike, topK))
    ensures var reordered := Places(scored, Arranged(Parsed(Numbers(answer), |scored|), |scored|));
            Taken(reordered, Selected(reordered, alike, topK)) == Taken(scored, Selected(scored, alike, topK))
  {
    hide Numbers, Arranged, Parsed, Selected, Untied, Taken;
    NothingIsLost(scored, answer);
    OrderOnlyBreaksTies(scored, Places(scored, Arranged(Parsed(Numbers(answer), |scored|), |scored|)), alike, topK);
  }

  // ---------- Tokens are the runs of digits ----------

  predicate AllDigits(s: string) {
    forall i :: 0 <= i < |s| ==> IsDigit(s[i])
  }

  predicate NoDigits(s: string) {
    forall i :: 0 <= i < |s| ==> !IsDigit(s[i])
  }

  /** Tokens put back between the gaps around them. */
  function Spliced(gaps: seq<string>, tokens: seq<string>): string
    requires |gaps| == |tokens| + 1
  {
    if tokens == [] then gaps[0]
    else
      var n := |tokens|;
      Spliced(gaps[..n], tokens[..n - 1]) + tokens[n - 1] + gaps[n]
  }

  /** The text is the tokens with gaps between them: tokens are digits and gaps hold none, and neither a token nor a gap
      between two of them is empty, so each token runs as far as digits go. */
  predicate AreRuns(gaps: seq<string>, tokens: seq<string>, s: string) {
    && |gaps| == |tokens| + 1 && Spliced(gaps, tokens) == s
    && (forall k :: 0 <= k < |tokens| ==> tokens[k] != "" && AllDigits(tokens[k]))
    && (forall k :: 0 <= k < |gaps| ==> NoDigits(gaps[k]))
    && forall k :: 0 < k < |tokens| ==> gaps[k] != ""
  }

  /** The run a text ends in, still open. */
  function OpenRun(gaps: seq<string>, tokens: seq<string>): string
    requires |gaps| == |tokens| + 1
  {
    if tokens == [] || gaps[|tokens|] != "" then "" else tokens[|tokens| - 1]
  }

  /** The runs that have ended. */
  function Ended(gaps: seq<string>, tokens: seq<string>): seq<string>
    requires |gaps| == |tokens| + 1
  {
    if OpenRun(gaps, tokens) == "" then tokens else tokens[..|tokens| - 1]
  }

  /** One character off the end of the last gap. */
  lemma LessGap(gaps: seq<string>, tokens: seq<string>, s: string)
    requires AreRuns(gaps, tokens, s) && gaps[|tokens|] != ""
    ensures var n := |tokens|;
            var less := gaps[n := gaps[n][..|gaps[n]| - 1]];
            && s != "" && !IsDigit(s[|s| - 1]) && AreRuns(less, tokens, s[..|s| - 1])
  {
    var n := |tokens|;
    var less := gaps[n := gaps[n][..|gaps[n]| - 1]];
    if tokens != [] {
      assert less[..n] == gaps[..n];
      var front := Spliced(gaps[..n], tokens[..n - 1]) + tokens[n - 1];
      assert s == front + gaps[n] && s[..|s| - 1] == front + less[n];
    }
  }

  /** One digit off the end of the last token. */
  lemma LessToken(gaps: seq<string>, tokens: seq<string>, s: string)
    requires AreRuns(gaps, tokens, s) && tokens != [] && gaps[|tokens|] == "" && |tokens[|tokens| - 1]| > 1
    ensures var n := |tokens| - 1;
            var less := tokens[n := tokens[n][..|tokens[n]| - 1]];
            && s != "" && s[|s| - 1] == tokens[n][|tokens[n]| - 1] && AreRuns(gaps, less, s[..|s| - 1])
  {
    var n := |tokens| - 1;
    var less := tokens[n := tokens[n][..|tokens[n]| - 1]];
    assert less[..n] == tokens[..n];
    var front := Spliced(gaps[..n + 1], tokens[..n]);
    assert s == front + tokens[n] && s[..|s| - 1] == front + less[n];
  }

  /** The last token, a single digit, off the end. */
  lemma NoToken(gaps: seq<string>, tokens: seq<string>, s: string)
    requires AreRuns(gaps, tokens, s) && tokens != [] && gaps[|tokens|] == "" && |tokens[|tokens| - 1]| == 1
    ensures var n := |tokens| - 1;
            && s != "" && [s[|s| - 1]] == tokens[n] && AreRuns(gaps[..n + 1], tokens[..n], s[..|s| - 1])
            && OpenRun(gaps[..n + 1], tokens[..n]) == ""
  {
    var n := |tokens| - 1;
    var front := Spliced(gaps[..n + 1], tokens[..n]);
    assert s == front + tokens[n] && s[..|s| - 1] == front;
  }

  /** Whatever the runs of a text are, reading it character by character gives them. */
  lemma {:induction false} RunsAreThese(gaps: seq<string>, tokens: seq<string>, s: string)
    requires AreRuns(gaps, tokens, s)
    ensures Runs(s) == (Ended(gaps, tokens), OpenRun(gaps, tokens))
    decreases |s|
  {
    GapsBetween(gaps, tokens, s);
    hide AreRuns;
    if gaps[|tokens|] != "" {
      LessGap(gaps, tokens, s);
      var n := |tokens|;
      var less := gaps[n := gaps[n][..|gaps[n]| - 1]];
      RunsAreThese(less, tokens, s[..|s| - 1]);
      SameLength(less, tokens, s[..|s| - 1]);
    } else if tokens == [] {
      NothingRuns(gaps, s);
    } else {
      TokenEndsInDigit(gaps, tokens, s);
      var n := |tokens| - 1;
      if |tokens[n]| > 1 {
        LessToken(gaps, tokens, s);
        var less := tokens[n := tokens[n][..|tokens[n]| - 1]];
        RunsAreThese(gaps, less, s[..|s| - 1]);
        assert less[..n] == tokens[..n] && less[n] + [s[|s| - 1]] == tokens[n];
      } else {
        NoToken(gaps, tokens, s);
        assert "" + [s[|s| - 1]] == tokens[n];
        RunsAreThese(gaps[..n + 1], tokens[..n], s[..|s| - 1]);
      }
    }
  }

  lemma GapsBetween(gaps: seq<string>, tokens: seq<string>, s: string)
    requires AreRuns(gaps, tokens, s)
    ensures |gaps| == |tokens| + 1
  {
  }

  lemma NothingRuns(gaps: seq<string>, s: string)
    requires AreRuns(gaps, [], s) && gaps[0] == ""
    ensures s == ""
  {
  }

  lemma TokenEndsInDigit(gaps: seq<string>, tokens: seq<string>, s: string)
    requires AreRuns(gaps, tokens, s) && tokens != []
    ensures var last := tokens[|tokens| - 1]; last != "" && IsDigit(last[|last| - 1])
  {
  }

  /** The gaps around the runs of a text. */
  function Gaps(s: string): (gaps: seq<string>)
    ensures gaps != []
  {
    if s == "" then [""]
    else
      var before := Gaps(s[..|s| - 1]);
      var last := |before| - 1;
      if !IsDigit(s[|s| - 1]) then before[last := before[last] + [s[|s| - 1]]]
      else if Runs(s[..|s| - 1]).1 != "" then before
      else before + [""]
  }

  lemma MoreGap(gaps: seq<string>, tokens: seq<string>, s: string, c: char)
    requires AreRuns(gaps, tokens, s) && !IsDigit(c)
    ensures AreRuns(gaps[|tokens| := gaps[|tokens|] + [c]], tokens, s + [c])
  {
    var n := |tokens|;
    var more := gaps[n := gaps[n] + [c]];
    if tokens != [] {
      assert more[..n] == gaps[..n];
      var front := Spliced(gaps[..n], tokens[..n - 1]) + tokens[n - 1];
      assert s + [c] == front + (gaps[n] + [c]);
    }
  }

  lemma MoreToken(gaps: seq<string>, tokens: seq<string>, s: string, c: char)
    requires AreRuns(gaps, tokens, s) && IsDigit(c) && tokens != [] && gaps[|tokens|] == ""
    ensures var n := |tokens| - 1; AreRuns(gaps, tokens[n := tokens[n] + [c]], s + [c])
  {
    var n := |tokens| - 1;
    var more := tokens[n := tokens[n] + [c]];
    assert more[..n] == tokens[..n];
    var front := Spliced(gaps[..n + 1], tokens[..n]);
    assert s + [c] == front + more[n] + "";
  }

  lemma NewToken(gaps: seq<string>, tokens: seq<string>, s: string, c: char)
    requires AreRuns(gaps, tokens, s) && IsDigit(c) && (tokens == [] || gaps[|tokens|] != "")
    ensures AreRuns(gaps + [""], tokens + [[c]], s + [c])
  {
    var n := |tokens|;
    assert (gaps + [""])[..n + 1] == gaps && (tokens + [[c]])[..n] == tokens;
    assert s + [c] == s + [c] + "";
  }

  lemma OneCharacterMore(s: string, c: char)
    ensures var (closed, open) := Runs(s);
            Runs(s + [c]) == if IsDigit(c) then (closed, open + [c]) else (closed + Close(open), "")
    ensures var before := Gaps(s);
            var last := |before| - 1;
            Gaps(s + [c]) == if !IsDigit(c) then before[last := before[last] + [c]]
                             else if Runs(s).1 != "" then before else before + [""]
  {
    assert (s + [c])[..|s|] == s;
  }

  /** What has been read of a text: the runs that ended, the one still open, and the gaps. */
  predicate Read(gaps: seq<string>, closed: seq<string>, open: string, s: string) {
    var tokens := closed + Close(open);
    AreRuns(gaps, tokens, s) && open == OpenRun(gaps, tokens)
  }

  lemma ReadGap(gaps: seq<string>, closed: seq<string>, open: string, s: string, c: char)
    requires Read(gaps, closed, open, s) && gaps != [] && !IsDigit(c)
    ensures var last := |gaps| - 1; Read(gaps[last := gaps[last] + [c]], closed + Close(open), "", s + [c])
  {
    var tokens := closed + Close(open);
    GapsBetween(gaps, tokens, s);
    MoreGap(gaps, tokens, s, c);
    hide AreRuns;
    assert tokens + [] == tokens;
  }

  lemma ReadDigit(gaps: seq<string>, closed: seq<string>, open: string, s: string, c: char)
    requires Read(gaps, closed, open, s) && IsDigit(c) && open != ""
    ensures Read(gaps, closed, open + [c], s + [c])
  {
    var tokens := closed + Close(open);
    GapsBetween(gaps, tokens, s);
    MoreToken(gaps, tokens, s, c);
    hide AreRuns;
    assert tokens[|tokens| - 1 := open + [c]] == closed + [open + [c]];
  }

  lemma ReadFirstDigit(gaps: seq<string>, closed: seq<string>, s: string, c: char)
    requires Read(gaps, closed, "", s) && IsDigit(c)
    ensures Read(gaps + [""], closed, [c], s + [c])
  {
    GapsBetween(gaps, closed + [], s);
    assert closed + [] == closed;
    NoneOpen(gaps, closed, s);
    NewToken(gaps, closed, s, c);
    hide AreRuns;
    assert (gaps + [""])[|closed| + 1] == "";
  }

  lemma NoneOpen(gaps: seq<string>, tokens: seq<string>, s: string)
    requires AreRuns(gaps, tokens, s) && OpenRun(gaps, tokens) == ""
    ensures tokens == [] || gaps[|tokens|] != ""
  {
  }

  lemma ReadNothing()
    ensures Read([""], [], "", "")
  {
  }

  lemma {:induction false} RunsHaveGaps(s: string)
    ensures Read(Gaps(s), Runs(s).0, Runs(s).1, s)
  {
    if s == "" {
      ReadNothing();
    } else {
      hide Read, Runs, Gaps;
      var n := |s| - 1;
      var gaps, c := Gaps(s[..n]), s[n];
      var (closed, open) := Runs(s[..n]);
      RunsHaveGaps(s[..n]);
      assert s == s[..n] + [c];
      OneCharacterMore(s[..n], c);
      if !IsDigit(c) {
        ReadGap(gaps, closed, open, s[..n], c);
      } else if open != "" {
        ReadDigit(gaps, closed, open, s[..n], c);
      } else {
        assert "" + [c] == [c];
        ReadFirstDigit(gaps, closed, s[..n], c);
      }
    }
  }

  /** The tokens of an answer are its maximal runs of digits, all of them and in order, and nothing else is. */
  lemma TokensAreRuns(answer: string, tokens: seq<string>)
    ensures tokens == Tokens(answer) <==> exists gaps :: AreRuns(gaps, tokens, answer)
  {
    hide AreRuns, Runs;
    RunsHaveGaps(answer);
    if exists gaps :: AreRuns(gaps, tokens, answer) {
      var gaps :| AreRuns(gaps, tokens, answer);
      RunsAreThese(gaps, tokens, answer);
      SameLength(gaps, tokens, answer);
    }
  }

  lemma SameLength(gaps: seq<string>, tokens: seq<string>, s: string)
    requires AreRuns(gaps, tokens, s)
    ensures |gaps| == |tokens| + 1 && Ended(gaps, tokens) + Close(OpenRun(gaps, tokens)) == tokens
  {
  }
}
