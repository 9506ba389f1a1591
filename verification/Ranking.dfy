/** Ranking by descending score with ties broken on the identifier: the order that the roster and the
    reranker both sort by.  Identifiers are compared only with `==` and `<`, so natural numbers stand for them. */
module Ranking {

  datatype Ranked<T> = Ranked(item: T, score: real, id: nat)

  predicate Before<T>(a: Ranked<T>, b: Ranked<T>) {
    a.score > b.score || (a.score == b.score && a.id < b.id)
  }

  /** No later element ranks before an earlier one. */
  ghost predicate Sorted<T>(s: seq<Ranked<T>>) {
    forall i, j :: 0 <= i < j < |s| ==> !Before(s[j], s[i])
  }

  /** Every earlier element ranks strictly before every later one. */
  ghost predicate StrictlySorted<T>(s: seq<Ranked<T>>) {
    forall i, j :: 0 <= i < j < |s| ==> Before(s[i], s[j])
  }

  ghost predicate DistinctIds<T>(s: seq<Ranked<T>>) {
    forall i, j :: 0 <= i < j < |s| ==> s[i].id != s[j].id
  }

  /** Places `x` after everything it does not rank before, as a stable sort does. */
  function Insert<T>(s: seq<Ranked<T>>, x: Ranked<T>): (r: seq<Ranked<T>>)
    ensures multiset(r) == multiset(s) + multiset{x}
  {
    if s == [] then
      [x]
    else
      var last := s[|s| - 1];
      assert s == s[..|s| - 1] + [last];
      if Before(x, last) then Insert(s[..|s| - 1], x) + [last] else s + [x]
  }

  lemma {:induction false} InsertKeepsSorted<T>(s: seq<Ranked<T>>, x: Ranked<T>)
    requires Sorted(s)
    ensures Sorted(Insert(s, x))
  {
    if s != [] && Before(x, s[|s| - 1]) {
      var front := Insert(s[..|s| - 1], x);
      InsertKeepsSorted(s[..|s| - 1], x);
      forall i | 0 <= i < |front| ensures !Before(s[|s| - 1], front[i]) {
        assert front[i] in multiset(s[..|s| - 1]) + multiset{x};
      }
    }
  }

  /** Insertion sort. */
  function Sort<T>(s: seq<Ranked<T>>): (r: seq<Ranked<T>>)
    ensures multiset(r) == multiset(s)
    ensures Sorted(r)
  {
    if s == [] then
      []
    else
      assert s == s[..|s| - 1] + [s[|s| - 1]];
      var front := Sort(s[..|s| - 1]);
      InsertKeepsSorted(front, s[|s| - 1]);
      Insert(front, s[|s| - 1])
  }

  lemma EmptyOrInhabited<T>(s: seq<T>)
    ensures s == [] || exists x :: x in s
  {
    if s != [] { assert s[0] in s; }
  }

  /** A strictly sorted sequence is determined by its elements, so no iteration order can show in it. */
  lemma {:induction false} StrictlySortedUnique<T>(a: seq<Ranked<T>>, b: seq<Ranked<T>>)
    requires StrictlySorted(a) && StrictlySorted(b)
    requires forall x :: x in a <==> x in b
    ensures a == b
  {
    if a == [] {
      EmptyOrInhabited(b);
    } else {
      assert a[0] in b;
      assert b[0] in a;
      assert a[0] == b[0];
      forall x ensures x in a[1..] <==> x in b[1..] {
        if x in a[1..] { assert x in b && Before(a[0], x); }
        if x in b[1..] { assert x in a && Before(b[0], x); }
      }
      StrictlySortedUnique(a[1..], b[1..]);
    }
  }

  lemma SortedDistinctIsStrict<T>(s: seq<Ranked<T>>)
    requires Sorted(s) && DistinctIds(s)
    ensures StrictlySorted(s)
  {
  }

  /** Distinctness of identifiers survives a permutation. */
  lemma DistinctIdsPermute<T>(a: seq<Ranked<T>>, b: seq<Ranked<T>>)
    requires multiset(a) == multiset(b) && DistinctIds(a)
    ensures DistinctIds(b)
  {
    forall i, j | 0 <= i < j < |b| ensures b[i].id != b[j].id {
      if b[i].id == b[j].id {
        assert b[i] in multiset(a) && b[j] in multiset(a);
        var p :| 0 <= p < |a| && a[p] == b[i];
        var q :| 0 <= q < |a| && a[q] == b[j];
        assert p == q;
        assert b[i] == b[j];
        SplitTwice(b, i, j);
        SplitOnce(a, p);
      }
    }
  }

  lemma SplitTwice<T>(s: seq<T>, i: nat, j: nat)
    requires i < j < |s| && s[i] == s[j]
    ensures multiset(s)[s[i]] >= 2
  {
    assert s == s[..i] + [s[i]] + s[i + 1..j] + [s[j]] + s[j + 1..];
  }

  lemma SplitOnce<T>(a: seq<Ranked<T>>, p: nat)
    requires p < |a| && DistinctIds(a)
    ensures multiset(a)[a[p]] == 1
  {
    assert a == a[..p] + [a[p]] + a[p + 1..];
    assert a[p] !in a[..p] && a[p] !in a[p + 1..];
  }

  lemma SameElements<T>(a: seq<T>, b: seq<T>)
    requires multiset(a) == multiset(b)
    ensures forall x :: x in a <==> x in b
  {
    assert forall x :: x in a <==> x in multiset(a);
    assert forall x :: x in b <==> x in multiset(b);
  }
}
