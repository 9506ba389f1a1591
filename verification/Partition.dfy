/** Sorting things into groups by an optional key, and why nothing is lost or met twice on the way. */
module Partition {
  import opened Common
  import opened Sequences

  type Id = nat

  /** The things with one key, in order. */
  function WithKey<T>(things: seq<T>, key: T -> Option<Id>, k: Id): seq<T> {
    if things == [] then []
    else WithKey(things[..|things| - 1], key, k)
         + (if key(things[|things| - 1]) == Some(k) then [things[|things| - 1]] else [])
  }

  /** The things with no key, or none of these. */
  function Outside<T>(things: seq<T>, key: T -> Option<Id>, keys: set<Id>): seq<T> {
    if things == [] then []
    else
      var last := things[|things| - 1];
      Outside(things[..|things| - 1], key, keys)
      + (if key(last).None? || key(last).value !in keys then [last] else [])
  }

  /** The groups of these keys, one after the other. */
  function Groups<T>(things: seq<T>, key: T -> Option<Id>, keys: seq<Id>): seq<T> {
    if keys == [] then [] else Groups(things, key, keys[..|keys| - 1]) + WithKey(things, key, keys[|keys| - 1])
  }

  lemma WithKeyOne<T>(things: seq<T>, key: T -> Option<Id>, k: Id, x: T)
    ensures WithKey(things + [x], key, k) == WithKey(things, key, k) + (if key(x) == Some(k) then [x] else [])
  {
    assert (things + [x])[..|things|] == things;
  }

  lemma OutsideOne<T>(things: seq<T>, key: T -> Option<Id>, keys: set<Id>, x: T)
    ensures Outside(things + [x], key, keys)
         == Outside(things, key, keys) + (if key(x).None? || key(x).value !in keys then [x] else [])
  {
    assert (things + [x])[..|things|] == things;
  }

  function Keys(keys: seq<Id>): set<Id> {
    set k | k in keys
  }

  lemma {:induction false} OutsideOneMore<T>(things: seq<T>, key: T -> Option<Id>, keys: set<Id>, k: Id)
    requires k !in keys
    ensures multiset(Outside(things, key, keys)) == multiset(WithKey(things, key, k)) + multiset(Outside(things, key, keys + {k}))
  {
    if things != [] { OutsideOneMore(things[..|things| - 1], key, keys, k); }
  }

  lemma {:induction false} OutsideNone<T>(things: seq<T>, key: T -> Option<Id>)
    ensures Outside(things, key, {}) == things
  {
    if things != [] {
      OutsideNone(things[..|things| - 1], key);
      assert things == things[..|things| - 1] + [things[|things| - 1]];
    }
  }

  /** Distinct keys cut the things into their groups and the rest. */
  lemma {:induction false} PartitionByKey<T>(things: seq<T>, key: T -> Option<Id>, keys: seq<Id>)
    requires Distinct(keys)
    ensures multiset(Groups(things, key, keys)) + multiset(Outside(things, key, Keys(keys))) == multiset(things)
  {
    if keys == [] {
      OutsideNone(things, key);
      assert Keys(keys) == {};
    } else {
      var n := |keys| - 1;
      PartitionByKey(things, key, keys[..n]);
      OutsideOneMore(things, key, Keys(keys[..n]), keys[n]);
      assert keys == keys[..n] + [keys[n]];
      assert Keys(keys) == Keys(keys[..n]) + {keys[n]};
    }
  }

  function Map<A, B>(f: A -> B, s: seq<A>): (r: seq<B>)
    ensures |r| == |s|
  {
    if s == [] then [] else Map(f, s[..|s| - 1]) + [f(s[|s| - 1])]
  }

  lemma {:induction false} MapAppend<A, B>(f: A -> B, a: seq<A>, b: seq<A>)
    ensures Map(f, a + b) == Map(f, a) + Map(f, b)
  {
    if b == [] {
      assert a + b == a;
    } else {
      var n := |b| - 1;
      assert (a + b)[..|a| + n] == a + b[..n];
      MapAppend(f, a, b[..n]);
    }
  }

  /** A sequence without the element at `j`, as a multiset. */
  lemma RemoveAt<T>(s: seq<T>, j: nat)
    requires j < |s|
    ensures s == s[..j] + [s[j]] + s[j + 1..]
    ensures multiset(s) == multiset(s[..j] + s[j + 1..]) + multiset{s[j]}
    ensures multiset(s[..j] + s[j + 1..]) == multiset(s) - multiset{s[j]}
  {
    assert s == s[..j] + [s[j]] + s[j + 1..];
  }

  lemma SomewhereIn<T>(s: seq<T>, x: T) returns (j: nat)
    requires x in multiset(s)
    ensures j < |s| && s[j] == x
  {
    j :| 0 <= j < |s| && s[j] == x;
  }

  /** Mapping a permutation gives a permutation. */
  lemma {:induction false} MapPermute<A, B>(f: A -> B, a: seq<A>, b: seq<A>)
    requires multiset(a) == multiset(b)
    ensures multiset(Map(f, a)) == multiset(Map(f, b))
  {
    if a == [] {
      assert |multiset(b)| == 0;
    } else {
      var n := |a| - 1;
      RemoveAt(a, n);
      assert a[..n] + a[n + 1..] == a[..n];
      assert a[n] in multiset(a);
      var j := SomewhereIn(b, a[n]);
      var less := b[..j] + b[j + 1..];
      RemoveAt(b, j);
      MapPermute(f, a[..n], less);
      MapAppend(f, b[..j], b[j + 1..]);
      MapAppend(f, b[..j] + [b[j]], b[j + 1..]);
      MapAppend(f, b[..j], [b[j]]);
      assert [b[j]][..0] == [];
    }
  }
}
