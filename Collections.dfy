/**
 * The query primitives the handlers use on a collection: a filter (`find(filter)`),
 * a sort on one key (`.sort({key: 1})`), and a per-document projection (`.map(...)`).
 * MongoDB leaves the order of ties unspecified; the sort here is one stable choice,
 * and every contract about it speaks only of sortedness and of being a permutation.
 */
module Collections {

  /** The documents of `s` that satisfy `p`, in their stored order. The count of every
      value in the result is its count in `s` if it passes `p`, and zero otherwise. */
  function Filter<T(==,!new)>(s: seq<T>, p: T -> bool): (r: seq<T>)
    ensures |r| <= |s|
    ensures forall x :: multiset(r)[x] == if p(x) then multiset(s)[x] else 0
    ensures forall x :: x in r <==> x in s && p(x)
  {
    if s == [] then []
    else
      assert s == [s[0]] + s[1..];
      (if p(s[0]) then [s[0]] else []) + Filter(s[1..], p)
  }

  /** Non-decreasing in `key`. */
  predicate SortedBy<T>(s: seq<T>, key: T -> int) {
    forall i, j :: 0 <= i < j < |s| ==> key(s[i]) <= key(s[j])
  }

  /** Insert `x` into a sorted sequence, after every element with a smaller or equal key. */
  function Insert<T(==)>(x: T, s: seq<T>, key: T -> int): (r: seq<T>)
    requires SortedBy(s, key)
    ensures |r| == |s| + 1
    ensures SortedBy(r, key)
    ensures multiset(r) == multiset(s) + multiset{x}
    decreases |s|
  {
    if s == [] || key(x) <= key(s[0]) then [x] + s
    else
      assert s == [s[0]] + s[1..];
      var rest := Insert(x, s[1..], key);
      BelowAll(s[0], x, s[1..], rest, key);
      SortedCons(s[0], rest, key);
      [s[0]] + rest
  }

  /** Every element of `rest`, a permutation of `t` plus `x`, has a key at least that of
      `y` when `x` and all of `t` do. */
  lemma BelowAll<T>(y: T, x: T, t: seq<T>, rest: seq<T>, key: T -> int)
    requires key(y) <= key(x)
    requires forall k :: 0 <= k < |t| ==> key(y) <= key(t[k])
    requires multiset(rest) == multiset(t) + multiset{x}
    ensures forall k :: 0 <= k < |rest| ==> key(y) <= key(rest[k])
  {
    forall k | 0 <= k < |rest| ensures key(y) <= key(rest[k]) {
      assert rest[k] in multiset(rest);
      assert rest[k] == x || rest[k] in t;
    }
  }

  lemma SortedCons<T>(y: T, rest: seq<T>, key: T -> int)
    requires SortedBy(rest, key)
    requires forall k :: 0 <= k < |rest| ==> key(y) <= key(rest[k])
    ensures SortedBy([y] + rest, key)
  {
    var r := [y] + rest;
    forall i, j | 0 <= i < j < |r| ensures key(r[i]) <= key(r[j]) {
      assert r[j] == rest[j - 1];
      if i > 0 {
        assert r[i] == rest[i - 1];
      }
    }
  }

  /** A sorted permutation of `s`. */
  function SortBy<T(==)>(s: seq<T>, key: T -> int): (r: seq<T>)
    ensures |r| == |s|
    ensures SortedBy(r, key)
    ensures multiset(r) == multiset(s)
  {
    if s == [] then []
    else
      assert s == [s[0]] + s[1..];
      Insert(s[0], SortBy(s[1..], key), key)
  }

  /** `find(filter).sort({key: 1})`: the documents that pass, as often as stored, sorted. */
  function FindSorted<T(==,!new)>(s: seq<T>, p: T -> bool, key: T -> int): (r: seq<T>)
    ensures SortedBy(r, key)
    ensures forall x :: multiset(r)[x] == if p(x) then multiset(s)[x] else 0
    ensures forall i :: 0 <= i < |r| ==> p(r[i]) && r[i] in s
  {
    var picked := Filter(s, p);
    var r := SortBy(picked, key);
    forall i | 0 <= i < |r| ensures p(r[i]) && r[i] in s {
      assert multiset(r)[r[i]] > 0;
    }
    r
  }

  /** Apply a projection to every document. */
  function MapSeq<T, U>(s: seq<T>, f: T -> U): (r: seq<U>)
    ensures |r| == |s| && forall i :: 0 <= i < |s| ==> r[i] == f(s[i])
  {
    seq(|s|, i requires 0 <= i < |s| => f(s[i]))
  }

  /** Projecting two permutations of each other gives two permutations of each other:
      sorting before a `map` changes only the order of the projected documents. */
  lemma {:induction false} MapPermutation<T, U>(s: seq<T>, t: seq<T>, f: T -> U)
    requires multiset(s) == multiset(t)
    ensures multiset(MapSeq(s, f)) == multiset(MapSeq(t, f))
    decreases |s|
  {
    if s == [] {
      assert |t| == |multiset(t)| == 0;
    } else {
      var x := s[0];
      assert x in multiset(t);
      var k :| 0 <= k < |t| && t[k] == x;
      var t' := t[..k] + t[k + 1..];
      RemoveAt(t, k);
      assert s == [x] + s[1..];
      assert multiset(s[1..]) == multiset(s) - multiset{x};
      MapPermutation(s[1..], t', f);
      MapConcat([x], s[1..], f);
      MapConcat(t[..k] + [x], t[k + 1..], f);
      MapConcat(t[..k], [x], f);
      MapConcat(t[..k], t[k + 1..], f);
    }
  }

  lemma RemoveAt<T>(t: seq<T>, k: nat)
    requires k < |t|
    ensures t == t[..k] + [t[k]] + t[k + 1..]
    ensures multiset(t[..k] + t[k + 1..]) == multiset(t) - multiset{t[k]}
  {
    assert t == t[..k] + [t[k]] + t[k + 1..];
  }

  lemma MapConcat<T, U>(a: seq<T>, b: seq<T>, f: T -> U)
    ensures MapSeq(a + b, f) == MapSeq(a, f) + MapSeq(b, f)
  {
  }

  /** Two filters that no document passes together pick at most `|s|` documents between them. */
  lemma {:induction false} FilterDisjoint<T(!new)>(s: seq<T>, p: T -> bool, q: T -> bool)
    requires forall x :: !(p(x) && q(x))
    ensures |Filter(s, p)| + |Filter(s, q)| <= |s|
  {
    if s != [] {
      FilterDisjoint(s[1..], p, q);
    }
  }

  /** A projection that keeps the sort key keeps the order sorted. */
  lemma MapSorted<T, U>(s: seq<T>, f: T -> U, key: T -> int, key2: U -> int)
    requires SortedBy(s, key)
    requires forall x :: key2(f(x)) == key(x)
    ensures SortedBy(MapSeq(s, f), key2)
  {
    var r := MapSeq(s, f);
    forall i, j | 0 <= i < j < |r| ensures key2(r[i]) <= key2(r[j]) {
      assert r[i] == f(s[i]) && r[j] == f(s[j]);
    }
  }
}
