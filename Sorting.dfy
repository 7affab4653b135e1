/**
 * `Array.prototype.sort` with a comparator of the shape `(a, b) => key(b) - key(a)`:
 * a stable sort into non-increasing key order. A stable sort by a key is determined
 * by its input, so it is modelled by insertion sort (each element goes in front of
 * the first element whose key is not larger).
 */
module Sorting {

  /** Keys never increase from left to right. */
  predicate SortedDesc<T>(s: seq<T>, key: T -> int) {
    forall i, j :: 0 <= i < j < |s| ==> key(s[i]) >= key(s[j])
  }

  /** The elements whose key is `k`, in their order in `s`. */
  function WithKey<T>(s: seq<T>, key: T -> int, k: int): (r: seq<T>)
    ensures |r| <= |s|
  {
    if s == [] then [] else (if key(s[0]) == k then [s[0]] else []) + WithKey(s[1..], key, k)
  }

  function InsertDesc<T>(x: T, s: seq<T>, key: T -> int): (r: seq<T>)
    ensures multiset(r) == multiset(s) + multiset{x}
  {
    if s == [] then [x]
    else if key(s[0]) <= key(x) then [x] + s
    else
      assert s == [s[0]] + s[1..];
      [s[0]] + InsertDesc(x, s[1..], key)
  }

  /** The stable descending sort of `s` by `key`. */
  function SortDesc<T>(s: seq<T>, key: T -> int): (r: seq<T>)
    ensures multiset(r) == multiset(s)
    ensures |r| == |s|
  {
    if s == [] then []
    else
      assert s == [s[0]] + s[1..];
      InsertDesc(s[0], SortDesc(s[1..], key), key)
  }

  /** A head whose key bounds every later key extends a sorted sequence. */
  lemma ConsSorted<T>(h: T, rest: seq<T>, key: T -> int)
    requires SortedDesc(rest, key)
    requires forall y | y in rest :: key(h) >= key(y)
    ensures SortedDesc([h] + rest, key)
  {
    var r := [h] + rest;
    forall i, j | 0 <= i < j < |r| ensures key(r[i]) >= key(r[j]) {
      assert r[j] == rest[j - 1];
      if i > 0 {
        assert r[i] == rest[i - 1];
      }
    }
  }

  lemma {:induction false} InsertDescSorted<T>(x: T, s: seq<T>, key: T -> int)
    requires SortedDesc(s, key)
    ensures SortedDesc(InsertDesc(x, s, key), key)
  {
    if s == [] {
    } else if key(s[0]) <= key(x) {
      ConsSorted(x, s, key);
    } else {
      var tail := s[1..];
      assert SortedDesc(tail, key) by {
        forall i, j | 0 <= i < j < |tail| ensures key(tail[i]) >= key(tail[j]) {
          assert tail[i] == s[i + 1] && tail[j] == s[j + 1];
        }
      }
      var rest := InsertDesc(x, tail, key);
      InsertDescSorted(x, tail, key);
      forall y | y in rest ensures key(s[0]) >= key(y) {
        assert y in multiset(rest);
        assert y == x || y in multiset(tail);
        if y != x {
          var k :| 0 <= k < |tail| && tail[k] == y;
          assert s[k + 1] == y;
        }
      }
      ConsSorted(s[0], rest, key);
    }
  }

  /** The sort puts the keys in non-increasing order. */
  lemma {:induction false} SortDescSorted<T>(s: seq<T>, key: T -> int)
    ensures SortedDesc(SortDesc(s, key), key)
  {
    if s != [] {
      SortDescSorted(s[1..], key);
      InsertDescSorted(s[0], SortDesc(s[1..], key), key);
    }
  }

  /** `WithKey` of a sequence with a known head. */
  lemma WithKeyCons<T>(a: T, t: seq<T>, key: T -> int, k: int)
    ensures WithKey([a] + t, key, k) == (if key(a) == k then [a] else []) + WithKey(t, key, k)
  {
    assert ([a] + t)[0] == a && ([a] + t)[1..] == t;
  }

  /** Selecting one key keeps order and multiplicity: it distributes over concatenation. */
  lemma {:induction false} WithKeyConcat<T>(a: seq<T>, b: seq<T>, key: T -> int, k: int)
    ensures WithKey(a + b, key, k) == WithKey(a, key, k) + WithKey(b, key, k)
  {
    if a == [] {
      assert a + b == b;
    } else {
      var t := a[1..];
      var h := if key(a[0]) == k then [a[0]] else [];
      calc {
        WithKey(a + b, key, k);
        { assert a + b == [a[0]] + (t + b); }
        WithKey([a[0]] + (t + b), key, k);
        { WithKeyCons(a[0], t + b, key, k); }
        h + WithKey(t + b, key, k);
        { WithKeyConcat(t, b, key, k); }
        h + (WithKey(t, key, k) + WithKey(b, key, k));
        { assert h + (WithKey(t, key, k) + WithKey(b, key, k)) == (h + WithKey(t, key, k)) + WithKey(b, key, k); }
        (h + WithKey(t, key, k)) + WithKey(b, key, k);
        { WithKeyCons(a[0], t, key, k); assert a == [a[0]] + t; }
        WithKey(a, key, k) + WithKey(b, key, k);
      }
    }
  }

  /** Selecting one key keeps only elements of the input. */
  lemma {:induction false} WithKeyMembers<T>(s: seq<T>, key: T -> int, k: int)
    ensures forall x :: x in WithKey(s, key, k) ==> x in s
  {
    if s != [] {
      WithKeyMembers(s[1..], key, k);
      WithKeyCons(s[0], s[1..], key, k);
      assert s == [s[0]] + s[1..];
    }
  }

  /** The ranks strictly increase from left to right. */
  predicate RankIncreasing<T>(s: seq<T>, rank: T -> int) {
    forall i, j :: 0 <= i < j < |s| ==> rank(s[i]) < rank(s[j])
  }

  /** In a strictly increasing sequence the head ranks below every later element. */
  lemma HeadRanksLowest<T>(s: seq<T>, rank: T -> int)
    requires s != [] && RankIncreasing(s, rank)
    ensures RankIncreasing(s[1..], rank)
    ensures forall x :: x in s[1..] ==> rank(s[0]) < rank(x)
  {
    forall x | x in s[1..] ensures rank(s[0]) < rank(x) {
      var m :| 0 <= m < |s[1..]| && s[1..][m] == x;
      assert s[m + 1] == x;
    }
  }

  /** An element ranking below all of an increasing sequence can stand in front of it. */
  lemma PrependRankLowest<T>(a: T, r: seq<T>, rank: T -> int)
    requires RankIncreasing(r, rank) && forall x :: x in r ==> rank(a) < rank(x)
    ensures RankIncreasing([a] + r, rank)
  {
    var s := [a] + r;
    forall i, j | 0 <= i < j < |s| ensures rank(s[i]) < rank(s[j]) {
      assert s[j] == r[j - 1];
      if i > 0 {
        assert s[i] == r[i - 1];
      }
    }
  }

  /** Selecting one key keeps any strictly increasing ranking of the elements: it takes a subsequence. */
  lemma {:induction false} WithKeyKeepsRankOrder<T>(s: seq<T>, key: T -> int, k: int, rank: T -> int)
    requires RankIncreasing(s, rank)
    ensures RankIncreasing(WithKey(s, key, k), rank)
  {
    if s != [] {
      var t := s[1..];
      HeadRanksLowest(s, rank);
      WithKeyKeepsRankOrder(t, key, k, rank);
      WithKeyMembers(t, key, k);
      WithKeyCons(s[0], t, key, k);
      assert s == [s[0]] + t;
      if key(s[0]) == k {
        PrependRankLowest(s[0], WithKey(t, key, k), rank);
      }
    }
  }

  /** Two prefixes of which one is empty can be put in either order. */
  lemma SwapEmpty<T>(a: seq<T>, b: seq<T>, w: seq<T>)
    requires a == [] || b == []
    ensures b + (a + w) == a + (b + w)
  {
    if a == [] {
      assert a + w == w && a + (b + w) == b + w;
    } else {
      assert b + w == w && b + (a + w) == a + w;
    }
  }

  lemma {:induction false} InsertDescWithKey<T>(x: T, s: seq<T>, key: T -> int, k: int)
    ensures WithKey(InsertDesc(x, s, key), key, k)
         == (if key(x) == k then [x] else []) + WithKey(s, key, k)
  {
    if s == [] {
      WithKeyCons(x, s, key, k);
    } else if key(s[0]) <= key(x) {
      WithKeyCons(x, s, key, k);
    } else {
      var tail := s[1..];
      var rest := InsertDesc(x, tail, key);
      var hx := if key(x) == k then [x] else [];
      var h0 := if key(s[0]) == k then [s[0]] else [];
      // `s[0]` outranks `x`, so at most one of them has the key `k`.
      assert hx == [] || h0 == [];
      calc {
        WithKey(InsertDesc(x, s, key), key, k);
        WithKey([s[0]] + rest, key, k);
        { WithKeyCons(s[0], rest, key, k); }
        h0 + WithKey(rest, key, k);
        { InsertDescWithKey(x, tail, key, k); }
        h0 + (hx + WithKey(tail, key, k));
        { SwapEmpty(hx, h0, WithKey(tail, key, k)); }
        hx + (h0 + WithKey(tail, key, k));
        { WithKeyCons(s[0], tail, key, k); assert s == [s[0]] + tail; }
        hx + WithKey(s, key, k);
      }
    }
  }

  /** Stability: elements with equal keys keep their input order. */
  lemma {:induction false} SortDescStable<T>(s: seq<T>, key: T -> int, k: int)
    ensures WithKey(SortDesc(s, key), key, k) == WithKey(s, key, k)
  {
    if s != [] {
      SortDescStable(s[1..], key, k);
      InsertDescWithKey(s[0], SortDesc(s[1..], key), key, k);
    }
  }

  /** Sorting an already sorted sequence changes nothing. */
  lemma {:induction false} SortDescOfSorted<T>(s: seq<T>, key: T -> int)
    requires SortedDesc(s, key)
    ensures SortDesc(s, key) == s
  {
    if s != [] {
      assert SortedDesc(s[1..], key) by {
        forall i, j | 0 <= i < j < |s[1..]| ensures key(s[1..][i]) >= key(s[1..][j]) {
          assert s[1..][i] == s[i + 1] && s[1..][j] == s[j + 1];
        }
      }
      SortDescOfSorted(s[1..], key);
      if |s| > 1 {
        assert key(s[1]) <= key(s[0]);
        assert s[1..] == [s[1]] + s[2..];
      }
    }
  }
}
