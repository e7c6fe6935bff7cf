/**
 * Python's `list.sort(key=...)` and `sorted(...)` on an integer key, modelled as
 * a stable insertion sort. A stable sort is pinned down by three facts proved
 * here: the result is ordered by key, it is a permutation of the input, and for
 * every key the elements carrying that key keep their input order.
 */
module Sorting {

  /** Ordered non-decreasingly by key (equal keys are allowed). */
  predicate SortedBy<T>(s: seq<T>, key: T -> int) {
    forall i, j :: 0 <= i < j < |s| ==> key(s[i]) <= key(s[j])
  }

  /** The subsequence of the elements whose key is k, in their order in s. */
  function WithKey<T>(s: seq<T>, key: T -> int, k: int): seq<T> {
    if s == [] then []
    else WithKey(s[..|s| - 1], key, k) + (if key(s[|s| - 1]) == k then [s[|s| - 1]] else [])
  }

  lemma {:induction false} WithKeyAppend<T>(a: seq<T>, b: seq<T>, key: T -> int, k: int)
    ensures WithKey(a + b, key, k) == WithKey(a, key, k) + WithKey(b, key, k)
    decreases |b|
  {
    if b == [] {
      assert a + b == a;
    } else {
      assert (a + b)[..|a + b| - 1] == a + b[..|b| - 1];
      WithKeyAppend(a, b[..|b| - 1], key, k);
    }
  }

  lemma WithKeySnoc<T>(s: seq<T>, x: T, key: T -> int, k: int)
    ensures WithKey(s + [x], key, k) == WithKey(s, key, k) + (if key(x) == k then [x] else [])
  {
    assert (s + [x])[..|s|] == s;
  }

  /** Puts x after every element of s whose key is at most key(x). */
  function InsertByKey<T>(x: T, s: seq<T>, key: T -> int): (r: seq<T>)
    ensures multiset(r) == multiset(s) + multiset{x}
    decreases |s|
  {
    if s == [] || key(s[|s| - 1]) <= key(x) then s + [x]
    else
      assert s == s[..|s| - 1] + [s[|s| - 1]];
      InsertByKey(x, s[..|s| - 1], key) + [s[|s| - 1]]
  }

  lemma {:induction false} InsertByKeySorted<T>(x: T, s: seq<T>, key: T -> int)
    requires SortedBy(s, key)
    ensures SortedBy(InsertByKey(x, s, key), key)
    decreases |s|
  {
    if s == [] || key(s[|s| - 1]) <= key(x) {
    } else {
      var init, last := s[..|s| - 1], s[|s| - 1];
      assert s == init + [last];
      InsertByKeySorted(x, init, key);
      var front := InsertByKey(x, init, key);
      forall i | 0 <= i < |front| ensures key(front[i]) <= key(last) {
        assert front[i] in multiset(front);
        if front[i] != x {
          assert front[i] in multiset(init);
          var j :| 0 <= j < |init| && init[j] == front[i];
          assert s[j] == init[j];
        }
      }
    }
  }

  lemma {:induction false} InsertByKeyStable<T>(x: T, s: seq<T>, key: T -> int, k: int)
    ensures WithKey(InsertByKey(x, s, key), key, k) == WithKey(s, key, k) + (if key(x) == k then [x] else [])
    decreases |s|
  {
    if s == [] || key(s[|s| - 1]) <= key(x) {
      WithKeySnoc(s, x, key, k);
    } else {
      var init, last := s[..|s| - 1], s[|s| - 1];
      assert s == init + [last];
      InsertByKeyStable(x, init, key, k);
      WithKeySnoc(InsertByKey(x, init, key), last, key, k);
      WithKeySnoc(init, last, key, k);
    }
  }

  /** The stable sort by key. */
  function SortByKey<T>(s: seq<T>, key: T -> int): (r: seq<T>)
    ensures SortedBy(r, key)
    ensures multiset(r) == multiset(s)
    ensures |r| == |s| && forall i :: 0 <= i < |r| ==> r[i] in s
    ensures forall k :: WithKey(r, key, k) == WithKey(s, key, k)
  {
    if s == [] then []
    else
      var init, last := s[..|s| - 1], s[|s| - 1];
      assert s == init + [last];
      var sorted := SortByKey(init, key);
      InsertByKeySorted(last, sorted, key);
      var r := InsertByKey(last, sorted, key);
      assert |multiset(r)| == |r| && |multiset(s)| == |s|;
      assert forall i :: 0 <= i < |r| ==> r[i] in multiset(s);
      assert forall k :: WithKey(InsertByKey(last, sorted, key), key, k) == WithKey(s, key, k) by {
        forall k ensures WithKey(InsertByKey(last, sorted, key), key, k) == WithKey(s, key, k) {
          InsertByKeyStable(last, sorted, key, k);
          WithKeySnoc(init, last, key, k);
        }
      }
      InsertByKey(last, sorted, key)
  }

  /** The three facts determine the result: any ordered, order-keeping
      rearrangement of s is the stable sort of s. */
  lemma {:induction false} StableSortUnique<T>(s: seq<T>, t: seq<T>, key: T -> int)
    requires SortedBy(t, key)
    requires forall k :: WithKey(t, key, k) == WithKey(s, key, k)
    ensures t == SortByKey(s, key)
    decreases |t|
  {
    var r := SortByKey(s, key);
    SortedEqualByKeys(t, r, key);
  }

  /** Two sequences ordered by key that agree on every key's subsequence are equal. */
  lemma {:induction false} SortedEqualByKeys<T>(t: seq<T>, r: seq<T>, key: T -> int)
    requires SortedBy(t, key) && SortedBy(r, key)
    requires forall k :: WithKey(t, key, k) == WithKey(r, key, k)
    ensures t == r
    decreases |t| + |r|
  {
    if t != [] && r != [] {
      var a, b := t[|t| - 1], r[|r| - 1];
      var ti, ri := t[..|t| - 1], r[..|r| - 1];
      assert t == ti + [a] && r == ri + [b];
      // The last elements carry the largest key of each sequence, and both
      // sequences have the same keys, so the last keys agree.
      LastKeyBounds(t, r, key);
      LastKeyBounds(r, t, key);
      var k := key(a);
      WithKeySnoc(ti, a, key, k);
      WithKeySnoc(ri, b, key, k);
      var wt, wr := WithKey(ti, key, k), WithKey(ri, key, k);
      assert (wt + [a])[|wt|] == a && (wr + [b])[|wr|] == b;
      assert a == b;
      forall k' ensures WithKey(ti, key, k') == WithKey(ri, key, k') {
        WithKeySnoc(ti, a, key, k');
        WithKeySnoc(ri, b, key, k');
        var xt, xr := WithKey(ti, key, k'), WithKey(ri, key, k');
        assert WithKey(ti + [a], key, k') == WithKey(ri + [b], key, k');
        if key(a) == k' {
          assert xt + [a] == xr + [a];
          assert (xt + [a])[..|xt|] == xt && (xr + [a])[..|xr|] == xr;
        } else {
          assert xt + [] == xt && xr + [] == xr;
        }
      }
      SortedEqualByKeys(ti, ri, key);
    } else if t != [] {
      LastKeyPresent(t, key);
    } else if r != [] {
      LastKeyPresent(r, key);
    }
  }

  lemma LastKeyPresent<T>(s: seq<T>, key: T -> int)
    requires s != []
    ensures WithKey(s, key, key(s[|s| - 1])) != []
  {
  }

  lemma {:induction false} WithKeyMember<T>(s: seq<T>, key: T -> int, k: int, x: T)
    requires x in WithKey(s, key, k)
    ensures x in s && key(x) == k
  {
    if s != [] {
      var init := s[..|s| - 1];
      assert s == init + [s[|s| - 1]];
      if x in WithKey(init, key, k) {
        WithKeyMember(init, key, k, x);
      }
    }
  }

  /** When t and r, both ordered by key, have the same elements for every key,
      the last key of r is at most the last key of t. */
  lemma LastKeyBounds<T>(t: seq<T>, r: seq<T>, key: T -> int)
    requires t != [] && r != []
    requires SortedBy(t, key)
    requires forall k :: WithKey(t, key, k) == WithKey(r, key, k)
    ensures key(r[|r| - 1]) <= key(t[|t| - 1])
  {
    var b := r[|r| - 1];
    LastKeyPresent(r, key);
    assert WithKey(t, key, key(b)) != [];
    var x := WithKey(t, key, key(b))[0];
    WithKeyMember(t, key, key(b), x);
    var i :| 0 <= i < |t| && t[i] == x;
    assert key(t[i]) <= key(t[|t| - 1]);
  }

  /** No two elements share a key, as for the items of a dictionary keyed by it. */
  predicate DistinctKeys<T>(s: seq<T>, key: T -> int) {
    forall i, j :: 0 <= i < j < |s| ==> key(s[i]) != key(s[j])
  }

  lemma {:induction false} WithKeyNone<T>(s: seq<T>, key: T -> int, k: int)
    requires forall i :: 0 <= i < |s| ==> key(s[i]) != k
    ensures WithKey(s, key, k) == []
  {
    if s != [] {
      WithKeyNone(s[..|s| - 1], key, k);
    }
  }

  /** With distinct keys, each key selects at most one element. */
  lemma {:induction false} WithKeyAtMostOne<T>(s: seq<T>, key: T -> int, k: int)
    requires DistinctKeys(s, key)
    ensures |WithKey(s, key, k)| <= 1
  {
    if s != [] {
      var init := s[..|s| - 1];
      if key(s[|s| - 1]) == k {
        WithKeyNone(init, key, k);
      } else {
        WithKeyAtMostOne(init, key, k);
      }
    }
  }

  lemma {:induction false} WithKeyHas<T>(s: seq<T>, key: T -> int, i: nat)
    requires i < |s|
    ensures |WithKey(s, key, key(s[i]))| >= 1
  {
    if i < |s| - 1 {
      WithKeyHas(s[..|s| - 1], key, i);
    }
  }

  /** Two positions with the same key put two elements in that key's subsequence. */
  lemma {:induction false} WithKeyTwo<T>(s: seq<T>, key: T -> int, i: nat, j: nat)
    requires i < j < |s|
    ensures key(s[i]) == key(s[j]) ==> |WithKey(s, key, key(s[i]))| >= 2
  {
    var init := s[..|s| - 1];
    if j < |s| - 1 {
      WithKeyTwo(init, key, i, j);
    } else {
      WithKeyHas(init, key, i);
    }
  }

  /** Sorting elements with distinct keys orders them strictly by key. */
  lemma SortByKeyStrict<T>(s: seq<T>, key: T -> int)
    requires DistinctKeys(s, key)
    ensures forall i, j :: 0 <= i < j < |SortByKey(s, key)| ==>
      key(SortByKey(s, key)[i]) < key(SortByKey(s, key)[j])
  {
    var r := SortByKey(s, key);
    forall i, j | 0 <= i < j < |r| ensures key(r[i]) < key(r[j]) {
      WithKeyTwo(r, key, i, j);
      WithKeyAtMostOne(s, key, key(r[i]));
    }
  }
}
