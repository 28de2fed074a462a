/** `Array.prototype.sort` with a comparator `(a, b) => key(b) - key(a)`:
    a stable sort into non-increasing key order (stability is guaranteed
    since ECMAScript 2019). Written as insertion from the back, each new
    element going after every element whose key is at least its own. */
module StableSort {

  predicate SortedDesc<T>(xs: seq<T>, key: T -> real)
  {
    forall i, j :: 0 <= i < j < |xs| ==> key(xs[i]) >= key(xs[j])
  }

  /** The elements whose key is c, in order. */
  function WithKey<T>(xs: seq<T>, key: T -> real, c: real): seq<T>
  {
    if xs == [] then []
    else WithKey(xs[..|xs| - 1], key, c) + (if key(xs[|xs| - 1]) == c then [xs[|xs| - 1]] else [])
  }

  lemma {:induction false} WithKeyAppend<T>(xs: seq<T>, ys: seq<T>, key: T -> real, c: real)
    ensures WithKey(xs + ys, key, c) == WithKey(xs, key, c) + WithKey(ys, key, c)
  {
    if ys == [] {
      assert xs + ys == xs;
    } else {
      var n := |ys| - 1;
      assert (xs + ys)[..|xs + ys| - 1] == xs + ys[..n];
      WithKeyAppend(xs, ys[..n], key, c);
    }
  }

  /** Place x after every element of the sorted s whose key is at least key(x). */
  function Insert<T>(s: seq<T>, x: T, key: T -> real): (r: seq<T>)
    ensures |r| == |s| + 1
  {
    if s == [] || key(s[|s| - 1]) >= key(x) then s + [x]
    else Insert(s[..|s| - 1], x, key) + [s[|s| - 1]]
  }

  function Sort<T>(xs: seq<T>, key: T -> real): (r: seq<T>)
    ensures |r| == |xs|
  {
    if xs == [] then [] else Insert(Sort(xs[..|xs| - 1], key), xs[|xs| - 1], key)
  }

  lemma {:induction false} InsertPerm<T>(s: seq<T>, x: T, key: T -> real)
    ensures multiset(Insert(s, x, key)) == multiset(s) + multiset{x}
  {
    if !(s == [] || key(s[|s| - 1]) >= key(x)) {
      var n := |s| - 1;
      InsertPerm(s[..n], x, key);
      assert s == s[..n] + [s[n]];
    }
  }

  /** A lower bound on the keys of s and x bounds the keys of Insert(s, x). */
  lemma {:induction false} InsertBounded<T>(s: seq<T>, x: T, key: T -> real, b: real)
    requires key(x) >= b && forall i :: 0 <= i < |s| ==> key(s[i]) >= b
    ensures forall i :: 0 <= i < |s| + 1 ==> key(Insert(s, x, key)[i]) >= b
  {
    if !(s == [] || key(s[|s| - 1]) >= key(x)) {
      InsertBounded(s[..|s| - 1], x, key, b);
    }
  }

  lemma {:induction false} InsertSorted<T>(s: seq<T>, x: T, key: T -> real)
    requires SortedDesc(s, key)
    ensures SortedDesc(Insert(s, x, key), key)
  {
    if !(s == [] || key(s[|s| - 1]) >= key(x)) {
      var n := |s| - 1;
      InsertSorted(s[..n], x, key);
      InsertBounded(s[..n], x, key, key(s[n]));
    }
  }

  lemma {:induction false} InsertWithKey<T>(s: seq<T>, x: T, key: T -> real, c: real)
    ensures WithKey(Insert(s, x, key), key, c) == WithKey(s, key, c) + (if key(x) == c then [x] else [])
  {
    if s == [] || key(s[|s| - 1]) >= key(x) {
      WithKeyAppend(s, [x], key, c);
      assert WithKey([x], key, c) == (if key(x) == c then [x] else []) by {
        assert [x][..0] == [];
      }
    } else {
      var n := |s| - 1;
      assert s == s[..n] + [s[n]];
      InsertWithKey(s[..n], x, key, c);
      WithKeyAppend(Insert(s[..n], x, key), [s[n]], key, c);
      WithKeyAppend(s[..n], [s[n]], key, c);
      assert [s[n]][..0] == [];
    }
  }

  /** The result is in non-increasing key order. */
  lemma {:induction false} SortSorted<T>(xs: seq<T>, key: T -> real)
    ensures SortedDesc(Sort(xs, key), key)
  {
    if xs != [] {
      SortSorted(xs[..|xs| - 1], key);
      InsertSorted(Sort(xs[..|xs| - 1], key), xs[|xs| - 1], key);
    }
  }

  /** The result is a permutation of the input. */
  lemma {:induction false} SortPerm<T>(xs: seq<T>, key: T -> real)
    ensures multiset(Sort(xs, key)) == multiset(xs)
  {
    if xs != [] {
      var n := |xs| - 1;
      assert xs == xs[..n] + [xs[n]];
      SortPerm(xs[..n], key);
      InsertPerm(Sort(xs[..n], key), xs[n], key);
    }
  }

  /** Stability: the elements of any one key keep their input order. */
  lemma {:induction false} SortStable<T>(xs: seq<T>, key: T -> real, c: real)
    ensures WithKey(Sort(xs, key), key, c) == WithKey(xs, key, c)
  {
    if xs != [] {
      var n := |xs| - 1;
      SortStable(xs[..n], key, c);
      InsertWithKey(Sort(xs[..n], key), xs[n], key, c);
    }
  }
}
