/**
 * Generic list operations that the matchers, the enrichment and the CV
 * evaluator use more than once: deduplication by a
 * key keeping the first element of each key (a `seen` set and an output list
 * in Python), Python's stable `sorted(..., reverse=True)` on an integer key, and
 * slicing `[:n]`.
 */
module Seqs {

  predicate Distinct<T(==)>(s: seq<T>) {
    forall i, j :: 0 <= i < j < |s| ==> s[i] != s[j]
  }

  /** Two lists without duplicates and without common elements concatenate to a list without duplicates. */
  lemma DistinctConcat<T>(a: seq<T>, b: seq<T>)
    requires Distinct(a) && Distinct(b)
    requires forall x :: x in b ==> x !in a
    ensures Distinct(a + b)
  {
    var r := a + b;
    forall i, j | 0 <= i < j < |r|
      ensures r[i] != r[j]
    {
      if i < |a| && j >= |a| {
        assert r[i] in a && r[j] == b[j - |a|];
      }
    }
  }

  function Min(a: int, b: int): int {
    if a <= b then a else b
  }

  /** `s[:n]` for a non-negative `n`. */
  function Take<T>(s: seq<T>, n: nat): (r: seq<T>)
    ensures |r| == Min(n, |s|) && r == s[..|r|]
  {
    s[..Min(n, |s|)]
  }

  // ---------------------------------------------------------------------
  // Deduplication by key, keeping the first element of each key
  // ---------------------------------------------------------------------

  /**
   * The elements of `xs`, in order, whose key is neither in `seen` nor the key
   * of an earlier element: what a loop over `xs` with a `seen` set produces.
   */
  function DedupBy<T, K(==)>(xs: seq<T>, key: T -> K, seen: set<K>): seq<T>
    decreases |xs|
  {
    if xs == [] then []
    else if key(xs[0]) in seen then DedupBy(xs[1..], key, seen)
    else [xs[0]] + DedupBy(xs[1..], key, seen + {key(xs[0])})
  }

  /** One step of a first-of-key loop at position `i`: the element is kept exactly when its key is new. */
  lemma DedupByStep<T, K>(xs: seq<T>, i: nat, key: T -> K, seen: set<K>)
    requires i < |xs|
    ensures key(xs[i]) in seen ==> DedupBy(xs[i..], key, seen) == DedupBy(xs[i + 1..], key, seen)
    ensures key(xs[i]) !in seen ==> DedupBy(xs[i..], key, seen) == [xs[i]] + DedupBy(xs[i + 1..], key, seen + {key(xs[i])})
  {
    assert xs[i..][1..] == xs[i + 1..];
  }

  /** The loop with a `seen` set that keeps the first element of each key, in order. */
  method DedupFirst<T, K(==)>(xs: seq<T>, key: T -> K) returns (unique: seq<T>)
    ensures unique == DedupBy(xs, key, {})
  {
    var seen: set<K> := {};
    unique := [];
    var i := 0;
    while i < |xs|
      invariant 0 <= i <= |xs|
      invariant unique + DedupBy(xs[i..], key, seen) == DedupBy(xs, key, {})
    {
      var k := key(xs[i]);
      DedupByStep(xs, i, key, seen);
      if k !in seen {
        seen := seen + {k};
        unique := unique + [xs[i]];
      }
      i := i + 1;
    }
    assert xs[i..] == [];
  }

  /** `a` can be obtained from `b` by deleting elements. */
  predicate IsSubseq<T(==)>(a: seq<T>, b: seq<T>)
    decreases |b|
  {
    a == [] || (b != [] && ((a[0] == b[0] && IsSubseq(a[1..], b[1..])) || IsSubseq(a, b[1..])))
  }

  /** Every element of a subsequence is an element of the whole. */
  lemma {:induction false} SubseqMembers<T>(a: seq<T>, b: seq<T>)
    requires IsSubseq(a, b)
    ensures forall x :: x in a ==> x in b
    decreases |b|
  {
    if a != [] {
      if a[0] == b[0] && IsSubseq(a[1..], b[1..]) {
        SubseqMembers(a[1..], b[1..]);
        assert forall x :: x in a ==> x == a[0] || x in a[1..];
      } else {
        SubseqMembers(a, b[1..]);
      }
    }
  }

  /** No element before index `j` of `xs` has the key of `xs[j]`. */
  predicate FirstOfKey<T, K(==)>(xs: seq<T>, key: T -> K, j: int)
    requires 0 <= j < |xs|
  {
    forall k :: 0 <= k < j ==> key(xs[k]) != key(xs[j])
  }

  /** The kept elements come from the input in its order, and their keys are pairwise different and new. */
  lemma {:induction false} DedupBySubseqDistinct<T, K>(xs: seq<T>, key: T -> K, seen: set<K>)
    ensures IsSubseq(DedupBy(xs, key, seen), xs)
    ensures forall i :: 0 <= i < |DedupBy(xs, key, seen)| ==> key(DedupBy(xs, key, seen)[i]) !in seen
    ensures forall i, j :: 0 <= i < j < |DedupBy(xs, key, seen)| ==>
              key(DedupBy(xs, key, seen)[i]) != key(DedupBy(xs, key, seen)[j])
    decreases |xs|
  {
    if xs != [] {
      var k := key(xs[0]);
      if k in seen {
        DedupBySubseqDistinct(xs[1..], key, seen);
      } else {
        var rest := DedupBy(xs[1..], key, seen + {k});
        DedupBySubseqDistinct(xs[1..], key, seen + {k});
        var r := [xs[0]] + rest;
        assert r[1..] == rest;
        assert forall i :: 1 <= i < |r| ==> r[i] == rest[i - 1];
      }
    }
  }

  /** Every element that is the first of its key (and whose key was not seen) is kept. */
  lemma {:induction false} DedupByKeepsFirst<T, K>(xs: seq<T>, key: T -> K, seen: set<K>, j: int)
    requires 0 <= j < |xs| && FirstOfKey(xs, key, j) && key(xs[j]) !in seen
    ensures xs[j] in DedupBy(xs, key, seen)
    decreases |xs|
  {
    if j > 0 {
      var seen' := if key(xs[0]) in seen then seen else seen + {key(xs[0])};
      assert xs[1..][j - 1] == xs[j];
      assert forall k :: 0 <= k < j - 1 ==> xs[1..][k] == xs[k + 1];
      DedupByKeepsFirst(xs[1..], key, seen', j - 1);
    }
  }

  /** Every key of the input that was not seen before is represented in the output. */
  lemma {:induction false} DedupByCovers<T, K>(xs: seq<T>, key: T -> K, seen: set<K>, j: int)
    requires 0 <= j < |xs| && key(xs[j]) !in seen
    ensures exists i :: 0 <= i < |DedupBy(xs, key, seen)| && key(DedupBy(xs, key, seen)[i]) == key(xs[j])
    decreases j
  {
    var f := FirstIndexOfKey(xs, key, j);
    DedupByKeepsFirst(xs, key, seen, f);
    var r := DedupBy(xs, key, seen);
    var i :| 0 <= i < |r| && r[i] == xs[f];
  }

  /** Appending one element adds it exactly when its key is new. */
  lemma {:induction false} DedupByAppend<T, K>(xs: seq<T>, x: T, key: T -> K, seen: set<K>)
    ensures DedupBy(xs + [x], key, seen) ==
            DedupBy(xs, key, seen) + (if key(x) in seen || exists k :: 0 <= k < |xs| && key(xs[k]) == key(x) then [] else [x])
    decreases |xs|
  {
    if xs == [] {
      assert xs + [x] == [x];
    } else {
      assert (xs + [x])[1..] == xs[1..] + [x];
      var seen' := if key(xs[0]) in seen then seen else seen + {key(xs[0])};
      DedupByAppend(xs[1..], x, key, seen');
      if exists k :: 0 <= k < |xs[1..]| && key(xs[1..][k]) == key(x) {
        var k :| 0 <= k < |xs[1..]| && key(xs[1..][k]) == key(x);
        assert key(xs[k + 1]) == key(x);
      }
      if exists k :: 0 <= k < |xs| && key(xs[k]) == key(x) {
        var k :| 0 <= k < |xs| && key(xs[k]) == key(x);
        if k > 0 {
          assert key(xs[1..][k - 1]) == key(x);
        }
      }
    }
  }

  /** The index of the first element of `xs` that has the key of `xs[j]`. */
  lemma {:induction false} FirstIndexOfKey<T, K>(xs: seq<T>, key: T -> K, j: int) returns (f: int)
    requires 0 <= j < |xs|
    ensures 0 <= f <= j && key(xs[f]) == key(xs[j]) && FirstOfKey(xs, key, f)
    decreases j
  {
    if FirstOfKey(xs, key, j) {
      f := j;
    } else {
      var k :| 0 <= k < j && key(xs[k]) == key(xs[j]);
      f := FirstIndexOfKey(xs, key, k);
    }
  }

  // ---------------------------------------------------------------------
  // Stable sort, highest score first
  // ---------------------------------------------------------------------

  predicate SortedDesc<T>(s: seq<T>, score: T -> int) {
    forall i, j :: 0 <= i < j < |s| ==> score(s[i]) >= score(s[j])
  }

  /** Puts `x` before the first element whose score is not above its own. */
  function InsertDesc<T>(x: T, s: seq<T>, score: T -> int): seq<T> {
    if s == [] then [x]
    else if score(s[0]) <= score(x) then [x] + s
    else [s[0]] + InsertDesc(x, s[1..], score)
  }

  /** `sorted(xs, key=score, reverse=True)`: a stable insertion sort. */
  function SortDesc<T>(xs: seq<T>, score: T -> int): seq<T> {
    if xs == [] then [] else InsertDesc(xs[0], SortDesc(xs[1..], score), score)
  }

  lemma {:induction false} InsertDescPermutes<T>(x: T, s: seq<T>, score: T -> int)
    ensures multiset(InsertDesc(x, s, score)) == multiset(s) + multiset{x}
  {
    if s != [] && score(s[0]) > score(x) {
      InsertDescPermutes(x, s[1..], score);
      assert s == [s[0]] + s[1..];
    }
  }

  lemma {:induction false} InsertDescBounded<T>(x: T, s: seq<T>, score: T -> int, b: int)
    requires score(x) <= b
    requires forall i :: 0 <= i < |s| ==> score(s[i]) <= b
    ensures forall i :: 0 <= i < |InsertDesc(x, s, score)| ==> score(InsertDesc(x, s, score)[i]) <= b
  {
    if s != [] && score(s[0]) > score(x) {
      InsertDescBounded(x, s[1..], score, b);
    }
  }

  lemma {:induction false} InsertDescSorted<T>(x: T, s: seq<T>, score: T -> int)
    requires SortedDesc(s, score)
    ensures SortedDesc(InsertDesc(x, s, score), score)
  {
    if s != [] && score(s[0]) > score(x) {
      assert SortedDesc(s[1..], score);
      InsertDescSorted(x, s[1..], score);
      InsertDescBounded(x, s[1..], score, score(s[0]));
    }
  }

  /** The sorted list is ordered by descending score and is a permutation of the input. */
  lemma {:induction false} SortDescCorrect<T>(xs: seq<T>, score: T -> int)
    ensures SortedDesc(SortDesc(xs, score), score)
    ensures multiset(SortDesc(xs, score)) == multiset(xs)
    ensures |SortDesc(xs, score)| == |xs|
  {
    var r := SortDesc(xs, score);
    if xs != [] {
      var rest := SortDesc(xs[1..], score);
      SortDescCorrect(xs[1..], score);
      InsertDescSorted(xs[0], rest, score);
      InsertDescPermutes(xs[0], rest, score);
      assert multiset(xs) == multiset(xs[1..]) + multiset{xs[0]} by {
        assert xs == [xs[0]] + xs[1..];
      }
    }
    assert |r| == |multiset(r)| == |multiset(xs)| == |xs|;
  }

  /** No two elements of `s` share a key. */
  predicate DistinctKeys<T, K(==)>(s: seq<T>, key: T -> K) {
    forall i, j :: 0 <= i < j < |s| ==> key(s[i]) != key(s[j])
  }

  lemma {:induction false} InsertDescDistinctKeys<T, K>(x: T, s: seq<T>, score: T -> int, key: T -> K)
    requires DistinctKeys(s, key)
    requires forall y :: y in s ==> key(y) != key(x)
    ensures DistinctKeys(InsertDesc(x, s, score), key)
  {
    if s != [] && score(s[0]) > score(x) {
      InsertDescDistinctKeys(x, s[1..], score, key);
      InsertDescPermutes(x, s[1..], score);
      var r := InsertDesc(x, s, score);
      assert r[1..] == InsertDesc(x, s[1..], score);
      forall j | 0 < j < |r|
        ensures key(r[0]) != key(r[j])
      {
        assert r[j] in multiset(InsertDesc(x, s[1..], score));
        if r[j] != x {
          var k :| 0 <= k < |s[1..]| && s[1..][k] == r[j];
          assert s[k + 1] == r[j];
        }
      }
    } else if s != [] {
      var r := [x] + s;
      assert forall j :: 0 < j < |r| ==> r[j] == s[j - 1];
    }
  }

  /** Sorting keeps the keys of a list distinct when they were. */
  lemma {:induction false} SortDescDistinctKeys<T, K>(xs: seq<T>, score: T -> int, key: T -> K)
    requires DistinctKeys(xs, key)
    ensures DistinctKeys(SortDesc(xs, score), key)
  {
    if xs != [] {
      assert DistinctKeys(xs[1..], key);
      SortDescDistinctKeys(xs[1..], score, key);
      SortDescCorrect(xs[1..], score);
      forall y | y in SortDesc(xs[1..], score)
        ensures key(y) != key(xs[0])
      {
        assert y in multiset(xs[1..]);
        var k :| 0 <= k < |xs[1..]| && xs[1..][k] == y;
        assert xs[k + 1] == y;
      }
      InsertDescDistinctKeys(xs[0], SortDesc(xs[1..], score), score, key);
    }
  }

  /** A prefix of a sorted list is sorted and draws its elements from the list. */
  lemma TakeSorted<T>(s: seq<T>, n: nat, score: T -> int)
    requires SortedDesc(s, score)
    ensures SortedDesc(Take(s, n), score)
    ensures forall x :: x in Take(s, n) ==> x in s
  {
  }

  /**
   * `r` holds `min(n, len(xs))` elements of `xs`, best first, and no element
   * of `xs` left out of `r` scores above an element kept in it.
   */
  ghost predicate IsTopK<T>(r: seq<T>, xs: seq<T>, n: nat, score: T -> int) {
    && |r| == Min(n, |xs|)
    && SortedDesc(r, score)
    && multiset(r) <= multiset(xs)
    && (forall x, y :: x in multiset(xs) - multiset(r) && y in r ==> score(x) <= score(y))
  }

  /** `sorted(xs, key=score, reverse=True)[:n]` is a top-`n` selection of `xs`. */
  lemma TopKCorrect<T>(xs: seq<T>, n: nat, score: T -> int)
    ensures IsTopK(Take(SortDesc(xs, score), n), xs, n, score)
  {
    var s := SortDesc(xs, score);
    SortDescCorrect(xs, score);
    var r := Take(s, n);
    LeftOutInSuffix(s, |r|);
    SortedPrefixDominates(s, |r|, score);
  }

  /**
   * In a top-`n` selection, an element of `xs` not selected scores no higher
   * than any selected one, and nothing is left out when `xs` has at most `n` elements.
   */
  lemma TopKLeavesOut<T>(r: seq<T>, xs: seq<T>, n: nat, score: T -> int)
    requires IsTopK(r, xs, n, score)
    ensures forall x, y :: x in xs && x !in r && y in r ==> score(x) <= score(y)
    ensures |xs| <= n ==> forall x :: x in xs ==> x in r
  {
    forall x, y | x in xs && x !in r && y in r
      ensures score(x) <= score(y)
    {
      assert x in multiset(xs) - multiset(r);
    }
    if |xs| <= n {
      assert |multiset(xs) - multiset(r)| == |multiset(xs)| - |multiset(r)| == 0;
      forall x | x in xs
        ensures x in r
      {
        assert x in multiset(xs);
      }
    }
  }

  /** What a prefix of `s` leaves out of `s` lies in the rest of `s`. */
  lemma LeftOutInSuffix<T>(s: seq<T>, k: nat)
    requires k <= |s|
    ensures multiset(s[..k]) <= multiset(s)
    ensures forall x :: x in multiset(s) - multiset(s[..k]) ==> x in s[k..]
  {
    assert s == s[..k] + s[k..];
    assert multiset(s) == multiset(s[..k]) + multiset(s[k..]);
  }

  /** In a list sorted best first, no element after position `k` scores above one before it. */
  lemma SortedPrefixDominates<T>(s: seq<T>, k: nat, score: T -> int)
    requires SortedDesc(s, score) && k <= |s|
    ensures forall x, y :: x in s[k..] && y in s[..k] ==> score(x) <= score(y)
  {
    forall x, y | x in s[k..] && y in s[..k]
      ensures score(x) <= score(y)
    {
      var j :| 0 <= j < |s[k..]| && s[k..][j] == x;
      var i :| 0 <= i < k && s[..k][i] == y;
      assert s[i] == y && s[k + j] == x;
    }
  }

  // ---------------------------------------------------------------------
  // Appending only what is not already present
  // ---------------------------------------------------------------------

  /** Appends each element of `xs`, in order, unless it is already in the list built so far. */
  function AppendNew<T(==)>(acc: seq<T>, xs: seq<T>): seq<T>
    decreases |xs|
  {
    if xs == [] then acc
    else AppendNew(if xs[0] in acc then acc else acc + [xs[0]], xs[1..])
  }

  /** The result extends `acc`, holds exactly the elements of both, and has no duplicates when `acc` has none. */
  lemma {:induction false} AppendNewCorrect<T>(acc: seq<T>, xs: seq<T>)
    requires Distinct(acc)
    ensures Distinct(AppendNew(acc, xs))
    ensures acc <= AppendNew(acc, xs)
    ensures forall x :: x in AppendNew(acc, xs) <==> x in acc || x in xs
    decreases |xs|
  {
    if xs != [] {
      var acc' := if xs[0] in acc then acc else acc + [xs[0]];
      AppendNewCorrect(acc', xs[1..]);
      assert xs == [xs[0]] + xs[1..];
    }
  }

  /** On a list that already has no duplicates nothing is dropped (`list(dict.fromkeys(xs)) == xs`). */
  lemma {:induction false} AppendNewOfDistinct<T>(acc: seq<T>, xs: seq<T>)
    requires Distinct(acc + xs)
    ensures AppendNew(acc, xs) == acc + xs
    decreases |xs|
  {
    if xs != [] {
      assert xs[0] == (acc + xs)[|acc|];
      assert xs[0] !in acc by {
        forall i | 0 <= i < |acc| ensures acc[i] != xs[0] {
          assert acc[i] == (acc + xs)[i];
        }
      }
      assert (acc + [xs[0]]) + xs[1..] == acc + xs;
      AppendNewOfDistinct(acc + [xs[0]], xs[1..]);
    }
  }
}
