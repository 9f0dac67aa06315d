/**
 * Sequence operations that stand for the pandas row-selection and column
 * idioms of the dashboard: boolean-mask selection (`df[mask]`), element-wise
 * `apply`, `unique()` and `sum()`.
 */
module Seqs {

  /** Boolean-mask row selection: the elements of `s` satisfying `p`, in order. */
  function Filter<T>(s: seq<T>, p: T -> bool): (r: seq<T>)
    ensures |r| <= |s|
    ensures forall x :: x in r ==> x in s && p(x)
  {
    if s == [] then []
    else
      var init := s[..|s| - 1];
      assert forall x :: x in init ==> x in s;
      Filter(init, p) + (if p(s[|s| - 1]) then [s[|s| - 1]] else [])
  }

  /** Element-wise application, as pandas' `apply` on a column. */
  function Map<T, U>(s: seq<T>, f: T -> U): (r: seq<U>)
    ensures |r| == |s|
    ensures forall k :: 0 <= k < |s| ==> r[k] == f(s[k])
  {
    if s == [] then [] else Map(s[..|s| - 1], f) + [f(s[|s| - 1])]
  }

  lemma MapSnoc<T, U>(s: seq<T>, x: T, f: T -> U)
    ensures Map(s + [x], f) == Map(s, f) + [f(x)]
  {
    assert (s + [x])[..|s|] == s;
  }

  /** The results of `Map` are exactly the images of the elements. */
  lemma MapMembers<T, U>(s: seq<T>, f: T -> U, y: U)
    ensures y in Map(s, f) <==> exists x :: x in s && y == f(x)
  {
    if y in Map(s, f) {
      var k :| 0 <= k < |s| && Map(s, f)[k] == y;
      assert s[k] in s;
    }
    if x :| x in s && y == f(x) {
      var k :| 0 <= k < |s| && s[k] == x;
      assert Map(s, f)[k] == y;
    }
  }

  /** Column sum; the empty sum is 0, as `Series.sum()` on no rows. */
  function Sum(s: seq<real>): real {
    if s == [] then 0.0 else Sum(s[..|s| - 1]) + s[|s| - 1]
  }

  /** The positions of `s` that the mask `p` selects, in increasing order. */
  function FilterIndices<T>(s: seq<T>, p: T -> bool): (r: seq<nat>)
    ensures forall k :: 0 <= k < |r| ==> r[k] < |s|
    ensures forall k, l :: 0 <= k < l < |r| ==> r[k] < r[l]
  {
    if s == [] then []
    else
      var rest := FilterIndices(s[..|s| - 1], p);
      rest + (if p(s[|s| - 1]) then [|s| - 1] else [])
  }

  /** The selected positions hold the selected elements, one for one. */
  lemma {:induction false} FilterIndicesMatch<T>(s: seq<T>, p: T -> bool)
    ensures |FilterIndices(s, p)| == |Filter(s, p)|
    ensures forall k :: 0 <= k < |FilterIndices(s, p)| ==> Filter(s, p)[k] == s[FilterIndices(s, p)[k]]
    decreases |s|
  {
    if s != [] {
      var init := s[..|s| - 1];
      FilterIndicesMatch(init, p);
      var rest, kept := FilterIndices(init, p), Filter(init, p);
      assert forall k :: 0 <= k < |rest| ==> kept[k] == init[rest[k]] == s[rest[k]];
    }
  }

  /** A position is selected exactly when the mask holds there. */
  lemma {:induction false} FilterIndicesMembers<T>(s: seq<T>, p: T -> bool)
    ensures forall i :: 0 <= i < |s| ==> (i in FilterIndices(s, p) <==> p(s[i]))
    decreases |s|
  {
    if s != [] {
      var init := s[..|s| - 1];
      FilterIndicesMembers(init, p);
      assert forall i :: 0 <= i < |init| ==> init[i] == s[i];
    }
  }

  /** The blocks `f(lo)`, ..., `f(hi-1)` laid end to end, as `melt` stacks one column after another. */
  function Concat<T>(f: nat -> seq<T>, lo: nat, hi: nat): seq<T>
    decreases hi
  {
    if hi <= lo then [] else Concat(f, lo, hi - 1) + f(hi - 1)
  }

  /** No element occurs twice. */
  predicate Distinct<T(==)>(s: seq<T>) {
    forall i, j :: 0 <= i < j < |s| ==> s[i] != s[j]
  }

  /** pandas' `unique()`: each distinct element once, in order of first appearance. */
  function Dedup<T(==)>(s: seq<T>): (r: seq<T>)
    ensures Distinct(r)
    ensures forall x :: x in r ==> x in s
    ensures forall i :: 0 <= i < |s| ==> s[i] in r
  {
    if s == [] then []
    else
      var init := s[..|s| - 1];
      var last := s[|s| - 1];
      assert s == init + [last];
      if last in init then Dedup(init) else Dedup(init) + [last]
  }

  /** `unique()` keeps exactly the elements that occur. */
  lemma DedupMembers<T>(s: seq<T>, x: T)
    ensures x in Dedup(s) <==> x in s
  {
    if x in s {
      var k :| 0 <= k < |s| && s[k] == x;
    }
  }

  /** `idx` lists, in increasing order, positions of `s` whose elements make up `r`. */
  ghost predicate Embeds<T>(r: seq<T>, s: seq<T>, idx: seq<nat>) {
    && |idx| == |r|
    && (forall k :: 0 <= k < |idx| ==> idx[k] < |s| && r[k] == s[idx[k]])
    && (forall k, l :: 0 <= k < l < |idx| ==> idx[k] < idx[l])
  }

  /** `r` is `s` with some elements removed and the rest kept in order. */
  ghost predicate IsSubsequence<T>(r: seq<T>, s: seq<T>) {
    exists idx :: Embeds(r, s, idx)
  }

  lemma {:induction false} FilterAppend<T>(a: seq<T>, b: seq<T>, p: T -> bool)
    ensures Filter(a + b, p) == Filter(a, p) + Filter(b, p)
    decreases |b|
  {
    if b == [] {
      assert a + b == a;
    } else {
      var init := b[..|b| - 1];
      assert (a + b)[..|a + b| - 1] == a + init;
      FilterAppend(a, init, p);
    }
  }

  lemma FilterSnoc<T>(s: seq<T>, x: T, p: T -> bool)
    ensures Filter(s + [x], p) == Filter(s, p) + (if p(x) then [x] else [])
  {
    assert (s + [x])[..|s|] == s;
  }

  /** A mask that every element passes selects everything. */
  lemma {:induction false} FilterAll<T>(s: seq<T>, p: T -> bool)
    requires forall k :: 0 <= k < |s| ==> p(s[k])
    ensures Filter(s, p) == s
    decreases |s|
  {
    if s != [] {
      var init, last := s[..|s| - 1], s[|s| - 1];
      FilterAll(init, p);
      assert p(last);
      calc {
        Filter(s, p);
        Filter(init, p) + [last];
        init + [last];
        s;
      }
    }
  }

  /** A mask that no element passes selects nothing. */
  lemma {:induction false} FilterNone<T>(s: seq<T>, p: T -> bool)
    requires forall k :: 0 <= k < |s| ==> !p(s[k])
    ensures Filter(s, p) == []
    decreases |s|
  {
    if s != [] {
      FilterNone(s[..|s| - 1], p);
    }
  }

  /** Selecting from one more element of `s`. */
  lemma FilterStep<T>(s: seq<T>, i: nat, p: T -> bool)
    requires i < |s|
    ensures Filter(s[..i + 1], p) == Filter(s[..i], p) + (if p(s[i]) then [s[i]] else [])
  {
    assert s[..i + 1] == s[..i] + [s[i]];
    FilterSnoc(s[..i], s[i], p);
  }

  /** Applying to one more element of `s`. */
  lemma MapStep<T, U>(s: seq<T>, i: nat, f: T -> U)
    requires i < |s|
    ensures Map(s[..i + 1], f) == Map(s[..i], f) + [f(s[i])]
  {
    assert s[..i + 1] == s[..i] + [s[i]];
    MapSnoc(s[..i], s[i], f);
  }

  /** Selection keeps every element that satisfies the mask. */
  lemma {:induction false} FilterKeeps<T>(s: seq<T>, p: T -> bool, x: T)
    ensures x in Filter(s, p) <==> x in s && p(x)
    decreases |s|
  {
    if s != [] {
      var init := s[..|s| - 1];
      assert s == init + [s[|s| - 1]];
      FilterKeeps(init, p, x);
    }
  }

  /** Selection yields an order-preserving subsequence. */
  lemma FilterIsSubsequence<T>(s: seq<T>, p: T -> bool)
    ensures IsSubsequence(Filter(s, p), s)
  {
    FilterIndicesMatch(s, p);
    assert Embeds(Filter(s, p), s, FilterIndices(s, p));
  }

  /** The mask that holds where both `p` and `q` hold. */
  function Both<T>(p: T -> bool, q: T -> bool): T -> bool {
    x => p(x) && q(x)
  }

  /** Selecting with `p` and then with `q` is selecting once with both. */
  lemma {:induction false} FilterFilter<T>(s: seq<T>, p: T -> bool, q: T -> bool)
    ensures Filter(Filter(s, p), q) == Filter(s, Both(p, q))
    decreases |s|
  {
    if s != [] {
      var init, last := s[..|s| - 1], s[|s| - 1];
      FilterFilter(init, p, q);
      if p(last) {
        FilterSnoc(Filter(init, p), last, q);
      } else {
        assert Filter(s, p) == Filter(init, p);
      }
    }
  }

  /** Two masks that agree on every element select the same rows. */
  lemma {:induction false} FilterCongruent<T>(s: seq<T>, p: T -> bool, q: T -> bool)
    requires forall x :: x in s ==> p(x) == q(x)
    ensures Filter(s, p) == Filter(s, q)
    decreases |s|
  {
    if s != [] {
      var init := s[..|s| - 1];
      assert forall x :: x in init ==> x in s;
      FilterCongruent(init, p, q);
    }
  }

  lemma {:induction false} SumAppend(a: seq<real>, b: seq<real>)
    ensures Sum(a + b) == Sum(a) + Sum(b)
    decreases |b|
  {
    if b == [] {
      assert a + b == a;
    } else {
      var init := b[..|b| - 1];
      assert (a + b)[..|a + b| - 1] == a + init;
      SumAppend(a, init);
    }
  }

  /** An element of the stacked blocks belongs to one of them. */
  lemma {:induction false} ConcatMembers<T>(f: nat -> seq<T>, lo: nat, hi: nat, x: T)
    ensures x in Concat(f, lo, hi) <==> exists j :: lo <= j < hi && x in f(j)
    decreases hi
  {
    if hi > lo {
      ConcatMembers(f, lo, hi - 1, x);
    }
  }

  /** Blocks of at most `n` elements stack to at most `n` per block. */
  lemma {:induction false} ConcatLength<T>(f: nat -> seq<T>, lo: nat, hi: nat, n: nat)
    requires lo <= hi
    requires forall j :: lo <= j < hi ==> |f(j)| <= n
    ensures |Concat(f, lo, hi)| <= n * (hi - lo)
    decreases hi
  {
    if hi > lo {
      ConcatLength(f, lo, hi - 1, n);
      assert n * (hi - 1 - lo) + n == n * (hi - lo);
    }
  }

  /** Empty blocks at the end add nothing. */
  lemma {:induction false} ConcatEmptyTail<T>(f: nat -> seq<T>, lo: nat, mid: nat, hi: nat)
    requires lo <= mid <= hi
    requires forall j :: mid <= j < hi ==> f(j) == []
    ensures Concat(f, lo, hi) == Concat(f, lo, mid)
    decreases hi
  {
    if hi > mid {
      ConcatEmptyTail(f, lo, mid, hi - 1);
      assert Concat(f, lo, hi - 1) + [] == Concat(f, lo, hi - 1);
    }
  }

  lemma {:induction false} MapAppend<T, U>(a: seq<T>, b: seq<T>, f: T -> U)
    ensures Map(a + b, f) == Map(a, f) + Map(b, f)
  {
    assert |Map(a + b, f)| == |Map(a, f) + Map(b, f)|;
    forall k | 0 <= k < |a + b| ensures Map(a + b, f)[k] == (Map(a, f) + Map(b, f))[k] {
      if k < |a| {
        assert (a + b)[k] == a[k];
      } else {
        assert (a + b)[k] == b[k - |a|];
      }
    }
  }

  /** A sum of terms each no larger than the matching term of another is no larger. */
  lemma {:induction false} SumMono(a: seq<real>, b: seq<real>)
    requires |a| == |b|
    requires forall k :: 0 <= k < |a| ==> a[k] <= b[k]
    ensures Sum(a) <= Sum(b)
    decreases |a|
  {
    if a != [] {
      SumMono(a[..|a| - 1], b[..|b| - 1]);
    }
  }

  /** A sum of non-negative terms is non-negative. */
  lemma {:induction false} SumNonNegative(a: seq<real>)
    requires forall k :: 0 <= k < |a| ==> 0.0 <= a[k]
    ensures 0.0 <= Sum(a)
    decreases |a|
  {
    if a != [] {
      SumNonNegative(a[..|a| - 1]);
    }
  }
}
