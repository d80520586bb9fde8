/** The JavaScript array built-ins the storefront relies on, modelled on
    sequences: `filter`, `reduce` as a left-to-right sum, `slice` with its
    rules for negative and out-of-range indices, and de-duplication through
    `[...new Set(xs)]`, which keeps the first occurrence of each value. */
module JsArray {

  function Min(a: int, b: int): int { if a <= b then a else b }

  function Max(a: int, b: int): int { if a <= b then b else a }

  // ---------------------------------------------------------------- filter

  /** `s.filter(keep)`: the elements that pass, each as often as in `s`. */
  function Filter<T(==,!new)>(s: seq<T>, keep: T -> bool): (r: seq<T>)
    ensures |r| <= |s|
    ensures forall x :: multiset(r)[x] == if keep(x) then multiset(s)[x] else 0
    ensures forall x :: x in r <==> x in s && keep(x)
  {
    if s == [] then []
    else
      assert s == [s[0]] + s[1..];
      var rest := Filter(s[1..], keep);
      if keep(s[0]) then [s[0]] + rest else rest
  }

  /** `filter` keeps the relative order: it distributes over concatenation. */
  lemma {:induction false} FilterAppend<T(!new)>(a: seq<T>, b: seq<T>, keep: T -> bool)
    ensures Filter(a + b, keep) == Filter(a, keep) + Filter(b, keep)
  {
    if a == [] {
      assert a + b == b;
    } else {
      assert (a + b)[0] == a[0];
      assert (a + b)[1..] == a[1..] + b;
      FilterAppend(a[1..], b, keep);
    }
  }

  /** When every element passes, `filter` returns its input unchanged. */
  lemma {:induction false} FilterKeepsAll<T(!new)>(s: seq<T>, keep: T -> bool)
    requires forall k :: 0 <= k < |s| ==> keep(s[k])
    ensures Filter(s, keep) == s
  {
    if s != [] {
      FilterKeepsAll(s[1..], keep);
    }
  }

  /** Filtering a second time with the same test changes nothing. */
  lemma FilterIdempotent<T(!new)>(s: seq<T>, keep: T -> bool)
    ensures Filter(Filter(s, keep), keep) == Filter(s, keep)
  {
    var r := Filter(s, keep);
    forall k | 0 <= k < |r| ensures keep(r[k]) {
      assert r[k] in r;
    }
    FilterKeepsAll(r, keep);
  }

  /** When exactly the element at `k` fails, `filter` cuts out that one
      position and keeps everything else in order. */
  lemma FilterDropsOne<T(!new)>(s: seq<T>, keep: T -> bool, k: nat)
    requires k < |s| && !keep(s[k])
    requires forall j :: 0 <= j < |s| && j != k ==> keep(s[j])
    ensures Filter(s, keep) == s[..k] + s[k + 1..]
  {
    var before, after := s[..k], s[k + 1..];
    assert s == before + ([s[k]] + after);
    forall j | 0 <= j < |after| ensures keep(after[j]) {
      assert after[j] == s[k + 1 + j];
    }
    FilterKeepsAll(before, keep);
    FilterKeepsAll(after, keep);
    FilterAppend([s[k]], after, keep);
    FilterAppend(before, [s[k]] + after, keep);
  }

  // ---------------------------------------------------------------- reduce

  /** `s.reduce((sum, x) => sum + term(x), 0)`, folded from the left. */
  function SumOf<T>(s: seq<T>, term: T -> int): int
  {
    if s == [] then 0 else SumOf(s[..|s| - 1], term) + term(s[|s| - 1])
  }

  lemma {:induction false} SumOfAppend<T>(a: seq<T>, b: seq<T>, term: T -> int)
    ensures SumOf(a + b, term) == SumOf(a, term) + SumOf(b, term)
  {
    if b == [] {
      assert a + b == a;
    } else {
      assert (a + b)[..|a + b| - 1] == a + b[..|b| - 1];
      assert (a + b)[|a + b| - 1] == b[|b| - 1];
      SumOfAppend(a, b[..|b| - 1], term);
    }
  }

  /** Replacing one element changes the sum by the difference of its terms. */
  lemma {:induction false} SumOfUpdate<T>(s: seq<T>, k: nat, v: T, term: T -> int)
    requires k < |s|
    ensures SumOf(s[k := v], term) == SumOf(s, term) - term(s[k]) + term(v)
  {
    var n := |s|;
    if k == n - 1 {
      assert s[k := v][..n - 1] == s[..n - 1];
    } else {
      assert s[k := v][..n - 1] == s[..n - 1][k := v];
      SumOfUpdate(s[..n - 1], k, v, term);
    }
  }

  /** Cutting out one element takes its term off the sum. */
  lemma {:induction false} SumOfRemove<T>(s: seq<T>, k: nat, term: T -> int)
    requires k < |s|
    ensures SumOf(s[..k] + s[k + 1..], term) == SumOf(s, term) - term(s[k])
  {
    var before, after := s[..k], s[k + 1..];
    assert s == (before + [s[k]]) + after;
    SumOfAppend(before + [s[k]], after, term);
    SumOfAppend(before, [s[k]], term);
    SumOfAppend(before, after, term);
    assert SumOf([s[k]], term) == SumOf([], term) + term(s[k]);
  }

  /** A sum of terms each at least `least` is at least `least` per element. */
  lemma {:induction false} SumOfAtLeast<T>(s: seq<T>, term: T -> int, least: int)
    requires forall k :: 0 <= k < |s| ==> term(s[k]) >= least
    ensures SumOf(s, term) >= least * |s|
  {
    if s != [] {
      SumOfAtLeast(s[..|s| - 1], term, least);
    }
  }

  // ---------------------------------------------------------------- slice

  /** How `slice` reads an index: a negative one counts back from the end,
      and the result is clamped to `[0, len]`. */
  function RelativeIndex(i: int, len: nat): (r: nat)
    ensures r <= len
    ensures 0 <= i <= len ==> r == i
    ensures i > len ==> r == len
    ensures i < 0 ==> r == Max(0, len + i)
  {
    if i < 0 then (if len + i < 0 then 0 else len + i)
    else if i > len then len
    else i
  }

  /** `s.slice(start, end)`: never fails; an empty or reversed range is `[]`. */
  function Slice<T>(s: seq<T>, start: int, end: int): (r: seq<T>)
    ensures |r| <= |s|
  {
    var from, to := RelativeIndex(start, |s|), RelativeIndex(end, |s|);
    if from < to then s[from..to] else []
  }

  /** For non-negative bounds, `slice` is the sub-sequence clamped to the
      length: at most `end - start` elements, empty past the end. */
  lemma SliceFromNonNegative<T>(s: seq<T>, start: nat, end: nat)
    requires start <= end
    ensures Slice(s, start, end) == s[Min(start, |s|)..Min(end, |s|)]
    ensures |Slice(s, start, end)| <= end - start
    ensures start >= |s| ==> Slice(s, start, end) == []
  {
  }

  // ---------------------------------------------------------------- Set

  ghost predicate NoDuplicates<T>(s: seq<T>)
  {
    forall i, j :: 0 <= i < j < |s| ==> s[i] != s[j]
  }

  /** `[...new Set(s)]`: each value once, at the place where the `Set` first
      received it. */
  function Distinct<T(==,!new)>(s: seq<T>): (r: seq<T>)
    ensures NoDuplicates(r)
    ensures forall x :: x in r <==> x in s
  {
    if s == [] then []
    else
      var seen := Distinct(s[..|s| - 1]);
      var x := s[|s| - 1];
      assert s == s[..|s| - 1] + [x];
      if x in seen then seen else seen + [x]
  }

  /** The index of the first occurrence of `x` in `s`. */
  function FirstIndex<T(==,!new)>(s: seq<T>, x: T): (i: nat)
    requires x in s
    ensures i < |s| && s[i] == x
    ensures forall j :: 0 <= j < i ==> s[j] != x
  {
    if s[0] == x then 0 else 1 + FirstIndex(s[1..], x)
  }

  lemma FirstIndexAppend<T(!new)>(s: seq<T>, y: T, x: T)
    requires x in s
    ensures x in s + [y] && FirstIndex(s + [y], x) == FirstIndex(s, x)
  {
    var i := FirstIndex(s, x);
    var i' := FirstIndex(s + [y], x);
    assert (s + [y])[i] == x;
    assert i' <= i;
    assert s[i'] == (s + [y])[i'];
  }

  /** `Distinct` lists the values in the order of their first occurrence. */
  lemma {:induction false} DistinctFirstSeenOrder<T(!new)>(s: seq<T>)
    ensures forall i, j :: 0 <= i < j < |Distinct(s)| ==>
      FirstIndex(s, Distinct(s)[i]) < FirstIndex(s, Distinct(s)[j])
  {
    if s != [] {
      var init, x := s[..|s| - 1], s[|s| - 1];
      assert s == init + [x];
      DistinctFirstSeenOrder(init);
      var seen := Distinct(init);
      forall y | y in seen ensures FirstIndex(s, y) == FirstIndex(init, y) {
        FirstIndexAppend(init, x, y);
      }
      var r := Distinct(s);
      forall i, j | 0 <= i < j < |r| ensures FirstIndex(s, r[i]) < FirstIndex(s, r[j]) {
        assert seen[i] in seen;
        if j < |seen| {
          assert seen[j] in seen;
        } else {
          assert r[j] == x && x !in init;
          assert FirstIndex(s, x) == |init|;
        }
      }
    }
  }
}
