/**
 * The array operations the pages chain together — `filter`, `slice`,
 * `find`, `reverse` and `reduce`-style sums — as functions on sequences,
 * with the facts about them that the page modules rely on.
 */
module Seqs {
  import opened Wrappers

  /** `s.filter(p)`, defined as the left-to-right fold it is. */
  function Filter<T>(s: seq<T>, p: T -> bool): seq<T>
  {
    if s == [] then [] else Filter(s[..|s| - 1], p) + (if p(s[|s| - 1]) then [s[|s| - 1]] else [])
  }

  /** `s.filter(p).length` */
  function Count<T>(s: seq<T>, p: T -> bool): nat
  {
    |Filter(s, p)|
  }

  lemma {:induction false} FilterSound<T>(s: seq<T>, p: T -> bool)
    ensures forall i :: 0 <= i < |Filter(s, p)| ==> p(Filter(s, p)[i])
    ensures |Filter(s, p)| <= |s|
  {
    if s != [] {
      FilterSound(s[..|s| - 1], p);
    }
  }

  /** Everything that satisfies `p` survives the filter. */
  lemma {:induction false} FilterComplete<T>(s: seq<T>, p: T -> bool, i: nat)
    requires i < |s| && p(s[i])
    ensures s[i] in Filter(s, p)
  {
    if i < |s| - 1 {
      FilterComplete(s[..|s| - 1], p, i);
    }
  }

  lemma {:induction false} FilterNone<T>(s: seq<T>, p: T -> bool)
    requires forall i :: 0 <= i < |s| ==> !p(s[i])
    ensures Filter(s, p) == []
  {
    if s != [] {
      FilterNone(s[..|s| - 1], p);
    }
  }

  /** Filtering a sequence extended by one element. */
  lemma FilterSnoc<T>(s: seq<T>, x: T, p: T -> bool)
    ensures Filter(s + [x], p) == Filter(s, p) + (if p(x) then [x] else [])
  {
    assert (s + [x])[..|s + [x]| - 1] == s;
  }

  lemma {:induction false} FilterAll<T>(s: seq<T>, p: T -> bool)
    requires forall i :: 0 <= i < |s| ==> p(s[i])
    ensures Filter(s, p) == s
  {
    if s != [] {
      FilterAll(s[..|s| - 1], p);
    }
  }

  /**
   * When every element satisfies exactly one of three tests, the three
   * filters' lengths add up to the whole length.
   */
  lemma {:induction false} FilterPartition3<T>(s: seq<T>, p: T -> bool, q: T -> bool, r: T -> bool)
    requires forall x :: (p(x) ==> !q(x) && !r(x)) && (q(x) ==> !r(x)) && (p(x) || q(x) || r(x))
    ensures Count(s, p) + Count(s, q) + Count(s, r) == |s|
  {
    if s != [] {
      FilterPartition3(s[..|s| - 1], p, q, r);
    }
  }

  /** When every element satisfies exactly one of two tests, the two filters' lengths add up. */
  lemma {:induction false} FilterPartition2<T>(s: seq<T>, p: T -> bool, q: T -> bool)
    requires forall x :: p(x) != q(x)
    ensures Count(s, p) + Count(s, q) == |s|
  {
    if s != [] {
      FilterPartition2(s[..|s| - 1], p, q);
    }
  }

  /** A stronger test keeps no more elements. */
  lemma {:induction false} CountMonotone<T>(s: seq<T>, p: T -> bool, q: T -> bool)
    requires forall x :: p(x) ==> q(x)
    ensures Count(s, p) <= Count(s, q)
  {
    if s != [] {
      CountMonotone(s[..|s| - 1], p, q);
    }
  }

  // ---------------------------------------------------------------------
  // Order-preserving subsequences

  /** `a` can be obtained from `b` by deleting elements. */
  predicate IsSubsequence<T(==)>(a: seq<T>, b: seq<T>)
    decreases |b|
  {
    if a == [] then true
    else if b == [] then false
    else if a[|a| - 1] == b[|b| - 1] then IsSubsequence(a[..|a| - 1], b[..|b| - 1])
    else IsSubsequence(a, b[..|b| - 1])
  }

  lemma {:induction false} SubsequenceExtend<T>(a: seq<T>, b: seq<T>, x: T)
    requires IsSubsequence(a, b)
    ensures IsSubsequence(a, b + [x])
    decreases |b|, 1
  {
    var bx := b + [x];
    assert bx[..|bx| - 1] == b;
    if a != [] && a[|a| - 1] == x {
      SubsequenceDropLast(a, b);
    }
  }

  lemma {:induction false} SubsequenceDropLast<T>(a: seq<T>, b: seq<T>)
    requires a != [] && IsSubsequence(a, b)
    ensures IsSubsequence(a[..|a| - 1], b)
    decreases |b|, 0
  {
    var a' := a[..|a| - 1];
    if a[|a| - 1] == b[|b| - 1] {
      if a' != [] {
        SubsequenceExtend(a', b[..|b| - 1], b[|b| - 1]);
        assert b[..|b| - 1] + [b[|b| - 1]] == b;
      }
    } else {
      SubsequenceDropLast(a, b[..|b| - 1]);
      if a' != [] {
        SubsequenceExtend(a', b[..|b| - 1], b[|b| - 1]);
        assert b[..|b| - 1] + [b[|b| - 1]] == b;
      }
    }
  }

  /** Every prefix of a subsequence is a subsequence. */
  lemma {:induction false} SubsequencePrefix<T>(a: seq<T>, b: seq<T>, k: nat)
    requires k <= |a| && IsSubsequence(a, b)
    ensures IsSubsequence(a[..k], b)
    decreases |a| - k
  {
    if k < |a| {
      SubsequencePrefix(a, b, k + 1);
      SubsequenceDropLast(a[..k + 1], b);
      assert a[..k + 1][..k] == a[..k];
    } else {
      assert a[..k] == a;
    }
  }

  lemma {:induction false} FilterMembers<T>(s: seq<T>, p: T -> bool)
    ensures forall x :: x in Filter(s, p) ==> x in s
  {
    if s != [] {
      FilterMembers(s[..|s| - 1], p);
      assert s == s[..|s| - 1] + [s[|s| - 1]];
    }
  }

  /** Filtering keeps the survivors in their original order. */
  lemma {:induction false} FilterIsSubsequence<T>(s: seq<T>, p: T -> bool)
    ensures IsSubsequence(Filter(s, p), s)
  {
    if s != [] {
      var init := s[..|s| - 1];
      FilterIsSubsequence(init, p);
      var f := Filter(init, p);
      if p(s[|s| - 1]) {
        var fx := f + [s[|s| - 1]];
        assert fx[..|fx| - 1] == f;
      } else {
        assert Filter(s, p) == f;
        SubsequenceExtend(f, init, s[|s| - 1]);
        assert init + [s[|s| - 1]] == s;
      }
    }
  }

  // ---------------------------------------------------------------------
  // Distinct elements

  predicate Distinct<T(==)>(s: seq<T>)
  {
    forall a, b :: 0 <= a < b < |s| ==> s[a] != s[b]
  }

  lemma DistinctSnoc<T>(s: seq<T>, x: T)
    requires Distinct(s) && x !in s
    ensures Distinct(s + [x])
  {
  }

  lemma {:induction false} DistinctOccursOnce<T>(s: seq<T>, x: T)
    requires Distinct(s)
    ensures multiset(s)[x] <= 1
  {
    if s != [] {
      var init := s[..|s| - 1];
      assert s == init + [s[|s| - 1]];
      DistinctOccursOnce(init, x);
      if s[|s| - 1] == x {
        assert x !in init by {
          forall a | 0 <= a < |init|
            ensures init[a] != x
          {
            assert s[a] != s[|s| - 1];
          }
        }
      }
    }
  }

  lemma RepeatedOccursTwice<T>(s: seq<T>, j: nat, k: nat)
    requires j < k < |s| && s[j] == s[k]
    ensures multiset(s)[s[j]] >= 2
  {
    assert s == s[..j] + [s[j]] + s[j + 1..k] + [s[k]] + s[k + 1..];
  }

  /** A rearrangement of distinct elements has distinct elements. */
  lemma PermutationDistinct<T>(a: seq<T>, b: seq<T>)
    requires multiset(a) == multiset(b) && Distinct(b)
    ensures Distinct(a)
  {
    forall j, k | 0 <= j < k < |a|
      ensures a[j] != a[k]
    {
      DistinctOccursOnce(b, a[j]);
      if a[j] == a[k] {
        RepeatedOccursTwice(a, j, k);
      }
    }
  }

  // ---------------------------------------------------------------------
  // Array.prototype.slice, find and reverse

  /** How `slice` resolves an index argument against a length: negatives count from the end. */
  function RelativeIndex(i: int, len: nat): (r: nat)
    ensures r <= len
  {
    if i < 0 then (if len + i < 0 then 0 else len + i) else if i < len then i else len
  }

  /** `s.slice(start, end)` */
  function Slice<T>(s: seq<T>, start: int, end: int): (r: seq<T>)
  {
    var from := RelativeIndex(start, |s|);
    var to := RelativeIndex(end, |s|);
    if from < to then s[from..to] else []
  }

  /** `s.slice(start)` */
  function SliceFrom<T>(s: seq<T>, start: int): seq<T>
  {
    Slice(s, start, |s|)
  }

  /** A prefix one longer is the shorter prefix and the next element. */
  lemma PrefixSnoc<T>(s: seq<T>, j: nat)
    requires j < |s|
    ensures s[..j + 1] == s[..j] + [s[j]]
  {
  }

  /** Extending a prefix of `s` by one element, behind a fixed `a`. */
  lemma AppendPrefixSnoc<T>(a: seq<T>, s: seq<T>, j: nat)
    requires j < |s|
    ensures a + s[..j + 1] == (a + s[..j]) + [s[j]]
  {
    PrefixSnoc(s, j);
  }

  /** `slice(0, n)` with n >= 0 is the first min(n, |s|) elements. */
  lemma SliceTake<T>(s: seq<T>, n: nat)
    ensures Slice(s, 0, n) == s[..if n < |s| then n else |s|]
  {}

  /** Three adjacent slices put back together give the whole sequence. */
  lemma SliceThree<T>(s: seq<T>, a: nat, b: nat)
    requires a <= b
    ensures Slice(s, 0, a) + Slice(s, a, b) + SliceFrom(s, b) == s
  {
    var n := |s|;
    var a' := if a < n then a else n;
    var b' := if b < n then b else n;
    assert Slice(s, 0, a) == s[..a'];
    assert Slice(s, a, b) == s[a'..b'];
    assert SliceFrom(s, b) == s[b'..];
    assert s[..a'] + s[a'..b'] + s[b'..] == s;
  }

  /** The index `s.findIndex(p)` returns, or None for -1. */
  function FindIndex<T>(s: seq<T>, p: T -> bool): (r: Option<nat>)
    ensures r.Some? ==> r.value < |s| && p(s[r.value])
    ensures r.Some? ==> forall j :: 0 <= j < r.value ==> !p(s[j])
    ensures r.None? ==> forall j :: 0 <= j < |s| ==> !p(s[j])
  {
    if s == [] then None
    else if p(s[0]) then Some(0)
    else match FindIndex(s[1..], p)
      case None => None
      case Some(i) => Some(i + 1)
  }

  /** `s.find(p)` */
  function Find<T>(s: seq<T>, p: T -> bool): Option<T>
  {
    match FindIndex(s, p)
    case None => None
    case Some(i) => Some(s[i])
  }

  /** `s.reverse()` on a fresh array, read back. */
  function Reverse<T>(s: seq<T>): (r: seq<T>)
    ensures |r| == |s|
  {
    seq(|s|, i requires 0 <= i < |s| => s[|s| - 1 - i])
  }

  /** Reversing twice restores the original order. */
  lemma ReverseInvolution<T>(s: seq<T>)
    ensures Reverse(Reverse(s)) == s
  {}

  /** `s[s.length - 1]` of a filter: the last element that passes, and where it sits. */
  function LastMatch<T>(s: seq<T>, p: T -> bool): (r: Option<nat>)
    ensures r.Some? ==> r.value < |s| && p(s[r.value])
    ensures r.Some? ==> forall j :: r.value < j < |s| ==> !p(s[j])
    ensures r.None? ==> forall j :: 0 <= j < |s| ==> !p(s[j])
  {
    if s == [] then None
    else if p(s[|s| - 1]) then Some(|s| - 1)
    else LastMatch(s[..|s| - 1], p)
  }

  /** The last element of `filter(p)` is the element LastMatch finds. */
  lemma {:induction false} LastOfFilter<T>(s: seq<T>, p: T -> bool)
    ensures var f := Filter(s, p);
      (f == [] <==> LastMatch(s, p).None?) &&
      (f != [] ==> f[|f| - 1] == s[LastMatch(s, p).value])
  {
    if s != [] && !p(s[|s| - 1]) {
      LastOfFilter(s[..|s| - 1], p);
    }
  }

  // ---------------------------------------------------------------------
  // Sums

  /** `s.reduce((sum, x) => sum + f(x), 0)` */
  function SumBy<T>(s: seq<T>, f: T -> real): real
  {
    if s == [] then 0.0 else SumBy(s[..|s| - 1], f) + f(s[|s| - 1])
  }

  /** `s.reduce((sum, x) => sum + f(x), 0)` over integers */
  function SumInt<T>(s: seq<T>, f: T -> int): int
  {
    if s == [] then 0 else SumInt(s[..|s| - 1], f) + f(s[|s| - 1])
  }

  lemma {:induction false} SumByBounds<T>(s: seq<T>, f: T -> real, lo: real, hi: real)
    requires forall j :: 0 <= j < |s| ==> lo <= f(s[j]) <= hi
    ensures |s| as real * lo <= SumBy(s, f) <= |s| as real * hi
  {
    if s != [] {
      SumByBounds(s[..|s| - 1], f, lo, hi);
    }
  }

  lemma SumBySnoc<T>(s: seq<T>, x: T, f: T -> real)
    ensures SumBy(s + [x], f) == SumBy(s, f) + f(x)
  {
    assert (s + [x])[..|s|] == s;
  }

  lemma DivisionBounds(sum: real, n: real, lo: real, hi: real)
    requires n > 0.0 && n * lo <= sum <= n * hi
    ensures lo <= sum / n <= hi
  {
    var q := sum / n;
    assert (q - lo) * n == sum - n * lo;
    assert (hi - q) * n == n * hi - sum;
  }

  /** A mean lies between any lower and upper bound of its terms. */
  lemma MeanBetween<T>(s: seq<T>, f: T -> real, lo: real, hi: real)
    requires s != [] && forall j :: 0 <= j < |s| ==> lo <= f(s[j]) <= hi
    ensures lo <= SumBy(s, f) / |s| as real <= hi
  {
    SumByBounds(s, f, lo, hi);
    DivisionBounds(SumBy(s, f), |s| as real, lo, hi);
  }

  lemma {:induction false} SumByConcat<T>(a: seq<T>, b: seq<T>, f: T -> real)
    ensures SumBy(a + b, f) == SumBy(a, f) + SumBy(b, f)
  {
    if b != [] {
      assert (a + b)[..|a + b| - 1] == a + b[..|b| - 1];
      SumByConcat(a, b[..|b| - 1], f);
    } else {
      assert a + b == a;
    }
  }

  lemma {:induction false} SumIntConcat<T>(a: seq<T>, b: seq<T>, f: T -> int)
    ensures SumInt(a + b, f) == SumInt(a, f) + SumInt(b, f)
  {
    if b != [] {
      assert (a + b)[..|a + b| - 1] == a + b[..|b| - 1];
      SumIntConcat(a, b[..|b| - 1], f);
    } else {
      assert a + b == a;
    }
  }

  /** A sum does not depend on the order of its terms. */
  lemma {:induction false} SumIntPermutation<T>(a: seq<T>, b: seq<T>, f: T -> int)
    requires multiset(a) == multiset(b)
    ensures SumInt(a, f) == SumInt(b, f)
  {
    if a == [] {
      assert |multiset(b)| == 0;
    } else {
      var init, x := a[..|a| - 1], a[|a| - 1];
      assert a == init + [x];
      assert x in multiset(b);
      var m :| 0 <= m < |b| && b[m] == x;
      var rest := b[..m] + b[m + 1..];
      MultisetRemove(b, m);
      assert multiset(init) == multiset(a) - multiset{x};
      SumIntPermutation(init, rest, f);
      SumIntRemove(b, m, f);
    }
  }

  lemma MultisetRemove<T>(b: seq<T>, m: nat)
    requires m < |b|
    ensures multiset(b[..m] + b[m + 1..]) == multiset(b) - multiset{b[m]}
  {
    assert b == b[..m] + [b[m]] + b[m + 1..];
  }

  lemma SumIntRemove<T>(b: seq<T>, m: nat, f: T -> int)
    requires m < |b|
    ensures SumInt(b, f) == SumInt(b[..m] + b[m + 1..], f) + f(b[m])
  {
    var left, x, right := b[..m], b[m], b[m + 1..];
    assert b == (left + [x]) + right;
    SumIntConcat(left + [x], right, f);
    SumIntSnoc(left, x, f);
    SumIntConcat(left, right, f);
  }

  lemma SumIntSnoc<T>(s: seq<T>, x: T, f: T -> int)
    ensures SumInt(s + [x], f) == SumInt(s, f) + f(x)
  {
    assert (s + [x])[..|s|] == s;
  }
}
