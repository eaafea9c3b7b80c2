/**
 * Order statistics: the k-th smallest element of a sequence, defined as
 * the k-th element of its sorted rearrangement. This is the value that
 * `std::nth_element` places at position k.
 */
module OrderStatistics {

  predicate Sorted(s: seq<real>) {
    forall i, j :: 0 <= i < j < |s| ==> s[i] <= s[j]
  }

  /** Inserts `x` before the first element of `s` it does not exceed. */
  function Insert(x: real, s: seq<real>): (r: seq<real>)
    ensures |r| == |s| + 1
  {
    if s == [] || x <= s[0] then [x] + s
    else [s[0]] + Insert(x, s[1..])
  }

  /** Insertion adds exactly `x`. */
  lemma {:induction false} InsertPermutes(x: real, s: seq<real>)
    ensures multiset(Insert(x, s)) == multiset(s) + multiset{x}
  {
    if s != [] && x > s[0] {
      InsertPermutes(x, s[1..]);
      assert s == [s[0]] + s[1..];
    }
  }

  /** A lower bound of `x` and of every element of `s` bounds the result of inserting. */
  lemma {:induction false} InsertLowerBound(x: real, s: seq<real>, b: real)
    requires b <= x && forall i :: 0 <= i < |s| ==> b <= s[i]
    ensures forall i :: 0 <= i < |Insert(x, s)| ==> b <= Insert(x, s)[i]
  {
    if s != [] && x > s[0] {
      InsertLowerBound(x, s[1..], b);
    }
  }

  /** Insertion keeps a sorted sequence sorted. */
  lemma {:induction false} InsertSorted(x: real, s: seq<real>)
    requires Sorted(s)
    ensures Sorted(Insert(x, s))
  {
    if s != [] && x > s[0] {
      var t := Insert(x, s[1..]);
      InsertSorted(x, s[1..]);
      InsertLowerBound(x, s[1..], s[0]);
      var r := [s[0]] + t;
      forall i, j | 0 <= i < j < |r| ensures r[i] <= r[j] {
        assert r[j] == t[j - 1];
        if i > 0 {
          assert r[i] == t[i - 1];
        }
      }
    }
  }

  /** Insertion sort: the sorted rearrangement of `s`. */
  function SortSeq(s: seq<real>): (r: seq<real>)
    ensures |r| == |s|
  {
    if s == [] then []
    else Insert(s[0], SortSeq(s[1..]))
  }

  /** SortSeq(s) is sorted and holds exactly the elements of s. */
  lemma {:induction false} SortSeqSortsAndPermutes(s: seq<real>)
    ensures Sorted(SortSeq(s))
    ensures multiset(SortSeq(s)) == multiset(s)
  {
    if s != [] {
      SortSeqSortsAndPermutes(s[1..]);
      InsertPermutes(s[0], SortSeq(s[1..]));
      InsertSorted(s[0], SortSeq(s[1..]));
      assert s == [s[0]] + s[1..];
    }
  }

  /** The k-th smallest element of `s` (k counted from 0). */
  function KthSmallest(s: seq<real>, k: nat): (v: real)
    requires k < |s|
    ensures v in s
  {
    SortSeqSortsAndPermutes(s);
    var t := SortSeq(s);
    assert t[k] in multiset(t);
    t[k]
  }

  /** Some sequence holding exactly the elements of a multiset. */
  ghost function SeqOf(m: multiset<real>): (s: seq<real>)
    ensures multiset(s) == m
    decreases |m|
  {
    if |m| == 0 then []
    else
      NonEmptyHasElement(m);
      var x :| x in m;
      [x] + SeqOf(m - multiset{x})
  }

  lemma NonEmptyHasElement(m: multiset<real>)
    requires |m| > 0
    ensures exists x :: x in m
  {
    if forall x :: x !in m {
      assert false;
    }
  }

  /** Two sorted rearrangements of the same elements are equal. */
  lemma {:induction false} SortedUnique(a: seq<real>, b: seq<real>)
    requires Sorted(a) && Sorted(b)
    requires multiset(a) == multiset(b)
    ensures a == b
  {
    assert |a| == |multiset(a)| == |multiset(b)| == |b|;
    if |a| > 0 {
      assert b[0] in multiset(b);
      assert a[0] in multiset(a);
      HeadIsLeast(a, b[0]);
      HeadIsLeast(b, a[0]);
      assert a[0] == b[0];
      assert a == [a[0]] + a[1..];
      assert b == [b[0]] + b[1..];
      assert multiset(a) == multiset{a[0]} + multiset(a[1..]);
      assert multiset(b) == multiset{b[0]} + multiset(b[1..]);
      assert multiset(a[1..]) == multiset(a) - multiset{a[0]};
      assert multiset(b[1..]) == multiset(b) - multiset{b[0]};
      SortedUnique(a[1..], b[1..]);
    }
  }

  lemma HeadIsLeast(a: seq<real>, x: real)
    requires Sorted(a) && x in multiset(a)
    ensures a[0] <= x
  {
    var j :| 0 <= j < |a| && a[j] == x;
    assert a[0] <= a[j];
  }

  /**
   * If a sorted prefix `p` together with the elements `rest` (none of
   * them smaller than any element of `p`) make up `s`, then `p` holds
   * the |p| smallest elements of `s` in order.
   */
  lemma {:induction false} SortedPrefixIsSmallest(p: seq<real>, rest: multiset<real>, s: seq<real>, k: nat)
    requires Sorted(p)
    requires multiset(p) + rest == multiset(s)
    requires forall i, x :: 0 <= i < |p| && x in rest ==> p[i] <= x
    requires k < |p|
    ensures k < |s| && KthSmallest(s, k) == p[k]
  {
    var tail := SortSeq(SeqOf(rest));
    SortSeqSortsAndPermutes(SeqOf(rest));
    var t := p + tail;
    forall i, j | 0 <= i < j < |t| ensures t[i] <= t[j] {
      if j >= |p| && i < |p| {
        assert tail[j - |p|] in multiset(tail);
      }
    }
    assert multiset(t) == multiset(s);
    assert |t| == |multiset(t)| == |multiset(s)| == |s|;
    SortSeqSortsAndPermutes(s);
    SortedUnique(t, SortSeq(s));
  }

  /**
   * A sequence whose elements all equal `v` except one, `w`, that is not
   * smaller: every order statistic but the largest is `v`.
   */
  lemma {:induction false} KthSmallestWithOneOutlier(s: seq<real>, j: nat, v: real, w: real, k: nat)
    requires j < |s| && s[j] == w && v <= w
    requires forall i :: 0 <= i < |s| && i != j ==> s[i] == v
    requires k < |s| - 1
    ensures KthSmallest(s, k) == v
  {
    var p := seq(|s| - 1, _ => v);
    assert s[..j] + s[j + 1..] == p;
    assert s == s[..j] + [w] + s[j + 1..];
    assert multiset(p) + multiset{w} == multiset(s);
    SortedPrefixIsSmallest(p, multiset{w}, s, k);
  }

  /**
   * Appending elements no smaller than any element of `s` leaves the
   * order statistics below |s| as they were.
   */
  lemma KthSmallestAppendLarge(s: seq<real>, more: seq<real>, k: nat)
    requires forall i, j :: 0 <= i < |s| && 0 <= j < |more| ==> s[i] <= more[j]
    requires k < |s|
    ensures KthSmallest(s + more, k) == KthSmallest(s, k)
  {
    SortSeqSortsAndPermutes(s);
    var t := SortSeq(s);
    forall i, x | 0 <= i < |t| && x in multiset(more) ensures t[i] <= x {
      assert t[i] in multiset(s);
      var a :| 0 <= a < |s| && s[a] == t[i];
      var b :| 0 <= b < |more| && more[b] == x;
    }
    SortedPrefixIsSmallest(t, multiset(more), s + more, k);
  }

  /** The order statistics of a sequence are nondecreasing in k. */
  lemma KthSmallestMonotone(s: seq<real>, i: nat, j: nat)
    requires i <= j < |s|
    ensures KthSmallest(s, i) <= KthSmallest(s, j)
  {
    SortSeqSortsAndPermutes(s);
  }
}

/** `std::nth_element` on a segment of an array. */
module Selection {
  import opened OrderStatistics

  /**
   * Rearranges a[lo..hi] so that a[k] holds the value it would have if
   * the segment were sorted, nothing before it is larger and nothing
   * after it is smaller. Realised here as k-lo+1 passes of selection
   * sort; the rest of the array is untouched.
   */
  method NthElement(a: array<real>, lo: nat, k: nat, hi: nat)
    requires lo <= k < hi <= a.Length
    modifies a
    ensures multiset(a[lo..hi]) == multiset(old(a[lo..hi]))
    ensures a[..lo] == old(a[..lo]) && a[hi..] == old(a[hi..])
    ensures forall i :: lo <= i < k ==> a[i] <= a[k]
    ensures forall i :: k < i < hi ==> a[k] <= a[i]
    ensures a[k] == KthSmallest(old(a[lo..hi]), k - lo)
  {
    ghost var seg := a[lo..hi];
    var i := lo;
    while i <= k
      invariant lo <= i <= k + 1
      invariant multiset(a[lo..hi]) == multiset(seg)
      invariant a[..lo] == old(a[..lo]) && a[hi..] == old(a[hi..])
      invariant SelectedUpTo(a[..], lo, i, hi)
    {
      var m := IndexOfLeast(a, i, hi);
      ghost var before := a[..];
      Swap(a, i, m);
      SwapInSegment(before, lo, i, m, hi);
      SelectionStep(before, a[..], lo, i, m, hi);
      i := i + 1;
    }
    SelectedIsSmallest(a[..], seg, lo, k, hi);
  }

  /**
   * a[lo..i] is sorted and no element of it exceeds an element of
   * a[i..hi]: the state after i - lo passes of selection sort.
   */
  ghost predicate SelectedUpTo(s: seq<real>, lo: nat, i: nat, hi: nat)
    requires lo <= i <= hi <= |s|
  {
    && Sorted(s[lo..i])
    && forall x, y :: lo <= x < i <= y < hi ==> s[x] <= s[y]
  }

  lemma SelectionStep(s: seq<real>, t: seq<real>, lo: nat, i: nat, m: nat, hi: nat)
    requires lo <= i <= m < hi <= |s|
    requires SelectedUpTo(s, lo, i, hi)
    requires forall y :: i <= y < hi ==> s[m] <= s[y]
    requires t == s[i := s[m]][m := s[i]]
    ensures SelectedUpTo(t, lo, i + 1, hi)
  {
    forall x, y | lo <= x < y < i + 1 ensures t[x] <= t[y] {
      if y < i {
        assert s[lo..i][x - lo] <= s[lo..i][y - lo];
      } else {
        assert s[x] <= s[m];
      }
    }
    forall x, y | lo <= x < i + 1 <= y < hi ensures t[x] <= t[y] {
      if y == m {
        assert t[y] == s[i];
      }
    }
  }

  lemma SelectedIsSmallest(s: seq<real>, seg: seq<real>, lo: nat, k: nat, hi: nat)
    requires lo <= k < hi <= |s|
    requires SelectedUpTo(s, lo, k + 1, hi)
    requires multiset(s[lo..hi]) == multiset(seg)
    ensures k - lo < |seg| && KthSmallest(seg, k - lo) == s[k]
    ensures forall i :: lo <= i < k ==> s[i] <= s[k]
    ensures forall i :: k < i < hi ==> s[k] <= s[i]
  {
    var p := s[lo..k + 1];
    assert |seg| == |multiset(seg)| == |multiset(s[lo..hi])| == hi - lo;
    assert s[lo..hi] == p + s[k + 1..hi];
    SortedPrefixIsSmallest(p, multiset(s[k + 1..hi]), seg, k - lo);
  }

  /** Position of a least element of a[from..to]. */
  method IndexOfLeast(a: array<real>, from: nat, to: nat) returns (m: nat)
    requires from < to <= a.Length
    ensures from <= m < to
    ensures forall t :: from <= t < to ==> a[m] <= a[t]
  {
    m := from;
    var j := from + 1;
    while j < to
      invariant from <= m < j <= to
      invariant forall t :: from <= t < j ==> a[m] <= a[t]
    {
      if a[j] < a[m] {
        m := j;
      }
      j := j + 1;
    }
  }

  /** Exchanges a[i] and a[j]. */
  method Swap(a: array<real>, i: nat, j: nat)
    requires i < a.Length && j < a.Length
    modifies a
    ensures a[..] == old(a[..])[i := old(a[j])][j := old(a[i])]
  {
    a[i], a[j] := a[j], a[i];
  }

  /** Exchanging two elements of s[lo..hi] permutes that segment and leaves the rest alone. */
  lemma SwapInSegment(s: seq<real>, lo: nat, i: nat, j: nat, hi: nat)
    requires lo <= i < hi && lo <= j < hi && hi <= |s|
    ensures var t := s[i := s[j]][j := s[i]];
      && multiset(t[lo..hi]) == multiset(s[lo..hi])
      && t[..lo] == s[..lo] && t[hi..] == s[hi..]
  {
    var t := s[i := s[j]][j := s[i]];
    var seg := s[lo..hi];
    assert t[lo..hi] == seg[i - lo := seg[j - lo]][j - lo := seg[i - lo]];
  }
}
