/** The median of a column as pandas computes it: over a sorted copy of the known values,
    the middle value for an odd count and the mean of the two middle values for an even one. */
module Stats {
  import opened Wrappers

  predicate Sorted(s: seq<real>) {
    forall i, j :: 0 <= i < j < |s| ==> s[i] <= s[j]
  }

  /** Inserts x into a sorted sequence before the first element not below it. */
  function Insert(s: seq<real>, x: real): (r: seq<real>)
    ensures |r| == |s| + 1
    ensures multiset(r) == multiset(s) + multiset{x}
    ensures r[0] == if s == [] || x <= s[0] then x else s[0]
  {
    if s == [] || x <= s[0] then [x] + s
    else
      assert s == [s[0]] + s[1..];
      [s[0]] + Insert(s[1..], x)
  }

  /** Inserting into a sorted sequence keeps it sorted. */
  lemma {:induction false} InsertSorted(s: seq<real>, x: real)
    requires Sorted(s)
    ensures Sorted(Insert(s, x))
  {
    if s != [] && x > s[0] {
      var rest := Insert(s[1..], x);
      InsertSorted(s[1..], x);
      assert s[0] <= rest[0];
      var r := [s[0]] + rest;
      forall i, j | 0 <= i < j < |r| ensures r[i] <= r[j] {
        if i == 0 {
          assert rest[0] <= rest[j - 1];
        } else {
          assert r[i] == rest[i - 1] && r[j] == rest[j - 1];
        }
      }
    }
  }

  /** The sorted copy of the values (insertion sort). */
  function SortedCopy(xs: seq<real>): (r: seq<real>)
    ensures |r| == |xs|
    ensures Sorted(r)
    ensures multiset(r) == multiset(xs)
  {
    if xs == [] then []
    else
      assert xs == [xs[0]] + xs[1..];
      var rest := SortedCopy(xs[1..]);
      InsertSorted(rest, xs[0]);
      Insert(rest, xs[0])
  }

  /** The middle of a sorted column: the middle value for an odd count, the mean of the two
      middle values for an even one. */
  function Middle(s: seq<real>): real
    requires s != []
  {
    var n := |s|;
    if n % 2 == 1 then s[n / 2] else (s[n / 2 - 1] + s[n / 2]) / 2.0
  }

  /** The median; None over an empty column (pandas yields NaN there). */
  function Median(xs: seq<real>): (m: Option<real>)
    ensures m.None? <==> xs == []
  {
    if xs == [] then None else Some(Middle(SortedCopy(xs)))
  }

  /** Number of values at most m. */
  function CountAtMost(xs: seq<real>, m: real): (c: nat)
    ensures c <= |xs|
  {
    if xs == [] then 0 else (if xs[0] <= m then 1 else 0) + CountAtMost(xs[1..], m)
  }

  /** Number of values at least m. */
  function CountAtLeast(xs: seq<real>, m: real): (c: nat)
    ensures c <= |xs|
  {
    if xs == [] then 0 else (if xs[0] >= m then 1 else 0) + CountAtLeast(xs[1..], m)
  }

  lemma {:induction false} InsertCounts(s: seq<real>, x: real, m: real)
    ensures CountAtMost(Insert(s, x), m) == CountAtMost(s, m) + (if x <= m then 1 else 0)
    ensures CountAtLeast(Insert(s, x), m) == CountAtLeast(s, m) + (if x >= m then 1 else 0)
  {
    if s == [] || x <= s[0] {
      assert ([x] + s)[1..] == s;
    } else {
      InsertCounts(s[1..], x, m);
      assert ([s[0]] + Insert(s[1..], x))[1..] == Insert(s[1..], x);
    }
  }

  /** Sorting does not change how many values lie on either side of m. */
  lemma {:induction false} SortedCopyCounts(xs: seq<real>, m: real)
    ensures CountAtMost(SortedCopy(xs), m) == CountAtMost(xs, m)
    ensures CountAtLeast(SortedCopy(xs), m) == CountAtLeast(xs, m)
  {
    if xs != [] {
      SortedCopyCounts(xs[1..], m);
      InsertCounts(SortedCopy(xs[1..]), xs[0], m);
    }
  }

  /** If the first k values are at most m, at least k values are at most m. */
  lemma {:induction false} PrefixAtMost(s: seq<real>, k: nat, m: real)
    requires k <= |s|
    requires forall i :: 0 <= i < k ==> s[i] <= m
    ensures CountAtMost(s, m) >= k
  {
    if k > 0 {
      PrefixAtMost(s[1..], k - 1, m);
    }
  }

  /** If the values from index k on are at least m, at least |s| - k values are at least m. */
  lemma {:induction false} SuffixAtLeast(s: seq<real>, k: nat, m: real)
    requires k <= |s|
    requires forall i :: k <= i < |s| ==> s[i] >= m
    ensures CountAtLeast(s, m) >= |s| - k
  {
    if s != [] {
      SuffixAtLeast(s[1..], if k == 0 then 0 else k - 1, m);
    }
  }

  /** Values at most s[lo - 1] and from s[hi] on at least m split a sorted sequence. */
  lemma SortedSplit(s: seq<real>, lo: nat, hi: nat, m: real)
    requires Sorted(s) && 0 < lo <= |s| && hi < |s|
    requires s[lo - 1] <= m <= s[hi]
    ensures CountAtMost(s, m) >= lo
    ensures CountAtLeast(s, m) >= |s| - hi
  {
    forall i | 0 <= i < lo ensures s[i] <= m {
      assert s[i] <= s[lo - 1];
    }
    forall i | hi <= i < |s| ensures s[i] >= m {
      assert s[hi] <= s[i];
    }
    PrefixAtMost(s, lo, m);
    SuffixAtLeast(s, hi, m);
  }

  /** The middle of a sorted sequence splits it in halves. */
  lemma MiddleSplitsHalves(s: seq<real>)
    requires s != [] && Sorted(s)
    ensures 2 * CountAtMost(s, Middle(s)) >= |s|
    ensures 2 * CountAtLeast(s, Middle(s)) >= |s|
  {
    var n := |s|;
    var mid := n / 2;
    if n % 2 == 1 {
      assert Middle(s) == s[mid];
      SortedSplit(s, mid + 1, mid, s[mid]);
    } else {
      var m := (s[mid - 1] + s[mid]) / 2.0;
      assert Middle(s) == m;
      assert s[mid - 1] <= s[mid];
      SortedSplit(s, mid, mid, m);
    }
  }

  /** The median splits the values in halves: at least half are at most it and at least half
      are at least it. */
  lemma MedianSplitsHalves(xs: seq<real>)
    requires xs != []
    ensures Median(xs).Some?
    ensures 2 * CountAtMost(xs, Median(xs).value) >= |xs|
    ensures 2 * CountAtLeast(xs, Median(xs).value) >= |xs|
  {
    var s := SortedCopy(xs);
    MiddleSplitsHalves(s);
    SortedCopyCounts(xs, Middle(s));
  }

  /** The middle of a sequence lies within any bounds that all its values respect. */
  lemma MiddleWithinBounds(s: seq<real>, lo: real, hi: real)
    requires s != []
    requires forall i :: 0 <= i < |s| ==> lo <= s[i] <= hi
    ensures lo <= Middle(s) <= hi
  {
  }

  /** The median lies within any bounds that all values respect. */
  lemma MedianWithinBounds(xs: seq<real>, lo: real, hi: real)
    requires xs != []
    requires forall i :: 0 <= i < |xs| ==> lo <= xs[i] <= hi
    ensures lo <= Median(xs).value <= hi
  {
    var s := SortedCopy(xs);
    forall k | 0 <= k < |s| ensures lo <= s[k] <= hi {
      assert s[k] in multiset(xs);
    }
    MiddleWithinBounds(s, lo, hi);
  }

  /** The median is at least any lower bound of the values. */
  lemma MedianAtLeast(xs: seq<real>, lo: real)
    requires xs != []
    requires forall x :: x in xs ==> lo <= x
    ensures lo <= Median(xs).value
  {
    var s := SortedCopy(xs);
    forall k | 0 <= k < |s| ensures lo <= s[k] {
      assert s[k] in multiset(xs);
      assert s[k] in xs;
    }
  }

  /** Two sorted sequences with the same values start with the same value. */
  lemma SortedSameHead(a: seq<real>, b: seq<real>)
    requires Sorted(a) && Sorted(b) && a != [] && b != []
    requires multiset(a) == multiset(b)
    ensures a[0] == b[0]
  {
    assert a[0] in multiset(b) && b[0] in multiset(a);
    var j :| 0 <= j < |b| && b[j] == a[0];
    var i :| 0 <= i < |a| && a[i] == b[0];
    assert b[0] <= b[j] && a[0] <= a[i];
  }

  /** Two sorted sequences with the same values are equal. */
  lemma {:induction false} SortedUnique(a: seq<real>, b: seq<real>)
    requires Sorted(a) && Sorted(b)
    requires multiset(a) == multiset(b)
    ensures a == b
  {
    assert |a| == |multiset(a)| == |multiset(b)| == |b|;
    if a != [] {
      SortedSameHead(a, b);
      var a', b' := a[1..], b[1..];
      assert a == [a[0]] + a' && b == [b[0]] + b';
      assert multiset(a) == multiset([a[0]]) + multiset(a');
      assert multiset(b) == multiset([b[0]]) + multiset(b');
      assert multiset(a') == multiset(a) - multiset([a[0]]);
      assert multiset(b') == multiset(b) - multiset([b[0]]);
      assert Sorted(a') && Sorted(b');
      SortedUnique(a', b');
    }
  }

  /** The median is the middle of any sorted arrangement of the values: the middle value for an
      odd count, the mean of the two middle values for an even count. */
  lemma MedianIsMiddleOfSorted(xs: seq<real>, s: seq<real>)
    requires xs != [] && s != [] && Sorted(s) && multiset(s) == multiset(xs)
    ensures Median(xs) == Some(Middle(s))
  {
    SortedUnique(SortedCopy(xs), s);
  }

  /** The median depends only on the values, not on the row order. */
  lemma MedianOfPermutation(xs: seq<real>, ys: seq<real>)
    requires multiset(xs) == multiset(ys)
    ensures Median(xs) == Median(ys)
  {
    assert |xs| == |multiset(xs)| == |multiset(ys)| == |ys|;
    SortedUnique(SortedCopy(xs), SortedCopy(ys));
  }
}
