/** The greedy substring scan shared by serial_fgrep.c and parallel_fgrep.c, as a
    function of the positions where the pattern occurs, and what it counts. */
module Greedy {

  /** `pat` occurs in `text` at position `i`. */
  predicate Occurs(text: seq<char>, pat: seq<char>, i: int) {
    0 <= i && i + |pat| <= |text| && text[i..i + |pat|] == pat
  }

  /** The positions below `n` where `pat` occurs, overlapping or not. */
  function OccurrencesBelow(text: seq<char>, pat: seq<char>, n: nat): set<int> {
    if n == 0 then {}
    else OccurrencesBelow(text, pat, n - 1) + if Occurs(text, pat, n - 1) then {n - 1} else {}
  }

  function Occurrences(text: seq<char>, pat: seq<char>): set<int> {
    OccurrencesBelow(text, pat, |text| + 1)
  }

  lemma {:induction false} InOccurrencesBelow(text: seq<char>, pat: seq<char>, n: nat, i: int)
    ensures i in OccurrencesBelow(text, pat, n) <==> i < n && Occurs(text, pat, i)
  {
    if n == 0 {
    } else {
      InOccurrencesBelow(text, pat, n - 1, i);
    }
  }

  lemma InOccurrences(text: seq<char>, pat: seq<char>, i: int)
    ensures i in Occurrences(text, pat) <==> Occurs(text, pat, i)
  {
    InOccurrencesBelow(text, pat, |text| + 1, i);
  }

  /** Matches found by a scan of the start positions `i <= k < e` that jumps `m`
      positions over every hit. */
  function Scan(hits: set<int>, m: nat, i: nat, e: int): nat
    requires m >= 1
    decreases e - i
  {
    if i >= e then 0
    else if i in hits then 1 + Scan(hits, m, i + m, e)
    else Scan(hits, m, i + 1, e)
  }

  /** A scan passes over positions without a hit. */
  lemma {:induction false} ScanSkip(hits: set<int>, m: nat, i: nat, b: nat, e: int)
    requires m >= 1 && i <= b && forall k :: i <= k < b ==> k !in hits
    ensures Scan(hits, m, i, e) == Scan(hits, m, b, e)
    decreases b - i
  {
    if i == b {
    } else {
      ScanSkip(hits, m, i + 1, b, e);
    }
  }

  /** The first position not below `b` that a scan from `i` stops at. */
  function Resume(hits: set<int>, m: nat, i: nat, b: nat): (r: nat)
    requires m >= 1
    ensures r >= b && r >= i
    ensures i <= b ==> r < b + m
    decreases b - i
  {
    if i >= b then i
    else if i in hits then Resume(hits, m, i + m, b)
    else Resume(hits, m, i + 1, b)
  }

  /** A scan can be cut at any position, provided the second part starts where the
      first one stopped. */
  lemma {:induction false} ScanSplit(hits: set<int>, m: nat, i: nat, b: nat, e: int)
    requires m >= 1 && i <= b <= e
    ensures Scan(hits, m, i, e) == Scan(hits, m, i, b) + Scan(hits, m, Resume(hits, m, i, b), e)
    decreases b - i
  {
    if i == b {
    } else if i !in hits {
      ScanSplit(hits, m, i + 1, b, e);
    } else if i + m <= b {
      ScanSplit(hits, m, i + m, b, e);
    }
  }

  /** Moving the start forward by at most one pattern length never gains a match
      and loses at most one. */
  lemma {:induction false} ScanShift(hits: set<int>, m: nat, p: nat, q: nat, e: int)
    requires m >= 1 && p <= q <= p + m
    ensures Scan(hits, m, q, e) <= Scan(hits, m, p, e) <= Scan(hits, m, q, e) + 1
    decreases e - p
  {
    if p >= e || p == q {
    } else if p in hits {
      ScanShift(hits, m, q, p + m, e);
    } else {
      ScanShift(hits, m, p + 1, q, e);
    }
  }

  // ---------------------------------------------------------------------------
  // The scan finds as many non-overlapping occurrences as there are
  // ---------------------------------------------------------------------------

  /** Hits in `[i, e)` no two of which overlap. */
  ghost predicate Packing(s: set<int>, hits: set<int>, m: nat, i: nat, e: int) {
    && s <= hits
    && (forall x :: x in s ==> i <= x < e)
    && (forall x, y :: x in s && y in s && x < y ==> x + m <= y)
  }

  lemma PackingAfter(s: set<int>, hits: set<int>, m: nat, i: nat, e: int, x: int)
    requires m >= 1 && Packing(s, hits, m, i, e) && x in s && x < i + m
    ensures Packing(s - {x}, hits, m, i + m, e) && |s - {x}| == |s| - 1
  {
  }

  /** No packing is larger than the count of the scan. */
  lemma {:induction false} NoLargerPacking(s: set<int>, hits: set<int>, m: nat, i: nat, e: int)
    requires m >= 1 && Packing(s, hits, m, i, e)
    ensures |s| <= Scan(hits, m, i, e)
    decreases e - i
  {
    if i >= e {
      assert forall x :: x !in s;
      assert s == {};
    } else if i !in hits {
      NoLargerPacking(s, hits, m, i + 1, e);
    } else if x :| x in s && x < i + m {
      PackingAfter(s, hits, m, i, e, x);
      NoLargerPacking(s - {x}, hits, m, i + m, e);
    } else {
      NoLargerPacking(s, hits, m, i + m, e);
    }
  }

  /** The positions the scan itself counts form a packing of that size. */
  lemma {:induction false} ScanIsPacking(hits: set<int>, m: nat, i: nat, e: int) returns (s: set<int>)
    requires m >= 1
    ensures Packing(s, hits, m, i, e) && |s| == Scan(hits, m, i, e)
    decreases e - i
  {
    if i >= e {
      s := {};
    } else if i in hits {
      s := ScanIsPacking(hits, m, i + m, e);
      s := s + {i};
    } else {
      s := ScanIsPacking(hits, m, i + 1, e);
    }
  }

  /** The scan returns the maximum size of a set of pairwise non-overlapping
      occurrences. */
  lemma ScanIsMaximum(hits: set<int>, m: nat, i: nat, e: int)
    requires m >= 1
    ensures exists s :: Packing(s, hits, m, i, e) && |s| == Scan(hits, m, i, e)
    ensures forall s :: Packing(s, hits, m, i, e) ==> |s| <= Scan(hits, m, i, e)
  {
    var s := ScanIsPacking(hits, m, i, e);
    forall s | Packing(s, hits, m, i, e)
      ensures |s| <= Scan(hits, m, i, e)
    {
      NoLargerPacking(s, hits, m, i, e);
    }
  }

  /** Positions where `pat` occurs, no two of them overlapping. */
  ghost predicate NonOverlapping(text: seq<char>, pat: seq<char>, s: set<int>) {
    && (forall x :: x in s ==> Occurs(text, pat, x))
    && (forall x, y :: x in s && y in s && x < y ==> x + |pat| <= y)
  }

  /** `n` is the size of the largest sets of non-overlapping occurrences. */
  ghost predicate MostMatches(text: seq<char>, pat: seq<char>, n: nat) {
    && (exists s :: NonOverlapping(text, pat, s) && |s| == n)
    && (forall s :: NonOverlapping(text, pat, s) ==> |s| <= n)
  }

  lemma NonOverlappingIsPacking(text: seq<char>, pat: seq<char>, s: set<int>)
    requires NonOverlapping(text, pat, s)
    ensures Packing(s, Occurrences(text, pat), |pat|, 0, |text| - |pat| + 1)
  {
    forall x | x in s
      ensures x in Occurrences(text, pat)
    {
      InOccurrences(text, pat, x);
    }
  }

  lemma PackingIsNonOverlapping(text: seq<char>, pat: seq<char>, s: set<int>)
    requires Packing(s, Occurrences(text, pat), |pat|, 0, |text| - |pat| + 1)
    ensures NonOverlapping(text, pat, s)
  {
    forall x | x in s
      ensures Occurs(text, pat, x)
    {
      assert x in Occurrences(text, pat);
      InOccurrences(text, pat, x);
    }
  }

  /** A scan of the whole text counts as many occurrences as fit side by side. */
  lemma WholeScanIsMost(text: seq<char>, pat: seq<char>)
    requires |pat| >= 1
    ensures MostMatches(text, pat, Scan(Occurrences(text, pat), |pat|, 0, |text| - |pat| + 1))
  {
    var hits, m, e := Occurrences(text, pat), |pat|, |text| - |pat| + 1;
    var best := ScanIsPacking(hits, m, 0, e);
    PackingIsNonOverlapping(text, pat, best);
    forall s | NonOverlapping(text, pat, s)
      ensures |s| <= Scan(hits, m, 0, e)
    {
      NonOverlappingIsPacking(text, pat, s);
      NoLargerPacking(s, hits, m, 0, e);
    }
  }

  // ---------------------------------------------------------------------------
  // Patterns without a border
  // ---------------------------------------------------------------------------

  /** A proper non-empty prefix of `pat` of length `b` is also its suffix. */
  predicate Border(pat: seq<char>, b: int) {
    0 < b < |pat| && pat[..b] == pat[|pat| - b..]
  }

  predicate Borderless(pat: seq<char>) {
    forall b :: 0 < b < |pat| ==> !Border(pat, b)
  }

  /** No two hits overlap. */
  predicate Apart(hits: set<int>, m: nat) {
    forall x, y :: x in hits && y in hits && x < y ==> x + m <= y
  }

  /** Where two occurrences overlap, the shared part is a border. */
  lemma BorderlessApart(text: seq<char>, pat: seq<char>)
    requires Borderless(pat)
    ensures Apart(Occurrences(text, pat), |pat|)
  {
    var hits := Occurrences(text, pat);
    forall x, y | x in hits && y in hits && x < y
      ensures x + |pat| <= y
    {
      InOccurrences(text, pat, x);
      InOccurrences(text, pat, y);
      if y < x + |pat| {
        OverlapIsBorder(text, pat, x, y);
      }
    }
  }

  lemma OverlapIsBorder(text: seq<char>, pat: seq<char>, x: int, y: int)
    requires Occurs(text, pat, x) && Occurs(text, pat, y) && x < y < x + |pat|
    ensures Border(pat, x + |pat| - y)
  {
  }

  function Between(hits: set<int>, i: int, e: int): set<int> {
    set k | k in hits && i <= k < e
  }

  lemma BetweenHit(hits: set<int>, m: nat, i: nat, e: int)
    requires m >= 1 && Apart(hits, m) && i in hits && i < e
    ensures |Between(hits, i, e)| == 1 + |Between(hits, i + m, e)|
  {
    forall k | k in hits && i < k
      ensures i + m <= k
    {
    }
    assert Between(hits, i, e) == Between(hits, i + m, e) + {i};
  }

  lemma BetweenMiss(hits: set<int>, i: nat, e: int)
    requires i !in hits
    ensures Between(hits, i, e) == Between(hits, i + 1, e)
  {
  }

  /** If no two hits overlap the scan counts every one. */
  lemma {:induction false} ApartScanCountsAll(hits: set<int>, m: nat, i: nat, e: int)
    requires m >= 1 && Apart(hits, m)
    ensures Scan(hits, m, i, e) == |Between(hits, i, e)|
    decreases e - i
  {
    if i >= e {
      assert Between(hits, i, e) == {};
    } else if i in hits {
      ApartScanCountsAll(hits, m, i + m, e);
      BetweenHit(hits, m, i, e);
    } else {
      ApartScanCountsAll(hits, m, i + 1, e);
      BetweenMiss(hits, i, e);
    }
  }

  /** If no two hits overlap it does not matter where a scan is cut. */
  lemma ApartScanSplit(hits: set<int>, m: nat, i: nat, b: nat, e: int)
    requires m >= 1 && Apart(hits, m) && i <= b <= e
    ensures Scan(hits, m, i, e) == Scan(hits, m, i, b) + Scan(hits, m, b, e)
  {
    ApartScanCountsAll(hits, m, i, e);
    ApartScanCountsAll(hits, m, i, b);
    ApartScanCountsAll(hits, m, b, e);
    assert Between(hits, i, e) == Between(hits, i, b) + Between(hits, b, e);
  }
}
