/** serial_fgrep.c and parallel_fgrep.c: one scan of the whole mapping against four
    scans of overlapping chunks of it. A `char *` into the mapping is an offset. */
module Fgrep {
  import opened CInts
  import opened Greedy

  const NUM_THREADS := 4

  datatype Params = Params(start: nat, size: nat)

  // ---------------------------------------------------------------------------
  // Splitting the mapping
  // ---------------------------------------------------------------------------

  function ChunkSize(size: nat): nat {
    (size + NUM_THREADS - 1) / NUM_THREADS
  }

  /** Size of the last chunk; the subtraction is on `size_t`. */
  function LastSize(size: nat): nat {
    var rest := SizeT(size - 3 * ChunkSize(size));
    if ChunkSize(size) < rest then ChunkSize(size) else rest
  }

  /** The chunk is clipped: the last one is too small to hold a pattern. */
  predicate Clipped(size: nat, m: nat) {
    SizeT(m - 1) > LastSize(size)
  }

  /** The four chunks of a mapping of `size` bytes for a pattern of `m` bytes. */
  function Chunks(size: nat, m: nat): seq<Params> {
    var cs := ChunkSize(size);
    var wide := SizeT(cs + m - 1);
    [ Params(0, wide),
      Params(cs, wide),
      Params(2 * cs, if Clipped(size, m) then SizeT(cs + LastSize(size)) else wide),
      Params(3 * cs, LastSize(size)) ]
  }

  /** split_file_mapping: fills the parameter table, then patches its third row. */
  method SplitFileMapping(size: nat, stringSize: nat, thParams: array<Params>)
    requires thParams.Length == NUM_THREADS
    modifies thParams
    ensures thParams[..] == Chunks(size, stringSize)
  {
    var chunkSize := (size + NUM_THREADS - 1) / NUM_THREADS;
    ghost var wide := SizeT(chunkSize + stringSize - 1);
    var i := 0;
    while i < NUM_THREADS - 1
      invariant 0 <= i <= NUM_THREADS - 1
      invariant i >= 1 ==> thParams[0] == Params(0, wide)
      invariant i >= 2 ==> thParams[1] == Params(chunkSize, wide)
      invariant i >= 3 ==> thParams[2] == Params(2 * chunkSize, wide)
    {
      thParams[i] := Params(i * chunkSize, SizeT(chunkSize + stringSize - 1));
      i := i + 1;
    }
    var rest := SizeT(size - i * chunkSize);
    thParams[i] := Params(i * chunkSize, if chunkSize < rest then chunkSize else rest);
    if SizeT(stringSize - 1) > thParams[i].size {
      thParams[i - 1] := Params(thParams[i - 1].start, SizeT(chunkSize + thParams[i].size));
    }
  }

  /** What `count` needs of its arguments: the chunk lies in the mapping, the
      pattern is not empty (or the scan never advances) and the number of start
      positions does not wrap around. */
  predicate Scannable(size: nat, m: nat, c: Params) {
    c.start + c.size <= size && 1 <= m <= c.size + 1
  }

  /** The chunk size is the least that lets four chunks cover the mapping. */
  lemma ChunkSizeIsLeast(size: nat)
    ensures 4 * ChunkSize(size) >= size
    ensures forall n: nat :: 4 * n >= size ==> n >= ChunkSize(size)
  {
  }

  /** Whatever the size and the branch: each chunk starts a chunk size after the one
      before and reaches `m - 1` bytes into the next, but the third of a clipped mapping
      ends with the last; the last ends with the mapping, or after a chunk size if it
      starts beyond. */
  lemma ChunksReach(size: nat, m: nat)
    requires size < UINT_RANGE && 1 <= m < UINT_RANGE
    ensures
      var c, cs := Chunks(size, m), ChunkSize(size);
      && |c| == NUM_THREADS && c[0].start == 0
      && (forall k :: 0 <= k < 3 ==> c[k + 1].start == c[k].start + cs)
      && (forall k :: 0 <= k < 2 ==> c[k].start + c[k].size == c[k + 1].start + m - 1)
      && c[2].start + c[2].size == c[3].start + (if m - 1 > c[3].size then c[3].size else m - 1)
      && c[3].start + c[3].size == (if c[3].start <= size then size else c[3].start + cs)
  {
    var c := Chunks(size, m);
    forall k | 0 <= k < 3
      ensures c[k + 1].start == c[k].start + ChunkSize(size)
    {
      assert k == 0 || k == 1 || k == 2;
    }
  }

  /** Every chunk but the last has all its windows inside the mapping. */
  predicate Splittable(size: nat, m: nat) {
    1 <= m && 3 * ChunkSize(size) + m - 1 <= size
  }

  /** The four scans are well defined exactly when the mapping is large enough; in
      particular the clipped branch always leaves a last chunk that is not. */
  lemma SplitIsSafeIff(size: nat, m: nat)
    requires size < UINT_RANGE && m < UINT_RANGE
    ensures (forall k :: 0 <= k < NUM_THREADS ==> Scannable(size, m, Chunks(size, m)[k])) <==> Splittable(size, m)
    ensures Splittable(size, m) ==> !Clipped(size, m)
  {
    var c := Chunks(size, m);
    if Splittable(size, m) {
      assert LastSize(size) == size - 3 * ChunkSize(size);
    } else if m >= 1 {
      assert !Scannable(size, m, c[3]) by {
        assert 3 * ChunkSize(size) <= size ==> LastSize(size) == size - 3 * ChunkSize(size);
      }
    } else {
      assert !Scannable(size, m, c[0]);
    }
  }

  /** Rounding the chunk size up overshoots the mapping for three sizes only. */
  lemma ThreeChunksFit(size: nat)
    ensures 3 * ChunkSize(size) <= size <==> size !in {1, 2, 5}
  {
  }

  /** The window of `m` bytes at `s` lies in the chunk. */
  predicate Holds(c: Params, s: nat, m: nat) {
    c.start <= s && s + m <= c.start + c.size
  }

  /** Chunk `k` is the only one that holds the window at `s`. */
  predicate HeldOnlyBy(cs: seq<Params>, k: nat, s: nat, m: nat) {
    k < |cs| && Holds(cs[k], s, m) && forall j :: 0 <= j < |cs| && j != k ==> !Holds(cs[j], s, m)
  }

  /** As geometry, both branches are right: whenever the first two chunks fit, all
      four lie in the mapping and every window lies in exactly one of them. */
  lemma WindowsArePartitioned(size: nat, m: nat, s: nat)
    requires size < UINT_RANGE && 1 <= m && s + m <= size
    requires 3 * ChunkSize(size) <= size && 2 * ChunkSize(size) + m - 1 <= size
    ensures forall k :: 0 <= k < NUM_THREADS ==> Chunks(size, m)[k].start + Chunks(size, m)[k].size <= size
    ensures exists k :: HeldOnlyBy(Chunks(size, m), k, s, m)
  {
    var c, cs := Chunks(size, m), ChunkSize(size);
    assert LastSize(size) == size - 3 * cs;
    var k := if s < cs then 0 else if s < 2 * cs then 1
             else if s < 3 * cs || Clipped(size, m) then 2 else 3;
    assert HeldOnlyBy(c, k, s, m);
  }

  // ---------------------------------------------------------------------------
  // Counting
  // ---------------------------------------------------------------------------

  /** memcmp of the pattern with the bytes of `mem` at `at`. */
  method Equal(what: array<char>, mem: array<char>, at: nat) returns (equal: bool)
    requires at + what.Length <= mem.Length
    ensures equal <==> at in Occurrences(mem[..], what[..])
  {
    equal := mem[at..at + what.Length] == what[..];
    assert mem[at..at + what.Length] == mem[..][at..at + what.Length];
    InOccurrences(mem[..], what[..], at);
  }

  /** count, on the `whereSize` bytes of `mem` from `base`. */
  method Count(what: array<char>, mem: array<char>, base: nat, whereSize: nat) returns (total: nat)
    requires Scannable(mem.Length, what.Length, Params(base, whereSize)) && mem.Length < UINT_RANGE
    ensures total == Scan(Occurrences(mem[..], what[..]), what.Length, base, base + whereSize - what.Length + 1)
  {
    var i: nat := 0;
    total := 0;
    ghost var hits, m, e := Occurrences(mem[..], what[..]), what.Length, base + whereSize - what.Length + 1;
    while i < SizeT(whereSize - what.Length + 1)
      invariant total <= i <= whereSize
      invariant total + Scan(hits, m, base + i, e) == Scan(hits, m, base, e)
      decreases whereSize - i
    {
      var equal := Equal(what, mem, base + i);
      if equal {
        total := U32(total + 1);
        i := U32(i + what.Length);
      } else {
        i := U32(i + 1);
      }
    }
  }

  function Serial(text: seq<char>, pat: seq<char>): nat
    requires |pat| >= 1
  {
    Scan(Occurrences(text, pat), |pat|, 0, |text| - |pat| + 1)
  }

  function ScanOfChunk(hits: set<int>, m: nat, c: Params): nat
    requires m >= 1
  {
    Scan(hits, m, c.start, c.start + c.size - m + 1)
  }

  function SumOfScans(hits: set<int>, m: nat, cs: seq<Params>): nat
    requires m >= 1
  {
    if cs == [] then 0
    else SumOfScans(hits, m, cs[..|cs| - 1]) + ScanOfChunk(hits, m, cs[|cs| - 1])
  }

  function Parallel(text: seq<char>, pat: seq<char>): nat
    requires |pat| >= 1
  {
    SumOfScans(Occurrences(text, pat), |pat|, Chunks(|text|, |pat|))
  }

  /** For every file and every pattern that is not empty, the serial total is the largest
      number of non-overlapping occurrences. */
  lemma SerialIsMost(text: seq<char>, pat: seq<char>)
    requires |pat| >= 1
    ensures MostMatches(text, pat, Serial(text, pat))
  {
    WholeScanIsMost(text, pat);
  }

  /** main of serial_fgrep.c. */
  method SerialFgrep(what: array<char>, mem: array<char>) returns (total: nat)
    requires 1 <= what.Length <= mem.Length + 1 && mem.Length < UINT_RANGE
    ensures MostMatches(mem[..], what[..], total)
    ensures total == Serial(mem[..], what[..])
  {
    total := Count(what, mem, 0, mem.Length);
    SerialIsMost(mem[..], what[..]);
  }

  /** main of parallel_fgrep.c: split, one scan per thread, sum of the results. */
  method ParallelFgrep(what: array<char>, mem: array<char>) returns (total: nat)
    requires Splittable(mem.Length, what.Length) && mem.Length < UINT_RANGE
    ensures total == Parallel(mem[..], what[..])
    ensures Serial(mem[..], what[..]) <= total <= Serial(mem[..], what[..]) + 3
  {
    var thParams := new Params[NUM_THREADS](_ => Params(0, 0));
    SplitFileMapping(mem.Length, what.Length, thParams);
    SplitIsSafeIff(mem.Length, what.Length);
    ghost var cs, hits := thParams[..], Occurrences(mem[..], what[..]);
    var results := new nat[NUM_THREADS](_ => 0);
    var i := 0;
    while i < NUM_THREADS
      invariant 0 <= i <= NUM_THREADS && thParams[..] == cs
      invariant forall k :: 0 <= k < i ==> results[k] == ScanOfChunk(hits, what.Length, cs[k])
    {
      assert thParams[i] == cs[i];
      results[i] := Count(what, mem, thParams[i].start, thParams[i].size);
      i := i + 1;
    }
    total := 0;
    i := 0;
    while i < NUM_THREADS
      invariant 0 <= i <= NUM_THREADS
      invariant total == SumOfScans(hits, what.Length, cs[..i])
    {
      total := total + results[i];
      assert cs[..i + 1][..i] == cs[..i];
      i := i + 1;
    }
    assert cs[..i] == cs;
    ParallelGap(mem[..], what[..]);
  }

  // ---------------------------------------------------------------------------
  // Parallel against serial
  // ---------------------------------------------------------------------------

  /** How much the thread that starts at `b` counts beyond the thread before it,
      whose scan from `i` would have gone on at a later position. */
  function Overcount(hits: set<int>, m: nat, i: nat, b: nat, e: int): int
    requires m >= 1
  {
    Scan(hits, m, b, e) - Scan(hits, m, Resume(hits, m, i, b), e)
  }

  lemma OvercountIsZeroOrOne(hits: set<int>, m: nat, i: nat, b: nat, e: int)
    requires m >= 1 && i <= b <= e
    ensures 0 <= Overcount(hits, m, i, b, e) <= 1
    ensures Scan(hits, m, i, b) + Scan(hits, m, b, e) == Scan(hits, m, i, e) + Overcount(hits, m, i, b, e)
  {
    ScanSplit(hits, m, i, b, e);
    ScanShift(hits, m, b, Resume(hits, m, i, b), e);
  }

  /** Four scans of consecutive ranges, three of them of `cs` start positions. */
  function FourScans(hits: set<int>, m: nat, cs: nat, e: int): nat
    requires m >= 1
  {
    Scan(hits, m, 0, cs) + Scan(hits, m, cs, 2 * cs) + Scan(hits, m, 2 * cs, 3 * cs) + Scan(hits, m, 3 * cs, e)
  }

  /** The matches gained at the three boundaries. */
  function Gained(hits: set<int>, m: nat, cs: nat, e: int): seq<int>
    requires m >= 1
  {
    [Overcount(hits, m, 0, cs, e), Overcount(hits, m, cs, 2 * cs, e), Overcount(hits, m, 2 * cs, 3 * cs, e)]
  }

  lemma ParallelIsFourScans(text: seq<char>, pat: seq<char>)
    requires |text| < UINT_RANGE && Splittable(|text|, |pat|)
    ensures Parallel(text, pat) == FourScans(Occurrences(text, pat), |pat|, ChunkSize(|text|), |text| - |pat| + 1)
  {
    SplittableChunks(|text|, |pat|);
    SumOfFourScans(Occurrences(text, pat), |pat|, Chunks(|text|, |pat|));
  }

  lemma SplittableChunks(size: nat, m: nat)
    requires size < UINT_RANGE && Splittable(size, m)
    ensures
      var cs := ChunkSize(size);
      Chunks(size, m) == [Params(0, cs + m - 1), Params(cs, cs + m - 1), Params(2 * cs, cs + m - 1),
                          Params(3 * cs, size - 3 * cs)]
  {
    assert LastSize(size) == size - 3 * ChunkSize(size);
  }

  lemma SumOfFourScans(hits: set<int>, m: nat, c: seq<Params>)
    requires m >= 1 && |c| == 4
    ensures SumOfScans(hits, m, c) == ScanOfChunk(hits, m, c[0]) + ScanOfChunk(hits, m, c[1])
                                      + ScanOfChunk(hits, m, c[2]) + ScanOfChunk(hits, m, c[3])
  {
    assert c[..3][..2] == c[..2] && c[..2][..1] == c[..1] && c[..1][..0] == [];
    assert SumOfScans(hits, m, c[..1]) == ScanOfChunk(hits, m, c[0]);
    assert SumOfScans(hits, m, c[..2]) == SumOfScans(hits, m, c[..1]) + ScanOfChunk(hits, m, c[1]);
    assert SumOfScans(hits, m, c[..3]) == SumOfScans(hits, m, c[..2]) + ScanOfChunk(hits, m, c[2]);
  }

  lemma FourScansGap(hits: set<int>, m: nat, cs: nat, e: int)
    requires m >= 1 && 3 * cs <= e
    ensures
      var g := Gained(hits, m, cs, e);
      && FourScans(hits, m, cs, e) == Scan(hits, m, 0, e) + g[0] + g[1] + g[2]
      && forall k :: 0 <= k < 3 ==> 0 <= g[k] <= 1
  {
    OvercountIsZeroOrOne(hits, m, 0, cs, e);
    OvercountIsZeroOrOne(hits, m, cs, 2 * cs, e);
    OvercountIsZeroOrOne(hits, m, 2 * cs, 3 * cs, e);
  }

  /** The parallel total exceeds the serial one by what is gained at the boundaries,
      at most one match at each; the two programs agree on a file exactly when no
      restart gains a match over carrying on. */
  lemma ParallelGap(text: seq<char>, pat: seq<char>)
    requires |text| < UINT_RANGE && Splittable(|text|, |pat|)
    ensures
      var g := Gained(Occurrences(text, pat), |pat|, ChunkSize(|text|), |text| - |pat| + 1);
      && Parallel(text, pat) == Serial(text, pat) + g[0] + g[1] + g[2]
      && (Parallel(text, pat) == Serial(text, pat) <==> forall k :: 0 <= k < 3 ==> g[k] == 0)
    ensures Serial(text, pat) <= Parallel(text, pat) <= Serial(text, pat) + 3
  {
    ParallelIsFourScans(text, pat);
    FourScansGap(Occurrences(text, pat), |pat|, ChunkSize(|text|), |text| - |pat| + 1);
  }

  /** Without a border both totals are the number of occurrences. */
  lemma BorderlessTotalsAgree(text: seq<char>, pat: seq<char>)
    requires |text| < UINT_RANGE && Splittable(|text|, |pat|) && Borderless(pat)
    ensures Parallel(text, pat) == Serial(text, pat) == |Occurrences(text, pat)|
  {
    var hits, e := Occurrences(text, pat), |text| - |pat| + 1;
    ParallelIsFourScans(text, pat);
    BorderlessApart(text, pat);
    ApartFourScans(hits, |pat|, ChunkSize(|text|), e);
    ApartScanCountsAll(hits, |pat|, 0, e);
    OccurrencesBetween(text, pat);
  }

  lemma ApartFourScans(hits: set<int>, m: nat, cs: nat, e: int)
    requires m >= 1 && Apart(hits, m) && 3 * cs <= e
    ensures FourScans(hits, m, cs, e) == Scan(hits, m, 0, e)
  {
    ApartScanSplit(hits, m, 0, cs, e);
    ApartScanSplit(hits, m, cs, 2 * cs, e);
    ApartScanSplit(hits, m, 2 * cs, 3 * cs, e);
  }

  lemma OccurrencesBetween(text: seq<char>, pat: seq<char>)
    ensures Between(Occurrences(text, pat), 0, |text| - |pat| + 1) == Occurrences(text, pat)
  {
    forall k | k in Occurrences(text, pat)
      ensures 0 <= k < |text| - |pat| + 1
    {
      InOccurrences(text, pat, k);
    }
  }

  const NUL: char := 0 as char

  function Nuls(n: nat): seq<char> {
    seq(n, _ => NUL)
  }

  /** A file with two occurrences of `pat` that share a border of length `b`, placed
      on either side of the first chunk boundary. */
  function SplitOccurrences(pat: seq<char>, b: nat): seq<char>
    requires 0 < b < |pat|
  {
    Nuls(|pat| - 1) + pat + pat[b..] + Nuls(|pat| + b)
  }

  lemma SplitOccurrencesFound(pat: seq<char>, b: nat)
    requires Border(pat, b)
    ensures
      var text, m := SplitOccurrences(pat, b), |pat|;
      |text| == 4 * m - 1 && Occurs(text, pat, m - 1) && Occurs(text, pat, 2 * m - 1 - b)
  {
  }

  lemma SplitOccurrencesOnly(pat: seq<char>, b: nat, k: int)
    requires 0 < b < |pat| && NUL !in pat && Occurs(SplitOccurrences(pat, b), pat, k)
    ensures |pat| - 1 <= k <= 2 * |pat| - 1 - b
  {
    OccursWithin(SplitOccurrences(pat, b), pat, k);
  }

  lemma OccursWithin(text: seq<char>, pat: seq<char>, k: int)
    requires |pat| >= 1 && Occurs(text, pat, k)
    ensures text[k] in pat && text[k + |pat| - 1] in pat
  {
  }

  /** A pair of overlapping hits on either side of the first boundary. */
  predicate SplitPair(hits: set<int>, m: nat, b: nat) {
    m - 1 in hits && 2 * m - 1 - b in hits && forall k :: k in hits ==> m - 1 <= k < 2 * m - 1
  }

  lemma SplitPairCountedTwice(hits: set<int>, m: nat, b: nat)
    requires 0 < b < m && SplitPair(hits, m, b)
    ensures FourScans(hits, m, m, 3 * m) > Scan(hits, m, 0, 3 * m)
  {
    OneScanHit(hits, m, 0, m - 1, m);
    OneScanHit(hits, m, m, 2 * m - 1 - b, 2 * m);
    NoSecondHit(hits, m, 0, m - 1, 3 * m);
  }

  lemma SplitOccurrencesPair(pat: seq<char>, b: nat)
    requires Border(pat, b) && NUL !in pat
    ensures SplitPair(Occurrences(SplitOccurrences(pat, b), pat), |pat|, b)
  {
    var m, hits := |pat|, Occurrences(SplitOccurrences(pat, b), pat);
    SplitOccurrencesIn(pat, b);
    forall k | k in hits
      ensures m - 1 <= k < 2 * m - 1
    {
      InOccurrences(SplitOccurrences(pat, b), pat, k);
      SplitOccurrencesOnly(pat, b, k);
    }
  }

  lemma SplitOccurrencesIn(pat: seq<char>, b: nat)
    requires Border(pat, b)
    ensures
      var m, hits := |pat|, Occurrences(SplitOccurrences(pat, b), pat);
      m - 1 in hits && 2 * m - 1 - b in hits
  {
    SplitOccurrencesFound(pat, b);
    InOccurrences(SplitOccurrences(pat, b), pat, |pat| - 1);
    InOccurrences(SplitOccurrences(pat, b), pat, 2 * |pat| - 1 - b);
  }

  /** On that file the first thread and the second both count one occurrence, where
      the serial scan counts one in all. */
  lemma BorderIsCountedTwice(pat: seq<char>, b: nat)
    requires Border(pat, b) && NUL !in pat && |pat| <= 0x4000_0000
    ensures
      var text := SplitOccurrences(pat, b);
      |text| == 4 * |pat| - 1 && Splittable(|text|, |pat|) && Parallel(text, pat) > Serial(text, pat)
  {
    var text := SplitOccurrences(pat, b);
    assert |text| == 4 * |pat| - 1;
    assert ChunkSize(|text|) == |pat|;
    ParallelIsFourScans(text, pat);
    SplitOccurrencesPair(pat, b);
    SplitPairCountedTwice(Occurrences(text, pat), |pat|, b);
  }

  /** A scan that starts at or before an occurrence counts something. */
  lemma {:induction false} OneScanHit(hits: set<int>, m: nat, i: nat, k: int, e: int)
    requires m >= 1 && k in hits && i <= k < e
    ensures Scan(hits, m, i, e) >= 1
    decreases k - i
  {
    if i in hits {
    } else {
      OneScanHit(hits, m, i + 1, k, e);
    }
  }

  /** A scan counts at most one of occurrences that all overlap. */
  lemma NoSecondHit(hits: set<int>, m: nat, i: nat, lo: int, e: int)
    requires m >= 1 && forall k :: k in hits ==> lo <= k < lo + m
    ensures Scan(hits, m, i, e) <= 1
  {
    var s := ScanIsPacking(hits, m, i, e);
    if x :| x in s {
      assert forall y :: y in s ==> lo <= y < lo + m;
      assert s == {x};
    } else {
      assert forall x :: x !in s;
      assert s == {};
    }
  }

  /** For a pattern of more than 1 GiB no file is large enough and small enough. */
  lemma TooLongToSplit(size: nat, m: nat)
    requires m > 0x4000_0000 && size < UINT_RANGE
    ensures !Splittable(size, m)
  {
  }

  /** The exact condition: the parallel program agrees with the serial one on every
      file it can split if and only if the pattern has no border (or is so long that
      there is no such file). The pattern is a program argument, so it contains no NUL. */
  lemma AgreeOnEveryFileIffBorderless(pat: seq<char>)
    requires |pat| >= 1 && NUL !in pat
    ensures Borderless(pat) || |pat| > 0x4000_0000 <==>
      forall text: seq<char> :: |text| < UINT_RANGE && Splittable(|text|, |pat|) ==>
        Parallel(text, pat) == Serial(text, pat)
  {
    if Borderless(pat) || |pat| > 0x4000_0000 {
      forall text: seq<char> | |text| < UINT_RANGE && Splittable(|text|, |pat|)
        ensures Parallel(text, pat) == Serial(text, pat)
      {
        if |pat| > 0x4000_0000 {
          TooLongToSplit(|text|, |pat|);
        } else {
          BorderlessTotalsAgree(text, pat);
        }
      }
    } else {
      var b :| 0 < b < |pat| && Border(pat, b);
      BorderIsCountedTwice(pat, b);
      var text := SplitOccurrences(pat, b);
      assert |text| < UINT_RANGE && Splittable(|text|, |pat|) && Parallel(text, pat) != Serial(text, pat);
    }
  }

  // ---------------------------------------------------------------------------
  // Three matches gained
  // ---------------------------------------------------------------------------

  /** Two occurrences of `pat` that share a border of length `b`, filled up to twice its
      length. */
  function OverlapBlock(pat: seq<char>, b: nat): (r: seq<char>)
    requires 0 < b < |pat|
    ensures |r| == 2 * |pat|
  {
    pat + pat[b..] + Nuls(b)
  }

  /** A file whose chunks are as long as a block, with a block on either side of each of
      the three boundaries. */
  function ThreeOverlaps(pat: seq<char>, b: nat): (r: seq<char>)
    requires 0 < b < |pat|
    ensures |r| == 8 * |pat|
  {
    Nuls(2 * |pat| - 1) + OverlapBlock(pat, b) + OverlapBlock(pat, b) + OverlapBlock(pat, b) + Nuls(1)
  }

  /** Where block `k` starts. */
  function BlockStart(m: nat, k: nat): int {
    if k == 1 then 2 * m - 1 else if k == 2 then 4 * m - 1 else 6 * m - 1
  }

  lemma BlocksOfThreeOverlaps(pat: seq<char>, b: nat, k: nat)
    requires 0 < b < |pat| && 1 <= k <= 3
    ensures 0 <= BlockStart(|pat|, k) && BlockStart(|pat|, k) + 2 * |pat| <= 8 * |pat|
    ensures ThreeOverlaps(pat, b)[BlockStart(|pat|, k)..][..2 * |pat|] == OverlapBlock(pat, b)
  {
    var m, block := |pat|, OverlapBlock(pat, b);
    var text := ThreeOverlaps(pat, b);
    if k == 1 {
      assert text[2 * m - 1..][..2 * m] == block;
    } else if k == 2 {
      assert text[4 * m - 1..][..2 * m] == block;
    } else {
      assert text[6 * m - 1..][..2 * m] == block;
    }
  }

  lemma OverlapBlockOccurrences(pat: seq<char>, b: nat)
    requires Border(pat, b)
    ensures OverlapBlock(pat, b)[..|pat|] == pat
    ensures OverlapBlock(pat, b)[|pat| - b..][..|pat|] == pat
  {
    var m := |pat|;
    assert OverlapBlock(pat, b)[m - b..][..m] == pat[m - b..] + pat[b..];
    assert pat[..b] + pat[b..] == pat;
  }

  /** A block contributes an occurrence at its start and one that overlaps it. */
  lemma ThreeOverlapsFound(pat: seq<char>, b: nat, k: nat)
    requires Border(pat, b) && 1 <= k <= 3
    ensures Occurs(ThreeOverlaps(pat, b), pat, BlockStart(|pat|, k))
    ensures Occurs(ThreeOverlaps(pat, b), pat, BlockStart(|pat|, k) + |pat| - b)
  {
    var m, text, p := |pat|, ThreeOverlaps(pat, b), BlockStart(|pat|, k);
    BlocksOfThreeOverlaps(pat, b, k);
    OverlapBlockOccurrences(pat, b);
    assert text[p..p + m] == text[p..][..2 * m][..m];
    assert text[p + m - b..p + m - b + m] == text[p..][..2 * m][m - b..][..m];
  }

  lemma WindowInPattern(text: seq<char>, pat: seq<char>, i: int, x: int)
    requires Occurs(text, pat, i) && i <= x < i + |pat|
    ensures text[x] in pat
  {
    assert text[x] == text[i..i + |pat|][x - i];
  }

  lemma GapOfThreeOverlaps(pat: seq<char>, b: nat, k: nat)
    requires 0 < b < |pat| && 1 <= k <= 3
    ensures BlockStart(|pat|, k) >= 0
    ensures forall x :: BlockStart(|pat|, k) + 2 * |pat| - b <= x < BlockStart(|pat|, k) + 2 * |pat| ==>
      x < 8 * |pat| && ThreeOverlaps(pat, b)[x] == NUL
  {
    BlocksOfThreeOverlaps(pat, b, k);
    var m, text, p := |pat|, ThreeOverlaps(pat, b), BlockStart(|pat|, k);
    forall x | p + 2 * m - b <= x < p + 2 * m
      ensures text[x] == NUL
    {
      assert text[x] == text[p..][..2 * m][x - p];
    }
  }

  /** An occurrence in block `k` starts no later than the second of its pair. */
  lemma ThreeOverlapsOnly(pat: seq<char>, b: nat, i: int) returns (k: nat)
    requires 0 < b < |pat| && NUL !in pat && Occurs(ThreeOverlaps(pat, b), pat, i)
    ensures 1 <= k <= 3 && BlockStart(|pat|, k) <= i <= BlockStart(|pat|, k) + |pat| - b
  {
    var m, text := |pat|, ThreeOverlaps(pat, b);
    WindowInPattern(text, pat, i, i);
    assert i >= 2 * m - 1;
    k := if i < BlockStart(m, 2) then 1 else if i < BlockStart(m, 3) then 2 else 3;
    GapOfThreeOverlaps(pat, b, k);
    var gap := BlockStart(m, k) + 2 * m - b;
    if i + m > gap {
      WindowInPattern(text, pat, i, if i < gap then gap else i);
    }
  }

  /** A scan counts one of a cluster of hits that all overlap. */
  lemma {:induction false} ScanCluster(hits: set<int>, m: nat, i: nat, hi: int, next: nat, e: int)
    requires m >= 1 && i <= hi < i + m && hi + m <= next && hi < e
    requires hi in hits && forall x :: x in hits && i <= x < next ==> x <= hi
    ensures Scan(hits, m, i, e) == 1 + Scan(hits, m, next, e)
    decreases hi - i
  {
    if i in hits {
      ScanSkip(hits, m, i + m, next, e);
    } else {
      ScanCluster(hits, m, i + 1, hi, next, e);
    }
  }

  /** The hits are three clusters, each of which extends over a boundary of chunks of
      length `2 * m`. */
  predicate ThreeClusters(hits: set<int>, m: nat, b: nat) {
    && 2 * m - 1 in hits && 3 * m - 1 - b in hits
    && 4 * m - 1 in hits && 5 * m - 1 - b in hits
    && 6 * m - 1 in hits && 7 * m - 1 - b in hits
    && forall x :: x in hits ==>
         2 * m - 1 <= x <= 3 * m - 1 - b || 4 * m - 1 <= x <= 5 * m - 1 - b || 6 * m - 1 <= x <= 7 * m - 1 - b
  }

  lemma ClustersOfThreeOverlaps(pat: seq<char>, b: nat)
    requires Border(pat, b) && NUL !in pat
    ensures ThreeClusters(Occurrences(ThreeOverlaps(pat, b), pat), |pat|, b)
  {
    var hits, m := Occurrences(ThreeOverlaps(pat, b), pat), |pat|;
    forall x | x in hits
      ensures 2 * m - 1 <= x <= 3 * m - 1 - b || 4 * m - 1 <= x <= 5 * m - 1 - b || 6 * m - 1 <= x <= 7 * m - 1 - b
    {
      InOccurrences(ThreeOverlaps(pat, b), pat, x);
      var k := ThreeOverlapsOnly(pat, b, x);
    }
    PairInHits(pat, b, 1);
    PairInHits(pat, b, 2);
    PairInHits(pat, b, 3);
  }

  lemma PairInHits(pat: seq<char>, b: nat, k: nat)
    requires Border(pat, b) && 1 <= k <= 3
    ensures
      var hits, p := Occurrences(ThreeOverlaps(pat, b), pat), BlockStart(|pat|, k);
      p in hits && p + |pat| - b in hits
  {
    ThreeOverlapsFound(pat, b, k);
    InOccurrences(ThreeOverlaps(pat, b), pat, BlockStart(|pat|, k));
    InOccurrences(ThreeOverlaps(pat, b), pat, BlockStart(|pat|, k) + |pat| - b);
  }

  lemma SerialCountsClusters(hits: set<int>, m: nat, b: nat)
    requires 0 < b < m && ThreeClusters(hits, m, b)
    ensures Scan(hits, m, 0, 7 * m + 1) == 3
  {
    var e := 7 * m + 1;
    ScanSkip(hits, m, 0, 2 * m - 1, e);
    ScanCluster(hits, m, 2 * m - 1, 3 * m - 1 - b, 4 * m - 1, e);
    ScanCluster(hits, m, 4 * m - 1, 5 * m - 1 - b, 6 * m - 1, e);
    ScanCluster(hits, m, 6 * m - 1, 7 * m - 1 - b, 8 * m, e);
  }

  lemma ThreadsCountClusters(hits: set<int>, m: nat, b: nat)
    requires 0 < b < m && ThreeClusters(hits, m, b)
    ensures FourScans(hits, m, 2 * m, 7 * m + 1) == 6
  {
    ScanSkip(hits, m, 0, 2 * m - 1, 2 * m);
    ScanCluster(hits, m, 2 * m, 3 * m - 1 - b, 4 * m - 1, 4 * m);
    ScanCluster(hits, m, 4 * m, 5 * m - 1 - b, 6 * m - 1, 6 * m);
    ScanCluster(hits, m, 6 * m, 7 * m - 1 - b, 8 * m, 7 * m + 1);
  }

  /** The upper bound is reached by every pattern with a border: three boundaries, three
      matches gained. */
  lemma ThreeExtraMatches(pat: seq<char>, b: nat)
    requires Border(pat, b) && NUL !in pat && |pat| < 0x2000_0000
    ensures
      var text := ThreeOverlaps(pat, b);
      && |text| < UINT_RANGE && Splittable(|text|, |pat|)
      && Serial(text, pat) == 3 && Parallel(text, pat) == 6
  {
    var text, m := ThreeOverlaps(pat, b), |pat|;
    assert ChunkSize(|text|) == 2 * m;
    ParallelIsFourScans(text, pat);
    ClustersOfThreeOverlaps(pat, b);
    SerialCountsClusters(Occurrences(text, pat), m, b);
    ThreadsCountClusters(Occurrences(text, pat), m, b);
  }
}
