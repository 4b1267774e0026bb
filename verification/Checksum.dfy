/** The summing loop of `checksum` in EXAMS/30.01.2023/server.c: bytes are signed, the
    sum is reduced with C's `%` after every read, and reads may be short. */
module Checksum {
  import opened CInts

  const BUFSIZ := 8192
  const MODULUS := 1000

  /** A signed `char`. */
  predicate IsByte(b: int) {
    -128 <= b <= 127
  }

  /** What the successive calls of read return, up to the one that returns 0. */
  predicate Reads(chunks: seq<seq<int>>) {
    forall i :: 0 <= i < |chunks| ==> 0 < |chunks[i]| <= BUFSIZ && Bytes(chunks[i])
  }

  predicate Bytes(bs: seq<int>) {
    forall k :: 0 <= k < |bs| ==> IsByte(bs[k])
  }

  function Sum(bs: seq<int>): int {
    if bs == [] then 0 else Sum(bs[..|bs| - 1]) + bs[|bs| - 1]
  }

  /** The bytes of the file. */
  function Whole(chunks: seq<seq<int>>): seq<int> {
    if chunks == [] then [] else Whole(chunks[..|chunks| - 1]) + chunks[|chunks| - 1]
  }

  function Digest(chunks: seq<seq<int>>): int {
    if chunks == [] then 0
    else TruncRem(Digest(chunks[..|chunks| - 1]) + Sum(chunks[|chunks| - 1]), MODULUS)
  }

  /** Lines 146-153. */
  method SumFile(chunks: seq<seq<int>>) returns (sum: int)
    ensures sum == Digest(chunks)
  {
    sum := 0;
    var n := 0;
    while n < |chunks|
      invariant 0 <= n <= |chunks|
      invariant sum == Digest(chunks[..n])
    {
      var buffer := chunks[n];
      var i := 0;
      while i < |buffer|
        invariant 0 <= i <= |buffer|
        invariant sum == Digest(chunks[..n]) + Sum(buffer[..i])
      {
        sum := sum + buffer[i];
        assert buffer[..i + 1][..i] == buffer[..i];
        i := i + 1;
      }
      sum := TruncRem(sum, MODULUS);
      assert buffer[..i] == buffer && chunks[..n + 1][..n] == chunks[..n];
      n := n + 1;
    }
    assert chunks[..n] == chunks;
  }

  lemma {:induction false} SumAppend(a: seq<int>, b: seq<int>)
    ensures Sum(a + b) == Sum(a) + Sum(b)
  {
    if b == [] {
      assert a + b == a;
    } else {
      assert (a + b)[..|a + b| - 1] == a + b[..|b| - 1];
      SumAppend(a, b[..|b| - 1]);
    }
  }

  /** A byte counts for itself; with `SumAppend`, the sum is the sum. */
  lemma SumOne(b: int)
    ensures Sum([]) == 0 && Sum([b]) == b
  {
    assert [b][..0] == [];
  }

  /** One more read: its sum is added, and a multiple of 1000 taken away that leaves less
      than 1000 of the same sign. */
  lemma DigestOneMore(chunks: seq<seq<int>>, last: seq<int>) returns (q: int)
    ensures Digest([]) == 0 && Whole([]) == [] && Whole(chunks + [last]) == Whole(chunks) + last
    ensures
      var all := Digest(chunks) + Sum(last);
      && Digest(chunks + [last]) == all - MODULUS * q
      && (all >= 0 ==> 0 <= Digest(chunks + [last]) < MODULUS)
      && (all <= 0 ==> -MODULUS < Digest(chunks + [last]) <= 0)
  {
    assert (chunks + [last])[..|chunks|] == chunks;
    q := TruncRemIs(Digest(chunks) + Sum(last), MODULUS);
  }

  /** However the bytes are divided into reads, the digest is congruent to their sum
      modulo 1000, and smaller than 1000 in magnitude. */
  lemma {:induction false} DigestCongruent(chunks: seq<seq<int>>) returns (q: int)
    ensures Sum(Whole(chunks)) == MODULUS * q + Digest(chunks)
    ensures -MODULUS < Digest(chunks) < MODULUS
  {
    if chunks == [] {
      q := 0;
    } else {
      var n := |chunks| - 1;
      q := DigestCongruent(chunks[..n]);
      SumAppend(Whole(chunks[..n]), chunks[n]);
      assert Sum(Whole(chunks)) == Sum(Whole(chunks[..n])) + Sum(chunks[n]);
      var more := TruncRemIs(Digest(chunks[..n]) + Sum(chunks[n]), MODULUS);
      q := q + more;
    }
  }

  // ---------------------------------------------------------------------------
  // When the division into reads does not matter
  // ---------------------------------------------------------------------------

  /** All bytes of the file are among `bytes`. */
  predicate Over(chunks: seq<seq<int>>, bytes: set<int>) {
    forall i, k :: 0 <= i < |chunks| && 0 <= k < |chunks[i]| ==> chunks[i][k] in bytes
  }

  predicate Signed(x: int, negative: bool) {
    if negative then x <= 0 else x >= 0
  }

  predicate OneSign(chunks: seq<seq<int>>, negative: bool) {
    forall i, k :: 0 <= i < |chunks| && 0 <= k < |chunks[i]| ==> Signed(chunks[i][k], negative)
  }

  lemma {:induction false} SumSign(bs: seq<int>, negative: bool)
    requires forall k :: 0 <= k < |bs| ==> Signed(bs[k], negative)
    ensures Signed(Sum(bs), negative)
  {
    if bs == [] {
    } else {
      SumSign(bs[..|bs| - 1], negative);
    }
  }

  lemma RemOfSum(a: int, b: int, negative: bool)
    requires Signed(a, negative) && Signed(b, negative)
    ensures TruncRem(TruncRem(a, MODULUS) + b, MODULUS) == TruncRem(a + b, MODULUS)
  {
    if negative {
      NaturalRemOfSum(-a, -b);
    } else {
      NaturalRemOfSum(a, b);
    }
  }

  lemma NaturalRemOfSum(a: nat, b: nat)
    ensures (a % MODULUS + b) % MODULUS == (a + b) % MODULUS
  {
    var q := a / MODULUS;
    assert a + b == a % MODULUS + b + MODULUS * q;
  }

  /** The last read. */
  lemma LastRead(chunks: seq<seq<int>>)
    requires chunks != []
    ensures
      var before, last := chunks[..|chunks| - 1], chunks[|chunks| - 1];
      && Sum(Whole(chunks)) == Sum(Whole(before)) + Sum(last)
      && Digest(chunks) == TruncRem(Digest(before) + Sum(last), MODULUS)
  {
    SumAppend(Whole(chunks[..|chunks| - 1]), chunks[|chunks| - 1]);
  }

  lemma OneSignStep(d: int, a: int, b: int, negative: bool)
    requires d == TruncRem(a, MODULUS) && Signed(a, negative) && Signed(b, negative)
    ensures TruncRem(d + b, MODULUS) == TruncRem(a + b, MODULUS) && Signed(a + b, negative)
  {
    RemOfSum(a, b, negative);
  }

  /** With bytes of one sign the digest is the sum reduced once. */
  lemma {:induction false} OneSignDigest(chunks: seq<seq<int>>, negative: bool)
    requires OneSign(chunks, negative)
    ensures Digest(chunks) == TruncRem(Sum(Whole(chunks)), MODULUS)
    ensures Signed(Sum(Whole(chunks)), negative)
  {
    if chunks == [] {
    } else {
      var before, last := chunks[..|chunks| - 1], chunks[|chunks| - 1];
      OneSignDigest(before, negative);
      SumSign(last, negative);
      LastRead(chunks);
      OneSignStep(Digest(before), Sum(Whole(before)), Sum(last), negative);
    }
  }

  /** Copies of `b` whose sum passes `limit` by less than one copy. */
  lemma {:induction false} Pile(b: int, limit: int) returns (bs: seq<int>)
    requires b > 0 && limit > -b
    ensures forall k :: 0 <= k < |bs| ==> bs[k] == b
    ensures limit <= Sum(bs) < limit + b && |bs| <= if limit > 0 then limit else 0
    decreases if limit > 0 then limit else 0
  {
    if limit <= 0 {
      bs := [];
    } else {
      bs := Pile(b, limit - b);
      bs := bs + [b];
    }
  }

  lemma {:induction false} SumNegated(bs: seq<int>, neg: seq<int>)
    requires |neg| == |bs| && forall k :: 0 <= k < |bs| ==> neg[k] == -bs[k]
    ensures Sum(neg) == -Sum(bs)
  {
    if bs == [] {
    } else {
      SumNegated(bs[..|bs| - 1], neg[..|bs| - 1]);
    }
  }

  /** With bytes of both signs some file is summed differently when it is read in two
      pieces: the first reaches 1000 and is reduced, the second makes the sum
      negative. */
  lemma MixedSignsMatter(p: int, n: int) returns (first: seq<int>, second: seq<int>)
    requires IsByte(p) && IsByte(n) && n < 0 < p
    ensures Over([first, second], {p, n}) && Over([first + second], {p, n})
    ensures Reads([first, second]) && Reads([first + second])
    ensures Digest([first, second]) < 0 < Digest([first + second])
  {
    first := Pile(p, MODULUS);
    var r := Sum(first) - MODULUS;
    var up := Pile(-n, r + 1);
    second := seq(|up|, _ => n);
    SumNegated(up, second);
    SumAppend(first, second);
    assert [first, second][..1] == [first] && [first][..0] == [] && [first + second][..0] == [];
    assert Digest([first]) == r;
  }

  lemma WholeOfTwo(first: seq<int>, second: seq<int>)
    ensures Whole([first, second]) == first + second == Whole([first + second])
  {
    assert [first, second][..1] == [first] && [first][..0] == [] && [first + second][..0] == [];
    assert Whole([first]) == first;
  }

  /** Bytes that cannot have both signs. */
  ghost predicate NotMixed(bytes: set<int>) {
    forall p, n :: p in bytes && n in bytes ==> !(n < 0 < p)
  }

  lemma NotMixedOneSign(bytes: set<int>, chunks: seq<seq<int>>, negative: bool)
    requires NotMixed(bytes) && Over(chunks, bytes) && (negative <==> exists n :: n in bytes && n < 0)
    ensures OneSign(chunks, negative)
  {
  }

  lemma NotMixedIndependent(bytes: set<int>, a: seq<seq<int>>, b: seq<seq<int>>)
    requires NotMixed(bytes) && Over(a, bytes) && Over(b, bytes) && Whole(a) == Whole(b)
    ensures Digest(a) == Digest(b)
  {
    var negative := exists n :: n in bytes && n < 0;
    NotMixedOneSign(bytes, a, negative);
    NotMixedOneSign(bytes, b, negative);
    OneSignDigest(a, negative);
    OneSignDigest(b, negative);
  }

  /** The division of a file into reads never matters, exactly when its bytes cannot
      have both signs. */
  lemma DigestIndependentIff(bytes: set<int>)
    requires forall b :: b in bytes ==> IsByte(b)
    ensures NotMixed(bytes) <==>
      forall a, b :: Reads(a) && Reads(b) && Over(a, bytes) && Over(b, bytes) && Whole(a) == Whole(b) ==>
        Digest(a) == Digest(b)
  {
    if NotMixed(bytes) {
      forall a, b | Reads(a) && Reads(b) && Over(a, bytes) && Over(b, bytes) && Whole(a) == Whole(b)
        ensures Digest(a) == Digest(b)
      {
        NotMixedIndependent(bytes, a, b);
      }
    } else {
      var p, n :| p in bytes && n in bytes && n < 0 < p;
      var first, second := MixedSignsMatter(p, n);
      WholeOfTwo(first, second);
      assert Over([first, second], bytes) && Over([first + second], bytes);
    }
  }

  /** Bytes that are all at most 0: the digest is minus the remainder of the opposite sum. */
  lemma NegativeDigest(chunks: seq<seq<int>>)
    requires OneSign(chunks, true)
    ensures Digest(chunks) == -((-Sum(Whole(chunks))) % MODULUS)
  {
    OneSignDigest(chunks, true);
    OppositeRemainder(Sum(Whole(chunks)));
  }

  lemma OppositeRemainder(a: int)
    requires a <= 0
    ensures TruncRem(a, MODULUS) == -((-a) % MODULUS)
  {
  }

  /** Bytes that are all non-negative: the digest is the byte sum modulo 1000. */
  lemma PlainDigest(chunks: seq<seq<int>>)
    requires OneSign(chunks, false)
    ensures Digest(chunks) == Sum(Whole(chunks)) % MODULUS
  {
    OneSignDigest(chunks, false);
  }
}
