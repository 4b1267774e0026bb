/** The slice loop of planner.c, lines 102-126: a quantum is subtracted from an `unsigned
    int` until nothing is left. After how many turns it stops, and whether it does. */
module Slices {
  import opened CInts

  /** What is left after `k` subtractions. */
  function SliceAfter(slice: nat, q: nat, k: nat): nat
    decreases k
  {
    if k == 0 then slice else SliceAfter(U32(slice - q), q, k - 1)
  }

  /** The loop stops after some number of turns. */
  ghost predicate Stops(slice: nat, q: nat) {
    exists k :: SliceAfter(slice, q, k) == 0
  }

  /** The turns until nothing is left, looked for among the first `k`. */
  function TurnsWithin(slice: nat, q: nat, k: nat): (n: nat)
    requires SliceAfter(slice, q, k) == 0
    ensures n <= k && SliceAfter(slice, q, n) == 0
    decreases k
  {
    if slice == 0 then 0 else 1 + TurnsWithin(U32(slice - q), q, k - 1)
  }

  lemma {:induction false} TurnsWithinIsLeast(slice: nat, q: nat, k: nat, j: nat)
    requires SliceAfter(slice, q, k) == 0 && SliceAfter(slice, q, j) == 0
    ensures TurnsWithin(slice, q, k) <= j
    decreases k
  {
    if slice == 0 {
    } else {
      TurnsWithinIsLeast(U32(slice - q), q, k - 1, j - 1);
    }
  }

  /** The turns the loop takes, if it stops. */
  ghost function Needed(slice: nat, q: nat): nat {
    if Stops(slice, q) then
      var k: nat :| SliceAfter(slice, q, k) == 0;
      TurnsWithin(slice, q, k)
    else 0
  }

  /** The loop stops at the first turn that leaves nothing. */
  lemma NeededIsLeast(slice: nat, q: nat, j: nat)
    requires SliceAfter(slice, q, j) == 0
    ensures Needed(slice, q) <= j && SliceAfter(slice, q, Needed(slice, q)) == 0
  {
    var k: nat :| SliceAfter(slice, q, k) == 0 && Needed(slice, q) == TurnsWithin(slice, q, k);
    TurnsWithinIsLeast(slice, q, k, j);
  }

  lemma NeededNone(q: nat)
    ensures Stops(0, q) && Needed(0, q) == 0
  {
    assert SliceAfter(0, q, 0) == 0;
    NeededIsLeast(0, q, 0);
  }

  /** One turn is one turn less. */
  lemma NeededStep(slice: nat, q: nat)
    requires slice > 0 && Stops(slice, q)
    ensures Stops(U32(slice - q), q)
    ensures Needed(slice, q) == 1 + Needed(U32(slice - q), q)
  {
    var rest := U32(slice - q);
    var k: nat :| SliceAfter(slice, q, k) == 0;
    assert SliceAfter(rest, q, k - 1) == 0;
    NeededIsLeast(slice, q, k);
    var n := Needed(slice, q);
    assert SliceAfter(rest, q, n - 1) == 0;
    NeededIsLeast(rest, q, n - 1);
    assert SliceAfter(slice, q, 1 + Needed(rest, q)) == 0;
    NeededIsLeast(slice, q, 1 + Needed(rest, q));
  }

  // ---------------------------------------------------------------------------
  // Slices the quantum divides
  // ---------------------------------------------------------------------------

  /** The slice is a whole number of quanta. */
  predicate Whole(slice: nat, q: nat)
    requires q > 0
  {
    slice == 0 || (slice >= q && Whole(slice - q, q))
  }

  function Quanta(slice: nat, q: nat): nat
    requires q > 0
  {
    if slice < q then 0 else 1 + Quanta(slice - q, q)
  }

  lemma {:induction false} WholeIsDivision(slice: nat, q: nat)
    requires q > 0
    ensures Whole(slice, q) <==> slice % q == 0
    ensures Quanta(slice, q) == slice / q
  {
    if slice >= q {
      WholeIsDivision(slice - q, q);
      DivisionStep(slice, q);
    } else {
      DivisionBase(slice, q);
    }
  }

  lemma DivisionBase(a: nat, q: nat)
    requires a < q
    ensures a / q == 0 && a % q == a
  {
  }

  lemma DivisionStep(a: nat, q: nat)
    requires a >= q > 0
    ensures a / q == (a - q) / q + 1 && a % q == (a - q) % q
  {
    var d, r := (a - q) / q, (a - q) % q;
    DivisionUnique(a, q, d + 1, r);
  }

  lemma DivisionUnique(a: nat, q: nat, d: int, r: int)
    requires q > 0 && 0 <= r < q && a == d * q + r
    ensures a / q == d && a % q == r
  {
    var x := a / q;
    if x > d {
      MultipleApart(x, d, q);
    } else if x < d {
      MultipleApart(d, x, q);
    }
  }

  lemma {:induction false} MultipleApart(x: int, d: int, q: nat)
    requires x > d
    ensures x * q >= d * q + q
    decreases x - d
  {
    if x == d + 1 {
    } else {
      MultipleApart(x - 1, d, q);
    }
  }

  lemma {:induction false} SliceAfterExact(slice: nat, q: nat, k: nat)
    requires slice < UINT_RANGE && q > 0 && k <= Quanta(slice, q)
    ensures SliceAfter(slice, q, k) <= slice
    ensures Quanta(SliceAfter(slice, q, k), q) == Quanta(slice, q) - k
    ensures Whole(SliceAfter(slice, q, k), q) <==> Whole(slice, q)
    decreases k
  {
    if k == 0 {
    } else {
      SliceAfterExact(slice - q, q, k - 1);
    }
  }

  lemma {:induction false} SliceAfterNext(slice: nat, q: nat, k: nat)
    ensures SliceAfter(slice, q, k + 1) == U32(SliceAfter(slice, q, k) - q)
    decreases k
  {
    if k == 0 {
      assert SliceAfter(U32(slice - q), q, 0) == U32(slice - q);
    } else {
      SliceAfterNext(U32(slice - q), q, k - 1);
    }
  }

  /** The loop is meant to stop once the slice is covered by quanta. It runs at
      least `slice / q` times, and is done then exactly when the quantum divides the
      slice; otherwise the next subtraction wraps around and the loop goes on. */
  lemma {:induction false} StopsInTimeIff(slice: nat, q: nat, k: nat)
    requires 0 < slice < UINT_RANGE && 0 < q < UINT_RANGE
    ensures k < slice / q ==> SliceAfter(slice, q, k) > 0
    ensures SliceAfter(slice, q, slice / q) == 0 <==> slice % q == 0
    ensures slice % q != 0 ==> SliceAfter(slice, q, slice / q + 1) > UINT_RANGE - q
  {
    var n := Quanta(slice, q);
    WholeIsDivision(slice, q);
    SliceAfterExact(slice, q, n);
    SliceAfterNext(slice, q, n);
    if k < n {
      SliceAfterExact(slice, q, k);
    }
  }

  /** A slice that is a whole number of quanta takes that number of turns. */
  lemma WholeNeedsQuotient(slice: nat, q: nat)
    requires slice < UINT_RANGE && 0 < q && slice % q == 0
    ensures Stops(slice, q) && Needed(slice, q) == slice / q
  {
    var n := Quanta(slice, q);
    WholeIsDivision(slice, q);
    SliceAfterExact(slice, q, n);
    NeededIsLeast(slice, q, n);
    SliceAfterExact(slice, q, Needed(slice, q));
  }

  // ---------------------------------------------------------------------------
  // Any slice
  // ---------------------------------------------------------------------------

  function Gcd(a: nat, b: nat): (g: nat)
    ensures a > 0 || b > 0 ==> g > 0
    decreases b
  {
    if b == 0 then a else Gcd(b, a % b)
  }

  lemma Distribute(a: int, b: int, c: int)
    ensures (a + b) * c == a * c + b * c
  {
  }

  lemma Associate(a: int, b: int, c: int)
    ensures (a * b) * c == a * (b * c)
  {
  }

  lemma BezoutStep(b: int, n: int, r: int, x: int, y: int)
    ensures (b * n + r) * y + b * (x - n * y) == b * x + r * y
  {
    Distribute(b * n, r, y);
    Associate(b, n, y);
    Distribute(x, -(n * y), b);
  }

  lemma DivisorStep(g: int, n: int, c: int, d: int)
    ensures g * (n * c + d) == (g * c) * n + g * d
  {
    Distribute(n * c, d, g);
    Associate(g, c, n);
  }

  /** Euclid's algorithm: a common divisor that is a combination of both numbers. */
  lemma {:induction false} Bezout(a: nat, b: nat) returns (x: int, y: int, c: nat, d: nat)
    ensures a * x + b * y == Gcd(a, b)
    ensures a == Gcd(a, b) * c && b == Gcd(a, b) * d
    decreases b
  {
    if b == 0 {
      x, y, c, d := 1, 0, 1, 0;
    } else {
      var n, r := a / b, a % b;
      var x', y', c', d' := Bezout(b, r);
      x, y, c, d := y', x' - n * y', n * c' + d', c';
      assert a == b * n + r;
      BezoutStep(b, n, r, x', y');
      DivisorStep(Gcd(b, r), n, c', d');
    }
  }

  /** After `k` turns the slice and what is left differ by `k` quanta and a multiple of
      the range of an `unsigned int`. */
  lemma {:induction false} SliceCongruent(slice: nat, q: nat, k: nat) returns (w: int)
    requires slice < UINT_RANGE
    ensures SliceAfter(slice, q, k) == slice - k * q + UINT_RANGE * w
    ensures SliceAfter(slice, q, k) < UINT_RANGE
    decreases k
  {
    if k == 0 {
      w := 0;
    } else {
      var v := SliceCongruent(U32(slice - q), q, k - 1);
      w := v - (slice - q) / UINT_RANGE;
      Distribute(k - 1, 1, q);
    }
  }

  lemma RangeMultiple(v: int, w: int)
    requires v == UINT_RANGE * w && 0 <= v < UINT_RANGE
    ensures v == 0
  {
  }

  lemma Multiple(a: nat, m: int, g: nat)
    requires g > 0 && a == m * g
    ensures a % g == 0
  {
    DivisionUnique(a, g, m, 0);
  }

  lemma CommonDivisor(slice: nat, q: nat, k: nat, w: int, g: nat, c: nat, d: nat)
    requires slice == k * q - UINT_RANGE * w
    requires g > 0 && q == g * c && UINT_RANGE == g * d
    ensures slice % g == 0
  {
    Associate(g, c, k);
    Associate(g, d, w);
    Distribute(c * k, -(d * w), g);
    Multiple(slice, c * k - d * w, g);
  }

  /** What divides the quantum and the range divides every slice that stops. */
  lemma StopsOnlyIf(slice: nat, q: nat, k: nat)
    requires slice < UINT_RANGE && SliceAfter(slice, q, k) == 0
    ensures slice % Gcd(q, UINT_RANGE) == 0
  {
    var w := SliceCongruent(slice, q, k);
    var x, y, c, d := Bezout(q, UINT_RANGE);
    CommonDivisor(slice, q, k, w, Gcd(q, UINT_RANGE), c, d);
  }

  lemma TakeResidue(t: int) returns (e: int, k: nat)
    ensures t == UINT_RANGE * e + k
  {
    e, k := t / UINT_RANGE, t % UINT_RANGE;
  }

  lemma ResidueQuanta(q: nat, e: int, k: nat)
    ensures q * (UINT_RANGE * e + k) == k * q + UINT_RANGE * (e * q)
  {
    Distribute(UINT_RANGE * e, k, q);
    Associate(UINT_RANGE, e, q);
  }

  /** A combination of the quantum and the range stops. */
  lemma CombinationStops(slice: nat, q: nat, t: int, y: int)
    requires slice < UINT_RANGE && slice == q * t + UINT_RANGE * y
    ensures Stops(slice, q)
  {
    var e, k := TakeResidue(t);
    ResidueQuanta(q, e, k);
    var w := SliceCongruent(slice, q, k);
    RangeMultiple(SliceAfter(slice, q, k), e * q + y + w);
  }

  lemma MultipleOfCombination(q: nat, x: int, y: int, m: int)
    ensures (q * x + UINT_RANGE * y) * m == q * (x * m) + UINT_RANGE * (y * m)
  {
    Distribute(q * x, UINT_RANGE * y, m);
    Associate(q, x, m);
    Associate(UINT_RANGE, y, m);
  }

  lemma MultipleStops(slice: nat, q: nat, g: nat, x: int, y: int, m: nat)
    requires slice < UINT_RANGE && g == q * x + UINT_RANGE * y && slice == g * m
    ensures Stops(slice, q)
  {
    MultipleOfCombination(q, x, y, m);
    CombinationStops(slice, q, x * m, y * m);
  }

  lemma ExactQuotient(a: nat, g: nat)
    requires g > 0 && a % g == 0
    ensures a == g * (a / g)
  {
  }

  lemma StopsIf(slice: nat, q: nat)
    requires slice < UINT_RANGE && slice % Gcd(q, UINT_RANGE) == 0
    ensures Stops(slice, q)
  {
    ExactQuotient(slice, Gcd(q, UINT_RANGE));
    var x, y, c, d := Bezout(q, UINT_RANGE);
    MultipleStops(slice, q, Gcd(q, UINT_RANGE), x, y, slice / Gcd(q, UINT_RANGE));
  }

  /** The exact condition: the loop stops, wrapping around or not, if and only if the
      greatest common divisor of the quantum and 2^32 divides the slice. */
  lemma StopsIff(slice: nat, q: nat)
    requires slice < UINT_RANGE
    ensures Stops(slice, q) <==> slice % Gcd(q, UINT_RANGE) == 0
  {
    if k: nat :| SliceAfter(slice, q, k) == 0 {
      StopsOnlyIf(slice, q, k);
    }
    if slice % Gcd(q, UINT_RANGE) == 0 {
      StopsIf(slice, q);
    }
  }

  // ---------------------------------------------------------------------------
  // How long the loop runs
  // ---------------------------------------------------------------------------

  lemma SameResidue(q: nat, d: nat, e: nat, r: nat, c: nat)
    requires d * q == UINT_RANGE * c
    ensures (d * e + r) * q == r * q + UINT_RANGE * (e * c)
  {
    Distribute(d * e, r, q);
    Associate(e, d, q);
    Associate(e, UINT_RANGE, c);
  }

  lemma SameRest(slice: int, a: int, b: int, t: int, w: int, w': int, v: int)
    requires a == b + UINT_RANGE * t && slice - a + UINT_RANGE * w == 0
    requires v == slice - b + UINT_RANGE * w' && 0 <= v < UINT_RANGE
    ensures v == 0
  {
    RangeMultiple(v, t - w + w');
  }

  /** `d` quanta are a multiple of the range, so `d` turns more make no difference. */
  lemma TurnsRepeat(slice: nat, q: nat, e: nat, r: nat, d: nat, c: nat)
    requires slice < UINT_RANGE && SliceAfter(slice, q, d * e + r) == 0
    requires d * q == UINT_RANGE * c
    ensures SliceAfter(slice, q, r) == 0
  {
    var w := SliceCongruent(slice, q, d * e + r);
    var w' := SliceCongruent(slice, q, r);
    SameResidue(q, d, e, r, c);
    SameRest(slice, (d * e + r) * q, r * q, e * c, w, w', SliceAfter(slice, q, r));
  }

  lemma Cofactors(g: nat, c: nat, d: nat, q: nat)
    requires q == g * c && UINT_RANGE == g * d
    ensures d > 0 && d * q == UINT_RANGE * c
  {
    Associate(d, g, c);
  }

  lemma BelowCofactor(n: nat, g: nat, d: nat)
    requires n < d && g > 0 && UINT_RANGE == g * d
    ensures n * g < UINT_RANGE
  {
    Distribute(n, d - n, g);
    Positive(d - n, g);
  }

  lemma Positive(a: int, b: int)
    requires a > 0 && b > 0
    ensures a * b > 0
  {
  }

  lemma DivideTurns(k: nat, d: nat) returns (e: nat, r: nat)
    requires d > 0
    ensures k == d * e + r && r < d
  {
    e, r := k / d, k % d;
  }

  lemma NeededBelow(slice: nat, q: nat, d: nat, c: nat)
    requires slice < UINT_RANGE && Stops(slice, q)
    requires d > 0 && d * q == UINT_RANGE * c
    ensures Needed(slice, q) < d
  {
    var k: nat :| SliceAfter(slice, q, k) == 0;
    var e, r := DivideTurns(k, d);
    TurnsRepeat(slice, q, e, r, d, c);
    NeededIsLeast(slice, q, r);
  }

  /** A loop that stops, wrapping around or not, takes fewer turns than the range divided
      by the greatest common divisor. */
  lemma NeededBound(slice: nat, q: nat)
    requires slice < UINT_RANGE && Stops(slice, q)
    ensures Needed(slice, q) * Gcd(q, UINT_RANGE) < UINT_RANGE
  {
    var x, y, c, d := Bezout(q, UINT_RANGE);
    Cofactors(Gcd(q, UINT_RANGE), c, d, q);
    NeededBelow(slice, q, d, c);
    BelowCofactor(Needed(slice, q), Gcd(q, UINT_RANGE), d);
  }
}
