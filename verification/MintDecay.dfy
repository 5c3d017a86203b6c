/** How much the economy expands when the `x`-th commit pool crosses its threshold, `s` seconds
    after the first one did. */
module MintDecay {
  import opened Base

  const MAX_DECAY_X := 1_000_000_000
  const BASE_AMOUNT := 500_000_000
  const SCALE := 1_000_000

  datatype DecayError = Overflow

  function Numerator(x: nat): nat {
    5 * x * x + x
  }

  function Denominator(s: nat, x: nat): nat {
    s / 6 + 333 * x
  }

  /** `checked_mul` and `checked_add` on 128 bits. */
  function Checked(v: nat): Result<nat, DecayError> {
    if v > U128_MAX then Err(Overflow) else Ok(v)
  }

  function CalculateMintAmount(secondsElapsed: Uint64, poolsCreated: Uint64): Result<nat, DecayError> {
    if poolsCreated > MAX_DECAY_X then Ok(0)
    else
      var five :- Checked(5 * poolsCreated);
      var fiveXSquared :- Checked(five * poolsCreated);
      var numerator :- Checked(fiveXSquared + poolsCreated);
      var sDiv6 := secondsElapsed / 6;
      var product :- Checked(333 * poolsCreated);
      var denominator :- Checked(sDiv6 + product);
      if denominator == 0 then Ok(BASE_AMOUNT)
      else
        var scaled :- Checked(numerator * SCALE);
        var quotient := scaled / denominator;
        if quotient >= BASE_AMOUNT then Ok(0) else Ok(BASE_AMOUNT - quotient)
  }

  /** What is taken off the base amount, before the cut at zero. */
  function Reduction(s: nat, x: nat): nat {
    if Denominator(s, x) == 0 then 0 else Numerator(x) * SCALE / Denominator(s, x)
  }

  function MintAmount(s: nat, x: nat): nat {
    if x > MAX_DECAY_X then 0 else SatSub(BASE_AMOUNT, Reduction(s, x))
  }

  /** No 64-bit input overflows, and the result is the base amount less the reduction, cut at zero
      and cut off entirely past the largest ordinal. */
  lemma MintAmountExact(s: Uint64, x: Uint64)
    ensures CalculateMintAmount(s, x) == Ok(MintAmount(s, x))
    ensures MintAmount(s, x)
            == if x > 1_000_000_000 then 0
               else if s / 6 + 333 * x == 0 then 500_000_000
               else SatSub(500_000_000, (5 * x * x + x) * 1_000_000 / (s / 6 + 333 * x))
  {
    if x <= MAX_DECAY_X {
      MulMono(x, MAX_DECAY_X, x);
      assert x * x <= MAX_DECAY_X * MAX_DECAY_X;
      assert 5 * x * x == 5 * (x * x);
    }
  }

  /** Fractions compare by cross-multiplication, and so do their floors. */
  lemma FloorMonotone(a: nat, b: nat, c: nat, d: nat)
    requires b > 0 && d > 0 && a * d <= c * b
    ensures a / b <= c / d
  {
    var p := a / b;
    DivPins(a, b);
    assert p * d <= c by {
      MulMono(p * b, a, d);
      assert p * b * d == (p * d) * b;
      if c < p * d {
        MulMono(c + 1, p * d, b);
        Distribute(b, c, 1);
      }
    }
    DivAtLeast(c, d, p);
  }

  lemma CrossDifference(n: int, n': int, c: int, x: int)
    ensures n' * (c + 333 * x) - n * (c + 333 * (x + 1)) == (n' - n) * c + 333 * (n' * x - n * (x + 1))
  {
    Distribute(n', c, 333 * x);
    Distribute(n, c, 333 * (x + 1));
    Distribute(c, n' - n, n);
    assert n' * (333 * x) == 333 * (n' * x);
    assert n * (333 * (x + 1)) == 333 * (n * (x + 1));
  }

  lemma CubicTermsCancel(x: int)
    ensures var y := x * x; (5 * y + 11 * x + 6) * x - (5 * y + x) * (x + 1) == 5 * y + 5 * x
  {
    var y := x * x;
    Distribute(x, 5 * y, 11 * x + 6);
    Distribute(x + 1, 5 * y, x);
    Distribute(5 * y, x, 1);
    Distribute(x, x, 1);
    assert x * (11 * x + 6) == 11 * y + 6 * x;
  }

  lemma NumeratorSquares(x: int)
    ensures 5 * x * x + x == 5 * (x * x) + x
    ensures 5 * (x + 1) * (x + 1) + (x + 1) == 5 * (x * x) + 11 * x + 6
  {
  }

  lemma NumeratorGrows(c: nat, x: nat)
    ensures Numerator(x) * (c + 333 * (x + 1)) <= Numerator(x + 1) * (c + 333 * x)
  {
    var n, n' := Numerator(x), Numerator(x + 1);
    NumeratorSquares(x);
    CrossDifference(n, n', c, x);
    CubicTermsCancel(x);
    MulMono(0, n' - n, c);
    MulMono(0, x, x);
  }

  lemma ReductionGrows(s: nat, x: nat)
    ensures Reduction(s, x) <= Reduction(s, x + 1)
  {
    var c := s / 6;
    if Denominator(s, x) > 0 {
      NumeratorGrows(c, x);
      var n, n', d, d' := Numerator(x), Numerator(x + 1), Denominator(s, x), Denominator(s, x + 1);
      MulMono(n * d', n' * d, SCALE);
      assert n * SCALE * d' == n * d' * SCALE && n' * SCALE * d == n' * d * SCALE;
      FloorMonotone(n * SCALE, d, n' * SCALE, d');
    }
  }

  lemma {:induction false} ReductionMonotone(s: nat, x: nat, y: nat)
    requires x <= y
    ensures Reduction(s, x) <= Reduction(s, y)
    decreases y - x
  {
    if x < y {
      ReductionMonotone(s, x, y - 1);
      ReductionGrows(s, y - 1);
    }
  }

  /** Later pools never get more, through the rounding and across the cut-off alike. */
  lemma NonIncreasingInPools(s: nat, x: nat, y: nat)
    requires x <= y
    ensures MintAmount(s, y) <= MintAmount(s, x) <= BASE_AMOUNT
  {
    ReductionMonotone(s, x, y);
  }

  /** More elapsed time never lowers the amount, though a comment in the source says it does. */
  lemma NonDecreasingInTime(s: nat, t: nat, x: nat)
    requires s <= t
    ensures MintAmount(s, x) <= MintAmount(t, x)
  {
    var d, d' := Denominator(s, x), Denominator(t, x);
    var n := Numerator(x) * SCALE;
    if d > 0 {
      MulMono(d, d', n);
      FloorMonotone(n, d', n, d);
    } else {
      assert x == 0 && n == 0;
    }
  }

  /** Within the cut-off the amount is zero exactly when `5x^2 + x >= 500 (s/6 + 333x)`. */
  lemma ZeroExactly(s: nat, x: nat)
    requires 0 < x <= MAX_DECAY_X
    ensures MintAmount(s, x) == 0 <==> 5 * x * x + x >= 500 * (s / 6 + 333 * x)
  {
    var n, d := Numerator(x), Denominator(s, x);
    if n >= 500 * d {
      DivAtLeast(n * SCALE, d, BASE_AMOUNT);
    } else {
      Distribute(d, BASE_AMOUNT, 0);
      DivAtMost(n * SCALE, d, BASE_AMOUNT - 1);
    }
  }

  /** The cut-off itself agrees with the polynomial exactly where that is already zero; a first
      crossing long enough ago makes the two differ. */
  lemma CutOffAgreesExactly(s: nat, x: nat)
    requires x > MAX_DECAY_X
    ensures MintAmount(s, x) == SatSub(BASE_AMOUNT, Reduction(s, x)) <==> 5 * x * x + x >= 500 * (s / 6 + 333 * x)
  {
    var n, d := Numerator(x), Denominator(s, x);
    if n >= 500 * d {
      DivAtLeast(n * SCALE, d, BASE_AMOUNT);
    } else {
      Distribute(d, BASE_AMOUNT, 0);
      DivAtMost(n * SCALE, d, BASE_AMOUNT - 1);
    }
  }

  lemma CutOffCanBite()
    ensures MintAmount(U64_MAX, MAX_DECAY_X + 1) == 0
    ensures SatSub(BASE_AMOUNT, Reduction(U64_MAX, MAX_DECAY_X + 1)) > 0
  {
    CutOffAgreesExactly(U64_MAX, MAX_DECAY_X + 1);
  }
}
