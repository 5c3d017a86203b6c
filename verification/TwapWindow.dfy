/** The time-weighted average over the oracle's observation window. */
module TwapWindow {
  import opened Base

  datatype Observation = Observation(timestamp: Uint64, price: Uint128, atomPoolPrice: Uint128)

  datatype TwapError = InsufficientData | Overflow

  /** Time between two neighbours; an out-of-order pair contributes nothing. */
  function Gap(obs: seq<Observation>, i: nat): nat
    requires 0 < i < |obs|
  {
    SatSub(obs[i].timestamp, obs[i - 1].timestamp)
  }

  /** Mean price of two neighbours. */
  function Mean(obs: seq<Observation>, i: nat): nat
    requires 0 < i < |obs|
  {
    (obs[i].price + obs[i - 1].price) / 2
  }

  /** Sum of mean price times gap over the first `n` observations. */
  function Area(obs: seq<Observation>, n: nat): nat
    requires n <= |obs|
  {
    if n <= 1 then 0 else Area(obs, n - 1) + Times(Mean(obs, n - 1), Gap(obs, n - 1))
  }

  /** Sum of the gaps over the first `n` observations. */
  function Elapsed(obs: seq<Observation>, n: nat): nat
    requires n <= |obs|
  {
    if n <= 1 then 0 else Elapsed(obs, n - 1) + Gap(obs, n - 1)
  }

  /** No neighbouring prices overflow when added. */
  ghost predicate SumsFit(obs: seq<Observation>) {
    forall i :: 0 < i < |obs| ==> obs[i].price + obs[i - 1].price <= U128_MAX
  }

  ghost predicate Ordered(obs: seq<Observation>) {
    forall i, j :: 0 <= i < j < |obs| ==> obs[i].timestamp <= obs[j].timestamp
  }

  /** Every price of `obs` lies in `[lo, hi]`. */
  ghost predicate PricesWithin(obs: seq<Observation>, lo: int, hi: int) {
    forall i :: 0 <= i < |obs| ==> lo <= obs[i].price <= hi
  }

  /** `p` lies between the smallest and the largest price of `obs`. */
  ghost predicate InHull(p: int, obs: seq<Observation>) {
    forall lo, hi :: PricesWithin(obs, lo, hi) ==> lo <= p <= hi
  }

  /** The average the oracle takes: area over elapsed time, rounded down; the last price when
      no time has passed. */
  ghost function Twap(obs: seq<Observation>): Result<Uint128, TwapError> {
    if obs == [] then Err(InsufficientData)
    else if |obs| == 1 then Ok(obs[0].price)
    else if !SumsFit(obs) || Area(obs, |obs|) > U256_MAX then Err(Overflow)
    else
      var elapsed := Min(Elapsed(obs, |obs|), U64_MAX);
      if elapsed == 0 then Ok(obs[|obs| - 1].price)
      else if FloorDiv(Area(obs, |obs|), elapsed) > U128_MAX then Err(Overflow)
      else Ok(FloorDiv(Area(obs, |obs|), elapsed))
  }

  method CalculateTwap(obs: seq<Observation>) returns (r: Result<Uint128, TwapError>)
    ensures r == Twap(obs)
  {
    if |obs| == 0 {
      return Err(InsufficientData);
    }
    if |obs| == 1 {
      return Ok(obs[0].price);
    }
    var weightedSum: nat := 0;
    var totalTime: Uint64 := 0;
    for i := 1 to |obs|
      invariant forall k :: 0 < k < i ==> obs[k].price + obs[k - 1].price <= U128_MAX
      invariant weightedSum == Area(obs, i) <= U256_MAX
      invariant totalTime == Min(Elapsed(obs, i), U64_MAX)
    {
      var timeDelta := SatSub(obs[i].timestamp, obs[i - 1].timestamp);
      if obs[i].price + obs[i - 1].price > U128_MAX {
        return Err(Overflow);
      }
      var avgPrice := (obs[i].price + obs[i - 1].price) / 2;
      AreaGrows(obs, i + 1, |obs|);
      var area := Times(avgPrice, timeDelta);
      assert Area(obs, i + 1) == weightedSum + area;
      if weightedSum + area > U256_MAX {
        return Err(Overflow);
      }
      weightedSum := weightedSum + area;
      totalTime := SatAdd64(totalTime, timeDelta);
    }
    if totalTime == 0 {
      return Ok(obs[|obs| - 1].price);
    }
    var average := FloorDiv(weightedSum, totalTime);
    if average > U128_MAX {
      return Err(Overflow);
    }
    return Ok(average);
  }

  lemma {:induction false} AreaGrows(obs: seq<Observation>, m: nat, n: nat)
    requires m <= n <= |obs|
    ensures Area(obs, m) <= Area(obs, n)
  {
    if m < n {
      AreaGrows(obs, m, n - 1);
      if n > 1 {
        MulMono(0, Mean(obs, n - 1), Gap(obs, n - 1));
      }
    }
  }

  /** In an ordered window the gaps telescope. */
  lemma {:induction false} ElapsedTelescopes(obs: seq<Observation>, n: nat)
    requires Ordered(obs) && 0 < n <= |obs|
    ensures Elapsed(obs, n) == obs[n - 1].timestamp - obs[0].timestamp
  {
    if n > 1 {
      ElapsedTelescopes(obs, n - 1);
    }
  }

  lemma {:induction false} AreaWithin(obs: seq<Observation>, n: nat, lo: nat, hi: nat)
    requires n <= |obs| && PricesWithin(obs, lo, hi)
    ensures lo * Elapsed(obs, n) <= Area(obs, n) <= hi * Elapsed(obs, n)
  {
    if n > 1 {
      AreaWithin(obs, n - 1, lo, hi);
      var m, g, e := Mean(obs, n - 1), Gap(obs, n - 1), Elapsed(obs, n - 1);
      MulMono(lo, m, g);
      MulMono(m, hi, g);
      Distribute(lo, e, g);
      Distribute(hi, e, g);
    }
  }

  lemma {:induction false} AverageWithin(obs: seq<Observation>, lo: nat, hi: nat)
    requires PricesWithin(obs, lo, hi) && Elapsed(obs, |obs|) > 0
    ensures lo <= Area(obs, |obs|) / Elapsed(obs, |obs|) <= hi
  {
    AreaWithin(obs, |obs|, lo, hi);
    DivWithin(Area(obs, |obs|), Elapsed(obs, |obs|), lo, hi);
  }

  /** The average of an ordered window lies between its smallest and largest price: rounding
      down twice never leaves the range. */
  lemma TwapWithin(obs: seq<Observation>, lo: nat, hi: nat)
    requires Ordered(obs) && PricesWithin(obs, lo, hi) && Twap(obs).Ok?
    ensures lo <= Twap(obs).value <= hi
  {
    if |obs| > 1 {
      ElapsedTelescopes(obs, |obs|);
      if Elapsed(obs, |obs|) > 0 {
        AverageWithin(obs, lo, hi);
      }
    }
  }

  lemma TwapInHull(obs: seq<Observation>)
    requires Ordered(obs) && Twap(obs).Ok?
    ensures InHull(Twap(obs).value, obs)
  {
    forall lo, hi | PricesWithin(obs, lo, hi)
      ensures lo <= Twap(obs).value <= hi
    {
      assert lo <= obs[0].price <= hi;
      if lo < 0 {
        assert PricesWithin(obs, 0, hi);
        TwapWithin(obs, 0, hi);
      } else {
        TwapWithin(obs, lo, hi);
      }
    }
  }

  /** On an ordered window the average fails for two reasons only: the window is empty, or two
      neighbouring prices do not fit 128 bits when added. */
  lemma TwapDefined(obs: seq<Observation>)
    requires Ordered(obs)
    ensures Twap(obs).Ok? <==>
            obs != [] && forall i :: 0 <= i < |obs| - 1 ==> obs[i].price + obs[i + 1].price <= U128_MAX
  {
    assert SumsFit(obs) <==> forall i :: 0 <= i < |obs| - 1 ==> obs[i].price + obs[i + 1].price <= U128_MAX by {
      if SumsFit(obs) {
        forall i | 0 <= i < |obs| - 1
          ensures obs[i].price + obs[i + 1].price <= U128_MAX
        {
          assert obs[i + 1].price + obs[i + 1 - 1].price <= U128_MAX;
        }
      }
    }
    if |obs| > 1 && SumsFit(obs) {
      ElapsedTelescopes(obs, |obs|);
      AreaWithin(obs, |obs|, 0, U128_MAX);

      if Elapsed(obs, |obs|) > 0 {
        AverageWithin(obs, 0, U128_MAX);
      }
    }
    if |obs| == 1 {
      assert SumsFit(obs);
    }
  }

  // ----- What the average is -----

  /** Twice the area under the straight lines through the observations, over the first `n`. */
  ghost function TwiceArea(obs: seq<Observation>, n: nat): int
    requires n <= |obs|
  {
    if n <= 1 then 0
    else
      TwiceArea(obs, n - 1)
      + (obs[n - 1].price + obs[n - 2].price) * (obs[n - 1].timestamp - obs[n - 2].timestamp)
  }

  lemma HalvesRound(sum: nat, gap: nat)
    ensures 2 * Times(sum / 2, gap) <= sum * gap <= 2 * Times(sum / 2, gap) + gap
  {
    MulMono(2 * (sum / 2), sum, gap);
    MulMono(sum, 2 * (sum / 2) + 1, gap);
    Distribute(gap, 2 * (sum / 2), 1);
  }

  lemma {:induction false} AreaHalves(obs: seq<Observation>, n: nat)
    requires Ordered(obs) && n <= |obs|
    ensures 2 * Area(obs, n) <= TwiceArea(obs, n) <= 2 * Area(obs, n) + Elapsed(obs, n)
  {
    if n > 1 {
      AreaHalves(obs, n - 1);
      HalvesRound(obs[n - 1].price + obs[n - 2].price, obs[n - 1].timestamp - obs[n - 2].timestamp);
    }
  }

  lemma AverageBounds(twice: int, area: nat, elapsed: nat, average: nat)
    requires elapsed > 0 && average == area / elapsed && 2 * area <= twice <= 2 * area + elapsed
    ensures 2 * elapsed * average <= twice < (2 * average + 3) * elapsed
  {
    DivPins(area, elapsed);
    Distribute(elapsed, 2 * average, 3);
  }

  /** `average` is the area over the time between the first and the last observation, up to two
      roundings; with no time between them it is the last price. */
  ghost predicate IsAverage(obs: seq<Observation>, average: int)
    requires obs != []
  {
    var elapsed := obs[|obs| - 1].timestamp - obs[0].timestamp;
    if elapsed == 0 then average == obs[|obs| - 1].price
    else 2 * elapsed * average <= TwiceArea(obs, |obs|) < (2 * average + 3) * elapsed
  }

  /** On an ordered window the average is the time-weighted mean of the straight lines through the
      observations. */
  lemma {:induction false} TwapExact(obs: seq<Observation>)
    requires Ordered(obs) && Twap(obs).Ok?
    ensures obs != [] && IsAverage(obs, Twap(obs).value)
  {
    ElapsedTelescopes(obs, |obs|);
    if |obs| > 1 && Elapsed(obs, |obs|) > 0 {
      AreaHalves(obs, |obs|);
      AverageBounds(TwiceArea(obs, |obs|), Area(obs, |obs|), Elapsed(obs, |obs|), Twap(obs).value);
    }
  }

  /** Two observations at different times average to half their sum, rounded down. */
  lemma {:induction false} TwapOfTwo(obs: seq<Observation>)
    requires |obs| == 2 && obs[0].timestamp < obs[1].timestamp && Twap(obs).Ok?
    ensures Twap(obs).value == (obs[0].price + obs[1].price) / 2
  {
    var gap := obs[1].timestamp - obs[0].timestamp;
    assert Elapsed(obs, 2) == Elapsed(obs, 1) + gap == gap;
    assert Area(obs, 2) == Area(obs, 1) + Times(Mean(obs, 1), gap) == Mean(obs, 1) * gap;
    ModUnique(Mean(obs, 1) * gap, gap, Mean(obs, 1), 0);
  }
}
