/** The commit that carries a pool over its funding threshold: how its bluechip and its USD value
    are divided between the threshold and the excess swap. */
module CommitSplit {
  import opened Base
  import opened Conversion

  /** Fee rates are decimals with eighteen places. */
  const DECIMAL_ONE := 1_000_000_000_000_000_000

  datatype CommitError = FeeOverflow | InvalidFee | AtRateFailed(error: ReadError) | Underflow

  datatype Fees = Fees(bluechip: Uint128, creator: Uint128)

  function CommitFees(amount: Uint128, bluechipRate: Uint128, creatorRate: Uint128): Result<Fees, CommitError> {
    if amount * bluechipRate > U128_MAX || amount * creatorRate > U128_MAX then Err(FeeOverflow)
    else Ok(Fees(Quotient(amount * bluechipRate, DECIMAL_ONE), Quotient(amount * creatorRate, DECIMAL_ONE)))
  }

  /** Which of the four handlers a commit goes to. */
  datatype Phase = PreThreshold | ThresholdHitExact | ThresholdWithExcess | PostThreshold

  function PhaseOf(thresholdHit: bool, raised: Uint128, usdValue: Uint128, target: Uint128): Phase {
    if thresholdHit then PostThreshold
    else if raised + usdValue < target then PreThreshold
    else if usdValue > SatSub(target, raised) && SatSub(target, raised) > 0 then ThresholdWithExcess
    else ThresholdHitExact
  }

  /** The parts of a crossing commit. */
  datatype Split = Split(
    thresholdBluechip: Uint128, excessBluechip: Uint128,
    thresholdNet: Uint128, excessNet: Uint128,
    thresholdUsd: Uint128, excessUsd: Uint128)

  function CheckedSub(a: Uint128, b: Uint128): Result<Uint128, CommitError> {
    if b <= a then Ok(a - b) else Err(Underflow)
  }

  /** `multiply_ratio`, with the product kept at full width. */
  function MultiplyRatio(a: nat, n: nat, d: nat): nat
    requires d > 0
  {
    a * n / d
  }

  function SplitCrossing(amount: Uint128, net: Uint128, usdValue: Uint128, usdToThreshold: Uint128, rate: Uint128)
    : Result<Split, CommitError>
  {
    match AtRate(usdToThreshold, rate, false)
    case Err(e) => Err(AtRateFailed(e))
    case Ok(toThreshold) =>
      var excess :- CheckedSub(amount, toThreshold);
      var thresholdNet := if amount == 0 then 0 else MultiplyRatio(net, toThreshold, amount);
      if thresholdNet > U128_MAX then Err(Underflow)
      else
        var excessNet :- CheckedSub(net, thresholdNet);
        var excessUsd :- CheckedSub(usdValue, usdToThreshold);
        Ok(Split(toThreshold, excess, thresholdNet, excessNet, usdToThreshold, excessUsd))
  }

  /** The fees can be taken exactly where commit times rate fits 128 bits for both. They are never larger
      than what their rates allow, so what is left is a part of the commit. */
  lemma FeesWithin(amount: Uint128, bluechipRate: Uint128, creatorRate: Uint128)
    requires bluechipRate + creatorRate <= DECIMAL_ONE
    ensures var r := CommitFees(amount, bluechipRate, creatorRate);
      && (r.Ok? <==> amount * bluechipRate <= U128_MAX && amount * creatorRate <= U128_MAX)
      && (r.Ok? ==>
            && r.value.bluechip + r.value.creator <= amount
            && r.value.bluechip * 1_000_000_000_000_000_000 <= amount * bluechipRate
            && amount * bluechipRate < (r.value.bluechip + 1) * 1_000_000_000_000_000_000
            && r.value.creator * 1_000_000_000_000_000_000 <= amount * creatorRate
            && amount * creatorRate < (r.value.creator + 1) * 1_000_000_000_000_000_000)
  {
    Distribute(amount, bluechipRate, creatorRate);
    MulMono(bluechipRate + creatorRate, DECIMAL_ONE, amount);
  }

  /** When the USD value of a commit, taken at some rate, exceeds the USD left to the threshold,
      splitting it at the same rate cannot fail: the bluechip worth of the remainder fits in the
      commit. Each of the three quantities is divided without loss, the threshold part is the
      most bluechip worth no more than the remainder, and its net share is its gross share of the net amount, rounded
      down. */
  lemma CrossingSplits(amount: Uint128, net: Uint128, rate: Uint128, usdToThreshold: Uint128)
    requires AtRate(amount, rate, true).Ok? && net <= amount
    requires AtRate(amount, rate, true).value > usdToThreshold > 0
    ensures var usdValue := AtRate(amount, rate, true).value;
      var r := SplitCrossing(amount, net, usdValue, usdToThreshold, rate);
      && r.Ok?
      && var s := r.value;
         && s.thresholdBluechip + s.excessBluechip == amount && s.excessBluechip > 0
         && s.thresholdNet + s.excessNet == net
         && s.thresholdUsd + s.excessUsd == usdValue && s.thresholdUsd == usdToThreshold
         && s.thresholdBluechip * rate <= usdToThreshold * PRICE_PRECISION < (s.thresholdBluechip + 1) * rate
         && s.thresholdNet * amount <= net * s.thresholdBluechip < (s.thresholdNet + 1) * amount
  {
    var usdValue := AtRate(amount, rate, true).value;
    assert usdValue * PRICE_PRECISION <= amount * rate;
    MulMono(usdToThreshold + 1, usdValue, PRICE_PRECISION);
    var toThreshold := AtRate(usdToThreshold, rate, false).value;
    assert toThreshold * rate <= usdToThreshold * PRICE_PRECISION;
    if amount <= toThreshold {
      MulMono(amount, toThreshold, rate);
    }
    assert toThreshold < amount;
    MulMono(toThreshold, amount, net);
    DivAtMost(net * toThreshold, amount, net) by {
      Distribute(amount, net, 1);
    }
    DivPins(net * toThreshold, amount);
    Distribute(amount, MultiplyRatio(net, toThreshold, amount), 1);
  }

  /** The split handler is reached exactly by a first crossing that overshoots. */
  lemma SplitOnlyOnOvershoot(raised: Uint128, usdValue: Uint128, target: Uint128)
    ensures PhaseOf(false, raised, usdValue, target) == ThresholdWithExcess <==> raised < target < raised + usdValue
    ensures PhaseOf(false, raised, usdValue, target) == PreThreshold <==> raised + usdValue < target
  {
  }
}
