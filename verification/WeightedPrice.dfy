/** One oracle round's price: the liquidity-weighted mean of the sampled pools' own
    time-weighted prices, taken from the growth of their cumulative accumulators. */
module WeightedPrice {
  import opened Base

  datatype PoolState = PoolState(
    reserve0: Uint128, reserve1: Uint128,
    price0Cumulative: Uint128, price1Cumulative: Uint128, blockTimeLast: Uint64)

  datatype Snapshot = Snapshot(pool: Addr, cumulative: Uint128, blockTime: Uint64)

  datatype PriceError = MissingAtomPool | Overflow

  /** What a round can see: the anchor and its bluechip side, the bluechip side of the other
      eligible pools, the pools that answered the state query, the snapshots of the previous
      round and the published price. */
  datatype Market = Market(
    anchor: Addr, anchorSide: nat, sides: map<Addr, nat>, answers: map<Addr, PoolState>,
    previous: seq<Snapshot>, lastPrice: Uint128)

  /** A round's outcome: the mean and the anchor's own price, or none, and the snapshots. */
  datatype Round = Round(prices: Option<(Uint128, Uint128)>, snapshots: seq<Snapshot>)

  const FALLBACK_BLUECHIP_PER_SIDE := 5_000_000_000
  const MIN_POOL_LIQUIDITY_USD := 5_000_000_000

  /** The bluechip reserve a pool must hold to be read at all. */
  function FloorPerSide(lastPrice: Uint128): nat {
    if lastPrice == 0 then FALLBACK_BLUECHIP_PER_SIDE
    else MIN_POOL_LIQUIDITY_USD * PRICE_PRECISION / lastPrice / 2
  }

  function FindSnapshot(snapshots: seq<Snapshot>, pool: Addr): Option<Snapshot> {
    if snapshots == [] then None
    else if snapshots[0].pool == pool then Some(snapshots[0])
    else FindSnapshot(snapshots[1..], pool)
  }

  /** What one pool tells the round: nothing, an accumulator reading to compare against next
      time, or that together with a price and a weight. */
  datatype Reading = Silent | Seen(snapshot: Snapshot) | Priced(snapshot: Snapshot, price: Uint128, weight: nat)

  ghost predicate KnownSide(m: Market, pool: Addr) {
    pool == m.anchor || pool in m.sides
  }

  ghost predicate BluechipSecond(m: Market, pool: Addr)
    requires KnownSide(m, pool)
  {
    if pool == m.anchor then m.anchorSide == 1 else m.sides[pool] == 1
  }

  ghost function BluechipReserve(m: Market, pool: Addr): Uint128
    requires KnownSide(m, pool) && pool in m.answers
  {
    if BluechipSecond(m, pool) then m.answers[pool].reserve1 else m.answers[pool].reserve0
  }

  /** The pool answered, its bluechip side is known and it meets the liquidity floor. */
  ghost predicate Readable(m: Market, pool: Addr) {
    pool in m.answers && KnownSide(m, pool) && BluechipReserve(m, pool) >= FloorPerSide(m.lastPrice)
  }

  ghost function Accumulator(m: Market, pool: Addr): Snapshot
    requires Readable(m, pool)
  {
    var s := m.answers[pool];
    Snapshot(pool, if BluechipSecond(m, pool) then s.price0Cumulative else s.price1Cumulative, s.blockTimeLast)
  }

  function GrowthPerSecond(growth: Uint128, seconds: Uint64): Uint128
    requires seconds > 0
  {
    FloorDiv(growth, seconds)
  }

  lemma GrowthPins(growth: Uint128, seconds: Uint64)
    requires seconds > 0
    ensures var g := GrowthPerSecond(growth, seconds); g * seconds <= growth < (g + 1) * seconds
  {
    DivPins(growth, seconds);
    Distribute(seconds, growth / seconds, 1);
  }

  ghost function Read(m: Market, pool: Addr): Reading {
    if !Readable(m, pool) then Silent
    else
      var now := Accumulator(m, pool);
      match FindSnapshot(m.previous, pool)
      case None => Seen(now)
      case Some(before) =>
        if before.blockTime < now.blockTime && before.cumulative < now.cumulative then
          Priced(now,
                 GrowthPerSecond(now.cumulative - before.cumulative, now.blockTime - before.blockTime),
                 if pool == m.anchor then 2 * BluechipReserve(m, pool) else BluechipReserve(m, pool))
        else Seen(now)
  }

  function Product(price: Uint128, weight: nat): nat {
    price * weight
  }

  /** Price times weight of a pool's reading; silent and merely seen pools add nothing. */
  ghost function Share(m: Market, pool: Addr): nat {
    var r := Read(m, pool);
    if r.Priced? then Product(r.price, r.weight) else 0
  }

  ghost function Weight(m: Market, pool: Addr): nat {
    var r := Read(m, pool);
    if r.Priced? then r.weight else 0
  }

  ghost function WeightedSum(m: Market, pools: seq<Addr>): nat {
    if pools == [] then 0 else WeightedSum(m, pools[..|pools| - 1]) + Share(m, pools[|pools| - 1])
  }

  ghost function TotalWeight(m: Market, pools: seq<Addr>): nat {
    if pools == [] then 0 else TotalWeight(m, pools[..|pools| - 1]) + Weight(m, pools[|pools| - 1])
  }

  ghost function Snapshots(m: Market, pools: seq<Addr>): seq<Snapshot> {
    if pools == [] then []
    else
      var pool := pools[|pools| - 1];
      Snapshots(m, pools[..|pools| - 1]) + if Readable(m, pool) then [Accumulator(m, pool)] else []
  }

  /** Every weight fits 128 bits and both running sums fit 256. */
  ghost predicate Fits(m: Market, pools: seq<Addr>) {
    && (forall p :: p in pools ==> Weight(m, p) <= U128_MAX)
    && WeightedSum(m, pools) <= U256_MAX
    && TotalWeight(m, pools) <= U256_MAX
  }

  /** The round as a whole. */
  ghost function Weigh(m: Market, pools: seq<Addr>): Result<Round, PriceError> {
    if m.anchor !in pools then Err(MissingAtomPool)
    else if !Fits(m, pools) then Err(Overflow)
    else if Read(m, m.anchor).Priced? && TotalWeight(m, pools) > 0 then
      MeanWithin(m, pools, 0, U128_MAX);
      Ok(Round(Some((WeightedSum(m, pools) / TotalWeight(m, pools), Read(m, m.anchor).price)),
               Snapshots(m, pools)))
    else Ok(Round(None, Snapshots(m, pools)))
  }

  ghost predicate ContributionsWithin(m: Market, pools: seq<Addr>, lo: int, hi: int) {
    forall p :: p in pools && Read(m, p).Priced? ==> lo <= Read(m, p).price <= hi
  }

  lemma {:induction false} SumWithin(m: Market, pools: seq<Addr>, lo: nat, hi: nat)
    requires ContributionsWithin(m, pools, lo, hi)
    ensures lo * TotalWeight(m, pools) <= WeightedSum(m, pools) <= hi * TotalWeight(m, pools)
  {
    if pools != [] {
      var rest, pool := pools[..|pools| - 1], pools[|pools| - 1];
      SumWithin(m, rest, lo, hi);
      var w := Weight(m, pool);
      if Read(m, pool).Priced? {
        MulMono(lo, Read(m, pool).price, w);
        MulMono(Read(m, pool).price, hi, w);
      }
      Distribute(lo, TotalWeight(m, rest), w);
      Distribute(hi, TotalWeight(m, rest), w);
    }
  }

  /** The mean lies between the smallest and the largest contributing price. */
  lemma {:induction false} MeanWithin(m: Market, pools: seq<Addr>, lo: nat, hi: nat)
    requires ContributionsWithin(m, pools, lo, hi) && TotalWeight(m, pools) > 0
    ensures lo <= WeightedSum(m, pools) / TotalWeight(m, pools) <= hi
  {
    SumWithin(m, pools, lo, hi);
    DivWithin(WeightedSum(m, pools), TotalWeight(m, pools), lo, hi);
  }

  /** Reads one pool. */
  method ReadPool(m: Market, pool: Addr) returns (r: Reading)
    ensures r == Read(m, pool)
  {
    if pool !in m.answers || (pool != m.anchor && pool !in m.sides) {
      return Silent;
    }
    var state := m.answers[pool];
    var isBluechipSecond := if pool == m.anchor then m.anchorSide == 1 else m.sides[pool] == 1;
    var bluechipReserve := if isBluechipSecond then state.reserve1 else state.reserve0;
    if bluechipReserve < FloorPerSide(m.lastPrice) {
      return Silent;
    }
    var cumulative := if isBluechipSecond then state.price0Cumulative else state.price1Cumulative;
    var snapshot := Snapshot(pool, cumulative, state.blockTimeLast);
    var previous := FindSnapshot(m.previous, pool);
    if previous.None? {
      return Seen(snapshot);
    }
    var timeDelta := SatSub(state.blockTimeLast, previous.value.blockTime);
    var cumulativeDelta := SatSub(cumulative, previous.value.cumulative);
    if timeDelta == 0 || cumulativeDelta == 0 {
      return Seen(snapshot);
    }
    var price := GrowthPerSecond(cumulativeDelta, timeDelta);
    return Priced(snapshot, price, if pool == m.anchor then 2 * bluechipReserve else bluechipReserve);
  }

  method CalculateWeightedPriceWithAtom(m: Market, pools: seq<Addr>) returns (r: Result<Round, PriceError>)
    ensures r == Weigh(m, pools)
  {
    if m.anchor !in pools {
      return Err(MissingAtomPool);
    }
    var weightedSum: nat, totalWeight: nat := 0, 0;
    var atomPoolPrice: Uint128, hasAtomPool := 0, false;
    var newSnapshots: seq<Snapshot> := [];
    for i := 0 to |pools|
      invariant weightedSum == WeightedSum(m, pools[..i]) && totalWeight == TotalWeight(m, pools[..i])
      invariant newSnapshots == Snapshots(m, pools[..i])
      invariant Fits(m, pools[..i])
      invariant hasAtomPool <==> m.anchor in pools[..i] && Read(m, m.anchor).Priced?
      invariant hasAtomPool ==> atomPoolPrice == Read(m, m.anchor).price
    {
      PrefixStep(m, pools, i);
      PrefixesFit(m, pools, i + 1);
      var reading := ReadPool(m, pools[i]);
      if reading.Silent? {
        continue;
      }
      newSnapshots := newSnapshots + [reading.snapshot];
      if reading.Seen? {
        continue;
      }
      if reading.weight > U128_MAX {
        return Err(Overflow);
      }
      if pools[i] == m.anchor {
        hasAtomPool, atomPoolPrice := true, reading.price;
      }
      weightedSum := weightedSum + Product(reading.price, reading.weight);
      totalWeight := totalWeight + reading.weight;
      if weightedSum > U256_MAX || totalWeight > U256_MAX {
        return Err(Overflow);
      }
    }
    assert pools[..|pools|] == pools;
    if !hasAtomPool || totalWeight == 0 {
      return Ok(Round(None, newSnapshots));
    }
    MeanWithin(m, pools, 0, U128_MAX);
    return Ok(Round(Some((weightedSum / totalWeight, atomPoolPrice)), newSnapshots));
  }

  lemma {:induction false} PrefixStep(m: Market, pools: seq<Addr>, i: nat)
    requires i < |pools|
    ensures WeightedSum(m, pools[..i + 1]) == WeightedSum(m, pools[..i]) + Share(m, pools[i])
    ensures TotalWeight(m, pools[..i + 1]) == TotalWeight(m, pools[..i]) + Weight(m, pools[i])
    ensures Snapshots(m, pools[..i + 1])
            == Snapshots(m, pools[..i]) + if Readable(m, pools[i]) then [Accumulator(m, pools[i])] else []
    ensures Fits(m, pools[..i + 1]) <==>
            && Fits(m, pools[..i]) && Weight(m, pools[i]) <= U128_MAX
            && WeightedSum(m, pools[..i + 1]) <= U256_MAX && TotalWeight(m, pools[..i + 1]) <= U256_MAX
    ensures m.anchor in pools[..i + 1] <==> m.anchor in pools[..i] || pools[i] == m.anchor
  {
    assert pools[..i + 1] == pools[..i] + [pools[i]];
  }

  /** Running sums only grow, so a prefix that does not fit settles the round. */
  lemma {:induction false} PrefixesFit(m: Market, pools: seq<Addr>, n: nat)
    requires n <= |pools|
    ensures Fits(m, pools) ==> Fits(m, pools[..n])
    decreases |pools| - n
  {
    if n == |pools| {
      assert pools[..n] == pools;
    } else {
      PrefixesFit(m, pools, n + 1);
      assert pools[..n + 1][..n] == pools[..n];
    }
  }

  /** A price comes out exactly when the anchor contributed and some weight is positive, and it
      then lies between the smallest and the largest contributing pool price. */
  lemma PriceFromContributions(m: Market, pools: seq<Addr>)
    requires Weigh(m, pools).Ok?
    ensures var prices := Weigh(m, pools).value.prices;
      && (prices.Some? <==> Read(m, m.anchor).Priced? && exists p :: p in pools && Weight(m, p) > 0)
      && (prices.Some? ==> prices.value.1 == Read(m, m.anchor).price)
      && (prices.Some? ==> forall lo: nat, hi: nat :: ContributionsWithin(m, pools, lo, hi) ==>
            lo <= prices.value.0 <= hi)
  {
    WeightPositive(m, pools);
    if Weigh(m, pools).value.prices.Some? {
      forall lo: nat, hi: nat | ContributionsWithin(m, pools, lo, hi)
        ensures lo <= Weigh(m, pools).value.prices.value.0 <= hi
      {
        MeanWithin(m, pools, lo, hi);
      }
    }
  }

  lemma {:induction false} WeightPositive(m: Market, pools: seq<Addr>)
    ensures TotalWeight(m, pools) > 0 <==> exists p :: p in pools && Weight(m, p) > 0
  {
    if pools != [] {
      WeightPositive(m, pools[..|pools| - 1]);
      assert pools == pools[..|pools| - 1] + [pools[|pools| - 1]];
    }
  }

  /** With the anchor alone in the sample, the published mean is the anchor's own price. */
  lemma AnchorAloneIsExact(m: Market)
    requires Weigh(m, [m.anchor]).Ok? && Weigh(m, [m.anchor]).value.prices.Some?
    ensures Weigh(m, [m.anchor]).value.prices.value.0 == Read(m, m.anchor).price
  {
    var p := Read(m, m.anchor).price;
    assert ContributionsWithin(m, [m.anchor], p, p);
    MeanWithin(m, [m.anchor], p, p);
  }

  /** Whether or not a price results, every readable pool leaves its snapshot, in sample order,
      and nothing else does. */
  lemma {:induction false} SnapshotsExact(m: Market, pools: seq<Addr>)
    ensures forall s :: s in Snapshots(m, pools) <==>
              exists p :: p in pools && Readable(m, p) && s == Accumulator(m, p)
  {
    if pools != [] {
      var rest, pool := pools[..|pools| - 1], pools[|pools| - 1];
      SnapshotsExact(m, rest);
      assert pools == rest + [pool];
      forall s
        ensures s in Snapshots(m, pools) <==>
                  exists p :: p in pools && Readable(m, p) && s == Accumulator(m, p)
      {
        if s in Snapshots(m, rest) {
          var p :| p in rest && Readable(m, p) && s == Accumulator(m, p);
          assert p in pools;
        }
      }
    }
  }

  lemma {:induction false} FindAppended(snapshots: seq<Snapshot>, last: Snapshot, pool: Addr)
    ensures FindSnapshot(snapshots + [last], pool)
            == if FindSnapshot(snapshots, pool).Some? then FindSnapshot(snapshots, pool)
               else if last.pool == pool then Some(last) else None
  {
    if snapshots != [] {
      assert (snapshots + [last])[1..] == snapshots[1..] + [last];
      FindAppended(snapshots[1..], last, pool);
    }
  }

  /** The next round finds, for every pool, exactly the accumulator this round read from it. */
  lemma {:induction false} NextRoundFinds(m: Market, pools: seq<Addr>, pool: Addr)
    ensures FindSnapshot(Snapshots(m, pools), pool)
            == if pool in pools && Readable(m, pool) then Some(Accumulator(m, pool)) else None
  {
    if pools != [] {
      var rest, last := pools[..|pools| - 1], pools[|pools| - 1];
      NextRoundFinds(m, rest, pool);
      assert pools == rest + [last];
      if Readable(m, last) {
        FindAppended(Snapshots(m, rest), Accumulator(m, last), pool);
      } else {
        assert Snapshots(m, rest) + [] == Snapshots(m, rest);
      }
    }
  }

  /** Over two successive rounds a pool's price is the growth per second, between the two reads, of the
      accumulator opposite its bluechip side, rounded down; it has none when that or the block time did
      not advance, or when the earlier round did not read the pool. */
  lemma {:induction false} PriceBetweenRounds(m: Market, pools: seq<Addr>, later: Market, pool: Addr)
    requires Readable(later, pool) && FindSnapshot(later.previous, pool) == FindSnapshot(Snapshots(m, pools), pool)
    ensures Read(later, pool).Priced? <==>
            && pool in pools && Readable(m, pool)
            && m.answers[pool].blockTimeLast < later.answers[pool].blockTimeLast
            && QuoteAccumulator(m, pool) < QuoteAccumulator(later, pool)
    ensures Read(later, pool).Priced? ==>
              var dt := later.answers[pool].blockTimeLast - m.answers[pool].blockTimeLast;
              var dc := QuoteAccumulator(later, pool) - QuoteAccumulator(m, pool);
              Read(later, pool).price * dt <= dc < (Read(later, pool).price + 1) * dt
  {
    NextRoundFinds(m, pools, pool);
    if Read(later, pool).Priced? {
      var dt := Accumulator(later, pool).blockTime - Accumulator(m, pool).blockTime;
      var dc := Accumulator(later, pool).cumulative - Accumulator(m, pool).cumulative;
      GrowthPins(dc, dt);
    }
  }

  // ----- In terms of the pools' own reserves -----

  /** The side of the pool the bluechip is on. */
  ghost function SideOf(m: Market, pool: Addr): nat
    requires KnownSide(m, pool)
  {
    if pool == m.anchor then m.anchorSide else m.sides[pool]
  }

  /** The accumulator of the side the bluechip is not on. */
  ghost function QuoteAccumulator(m: Market, pool: Addr): Uint128
    requires KnownSide(m, pool) && pool in m.answers
  {
    if SideOf(m, pool) != 1 then m.answers[pool].price1Cumulative else m.answers[pool].price0Cumulative
  }

  ghost function ReserveOf(m: Market, pool: Addr): Uint128
    requires KnownSide(m, pool) && pool in m.answers
  {
    if SideOf(m, pool) != 1 then m.answers[pool].reserve0 else m.answers[pool].reserve1
  }

  lemma NestedFloors(n: nat, d: nat, r: nat)
    requires d > 0
    ensures r >= n / d / 2 <==> 2 * d * (r + 1) > n
  {
    var half := n / d / 2;
    DivPins(n, d);
    assert 2 * half <= n / d <= 2 * half + 1;
    MulMono(2 * half, n / d, d);
    MulMono(n / d + 1, 2 * (half + 1), d);
    if r >= half {
      MulMono(2 * (half + 1), 2 * (r + 1), d);
    } else {
      MulMono(2 * (r + 1), 2 * half, d);
    }
  }

  /** A pool is read exactly when it answers, its side is known, and twice its bluechip reserve is worth
      5 000 USD at the published price, to within a unit of the reserve; with no price published it takes
      5 000 bluechip on that side. */
  lemma ReadableExact(m: Market, pool: Addr)
    ensures Readable(m, pool) <==>
            && pool in m.answers && (pool == m.anchor || pool in m.sides)
            && if m.lastPrice == 0 then ReserveOf(m, pool) >= 5_000_000_000
               else 2 * m.lastPrice * (ReserveOf(m, pool) + 1) > 5_000_000_000 * PRICE_PRECISION
  {
    if pool in m.answers && KnownSide(m, pool) && m.lastPrice > 0 {
      NestedFloors(MIN_POOL_LIQUIDITY_USD * PRICE_PRECISION, m.lastPrice, ReserveOf(m, pool));
    }
  }

  /** The sample with the anchor listed twice. */
  ghost function AnchorTwice(m: Market, pools: seq<Addr>): seq<Addr> {
    if pools == [] then []
    else
      var pool := pools[|pools| - 1];
      AnchorTwice(m, pools[..|pools| - 1]) + if pool == m.anchor then [pool, pool] else [pool]
  }

  /** The reserve of a pool that has a price. */
  ghost function Depth(m: Market, pool: Addr): nat {
    if Read(m, pool).Priced? then ReserveOf(m, pool) else 0
  }

  ghost function Worth(m: Market, pool: Addr): nat {
    if Read(m, pool).Priced? then Times(Read(m, pool).price, ReserveOf(m, pool)) else 0
  }

  ghost function Depths(m: Market, pools: seq<Addr>): nat {
    if pools == [] then 0 else Depths(m, pools[..|pools| - 1]) + Depth(m, pools[|pools| - 1])
  }

  ghost function Worths(m: Market, pools: seq<Addr>): nat {
    if pools == [] then 0 else Worths(m, pools[..|pools| - 1]) + Worth(m, pools[|pools| - 1])
  }

  lemma {:induction false} OneMore(m: Market, pools: seq<Addr>, pool: Addr)
    ensures Depths(m, pools + [pool]) == Depths(m, pools) + Depth(m, pool)
    ensures Worths(m, pools + [pool]) == Worths(m, pools) + Worth(m, pool)
  {
    assert (pools + [pool])[..|pools|] == pools;
  }

  lemma {:induction false} TwoMore(m: Market, pools: seq<Addr>, pool: Addr)
    ensures Depths(m, pools + [pool, pool]) == Depths(m, pools) + 2 * Depth(m, pool)
    ensures Worths(m, pools + [pool, pool]) == Worths(m, pools) + 2 * Worth(m, pool)
  {
    OneMore(m, pools, pool);
    OneMore(m, pools + [pool], pool);
    assert pools + [pool, pool] == pools + [pool] + [pool];
  }

  lemma WeightIsDepth(m: Market, pool: Addr)
    ensures Weight(m, pool) == if pool == m.anchor then 2 * Depth(m, pool) else Depth(m, pool)
    ensures Share(m, pool) == if pool == m.anchor then 2 * Worth(m, pool) else Worth(m, pool)
  {
    if Read(m, pool).Priced? {
      Distribute(Read(m, pool).price, ReserveOf(m, pool), ReserveOf(m, pool));
    }
  }

  lemma {:induction false} SumsAreReserves(m: Market, pools: seq<Addr>)
    ensures TotalWeight(m, pools) == Depths(m, AnchorTwice(m, pools))
    ensures WeightedSum(m, pools) == Worths(m, AnchorTwice(m, pools))
  {
    if pools != [] {
      var rest, pool := pools[..|pools| - 1], pools[|pools| - 1];
      SumsAreReserves(m, rest);
      WeightIsDepth(m, pool);
      if pool == m.anchor {
        TwoMore(m, AnchorTwice(m, rest), pool);
      } else {
        OneMore(m, AnchorTwice(m, rest), pool);
      }
    }
  }

  lemma FloorWithin(n: nat, d: nat, q: int)
    requires d > 0 && q == n / d
    ensures q * d <= n < (q + 1) * d
  {
    DivPins(n, d);
    Distribute(d, q, 1);
  }

  /** A round's price is the mean of the pools' prices weighted by their bluechip reserves, the anchor
      counted twice, rounded down. */
  lemma {:induction false} MeanOfReserves(m: Market, pools: seq<Addr>)
    requires Weigh(m, pools).Ok? && Weigh(m, pools).value.prices.Some?
    ensures var price, twice := Weigh(m, pools).value.prices.value.0, AnchorTwice(m, pools);
      price * Depths(m, twice) <= Worths(m, twice) < (price + 1) * Depths(m, twice)
  {
    SumsAreReserves(m, pools);
    FloorWithin(WeightedSum(m, pools), TotalWeight(m, pools), Weigh(m, pools).value.prices.value.0);
  }

  /** A round fails for want of the anchor, or because the anchor's doubled reserve leaves 128 bits or a
      sum 256. */
  lemma {:induction false} WeighRefuses(m: Market, pools: seq<Addr>)
    ensures Weigh(m, pools) == Err(MissingAtomPool) <==> m.anchor !in pools
    ensures Weigh(m, pools) == Err(Overflow) <==>
            && m.anchor in pools
            && var twice := AnchorTwice(m, pools);
               2 * Depth(m, m.anchor) > U128_MAX || Worths(m, twice) > U256_MAX || Depths(m, twice) > U256_MAX
  {
    SumsAreReserves(m, pools);
    forall p | p in pools
      ensures Weight(m, p) <= U128_MAX <==> p != m.anchor || 2 * Depth(m, m.anchor) <= U128_MAX
    {
      WeightIsDepth(m, p);
    }
  }
}
