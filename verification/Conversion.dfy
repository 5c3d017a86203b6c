/** Reading the oracle: the bluechip price in USD behind the warm-up gate, and conversions at a
    captured rate. */
module Conversion {
  import opened Base
  import opened OracleModel
  import opened OracleRuns
  import OracleGuarantees

  const MAX_PRICE_AGE_SECONDS := 300
  const BPS := 10_000

  datatype ReadError = WarmUp | PythStale | PythConfUnknown | PythConfTooWide | ZeroPrice | Overflow

  datatype Conversion = Conversion(amount: Uint128, rateUsed: Uint128, timestamp: Uint64)

  /** The ATOM price: the live feed, or the cached quote while it is fresh and narrow enough. */
  function AtomUsd(c: Core, now: Uint64, live: Option<Uint128>, confBps: nat): Result<Uint128, ReadError> {
    if live.Some? then Ok(live.value)
    else if c.pyth.price == 0 || SatSub(now, c.pythTimestamp) > MAX_PRICE_AGE_SECONDS then Err(PythStale)
    else if c.pyth.conf == 0 then Err(PythConfUnknown)
    else if c.pyth.conf > Min(Min(c.pyth.price, U64_MAX) * confBps, U64_MAX) / BPS then Err(PythConfTooWide)
    else Ok(c.pyth.price)
  }

  /** USD per bluechip, given how many bluechip one ATOM buys. */
  function UsdPerBluechip(atomUsd: Uint128, bluechipPerAtom: Uint128): Result<Uint128, ReadError> {
    if bluechipPerAtom == 0 then Err(ZeroPrice)
    else if atomUsd * PRICE_PRECISION > U128_MAX then Err(Overflow)
    else
      var price := Quotient(atomUsd * PRICE_PRECISION, bluechipPerAtom);
      if price == 0 then Err(ZeroPrice) else Ok(price)
  }

  function Quotient(n: Uint128, d: Uint128): (q: Uint128)
    requires d > 0
    ensures q * d <= n < (q + 1) * d
  {
    DivPins(n, d);
    Distribute(d, n / d, 1);
    MulMono(1, d, n + 1);
    DivAtMost(n, d, n);
    n / d
  }

  /** `get_bluechip_usd_price_with_meta`: strict callers wait out the warm-up, best-effort callers
      fall back on the price from before the reset. */
  function BluechipUsdPrice(c: Core, now: Timestamp, live: Option<Uint128>, confBps: nat, bestEffort: bool)
    : Result<(Uint128, Uint64), ReadError>
  {
    var t := Seconds(now);
    if c.warmup > 0 && !(bestEffort && c.preReset != 0) then Err(WarmUp)
    else
      var atomUsd :- AtomUsd(c, t, live, confBps);
      var price :- UsdPerBluechip(atomUsd, if c.warmup > 0 then c.preReset else c.lastPrice);
      Ok((price, if c.warmup > 0 then t else c.lastUpdate))
  }

  /** Bluechip to USD multiplies by the rate, USD to bluechip divides by it; both round down. */
  function AtRate(amount: Uint128, rate: Uint128, toUsd: bool): Result<Uint128, ReadError> {
    if rate == 0 then Err(ZeroPrice)
    else
      var (numerator, denominator) := if toUsd then (rate, PRICE_PRECISION) else (PRICE_PRECISION, rate);
      if amount * numerator > U128_MAX then Err(Overflow)
      else Ok(Quotient(amount * numerator, denominator))
  }

  function ConvertWithOracle(c: Core, now: Timestamp, live: Option<Uint128>, confBps: nat, amount: Uint128,
        toUsd: bool, bestEffort: bool)
    : Result<Conversion, ReadError>
  {
    var (rate, timestamp) :- BluechipUsdPrice(c, now, live, confBps, bestEffort);
    var converted :- AtRate(amount, rate, toUsd);
    Ok(Conversion(converted, rate, timestamp))
  }

  /** `rate` is the ATOM price over `price`, rounded down. */
  ghost predicate RateFrom(rate: Uint128, c: Core, now: Timestamp, live: Option<Uint128>, confBps: nat,
        price: Uint128) {
    var atomUsd := AtomUsd(c, Seconds(now), live, confBps);
    atomUsd.Ok? && price > 0
    && rate * price <= atomUsd.value * PRICE_PRECISION < (rate + 1) * price
  }

  lemma StrictRead(c: Core, now: Timestamp, live: Option<Uint128>, confBps: nat, amount: Uint128, toUsd: bool)
    requires ConvertWithOracle(c, now, live, confBps, amount, toUsd, false).Ok?
    ensures var r := ConvertWithOracle(c, now, live, confBps, amount, toUsd, false).value;
      && c.warmup == 0 && r.timestamp == c.lastUpdate
      && RateFrom(r.rateUsed, c, now, live, confBps, c.lastPrice)
  {
  }

  lemma FivePublications(o: Oracle, pubs: seq<Publication>)
    requires Tracks(o, pubs) && Chained(pubs) && o.core.warmup == 0
    ensures |pubs| >= WARMUP_OBSERVATIONS
    ensures pubs[|pubs| - 1] == Publication(o.core.lastUpdate, o.core.lastPrice)
    ensures o.core.lastUpdate - pubs[0].time >= (WARMUP_OBSERVATIONS - 1) * UPDATE_INTERVAL
  {
    OracleGuarantees.ChainedSpacing(pubs, 0, |pubs| - 1);
  }

  /** What a strict conversion guarantees about the publications behind it. */
  ghost predicate Gated(c: Core, pubs: seq<Publication>, r: Conversion, now: Timestamp, live: Option<Uint128>,
        confBps: nat) {
    && |pubs| >= WARMUP_OBSERVATIONS
    && r.timestamp == pubs[|pubs| - 1].time
    && r.timestamp - pubs[0].time >= (WARMUP_OBSERVATIONS - 1) * UPDATE_INTERVAL
    && RateFrom(r.rateUsed, c, now, live, confBps, pubs[|pubs| - 1].price)
  }

  lemma StrictIsGated(o: Oracle, pubs: seq<Publication>, now: Timestamp, live: Option<Uint128>, confBps: nat,
        amount: Uint128, toUsd: bool)
    requires Tracks(o, pubs) && Chained(pubs) && ConvertWithOracle(o.core, now, live, confBps, amount, toUsd, false).Ok?
    ensures Gated(o.core, pubs, ConvertWithOracle(o.core, now, live, confBps, amount, toUsd, false).value,
                  now, live, confBps)
  {
    StrictRead(o.core, now, live, confBps, amount, toUsd);
    FivePublications(o, pubs);
  }

  /** The warm-up counter is exact in every run. */
  lemma {:induction false} WarmUpExact(admin: Addr, anchor: Addr, chain: Chain, es: seq<Event>)
    ensures Run(Initial(admin, anchor, chain), es).core.warmup
            == SatSub(WARMUP_OBSERVATIONS, |Published(Initial(admin, anchor, chain), es)|)
  {
    OracleGuarantees.PublicationsTracked(admin, anchor, chain, es);
  }

  /** During the warm-up a best-effort conversion is refused exactly when a strict one is unless a
      price was live at the reset; outside it the two agree. */
  lemma BestEffortDiffersOnlyInWarmUp(c: Core, now: Timestamp, live: Option<Uint128>, confBps: nat)
    ensures c.warmup == 0 ==>
              BluechipUsdPrice(c, now, live, confBps, true) == BluechipUsdPrice(c, now, live, confBps, false)
    ensures c.warmup > 0 ==>
              BluechipUsdPrice(c, now, live, confBps, false) == Err(WarmUp)
              && (BluechipUsdPrice(c, now, live, confBps, true) == Err(WarmUp) <==> c.preReset == 0)
  {
  }

  // ----- What a conversion answers, over every run -----

  /** A quote taken at `seen` still usable at `now`: positive, 300 seconds old at most, with a known
      confidence within `confBps` basis points of the price and within 64 bits when scaled. */
  ghost predicate Usable(quote: PythQuote, seen: Uint64, now: Uint64, confBps: nat) {
    && quote.price > 0 && now <= seen + 300
    && 0 < quote.conf && quote.conf * 10_000 <= quote.price * confBps && quote.conf * 10_000 <= U64_MAX
  }

  /** The live feed's price, or a usable quote's. */
  ghost function AtomPrice(quote: PythQuote, seen: Uint64, now: Uint64, live: Option<Uint128>, confBps: nat)
    : Option<Uint128>
  {
    if live.Some? then live else if Usable(quote, seen, now, confBps) then Some(quote.price) else None
  }

  lemma BoundScales(conf: nat, price: nat, confBps: nat)
    requires conf > 0
    ensures conf <= Min(Min(price, U64_MAX) * confBps, U64_MAX) / BPS
            <==> conf * 10_000 <= price * confBps && conf * 10_000 <= U64_MAX
  {
    if confBps > 0 {
      MulMono(1, confBps, U64_MAX);
    }
    var bound := Min(Min(price, U64_MAX) * confBps, U64_MAX);
    assert conf * 10_000 <= bound <==> conf * 10_000 <= price * confBps && conf * 10_000 <= U64_MAX;
  }

  lemma AtomUsdExact(c: Core, now: Uint64, live: Option<Uint128>, confBps: nat)
    ensures var atom := AtomPrice(c.pyth, c.pythTimestamp, now, live, confBps);
      if atom.None? then AtomUsd(c, now, live, confBps).Err?
      else AtomUsd(c, now, live, confBps) == Ok(atom.value)
  {
    if live.None? && c.pyth.conf > 0 {
      BoundScales(c.pyth.conf, c.pyth.price, confBps);
    }
  }

  /** `converted` is the amount at `rate`, rounded down, whichever way it goes. */
  ghost predicate ConvertedAt(converted: nat, amount: nat, rate: nat, toUsd: bool) {
    if toUsd then converted * PRICE_PRECISION <= amount * rate < (converted + 1) * PRICE_PRECISION
    else converted * rate <= amount * PRICE_PRECISION < (converted + 1) * rate
  }

  /** An answer priced from `price`, the bluechip one ATOM buys: it fails exactly when there is no such
      price, no ATOM price, their ratio rounds to zero, or a product leaves 128 bits. */
  ghost predicate Answers(r: Result<Conversion, ReadError>, price: nat, atom: Option<Uint128>, stamp: Uint64,
        amount: Uint128, toUsd: bool) {
    if price == 0 || atom.None? || atom.value * PRICE_PRECISION < price || atom.value * PRICE_PRECISION > U128_MAX
    then r.Err?
    else
      var rate := atom.value * PRICE_PRECISION / price;
      if amount * (if toUsd then rate else PRICE_PRECISION) > U128_MAX then r.Err?
      else
        && r.Ok? && r.value.rateUsed == rate && r.value.timestamp == stamp
        && ConvertedAt(r.value.amount, amount, rate, toUsd)
  }

  lemma PriceAnswered(c: Core, now: Timestamp, live: Option<Uint128>, confBps: nat, bestEffort: bool)
    ensures var atom := AtomPrice(c.pyth, c.pythTimestamp, Seconds(now), live, confBps);
      var price := if c.warmup == 0 then c.lastPrice else if bestEffort then c.preReset else 0;
      var r := BluechipUsdPrice(c, now, live, confBps, bestEffort);
      if price == 0 || atom.None? || atom.value * PRICE_PRECISION < price || atom.value * PRICE_PRECISION > U128_MAX
      then r.Err?
      else r == Ok((atom.value * PRICE_PRECISION / price, if c.warmup == 0 then c.lastUpdate else Seconds(now)))
  {
    AtomUsdExact(c, Seconds(now), live, confBps);
    var atom := AtomPrice(c.pyth, c.pythTimestamp, Seconds(now), live, confBps);
    var price := if c.warmup == 0 then c.lastPrice else if bestEffort then c.preReset else 0;
    if atom.Some? && price > 0 && atom.value * PRICE_PRECISION <= U128_MAX {
      QuotientPins(atom.value * PRICE_PRECISION, price);
    }
  }

  lemma QuotientPins(n: Uint128, d: Uint128)
    requires d > 0
    ensures Quotient(n, d) == n / d && (n / d == 0 <==> n < d)
  {
    if n >= d {
      DivAtLeast(n, d, 1);
    } else {
      DivAtMost(n, d, 0);
    }
  }

  lemma AtRateAnswers(amount: Uint128, rate: Uint128, toUsd: bool)
    requires rate > 0
    ensures if amount * (if toUsd then rate else PRICE_PRECISION) > U128_MAX then AtRate(amount, rate, toUsd).Err?
            else AtRate(amount, rate, toUsd).Ok? && ConvertedAt(AtRate(amount, rate, toUsd).value, amount, rate, toUsd)
  {
  }

  lemma CoreAnswers(c: Core, now: Timestamp, live: Option<Uint128>, confBps: nat, amount: Uint128, toUsd: bool,
        bestEffort: bool)
    ensures Answers(ConvertWithOracle(c, now, live, confBps, amount, toUsd, bestEffort),
                    if c.warmup == 0 then c.lastPrice else if bestEffort then c.preReset else 0,
                    AtomPrice(c.pyth, c.pythTimestamp, Seconds(now), live, confBps),
                    if c.warmup == 0 then c.lastUpdate else Seconds(now), amount, toUsd)
  {
    PriceAnswered(c, now, live, confBps, bestEffort);
    var r := BluechipUsdPrice(c, now, live, confBps, bestEffort);
    if r.Ok? && r.value.0 > 0 {
      AtRateAnswers(amount, r.value.0, toUsd);
    }
  }

  ghost function LastPrice(pubs: seq<Publication>): Uint128 {
    if pubs == [] then 0 else pubs[|pubs| - 1].price
  }

  /** The price that was live at the last reset; zero before any. */
  ghost function PriceAtReset(o: Oracle, es: seq<Event>): Uint128 {
    if es == [] then 0
    else
      var earlier, e := es[..|es| - 1], es[|es| - 1];
      if e.ForceRotateCall? && Step(Run(o, earlier), e).Ok? then LastPrice(Published(o, earlier))
      else PriceAtReset(o, earlier)
  }

  ghost function FeedOf(e: Event): Option<PythQuote> {
    match e
    case UpdateCall(chain) => chain.pyth
    case ConfirmBootstrapCall(_, _, pyth) => pyth
    case _ => None
  }

  /** The feed's quote at the last publication at which it answered, and that time. */
  ghost function QuoteSeen(o: Oracle, es: seq<Event>): (PythQuote, Uint64) {
    if es == [] then (PythQuote(0, 0), 0)
    else
      var earlier, e := es[..|es| - 1], es[|es| - 1];
      var s := Step(Run(o, earlier), e);
      if s.Ok? && s.value.published.Some? && FeedOf(e).Some? then (FeedOf(e).value, s.value.published.value.time)
      else QuoteSeen(o, earlier)
  }

  /** What the stored state remembers of a run. */
  ghost predicate Remembers(c: Core, preReset: Uint128, seen: (PythQuote, Uint64)) {
    c.preReset == preReset && (c.pyth, c.pythTimestamp) == seen
  }

  lemma RoundRemembers(o: Oracle, now: Timestamp, price: Uint128, atomPrice: Uint128, pyth: Option<PythQuote>)
    requires PriceRound(o, now, price, atomPrice, pyth).Ok?
    ensures var s := PriceRound(o, now, price, atomPrice, pyth).value;
      && s.oracle.core.preReset == o.core.preReset
      && if s.published.Some? && pyth.Some?
         then (s.oracle.core.pyth, s.oracle.core.pythTimestamp) == (pyth.value, s.published.value.time)
         else (s.oracle.core.pyth, s.oracle.core.pythTimestamp) == (o.core.pyth, o.core.pythTimestamp)
  {
  }

  lemma StepRemembers(o: Oracle, e: Event)
    ensures var s, c := Step(o, e), After(o, e).core;
      && c.preReset == (if e.ForceRotateCall? && s.Ok? then o.core.lastPrice else o.core.preReset)
      && (c.pyth, c.pythTimestamp)
         == if s.Ok? && s.value.published.Some? && FeedOf(e).Some?
            then (FeedOf(e).value, s.value.published.value.time) else (o.core.pyth, o.core.pythTimestamp)
  {
    if OracleGuarantees.TwapRound(o, e) {
      var s := Rotated(o, e.chain);
      var round := W.Weigh(MarketSeen(o, s, e.chain), s.selected).value;
      RoundRemembers(o.(sampling := s.(snapshots := round.snapshots)), e.chain.now,
                     round.prices.value.0, round.prices.value.1, e.chain.pyth);
    }
  }

  lemma {:induction false} RunRemembers(o: Oracle, es: seq<Event>)
    requires Inv(o, []) && Remembers(o.core, 0, (PythQuote(0, 0), 0))
    ensures Remembers(Run(o, es).core, PriceAtReset(o, es), QuoteSeen(o, es))
  {
    if es != [] {
      var earlier, e := es[..|es| - 1], es[|es| - 1];
      RunRemembers(o, earlier);
      RunKeeps(o, earlier);
      StepRemembers(Run(o, earlier), e);
    }
  }

  /** In every run a conversion, strict or best-effort, is priced from the last publication once there
      were five since the last reset, before that only if best-effort and from the price live at that
      reset; it fails exactly when there is no price or a product overflows, and is otherwise exact up
      to rounding down. */
  lemma {:induction false} ConversionExact(admin: Addr, anchor: Addr, chain: Chain, es: seq<Event>, now: Timestamp,
        live: Option<Uint128>, confBps: nat, amount: Uint128, toUsd: bool, bestEffort: bool)
    ensures var o := Initial(admin, anchor, chain);
      var pubs, seen := Published(o, es), QuoteSeen(o, es);
      var warm := |pubs| >= 5;
      Answers(ConvertWithOracle(Run(o, es).core, now, live, confBps, amount, toUsd, bestEffort),
              if warm then LastPrice(pubs) else if bestEffort then PriceAtReset(o, es) else 0,
              AtomPrice(seen.0, seen.1, Seconds(now), live, confBps),
              if warm then pubs[|pubs| - 1].time else Seconds(now), amount, toUsd)
  {
    var o := Initial(admin, anchor, chain);
    OracleGuarantees.PublicationsTracked(admin, anchor, chain, es);
    RunRemembers(o, es);
    CoreAnswers(Run(o, es).core, now, live, confBps, amount, toUsd, bestEffort);
  }

  /** In every run a strict conversion succeeds only after five publications since the last reset,
      the last of them at least four cooldowns after the first; it is priced from the last one,
      stamped with its time, and exact up to rounding down. */
  lemma {:induction false} StrictConversionGate(admin: Addr, anchor: Addr, chain: Chain, es: seq<Event>,
                             now: Timestamp, live: Option<Uint128>, confBps: nat, amount: Uint128, toUsd: bool)
    requires var c := Run(Initial(admin, anchor, chain), es).core;
      ConvertWithOracle(c, now, live, confBps, amount, toUsd, false).Ok?
    ensures var c := Run(Initial(admin, anchor, chain), es).core;
      Gated(c, Published(Initial(admin, anchor, chain), es),
            ConvertWithOracle(c, now, live, confBps, amount, toUsd, false).value, now, live, confBps)
      && var r := ConvertWithOracle(c, now, live, confBps, amount, toUsd, false).value;
         ConvertedAt(r.amount, amount, r.rateUsed, toUsd)
  {
    OracleGuarantees.PublicationsTracked(admin, anchor, chain, es);
    var o := Initial(admin, anchor, chain);
    StrictIsGated(Run(o, es), Published(o, es), now, live, confBps, amount, toUsd);
    CoreAnswers(Run(o, es).core, now, live, confBps, amount, toUsd, false);
  }

  /** To USD and back at one rate always succeeds when the way there did, never gains, and loses
      less than one unit plus a millionth of a USD's worth of bluechip. */
  lemma RoundTrip(amount: Uint128, rate: Uint128)
    requires AtRate(amount, rate, true).Ok?
    ensures var there := AtRate(amount, rate, true).value;
      && AtRate(there, rate, false).Ok?
      && var back := AtRate(there, rate, false).value;
         back <= amount && (amount - back - 1) * rate < PRICE_PRECISION
  {
    var usd := AtRate(amount, rate, true).value;
    assert usd * PRICE_PRECISION <= amount * rate < (usd + 1) * PRICE_PRECISION;
    var back := AtRate(usd, rate, false).value;
    assert back * rate <= usd * PRICE_PRECISION < (back + 1) * rate;
    if amount + 1 <= back {
      MulMono(amount + 1, back, rate);
      Distribute(rate, amount, 1);
    }
    Distribute(rate, amount - back - 1, back + 1);
  }
}
