/** The factory's price oracle as a state machine: what each entry point does to the stored
    oracle, and whether it publishes a price. */
module OracleModel {
  import opened Base
  import opened Drift
  import opened TwapWindow
  import Sampler
  import W = WeightedPrice

  const TWAP_WINDOW := 3600
  const UPDATE_INTERVAL := 300
  const ROTATION_INTERVAL := 3600
  const ORACLE_POOL_COUNT := 75
  const WARMUP_OBSERVATIONS := 5
  const MAX_CONSECUTIVE_FAILURES := 12
  const BOOTSTRAP_OBSERVATION_SECONDS := 3600
  const MIN_BOOTSTRAP_OBSERVATIONS := 6
  const ADMIN_TIMELOCK_SECONDS := 172_800

  datatype PythQuote = PythQuote(price: Uint128, conf: Uint64)

  /** The price cache and the breaker's own fields. */
  datatype Core = Core(
    lastPrice: Uint128, lastUpdate: Uint64, observations: seq<Observation>,
    pyth: PythQuote, pythTimestamp: Uint64, updateInterval: Uint64,
    warmup: Uint32, candidate: Option<Uint128>, preReset: Uint128, failures: Uint32)

  /** Which pools are read, and what was read from them last time. */
  datatype Sampling = Sampling(
    selected: seq<Addr>, lastRotation: Uint64, rotationInterval: Uint64,
    snapshots: seq<W.Snapshot>, anchorSide: nat)

  /** The first price of a deployment, waiting for the admin. */
  datatype PendingBootstrap = PendingBootstrap(
    price: Uint128, atomPoolPrice: Uint128, proposedAt: Timestamp, count: Uint32)

  datatype Oracle = Oracle(
    admin: Addr, anchor: Addr, core: Core, sampling: Sampling,
    bootstrap: Option<PendingBootstrap>, pendingRotation: Option<nat>)

  /** What a call finds outside the contract's own storage: the block time, the sampling digest,
      the eligible pools, the pools that answer and the ATOM/USD feed. */
  datatype Chain = Chain(
    now: Timestamp, digest: Sampler.Digest, basket: bool, eligible: seq<Addr>,
    sides: map<Addr, nat>, answers: map<Addr, W.PoolState>, pyth: Option<PythQuote>)

  datatype Error =
    | Unauthorized | UpdateTooSoon | CircuitBreaker | MedianOverflow
    | Averaging(average: TwapError) | Weighing(round: W.PriceError)
    | ForceRotateAlreadyPending | NoPendingForceRotate | TimelockNotExpired
    | NoPendingBootstrapPrice | BootstrapWindowOpen | BootstrapTooFewObservations

  datatype Publication = Publication(time: Uint64, price: Uint128)

  /** A call that succeeded: the stored oracle after it, and the price it published, if any. */
  datatype Stepped = Stepped(oracle: Oracle, published: Option<Publication>)

  function Initial(admin: Addr, anchor: Addr, chain: Chain): Oracle {
    Oracle(admin, anchor,
           Core(0, 0, [], PythQuote(0, 0), 0, UPDATE_INTERVAL, WARMUP_OBSERVATIONS, None, 0, 0),
           Sampling(Select(anchor, chain), Seconds(chain.now), ROTATION_INTERVAL, [], 0),
           None, None)
  }

  function Select(anchor: Addr, chain: Chain): seq<Addr> {
    Sampler.Selection(chain.basket, anchor, chain.eligible, ORACLE_POOL_COUNT, chain.digest)
  }

  /** `retain(timestamp >= cutoff)`. */
  function Retain(obs: seq<Observation>, cutoff: Uint64): seq<Observation> {
    if obs == [] then []
    else
      Retain(obs[..|obs| - 1], cutoff)
      + if obs[|obs| - 1].timestamp >= cutoff then [obs[|obs| - 1]] else []
  }

  function KeepSnapshots(snapshots: seq<W.Snapshot>, pools: seq<Addr>): seq<W.Snapshot> {
    if snapshots == [] then []
    else
      KeepSnapshots(snapshots[..|snapshots| - 1], pools)
      + if snapshots[|snapshots| - 1].pool in pools then [snapshots[|snapshots| - 1]] else []
  }

  /** The observation window after a round's own observation went in. */
  ghost function Observed(c: Core, now: Uint64, price: Uint128, atomPrice: Uint128): Core {
    c.(observations := Retain(c.observations + [Observation(now, price, atomPrice)], SatSub(now, TWAP_WINDOW)))
  }

  /** The window without the observation just pushed. */
  ghost function WithoutLast(c: Core): Core {
    if c.observations == [] then c
    else c.(observations := c.observations[..|c.observations| - 1])
  }

  /** The window with the observation just pushed set to the published price. */
  ghost function WithLastPrice(c: Core, price: Uint128): Core {
    if c.observations == [] then c
    else
      var last := |c.observations| - 1;
      c.(observations := c.observations[last := c.observations[last].(price := price)])
  }

  ghost function Publish(c: Core, price: Uint128, now: Uint64): Core {
    c.(lastPrice := price, lastUpdate := now)
  }

  /** The shared tail of every publishing call. */
  ghost function Tail(c: Core, now: Uint64, pyth: Option<PythQuote>): Core {
    var cached := if pyth.Some? then c.(pyth := pyth.value, pythTimestamp := now) else c;
    cached.(warmup := SatSub(cached.warmup, 1))
  }

  /** What a breaker branch decided: the price it published, or none. */
  datatype Verdict = Verdict(core: Core, published: Option<Uint128>)

  /** Live price: publish unless it drifted. */
  ghost function BranchA(c: Core, twap: Uint128, now: Uint64): Result<Verdict, Error> {
    if DriftBps(twap, c.lastPrice) > MAX_TWAP_DRIFT_BPS then Err(CircuitBreaker)
    else Ok(Verdict(Publish(c, twap, now), Some(twap)))
  }

  /** First observation after a reset: hold it. */
  ghost function BranchB(c: Core, twap: Uint128): Verdict {
    Verdict(WithoutLast(c).(candidate := Some(twap)), None)
  }

  /** A held candidate: publish the midpoint when the new observation agrees with it, or when
      this is the twelfth disagreement in a row; otherwise hold the new one instead. */
  ghost function BranchC(c: Core, twap: Uint128, candidate: Uint128, now: Uint64): Result<Verdict, Error> {
    if candidate + twap > U128_MAX then Err(MedianOverflow)
    else
      var mid := Midpoint(candidate, twap);
      var failures := Min(c.failures + 1, U32_MAX);
      if DriftBps(twap, candidate) > MAX_TWAP_DRIFT_BPS && failures < MAX_CONSECUTIVE_FAILURES then
        Ok(Verdict(WithoutLast(c).(candidate := Some(twap), failures := failures), None))
      else
        Ok(Verdict(Publish(WithLastPrice(c, mid), mid, now).(candidate := None, failures := 0), Some(mid)))
  }

  /** No price was ever trusted: queue the observation for the admin. */
  function BranchD(bootstrap: Option<PendingBootstrap>, now: Timestamp, twap: Uint128,
        atomPrice: Uint128): PendingBootstrap {
    match bootstrap
    case Some(b) => PendingBootstrap(twap, atomPrice, b.proposedAt, Min(b.count + 1, U32_MAX))
    case None => PendingBootstrap(twap, atomPrice, now, 1)
  }

  /** A round in which the pools yielded a price. */
  ghost function PriceRound(o: Oracle, now: Timestamp, price: Uint128, atomPrice: Uint128,
        pyth: Option<PythQuote>): Result<Stepped, Error> {
    var t := Seconds(now);
    var c := Observed(o.core, t, price, atomPrice);
    if Twap(c.observations).Err? then Err(Averaging(Twap(c.observations).error))
    else
    var twap := Twap(c.observations).value;
    if c.lastPrice != 0 then
      var v :- BranchA(c, twap, t);
      Ok(Finish(o, v, t, pyth))
    else if c.candidate.Some? then
      var v :- BranchC(c, twap, c.candidate.value, t);
      Ok(Finish(o, v, t, pyth))
    else if c.preReset != 0 then
      Ok(Finish(o, BranchB(c, twap), t, pyth))
    else
      Ok(Stepped(o.(core := WithoutLast(c), bootstrap := Some(BranchD(o.bootstrap, now, twap, atomPrice))), None))
  }

  ghost function Finish(o: Oracle, v: Verdict, t: Uint64, pyth: Option<PythQuote>): Stepped {
    match v.published
    case Some(p) => Stepped(o.(core := Tail(v.core, t, pyth)), Some(Publication(t, p)))
    case None => Stepped(o.(core := v.core), None)
  }

  /** `UpdateOraclePrice`. */
  ghost function Update(o: Oracle, chain: Chain): Result<Stepped, Error> {
    var t := Seconds(chain.now);
    if t < SatAdd64(o.core.lastUpdate, o.core.updateInterval) then Err(UpdateTooSoon)
    else
      var sampling := Rotated(o, chain);
      match W.Weigh(MarketSeen(o, sampling, chain), sampling.selected)
      case Err(e) => Err(Weighing(e))
      case Ok(round) =>
        var o' := o.(sampling := sampling.(snapshots := round.snapshots));
        match round.prices
        case None => Ok(Stepped(o', None))
        case Some((price, atomPrice)) => PriceRound(o', chain.now, price, atomPrice, chain.pyth)
  }

  /** The sample is redrawn once the rotation interval is over; snapshots survive only for pools
      that stay in it. */
  ghost function Rotated(o: Oracle, chain: Chain): Sampling {
    var s, t := o.sampling, Seconds(chain.now);
    if t < SatAdd64(s.lastRotation, s.rotationInterval) then s
    else
      var selected := Select(o.anchor, chain);
      s.(selected := selected, lastRotation := t, snapshots := KeepSnapshots(s.snapshots, selected))
  }

  ghost function MarketSeen(o: Oracle, s: Sampling, chain: Chain): W.Market {
    W.Market(o.anchor, s.anchorSide, chain.sides, chain.answers, s.snapshots, o.core.lastPrice)
  }

  /** `ProposeForceRotateOraclePools`. */
  ghost function ProposeRotation(o: Oracle, sender: Addr, now: Timestamp): Result<Stepped, Error> {
    if sender != o.admin then Err(Unauthorized)
    else if o.pendingRotation.Some? then Err(ForceRotateAlreadyPending)
    else Ok(Stepped(o.(pendingRotation := Some(PlusSeconds(now, ADMIN_TIMELOCK_SECONDS))), None))
  }

  ghost function CancelRotation(o: Oracle, sender: Addr): Result<Stepped, Error> {
    if sender != o.admin then Err(Unauthorized)
    else if o.pendingRotation.None? then Err(NoPendingForceRotate)
    else Ok(Stepped(o.(pendingRotation := None), None))
  }

  /** The stored price state right after a reset: only the previous price survives. */
  ghost function Reset(c: Core): Core {
    c.(lastPrice := 0, lastUpdate := 0, observations := [], warmup := WARMUP_OBSERVATIONS,
       candidate := None, preReset := c.lastPrice, failures := 0)
  }

  /** `ForceRotateOraclePools`, the reset. */
  ghost function ForceRotate(o: Oracle, sender: Addr, chain: Chain): Result<Stepped, Error> {
    if sender != o.admin then Err(Unauthorized)
    else if o.pendingRotation.None? then Err(NoPendingForceRotate)
    else if chain.now < o.pendingRotation.value then Err(TimelockNotExpired)
    else
      var sampling := o.sampling.(selected := Select(o.anchor, chain), lastRotation := Seconds(chain.now),
          snapshots := []);
      Ok(Stepped(o.(core := Reset(o.core), sampling := sampling, bootstrap := None, pendingRotation := None), None))
  }

  /** `ConfirmBootstrapPrice`. */
  ghost function ConfirmBootstrap(o: Oracle, sender: Addr, now: Timestamp,
        pyth: Option<PythQuote>): Result<Stepped, Error> {
    if sender != o.admin then Err(Unauthorized)
    else if o.bootstrap.None? then Err(NoPendingBootstrapPrice)
    else
      var b, t := o.bootstrap.value, Seconds(now);
      if now < PlusSeconds(b.proposedAt, BOOTSTRAP_OBSERVATION_SECONDS) then Err(BootstrapWindowOpen)
      else if b.count < MIN_BOOTSTRAP_OBSERVATIONS then Err(BootstrapTooFewObservations)
      else
        var c := Publish(o.core, b.price, t);
        var c' := c.(observations := c.observations + [Observation(t, b.price, b.atomPoolPrice)]);
        Ok(Stepped(o.(core := Tail(c', t, pyth), bootstrap := None), Some(Publication(t, b.price))))
  }

  ghost function CancelBootstrap(o: Oracle, sender: Addr): Result<Stepped, Error> {
    if sender != o.admin then Err(Unauthorized)
    else if o.bootstrap.None? then Err(NoPendingBootstrapPrice)
    else Ok(Stepped(o.(bootstrap := None), None))
  }

  datatype Event =
    | UpdateCall(chain: Chain)
    | ProposeRotationCall(sender: Addr, now: Timestamp)
    | CancelRotationCall(sender: Addr)
    | ForceRotateCall(sender: Addr, chain: Chain)
    | ConfirmBootstrapCall(sender: Addr, now: Timestamp, pyth: Option<PythQuote>)
    | CancelBootstrapCall(sender: Addr)

  ghost function Step(o: Oracle, e: Event): Result<Stepped, Error> {
    match e
    case UpdateCall(chain) => Update(o, chain)
    case ProposeRotationCall(sender, now) => ProposeRotation(o, sender, now)
    case CancelRotationCall(sender) => CancelRotation(o, sender)
    case ForceRotateCall(sender, chain) => ForceRotate(o, sender, chain)
    case ConfirmBootstrapCall(sender, now, pyth) => ConfirmBootstrap(o, sender, now, pyth)
    case CancelBootstrapCall(sender) => CancelBootstrap(o, sender)
  }
}
