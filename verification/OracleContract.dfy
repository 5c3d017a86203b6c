/** The oracle's entry points as the factory runs them: load the stored record, change the
    working copy step by step, save it only on success. */
module OracleContract {
  import opened Base
  import opened Drift
  import opened TwapWindow
  import opened OracleModel
  import opened OracleRuns
  import OracleGuarantees

  /** A call did what the model says: on success the new state and the publication match, on
      failure the error matches and nothing was stored. */
  ghost predicate Did(expected: Result<Stepped, Error>, r: Result<Option<Publication>, Error>, before: Oracle,
        after: Oracle) {
    match r
    case Ok(published) => expected == Ok(Stepped(after, published))
    case Err(e) => expected == Err(e) && after == before
  }

  /** The working copy of the price cache and breaker fields. */
  class InternalOracle {
    var lastPrice: Uint128
    var lastUpdate: Uint64
    var observations: seq<Observation>
    var pyth: PythQuote
    var pythTimestamp: Uint64
    var updateInterval: Uint64
    var warmup: Uint32
    var candidate: Option<Uint128>
    var preReset: Uint128
    var failures: Uint32

    function Save(): Core
      reads this
    {
      Core(lastPrice, lastUpdate, observations, pyth, pythTimestamp, updateInterval,
           warmup, candidate, preReset, failures)
    }

    constructor Load(c: Core)
      ensures Save() == c
    {
      lastPrice, lastUpdate, observations := c.lastPrice, c.lastUpdate, c.observations;
      pyth, pythTimestamp, updateInterval := c.pyth, c.pythTimestamp, c.updateInterval;
      warmup, candidate, preReset, failures := c.warmup, c.candidate, c.preReset, c.failures;
    }

    method Observe(now: Uint64, price: Uint128, atomPrice: Uint128)
      modifies this`observations
      ensures Save() == Observed(old(Save()), now, price, atomPrice)
    {
      observations := observations + [Observation(now, price, atomPrice)];
      var cutoff := SatSub(now, TWAP_WINDOW);
      var kept: seq<Observation> := [];
      for i := 0 to |observations|
        invariant kept == Retain(observations[..i], cutoff)
      {
        assert observations[..i + 1][..i] == observations[..i];
        if observations[i].timestamp >= cutoff {
          kept := kept + [observations[i]];
        }
      }
      assert observations[..|observations|] == observations;
      observations := kept;
    }

    method PopObservation()
      modifies this`observations
      ensures Save() == WithoutLast(old(Save()))
    {
      if |observations| > 0 {
        observations := observations[..|observations| - 1];
      }
    }

    method BreakerBranchA(twap: Uint128, now: Uint64) returns (r: Result<Option<Uint128>, Error>)
      modifies this
      ensures BranchA(old(Save()), twap, now) == (if r.Err? then Err(r.error) else Ok(Verdict(Save(), r.value)))
      ensures r.Ok? ==> r.value == Some(twap) && lastPrice == twap && lastUpdate == now
    {
      var prior := lastPrice;
      var drift := DriftBps(twap, prior);
      if drift > MAX_TWAP_DRIFT_BPS {
        return Err(CircuitBreaker);
      }
      lastPrice := twap;
      lastUpdate := now;
      return Ok(Some(twap));
    }

    method BreakerBranchB(twap: Uint128)
      modifies this
      ensures BranchB(old(Save()), twap) == Verdict(Save(), None)
      ensures candidate == Some(twap) && lastPrice == old(lastPrice) && lastUpdate == old(lastUpdate)
      ensures old(observations) != [] ==> observations == old(observations)[..|old(observations)| - 1]
    {
      PopObservation();
      candidate := Some(twap);
    }

    method BreakerBranchC(twap: Uint128, held: Uint128, now: Uint64) returns (r: Result<Option<Uint128>, Error>)
      modifies this
      ensures BranchC(old(Save()), twap, held, now)
              == (if r.Err? then Err(r.error) else Ok(Verdict(Save(), r.value)))
      ensures r.Ok? && r.value.None? ==> candidate == Some(twap) && lastPrice == old(lastPrice)
      ensures r.Ok? && r.value.Some? ==>
                && candidate.None? && lastPrice == r.value.value && lastUpdate == now
                && 2 * lastPrice <= held + twap < 2 * lastPrice + 2
    {
      var drift := DriftBps(twap, held);
      if held + twap > U128_MAX {
        return Err(MedianOverflow);
      }
      var median := (held + twap) / 2;
      if drift > MAX_TWAP_DRIFT_BPS {
        var nextFailures := Min(failures + 1, U32_MAX);
        if nextFailures < MAX_CONSECUTIVE_FAILURES {
          PopObservation();
          candidate := Some(twap);
          failures := nextFailures;
          return Ok(None);
        }
      }
      if |observations| > 0 {
        var last := |observations| - 1;
        observations := observations[last := observations[last].(price := median)];
      }
      lastPrice := median;
      lastUpdate := now;
      candidate := None;
      failures := 0;
      return Ok(Some(median));
    }

    /** The shared tail of every publishing call. */
    method RecordPublication(now: Uint64, quote: Option<PythQuote>)
      modifies this
      ensures Save() == Tail(old(Save()), now, quote)
    {
      if quote.Some? {
        pyth := quote.value;
        pythTimestamp := now;
      }
      if warmup > 0 {
        warmup := warmup - 1;
      }
    }

    method Clear()
      modifies this
      ensures Save() == Reset(old(Save()))
    {
      preReset := lastPrice;
      lastPrice := 0;
      lastUpdate := 0;
      observations := [];
      warmup := WARMUP_OBSERVATIONS;
      candidate := None;
      failures := 0;
    }
  }

  /** The factory's storage slots the oracle uses. */
  class Factory {
    const admin: Addr
    const anchor: Addr
    var internalOracle: Core
    var sampling: Sampling
    var pendingBootstrap: Option<PendingBootstrap>
    var pendingRotation: Option<nat>

    function Stored(): Oracle
      reads this
    {
      Oracle(admin, anchor, internalOracle, sampling, pendingBootstrap, pendingRotation)
    }

    constructor Instantiate(admin: Addr, anchor: Addr, chain: Chain)
      ensures Stored() == Initial(admin, anchor, chain)
    {
      this.admin, this.anchor := admin, anchor;
      var selected := Sampler.SelectRandomPoolsWithAtom(chain.basket, anchor, chain.eligible, ORACLE_POOL_COUNT,
          chain.digest);
      internalOracle := Core(0, 0, [], PythQuote(0, 0), 0, UPDATE_INTERVAL, WARMUP_OBSERVATIONS, None, 0, 0);
      sampling := Sampling(selected, Seconds(chain.now), ROTATION_INTERVAL, [], 0);
      pendingBootstrap, pendingRotation := None, None;
    }

    /** Of the snapshots, those of pools that stay in the sample. */
    method RetainSnapshots(snapshots: seq<W.Snapshot>, selected: seq<Addr>) returns (kept: seq<W.Snapshot>)
      ensures kept == KeepSnapshots(snapshots, selected)
    {
      kept := [];
      for i := 0 to |snapshots|
        invariant kept == KeepSnapshots(snapshots[..i], selected)
      {
        assert snapshots[..i + 1][..i] == snapshots[..i];
        if snapshots[i].pool in selected {
          kept := kept + [snapshots[i]];
        }
      }
      assert snapshots[..|snapshots|] == snapshots;
    }

    method UpdateInternalOraclePrice(chain: Chain) returns (r: Result<Option<Publication>, Error>)
      modifies this
      ensures Did(Update(old(Stored()), chain), r, old(Stored()), Stored())
    {
      var currentTime := Seconds(chain.now);
      if currentTime < SatAdd64(internalOracle.lastUpdate, internalOracle.updateInterval) {
        return Err(UpdateTooSoon);
      }
      var working := sampling;
      if currentTime >= SatAdd64(working.lastRotation, working.rotationInterval) {
        var selected := Sampler.SelectRandomPoolsWithAtom(chain.basket, anchor, chain.eligible, ORACLE_POOL_COUNT,
            chain.digest);
        var snapshots := RetainSnapshots(working.snapshots, selected);
        working := working.(selected := selected, lastRotation := currentTime, snapshots := snapshots);
      }
      var market := W.Market(anchor, working.anchorSide, chain.sides, chain.answers, working.snapshots,
          internalOracle.lastPrice);
      var round := W.CalculateWeightedPriceWithAtom(market, working.selected);
      if round.Err? {
        return Err(Weighing(round.error));
      }
      working := working.(snapshots := round.value.snapshots);
      if round.value.prices.None? {
        sampling := working;
        return Ok(None);
      }
      r := RunBreaker(working, chain, round.value.prices.value.0, round.value.prices.value.1);
    }

    /** The part of an update after the pools yielded a price. */
    method RunBreaker(working: Sampling, chain: Chain, price: Uint128, atomPrice: Uint128)
      returns (r: Result<Option<Publication>, Error>)
      modifies this
      ensures Did(PriceRound(old(Stored()).(sampling := working), chain.now, price, atomPrice, chain.pyth),
                  r, old(Stored()), Stored())
    {
      var currentTime := Seconds(chain.now);
      var oracle := new InternalOracle.Load(internalOracle);
      oracle.Observe(currentTime, price, atomPrice);
      var average := CalculateTwap(oracle.observations);
      if average.Err? {
        return Err(Averaging(average.error));
      }
      var twap := average.value;
      var published: Option<Uint128> := None;
      if oracle.lastPrice != 0 {
        var verdict := oracle.BreakerBranchA(twap, currentTime);
        if verdict.Err? {
          return Err(verdict.error);
        }
        published := verdict.value;
      } else if oracle.candidate.Some? {
        var verdict := oracle.BreakerBranchC(twap, oracle.candidate.value, currentTime);
        if verdict.Err? {
          return Err(verdict.error);
        }
        published := verdict.value;
      } else if oracle.preReset != 0 {
        oracle.BreakerBranchB(twap);
      } else {
        oracle.PopObservation();
        pendingBootstrap := Some(BranchD(pendingBootstrap, chain.now, twap, atomPrice));
      }
      if published.Some? {
        oracle.RecordPublication(currentTime, chain.pyth);
        r := Ok(Some(Publication(currentTime, published.value)));
      } else {
        r := Ok(None);
      }
      internalOracle := oracle.Save();
      sampling := working;
    }

    method ExecuteProposeForceRotate(sender: Addr, now: Timestamp) returns (r: Result<Option<Publication>, Error>)
      modifies this`pendingRotation
      ensures Did(ProposeRotation(old(Stored()), sender, now), r, old(Stored()), Stored())
    {
      if sender != admin {
        return Err(Unauthorized);
      }
      if pendingRotation.Some? {
        return Err(ForceRotateAlreadyPending);
      }
      pendingRotation := Some(PlusSeconds(now, ADMIN_TIMELOCK_SECONDS));
      return Ok(None);
    }

    method ExecuteCancelForceRotate(sender: Addr) returns (r: Result<Option<Publication>, Error>)
      modifies this`pendingRotation
      ensures Did(CancelRotation(old(Stored()), sender), r, old(Stored()), Stored())
    {
      if sender != admin {
        return Err(Unauthorized);
      }
      if pendingRotation.None? {
        return Err(NoPendingForceRotate);
      }
      pendingRotation := None;
      return Ok(None);
    }

    method ExecuteForceRotatePools(sender: Addr, chain: Chain) returns (r: Result<Option<Publication>, Error>)
      modifies this
      ensures Did(ForceRotate(old(Stored()), sender, chain), r, old(Stored()), Stored())
    {
      if sender != admin {
        return Err(Unauthorized);
      }
      if pendingRotation.None? {
        return Err(NoPendingForceRotate);
      }
      if chain.now < pendingRotation.value {
        return Err(TimelockNotExpired);
      }
      var oracle := new InternalOracle.Load(internalOracle);
      var selected := Sampler.SelectRandomPoolsWithAtom(chain.basket, anchor, chain.eligible, ORACLE_POOL_COUNT,
          chain.digest);
      oracle.Clear();
      pendingBootstrap := None;
      internalOracle := oracle.Save();
      sampling := sampling.(selected := selected, lastRotation := Seconds(chain.now), snapshots := []);
      pendingRotation := None;
      return Ok(None);
    }

    method ExecuteConfirmBootstrapPrice(sender: Addr, now: Timestamp, quote: Option<PythQuote>)
      returns (r: Result<Option<Publication>, Error>)
      modifies this
      ensures Did(ConfirmBootstrap(old(Stored()), sender, now, quote), r, old(Stored()), Stored())
    {
      if sender != admin {
        return Err(Unauthorized);
      }
      if pendingBootstrap.None? {
        return Err(NoPendingBootstrapPrice);
      }
      var pending := pendingBootstrap.value;
      if now < PlusSeconds(pending.proposedAt, BOOTSTRAP_OBSERVATION_SECONDS) {
        return Err(BootstrapWindowOpen);
      }
      if pending.count < MIN_BOOTSTRAP_OBSERVATIONS {
        return Err(BootstrapTooFewObservations);
      }
      var oracle := new InternalOracle.Load(internalOracle);
      var currentTime := Seconds(now);
      oracle.lastPrice := pending.price;
      oracle.lastUpdate := currentTime;
      oracle.observations := oracle.observations + [Observation(currentTime, pending.price, pending.atomPoolPrice)];
      oracle.RecordPublication(currentTime, quote);
      internalOracle := oracle.Save();
      pendingBootstrap := None;
      return Ok(Some(Publication(currentTime, pending.price)));
    }

    method ExecuteCancelBootstrapPrice(sender: Addr) returns (r: Result<Option<Publication>, Error>)
      modifies this`pendingBootstrap
      ensures Did(CancelBootstrap(old(Stored()), sender), r, old(Stored()), Stored())
    {
      if sender != admin {
        return Err(Unauthorized);
      }
      if pendingBootstrap.None? {
        return Err(NoPendingBootstrapPrice);
      }
      pendingBootstrap := None;
      return Ok(None);
    }

    method Execute(e: Event) returns (r: Result<Option<Publication>, Error>)
      modifies this
      ensures Did(Step(old(Stored()), e), r, old(Stored()), Stored())
    {
      match e
      case UpdateCall(chain) => r := UpdateInternalOraclePrice(chain);
      case ProposeRotationCall(sender, now) => r := ExecuteProposeForceRotate(sender, now);
      case CancelRotationCall(sender) => r := ExecuteCancelForceRotate(sender);
      case ForceRotateCall(sender, chain) => r := ExecuteForceRotatePools(sender, chain);
      case ConfirmBootstrapCall(sender, now, pyth) => r := ExecuteConfirmBootstrapPrice(sender, now, pyth);
      case CancelBootstrapCall(sender) => r := ExecuteCancelBootstrapPrice(sender);
    }

    /** Any sequence of calls on a factory: it ends where the model's run ends, with that run's
        publications since the last reset. From deployment on, the invariant holds and any two of
        those publications are apart in time and close in price as `RateKept` says. */
    method ExecuteAll(es: seq<Event>) returns (pubs: seq<Publication>)
      modifies this
      ensures Stored() == Run(old(Stored()), es) && pubs == Published(old(Stored()), es)
      ensures Inv(old(Stored()), []) ==> Inv(Stored(), pubs) && OracleGuarantees.RateKept(pubs)
    {
      ghost var start := Stored();
      pubs := [];
      for i := 0 to |es|
        invariant Stored() == Run(start, es[..i]) && pubs == Published(start, es[..i])
      {
        assert es[..i + 1][..i] == es[..i];
        var r := Execute(es[i]);
        if r.Ok? && es[i].ForceRotateCall? {
          pubs := [];
        } else if r.Ok? && r.value.Some? {
          pubs := pubs + [r.value.value];
        }
      }
      assert es[..|es|] == es;
      if Inv(start, []) {
        RunKeeps(start, es);
        OracleGuarantees.ChainKeepsRate(pubs);
      }
    }
  }
}
