/** What holds of the price oracle over every run from deployment: any sequence of calls, by
    anyone, with any answers from the pools and the price feed. A failed call leaves the
    contract's storage as it was. */
module OracleRuns {
  import opened Base
  import opened Drift
  import opened TwapWindow
  import opened OracleModel

  ghost function After(o: Oracle, e: Event): Oracle {
    match Step(o, e)
    case Ok(s) => s.oracle
    case Err(_) => o
  }

  ghost function Run(o: Oracle, es: seq<Event>): Oracle {
    if es == [] then o else After(Run(o, es[..|es| - 1]), es[|es| - 1])
  }

  /** The prices published by a run since its last reset, in order. */
  ghost function Published(o: Oracle, es: seq<Event>): seq<Publication> {
    if es == [] then []
    else
      var earlier, e := es[..|es| - 1], es[|es| - 1];
      Extend(Published(o, earlier), Run(o, earlier), e)
  }

  ghost function Extend(pubs: seq<Publication>, o: Oracle, e: Event): seq<Publication> {
    match Step(o, e)
    case Err(_) => pubs
    case Ok(s) => if e.ForceRotateCall? then [] else Record(pubs, s.published)
  }

  ghost function Record(pubs: seq<Publication>, p: Option<Publication>): seq<Publication> {
    match p
    case Some(x) => pubs + [x]
    case None => pubs
  }

  // ----- The invariant -----

  /** At most one of a live price, a held candidate and a price waiting for the admin. */
  ghost predicate OneMode(o: Oracle) {
    && (o.core.candidate.Some? ==> o.core.lastPrice == 0 && o.core.preReset > 0 && o.bootstrap.None?)
    && (o.bootstrap.Some? ==> o.core.lastPrice == 0 && o.core.preReset == 0)
    && o.core.failures < MAX_CONSECUTIVE_FAILURES
    && (o.core.candidate.None? ==> o.core.failures == 0)
  }

  /** The stored price is the last one published. */
  ghost predicate Tracks(o: Oracle, pubs: seq<Publication>) {
    && o.core.updateInterval == UPDATE_INTERVAL
    && o.core.warmup == SatSub(WARMUP_OBSERVATIONS, |pubs|)
    && (pubs == [] ==> o.core.lastPrice == 0 && o.core.lastUpdate == 0 && o.core.observations == [])
    && (pubs != [] ==> Publication(o.core.lastUpdate, o.core.lastPrice) == pubs[|pubs| - 1])
    && (o.bootstrap.Some? ==> Seconds(o.bootstrap.value.proposedAt) >= o.core.lastUpdate + UPDATE_INTERVAL)
  }

  /** Publications keep the cooldown apart, and a positive one bounds the next. */
  ghost predicate Chained(pubs: seq<Publication>) {
    forall k :: 0 <= k < |pubs| - 1 ==>
      && pubs[k].time + UPDATE_INTERVAL <= pubs[k + 1].time
      && (pubs[k].price > 0 ==> DriftBps(pubs[k + 1].price, pubs[k].price) <= MAX_TWAP_DRIFT_BPS)
  }

  ghost predicate StampedBy(obs: seq<Observation>, time: int) {
    forall i :: 0 <= i < |obs| ==> obs[i].timestamp <= time
  }

  ghost predicate AllPositive(pubs: seq<Publication>) {
    forall k :: 0 <= k < |pubs| ==> pubs[k].price > 0
  }

  ghost predicate SpansAtMost(obs: seq<Observation>, seconds: nat) {
    forall i, j :: 0 <= i < j < |obs| ==> obs[j].timestamp - obs[i].timestamp <= seconds
  }

  ghost predicate WindowSound(o: Oracle, pubs: seq<Publication>) {
    var obs := o.core.observations;
    && Ordered(obs) && StampedBy(obs, o.core.lastUpdate)
    && (o.core.lastPrice > 0 ==>
          obs != [] && obs[|obs| - 1].timestamp == o.core.lastUpdate && InHull(o.core.lastPrice, obs))
    && (AllPositive(pubs) ==> SpansAtMost(obs, TWAP_WINDOW))
  }

  ghost predicate Inv(o: Oracle, pubs: seq<Publication>) {
    OneMode(o) && Tracks(o, pubs) && Chained(pubs) && WindowSound(o, pubs)
  }

  // ----- Every call keeps it -----

  lemma {:induction false} RetainKeeps(obs: seq<Observation>, cutoff: Uint64, time: int)
    requires Ordered(obs) && StampedBy(obs, time)
    ensures var kept := Retain(obs, cutoff);
      && Ordered(kept) && StampedBy(kept, time)
      && forall i :: 0 <= i < |kept| ==> kept[i].timestamp >= cutoff
  {
    if obs != [] {
      var front := obs[..|obs| - 1];
      RetainKeeps(front, cutoff, obs[|obs| - 1].timestamp);
    }
  }

  lemma {:induction false} RetainSpan(obs: seq<Observation>, cutoff: Uint64, seconds: nat)
    requires SpansAtMost(obs, seconds)
    ensures SpansAtMost(Retain(obs, cutoff), seconds)
    ensures forall x :: x in Retain(obs, cutoff) ==> x in obs
  {
    if obs != [] {
      var front, last := obs[..|obs| - 1], obs[|obs| - 1];
      RetainSpan(front, cutoff, seconds);
      var kept := Retain(front, cutoff);
      forall i | 0 <= i < |kept|
        ensures last.timestamp - kept[i].timestamp <= seconds
      {
        assert kept[i] in kept;
        var j :| 0 <= j < |front| && front[j] == kept[i];
      }
    }
  }

  /** A round's observation goes to the end of what the window keeps. */
  lemma ObservedShape(c: Core, t: Uint64, price: Uint128, atomPrice: Uint128)
    requires Ordered(c.observations) && StampedBy(c.observations, c.lastUpdate) && c.lastUpdate <= t
    ensures var kept := Retain(c.observations, SatSub(t, TWAP_WINDOW));
      && Observed(c, t, price, atomPrice).observations == kept + [Observation(t, price, atomPrice)]
      && Ordered(kept) && StampedBy(kept, c.lastUpdate)
      && Ordered(Observed(c, t, price, atomPrice).observations)
      && SpansAtMost(Observed(c, t, price, atomPrice).observations, TWAP_WINDOW)
  {
    var last := Observation(t, price, atomPrice);
    assert (c.observations + [last])[..|c.observations|] == c.observations;
    RetainKeeps(c.observations, SatSub(t, TWAP_WINDOW), c.lastUpdate);
  }

  lemma ChainGrows(pubs: seq<Publication>, p: Publication)
    requires Chained(pubs)
    requires pubs != [] ==>
               var last := pubs[|pubs| - 1];
               last.time + UPDATE_INTERVAL <= p.time
               && (last.price > 0 ==> DriftBps(p.price, last.price) <= MAX_TWAP_DRIFT_BPS)
    ensures Chained(pubs + [p])
  {
  }

  /** Rounds that hold a price back leave the published one alone and only age the window. */
  lemma HeldRoundKeeps(o: Oracle, pubs: seq<Publication>, o': Oracle, t: Uint64)
    requires Inv(o, pubs) && o.core.lastPrice == 0 && o.core.lastUpdate <= t
    requires OneMode(o')
    requires o'.core.observations == Retain(o.core.observations, SatSub(t, TWAP_WINDOW))
    requires o'.core.updateInterval == o.core.updateInterval && o'.core.warmup == o.core.warmup
    requires o'.core.lastPrice == 0 && o'.core.lastUpdate == o.core.lastUpdate
    requires o'.bootstrap.Some? ==> Seconds(o'.bootstrap.value.proposedAt) >= o.core.lastUpdate + UPDATE_INTERVAL
    ensures Inv(o', pubs)
  {
    RetainKeeps(o.core.observations, SatSub(t, TWAP_WINDOW), o.core.lastUpdate);
    if AllPositive(pubs) {
      RetainSpan(o.core.observations, SatSub(t, TWAP_WINDOW), TWAP_WINDOW);
    }
  }

  /** A publishing call: what the new state must satisfy. */
  lemma PublicationKeeps(o: Oracle, pubs: seq<Publication>, o': Oracle, p: Publication)
    requires Inv(o, pubs) && OneMode(o') && o'.bootstrap.None?
    requires o'.core.updateInterval == o.core.updateInterval
    requires o'.core.warmup == SatSub(o.core.warmup, 1)
    requires o'.core.lastPrice == p.price && o'.core.lastUpdate == p.time
    requires pubs != [] ==> o.core.lastUpdate + UPDATE_INTERVAL <= p.time
    requires o.core.lastPrice > 0 ==> DriftBps(p.price, o.core.lastPrice) <= MAX_TWAP_DRIFT_BPS
    requires WindowSound(o', pubs + [p])
    ensures Inv(o', pubs + [p])
  {
    ChainGrows(pubs, p);
  }

  lemma LiveRoundKeeps(o: Oracle, pubs: seq<Publication>, now: Timestamp, price: Uint128, atomPrice: Uint128,
        pyth: Option<PythQuote>)
    requires Inv(o, pubs) && o.core.lastPrice != 0
    requires o.core.lastUpdate + UPDATE_INTERVAL <= Seconds(now)
    requires PriceRound(o, now, price, atomPrice, pyth).Ok?
    ensures var s := PriceRound(o, now, price, atomPrice, pyth).value;
      s.published.Some? && Inv(s.oracle, pubs + [s.published.value])
  {
    var c := Observed(o.core, Seconds(now), price, atomPrice);
    ObservedShape(o.core, Seconds(now), price, atomPrice);
    TwapInHull(c.observations);
    var s := PriceRound(o, now, price, atomPrice, pyth).value;
    PublicationKeeps(o, pubs, s.oracle, s.published.value);
  }

  lemma MidpointRoundKeeps(o: Oracle, pubs: seq<Publication>, now: Timestamp, price: Uint128, atomPrice: Uint128,
        pyth: Option<PythQuote>)
    requires Inv(o, pubs) && o.core.lastPrice == 0
    requires o.core.lastUpdate + UPDATE_INTERVAL <= Seconds(now)
    requires PriceRound(o, now, price, atomPrice, pyth).Ok?
    requires PriceRound(o, now, price, atomPrice, pyth).value.published.Some?
    ensures var s := PriceRound(o, now, price, atomPrice, pyth).value;
      Inv(s.oracle, pubs + [s.published.value])
  {
    var t := Seconds(now);
    var c := Observed(o.core, t, price, atomPrice);
    ObservedShape(o.core, t, price, atomPrice);
    var s := PriceRound(o, now, price, atomPrice, pyth).value;
    var obs, mid := s.oracle.core.observations, s.published.value.price;
    assert obs == WithLastPrice(c, mid).observations;
    assert obs == c.observations[..|obs| - 1] + [Observation(t, mid, atomPrice)];
    assert InHull(mid, obs) by {
      assert obs[|obs| - 1].price == mid;
    }
    assert AllPositive(pubs + [s.published.value]) ==> SpansAtMost(obs, TWAP_WINDOW);
    PublicationKeeps(o, pubs, s.oracle, s.published.value);
  }

  /** What a round without a publication leaves behind. */
  lemma HeldRoundShape(o: Oracle, now: Timestamp, price: Uint128, atomPrice: Uint128, pyth: Option<PythQuote>)
    requires OneMode(o) && o.core.lastPrice == 0
    requires PriceRound(o, now, price, atomPrice, pyth).Ok?
    requires PriceRound(o, now, price, atomPrice, pyth).value.published.None?
    ensures var o' := PriceRound(o, now, price, atomPrice, pyth).value.oracle;
      && OneMode(o')
      && (o'.bootstrap == o.bootstrap
          || (o'.bootstrap.Some?
              && o'.bootstrap.value.proposedAt == if o.bootstrap.Some? then o.bootstrap.value.proposedAt else now))
      && o'.core == WithoutLast(Observed(o.core, Seconds(now), price, atomPrice)).(
                      candidate := o'.core.candidate, failures := o'.core.failures)
  {
  }

  lemma HeldRoundKept(o: Oracle, pubs: seq<Publication>, now: Timestamp, price: Uint128, atomPrice: Uint128,
        pyth: Option<PythQuote>)
    requires Inv(o, pubs) && o.core.lastPrice == 0
    requires o.core.lastUpdate + UPDATE_INTERVAL <= Seconds(now)
    requires PriceRound(o, now, price, atomPrice, pyth).Ok?
    requires PriceRound(o, now, price, atomPrice, pyth).value.published.None?
    ensures Inv(PriceRound(o, now, price, atomPrice, pyth).value.oracle, pubs)
  {
    var t := Seconds(now);
    var o' := PriceRound(o, now, price, atomPrice, pyth).value.oracle;
    HeldRoundShape(o, now, price, atomPrice, pyth);
    ObservedShape(o.core, t, price, atomPrice);
    var kept := Retain(o.core.observations, SatSub(t, TWAP_WINDOW));
    assert (kept + [Observation(t, price, atomPrice)])[..|kept|] == kept;
    HeldRoundKeeps(o, pubs, o', t);
  }

  lemma RoundKeeps(o: Oracle, pubs: seq<Publication>, now: Timestamp, price: Uint128, atomPrice: Uint128,
        pyth: Option<PythQuote>)
    requires Inv(o, pubs)
    requires o.core.lastUpdate + UPDATE_INTERVAL <= Seconds(now)
    requires PriceRound(o, now, price, atomPrice, pyth).Ok?
    ensures var s := PriceRound(o, now, price, atomPrice, pyth).value;
      Inv(s.oracle, Record(pubs, s.published))
  {
    if o.core.lastPrice != 0 {
      LiveRoundKeeps(o, pubs, now, price, atomPrice, pyth);
    } else if PriceRound(o, now, price, atomPrice, pyth).value.published.Some? {
      MidpointRoundKeeps(o, pubs, now, price, atomPrice, pyth);
    } else {
      HeldRoundKept(o, pubs, now, price, atomPrice, pyth);
    }
  }

  lemma CooldownPassed(c: Core, now: Timestamp)
    requires Seconds(now) >= SatAdd64(c.lastUpdate, c.updateInterval)
    ensures c.lastUpdate + c.updateInterval <= Seconds(now)
  {
  }

  lemma UpdateKeeps(o: Oracle, pubs: seq<Publication>, chain: Chain)
    requires Inv(o, pubs) && Update(o, chain).Ok?
    ensures Inv(Update(o, chain).value.oracle, Record(pubs, Update(o, chain).value.published))
  {
    CooldownPassed(o.core, chain.now);
    var sampling := Rotated(o, chain);
    var round := W.Weigh(MarketSeen(o, sampling, chain), sampling.selected).value;
    var o' := o.(sampling := sampling.(snapshots := round.snapshots));
    assert Inv(o', pubs);
    if round.prices.Some? {
      RoundKeeps(o', pubs, chain.now, round.prices.value.0, round.prices.value.1, chain.pyth);
    }
  }

  lemma ConfirmKeeps(o: Oracle, pubs: seq<Publication>, sender: Addr, now: Timestamp, pyth: Option<PythQuote>)
    requires Inv(o, pubs) && ConfirmBootstrap(o, sender, now, pyth).Ok?
    ensures var s := ConfirmBootstrap(o, sender, now, pyth).value;
      Inv(s.oracle, Record(pubs, s.published))
  {
    var s := ConfirmBootstrap(o, sender, now, pyth).value;
    var b, t := o.bootstrap.value, Seconds(now);
    SecondsAfterDelay(b.proposedAt, now, BOOTSTRAP_OBSERVATION_SECONDS);
    var obs := s.oracle.core.observations;
    assert obs == o.core.observations + [Observation(t, b.price, b.atomPoolPrice)];
    assert InHull(b.price, obs) by {
      assert obs[|obs| - 1].price == b.price;
    }
    assert AllPositive(pubs) ==> pubs == [];
    assert AllPositive(pubs + [s.published.value]) ==> AllPositive(pubs) by {
      assert (pubs + [s.published.value])[..|pubs|] == pubs;
    }
    PublicationKeeps(o, pubs, s.oracle, s.published.value);
  }

  /** A reset begins a new series of publications. */
  lemma ResetKeeps(o: Oracle, pubs: seq<Publication>, e: Event)
    requires Inv(o, pubs) && e.ForceRotateCall? && Step(o, e).Ok?
    ensures Inv(After(o, e), [])
  {
  }

  lemma AdminKeeps(o: Oracle, pubs: seq<Publication>, e: Event)
    requires Inv(o, pubs) && (e.ProposeRotationCall? || e.CancelRotationCall? || e.CancelBootstrapCall?)
               && Step(o, e).Ok?
    ensures Inv(After(o, e), pubs) && Step(o, e).value.published.None?
  {
  }

  lemma StepKeeps(o: Oracle, pubs: seq<Publication>, e: Event)
    requires Inv(o, pubs)
    ensures Inv(After(o, e), Extend(pubs, o, e))
  {
    if Step(o, e).Ok? {
      match e
      case UpdateCall(chain) => UpdateKeeps(o, pubs, chain);
      case ConfirmBootstrapCall(sender, now, pyth) => ConfirmKeeps(o, pubs, sender, now, pyth);
      case ForceRotateCall(_, _) => ResetKeeps(o, pubs, e);
      case _ => AdminKeeps(o, pubs, e);
    }
  }

  lemma {:induction false} RunKeeps(o: Oracle, es: seq<Event>)
    requires Inv(o, [])
    ensures Inv(Run(o, es), Published(o, es))
  {
    if es != [] {
      RunKeeps(o, es[..|es| - 1]);
      StepKeeps(Run(o, es[..|es| - 1]), Published(o, es[..|es| - 1]), es[|es| - 1]);
    }
  }
}
