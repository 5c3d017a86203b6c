/** What the rounds' averages are, and what the breaker makes of them after a reset: over every
    run, and without naming its branches. */
module OracleAverages {
  import opened Base
  import opened Drift
  import opened TwapWindow
  import opened OracleModel
  import opened OracleRuns
  import opened OracleGuarantees

  // ----- The window a round averages -----

  /** In an ordered window what is kept is a suffix: everything from the first observation that is
      young enough. */
  lemma {:induction false} RetainIsSuffix(obs: seq<Observation>, cutoff: Uint64, k: nat)
    requires k <= |obs|
    requires forall i :: 0 <= i < k ==> obs[i].timestamp < cutoff
    requires forall i :: k <= i < |obs| ==> obs[i].timestamp >= cutoff
    ensures Retain(obs, cutoff) == obs[k..]
  {
    if obs != [] {
      var front := obs[..|obs| - 1];
      if k < |obs| {
        RetainIsSuffix(front, cutoff, k);
        assert obs[k..] == front[k..] + [obs[|obs| - 1]];
      } else {
        RetainIsSuffix(front, cutoff, |front|);
        assert front[|front|..] == [] && obs[k..] == [];
      }
    }
  }

  /** What `obs` holds of the hour before `t`, and `last` after it. */
  ghost predicate HourBefore(obs: seq<Observation>, t: Uint64, last: Observation, window: seq<Observation>) {
    exists k :: 0 <= k <= |obs| && window == obs[k..] + [last] && SplitsAt(obs, t, k)
  }

  ghost predicate SplitsAt(obs: seq<Observation>, t: Uint64, k: nat)
    requires k <= |obs|
  {
    && (forall i :: 0 <= i < k ==> obs[i].timestamp < SatSub(t, 3600))
    && (forall i :: k <= i < |obs| ==> obs[i].timestamp >= SatSub(t, 3600))
  }

  lemma {:induction false} HourExists(obs: seq<Observation>, t: Uint64, last: Observation)
    requires Ordered(obs)
    ensures exists window :: HourBefore(obs, t, last, window)
  {
    var k := 0;
    while k < |obs| && obs[k].timestamp < SatSub(t, 3600)
      invariant 0 <= k <= |obs|
      invariant forall i :: 0 <= i < k ==> obs[i].timestamp < SatSub(t, 3600)
    {
      k := k + 1;
    }
    assert SplitsAt(obs, t, k);
    assert HourBefore(obs, t, last, obs[k..] + [last]);
  }

  /** The observations of the last hour, and the round's own. */
  ghost predicate LastHour(o: Oracle, e: Event, window: seq<Observation>)
    requires TwapRound(o, e)
  {
    var t := Seconds(e.chain.now);
    HourBefore(o.core.observations, t, Observation(t, PricesOf(o, e).0, PricesOf(o, e).1), window)
  }

  /** There is always such a window. */
  lemma LastHourExists(o: Oracle, pubs: seq<Publication>, e: Event)
    requires Inv(o, pubs) && TwapRound(o, e)
    ensures exists window :: LastHour(o, e, window)
  {
    var t := Seconds(e.chain.now);
    var last := Observation(t, PricesOf(o, e).0, PricesOf(o, e).1);
    HourExists(o.core.observations, t, last);
    var window :| HourBefore(o.core.observations, t, last, window);
    assert LastHour(o, e, window);
  }

  lemma AverageTaken(o: Oracle, e: Event)
    requires TwapRound(o, e)
    ensures Twap(Observed(o.core, Seconds(e.chain.now), PricesOf(o, e).0, PricesOf(o, e).1).observations)
            == Ok(AverageOf(o, e))
    ensures Seconds(e.chain.now) >= SatAdd64(o.core.lastUpdate, o.core.updateInterval)
  {
  }

  lemma WindowSeen(c: Core, t: Uint64, price: Uint128, atomPrice: Uint128, window: seq<Observation>)
    requires Ordered(c.observations) && StampedBy(c.observations, c.lastUpdate) && c.lastUpdate <= t
    requires HourBefore(c.observations, t, Observation(t, price, atomPrice), window)
    ensures Ordered(window) && window == Observed(c, t, price, atomPrice).observations
  {
    var k :| 0 <= k <= |c.observations|
      && window == c.observations[k..] + [Observation(t, price, atomPrice)] && SplitsAt(c.observations, t, k);
    RetainIsSuffix(c.observations, SatSub(t, TWAP_WINDOW), k);
    ObservedShape(c, t, price, atomPrice);
  }

  lemma AveragedWindow(o: Oracle, pubs: seq<Publication>, e: Event, window: seq<Observation>)
    requires Inv(o, pubs) && TwapRound(o, e) && LastHour(o, e, window)
    ensures Ordered(window) && Twap(window) == Ok(AverageOf(o, e))
  {
    AverageTaken(o, e);
    CooldownPassed(o.core, e.chain.now);
    WindowSeen(o.core, Seconds(e.chain.now), PricesOf(o, e).0, PricesOf(o, e).1, window);
  }

  /** In every run an averaged round's average is the time-weighted mean of the last hour's observations
      and its own. */
  lemma {:induction false} AverageExact(admin: Addr, anchor: Addr, chain: Chain, es: seq<Event>, e: Event,
        window: seq<Observation>)
    requires var o := Run(Initial(admin, anchor, chain), es); TwapRound(o, e) && LastHour(o, e, window)
    ensures window != [] && IsAverage(window, AverageOf(Run(Initial(admin, anchor, chain), es), e))
  {
    Reachable(admin, anchor, chain, es);
    AveragedWindow(Run(Initial(admin, anchor, chain), es), Published(Initial(admin, anchor, chain), es), e, window);
    TwapExact(window);
  }

  /** Until the first publication after deployment or a reset, every average is the round's own price. */
  lemma {:induction false} FirstAverages(admin: Addr, anchor: Addr, chain: Chain, es: seq<Event>, e: Event)
    requires var o := Initial(admin, anchor, chain); Published(o, es) == [] && TwapRound(Run(o, es), e)
    ensures var o := Run(Initial(admin, anchor, chain), es); AverageOf(o, e) == PricesOf(o, e).0
  {
    var o := Run(Initial(admin, anchor, chain), es);
    Reachable(admin, anchor, chain, es);
    LastHourExists(o, [], e);
    var window :| LastHour(o, e, window);
    assert |window| == 1;
    AverageExact(admin, anchor, chain, es, e, window);
  }

  lemma RoundLeavesWindow(o: Oracle, now: Timestamp, price: Uint128, atomPrice: Uint128, pyth: Option<PythQuote>)
    requires OneMode(o) && PriceRound(o, now, price, atomPrice, pyth).Ok?
    requires Observed(o.core, Seconds(now), price, atomPrice).observations != []
    ensures var s, c := PriceRound(o, now, price, atomPrice, pyth).value,
          Observed(o.core, Seconds(now), price, atomPrice);
      s.oracle.core.observations
      == if s.published.None? then WithoutLast(c).observations
         else if o.core.lastPrice > 0 then c.observations
         else WithLastPrice(c, s.published.value.price).observations
  {
  }

  lemma StepLeavesWindow(o: Oracle, e: Event)
    requires OneMode(o) && TwapRound(o, e)
    requires Observed(o.core, Seconds(e.chain.now), PricesOf(o, e).0, PricesOf(o, e).1).observations != []
    ensures var s, c := Step(o, e).value,
          Observed(o.core, Seconds(e.chain.now), PricesOf(o, e).0, PricesOf(o, e).1);
      s.oracle.core.observations
      == if s.published.None? then WithoutLast(c).observations
         else if o.core.lastPrice > 0 then c.observations
         else WithLastPrice(c, s.published.value.price).observations
  {
    var s := Rotated(o, e.chain);
    var round := W.Weigh(MarketSeen(o, s, e.chain), s.selected).value;
    RoundLeavesWindow(o.(sampling := s.(snapshots := round.snapshots)), e.chain.now,
                      round.prices.value.0, round.prices.value.1, e.chain.pyth);
  }

  /** What an averaged round leaves of the window: the last hour's observations, and its own if it
      published, at its own price while a price is live and otherwise at the price it published. */
  ghost predicate LeavesWindow(o: Oracle, e: Event, window: seq<Observation>)
    requires TwapRound(o, e) && window != []
  {
    var published, front := Step(o, e).value.published, window[..|window| - 1];
    After(o, e).core.observations
    == if published.None? then front
       else
         var price := if o.core.lastPrice > 0 then PricesOf(o, e).0 else published.value.price;
         front + [Observation(Seconds(e.chain.now), price, PricesOf(o, e).1)]
  }

  lemma {:induction false} WindowAfterRound(admin: Addr, anchor: Addr, chain: Chain, es: seq<Event>, e: Event,
        window: seq<Observation>)
    requires var o := Run(Initial(admin, anchor, chain), es); TwapRound(o, e) && LastHour(o, e, window)
    ensures window != [] && LeavesWindow(Run(Initial(admin, anchor, chain), es), e, window)
  {
    var o := Run(Initial(admin, anchor, chain), es);
    Reachable(admin, anchor, chain, es);
    StateLeavesWindow(o, Published(Initial(admin, anchor, chain), es), e, window);
  }

  /** What each of these does to a window that ends with the round's own observation. */
  lemma WindowsAgree(c: Core, front: seq<Observation>, last: Observation, price: Uint128)
    requires c.observations == front + [last]
    ensures WithoutLast(c).observations == front
    ensures WithLastPrice(c, price).observations == front + [Observation(last.timestamp, price, last.atomPoolPrice)]
  {
  }

  lemma HourEnds(obs: seq<Observation>, t: Uint64, last: Observation, window: seq<Observation>)
    requires HourBefore(obs, t, last, window)
    ensures window != [] && window == window[..|window| - 1] + [last]
  {
  }

  lemma StateLeavesWindow(o: Oracle, pubs: seq<Publication>, e: Event, window: seq<Observation>)
    requires Inv(o, pubs) && TwapRound(o, e) && LastHour(o, e, window)
    ensures window != [] && LeavesWindow(o, e, window)
  {
    var t, prices := Seconds(e.chain.now), PricesOf(o, e);
    var last := Observation(t, prices.0, prices.1);
    AverageTaken(o, e);
    CooldownPassed(o.core, e.chain.now);
    WindowSeen(o.core, t, prices.0, prices.1, window);
    HourEnds(o.core.observations, t, last, window);
    var published := Step(o, e).value.published;
    WindowsAgree(Observed(o.core, t, prices.0, prices.1), window[..|window| - 1], last,
                 if published.Some? then published.value.price else 0);
    StepLeavesWindow(o, e);
  }

  // ----- What is held -----

  /** The averages of the rounds since the last reset, in order. */
  ghost function Averages(o: Oracle, es: seq<Event>): seq<Uint128> {
    if es == [] then []
    else
      var earlier, e := es[..|es| - 1], es[|es| - 1];
      AveragesAfter(Averages(o, earlier), Run(o, earlier), e)
  }

  ghost function AveragesAfter(averages: seq<Uint128>, o: Oracle, e: Event): seq<Uint128> {
    if TwapRound(o, e) then averages + [AverageOf(o, e)]
    else if e.ForceRotateCall? && Step(o, e).Ok? then []
    else averages
  }

  /** A held candidate is the last of these averages. */
  ghost predicate HoldsLast(o: Oracle, averages: seq<Uint128>) {
    o.core.candidate.Some? ==> averages != [] && o.core.candidate.value == averages[|averages| - 1]
  }

  lemma RoundHolds(o: Oracle, now: Timestamp, price: Uint128, atomPrice: Uint128, pyth: Option<PythQuote>)
    requires OneMode(o) && PriceRound(o, now, price, atomPrice, pyth).Ok?
    ensures var o' := PriceRound(o, now, price, atomPrice, pyth).value.oracle;
      o'.core.candidate.Some? ==>
        o'.core.candidate.value == Twap(Observed(o.core, Seconds(now), price, atomPrice).observations).value
  {
  }

  lemma StepHolds(o: Oracle, e: Event, averages: seq<Uint128>)
    requires OneMode(o) && HoldsLast(o, averages)
    ensures HoldsLast(After(o, e), AveragesAfter(averages, o, e))
  {
    if TwapRound(o, e) {
      var s := Rotated(o, e.chain);
      var round := W.Weigh(MarketSeen(o, s, e.chain), s.selected).value;
      RoundHolds(o.(sampling := s.(snapshots := round.snapshots)), e.chain.now,
                 round.prices.value.0, round.prices.value.1, e.chain.pyth);
    }
  }

  lemma {:induction false} RunHolds(o: Oracle, es: seq<Event>)
    requires OneMode(o) && o.core.candidate.None?
    ensures OneMode(Run(o, es)) && HoldsLast(Run(o, es), Averages(o, es))
  {
    if es != [] {
      var earlier, e := es[..|es| - 1], es[|es| - 1];
      RunHolds(o, earlier);
      KeepsModes(Run(o, earlier), e);
      StepHolds(Run(o, earlier), e, Averages(o, earlier));
    }
  }

  /** In every run a held candidate is the average of the last averaged round since the reset. */
  lemma {:induction false} HeldIsLastAverage(admin: Addr, anchor: Addr, chain: Chain, es: seq<Event>)
    ensures var o, averages := Initial(admin, anchor, chain), Averages(Initial(admin, anchor, chain), es);
      Run(o, es).core.candidate.Some? ==>
        averages != [] && Run(o, es).core.candidate.value == averages[|averages| - 1]
  {
    RunHolds(Initial(admin, anchor, chain), es);
  }

  // ----- From the reset of a live oracle to the next price -----

  ghost predicate Agree(a: Uint128, b: Uint128) {
    DriftBps(a, b) <= MAX_TWAP_DRIFT_BPS
  }

  /** No average agrees with the one before it. */
  ghost predicate AllDisagree(averages: seq<Uint128>) {
    forall k :: 0 < k < |averages| ==> !Agree(averages[k], averages[k - 1])
  }

  /** Reset with a live price, and nothing published since. */
  ghost predicate Waiting(o: Oracle, averages: seq<Uint128>) {
    && o.core.lastPrice == 0 && o.core.preReset > 0 && o.bootstrap.None?
    && AllDisagree(averages) && |averages| <= 12
    && o.core.candidate == (if averages == [] then None else Some(averages[|averages| - 1]))
    && o.core.failures == SatSub(|averages|, 1)
  }

  /** The first price comes with the first average that agrees with the one before it, or with the
      thirteenth, and is the midpoint of those two. */
  ghost predicate FirstPrice(averages: seq<Uint128>, price: Uint128) {
    var n := |averages|;
    && n >= 2 && AllDisagree(averages[..n - 1])
    && (Agree(averages[n - 1], averages[n - 2]) || n == 13)
    && 2 * price <= averages[n - 2] + averages[n - 1] < 2 * price + 2
  }

  /** A round on such an oracle: without a candidate, or against one it disagrees with short of the
      cap, its average is held; otherwise the midpoint is published. */
  lemma RoundOutcome(o: Oracle, now: Timestamp, price: Uint128, atomPrice: Uint128, pyth: Option<PythQuote>)
    requires OneMode(o) && o.core.lastPrice == 0 && o.core.preReset > 0 && o.bootstrap.None?
    requires PriceRound(o, now, price, atomPrice, pyth).Ok?
    ensures var s, average := PriceRound(o, now, price, atomPrice, pyth).value,
          Twap(Observed(o.core, Seconds(now), price, atomPrice).observations).value;
      var held, failures := o.core.candidate, o.core.failures;
      if held.Some? && (Agree(average, held.value) || failures + 1 == MAX_CONSECUTIVE_FAILURES)
      then s.published == Some(Publication(Seconds(now), Midpoint(held.value, average)))
      else
        && s.published.None? && s.oracle.bootstrap.None?
        && s.oracle.core.lastPrice == 0 && s.oracle.core.preReset == o.core.preReset
        && s.oracle.core.candidate == Some(average)
        && s.oracle.core.failures == if held.Some? then failures + 1 else failures
  {
  }

  lemma DisagreeGrows(averages: seq<Uint128>, average: Uint128)
    requires AllDisagree(averages)
    requires averages == [] || !Agree(average, averages[|averages| - 1])
    ensures AllDisagree(averages + [average])
  {
  }

  lemma PricedAt(averages: seq<Uint128>, average: Uint128)
    requires averages != [] && AllDisagree(averages)
    requires Agree(average, averages[|averages| - 1]) || |averages| == MAX_CONSECUTIVE_FAILURES
    ensures FirstPrice(averages + [average], Midpoint(averages[|averages| - 1], average))
  {
    assert (averages + [average])[..|averages|] == averages;
  }

  /** What a round on a waiting oracle answers. */
  ghost predicate WaitsOn(s: Stepped, averages: seq<Uint128>) {
    if s.published.Some? then FirstPrice(averages, s.published.value.price) else Waiting(s.oracle, averages)
  }

  lemma RoundWaits(o: Oracle, now: Timestamp, price: Uint128, atomPrice: Uint128, pyth: Option<PythQuote>,
        averages: seq<Uint128>)
    requires Waiting(o, averages) && PriceRound(o, now, price, atomPrice, pyth).Ok?
    ensures WaitsOn(PriceRound(o, now, price, atomPrice, pyth).value,
                    averages + [Twap(Observed(o.core, Seconds(now), price, atomPrice).observations).value])
  {
    var s := PriceRound(o, now, price, atomPrice, pyth).value;
    var average := Twap(Observed(o.core, Seconds(now), price, atomPrice).observations).value;
    RoundOutcome(o, now, price, atomPrice, pyth);
    if s.published.Some? {
      PricedAt(averages, average);
    } else {
      DisagreeGrows(averages, average);
    }
  }

  lemma StepWaits(o: Oracle, e: Event, averages: seq<Uint128>)
    requires Waiting(o, averages) && !e.ForceRotateCall?
    ensures var grown := AveragesAfter(averages, o, e);
      && (Step(o, e).Ok? ==> WaitsOn(Step(o, e).value, grown))
      && (Step(o, e).Err? ==> Waiting(o, grown))
      && (Step(o, e).Ok? && Step(o, e).value.published.Some? ==> TwapRound(o, e))
  {
    if TwapRound(o, e) {
      var s := Rotated(o, e.chain);
      var round := W.Weigh(MarketSeen(o, s, e.chain), s.selected).value;
      RoundWaits(o.(sampling := s.(snapshots := round.snapshots)), e.chain.now,
                 round.prices.value.0, round.prices.value.1, e.chain.pyth, averages);
    }
  }

  lemma {:induction false} RunWaits(o: Oracle, es: seq<Event>)
    requires Waiting(o, []) && NoResets(es) && Published(o, es) == []
    ensures Waiting(Run(o, es), Averages(o, es))
  {
    if es != [] {
      var earlier, e := es[..|es| - 1], es[|es| - 1];
      assert !e.ForceRotateCall?;
      RunWaits(o, earlier);
      StepWaits(Run(o, earlier), e, Averages(o, earlier));
    }
  }

  /** Whatever is called after the reset of a live oracle, the first price published is the midpoint
      of the last two averages; it comes with the first average that agrees with the one before it, or
      with the thirteenth. */
  lemma {:induction false} FirstPriceAfterReset(o: Oracle, sender: Addr, chain: Chain, es: seq<Event>, e: Event)
    requires o.core.lastPrice > 0 && ForceRotate(o, sender, chain).Ok? && NoResets(es) && !e.ForceRotateCall?
    requires var o1 := ForceRotate(o, sender, chain).value.oracle;
      Published(o1, es) == [] && Step(Run(o1, es), e).Ok? && Step(Run(o1, es), e).value.published.Some?
    ensures var o1 := ForceRotate(o, sender, chain).value.oracle;
      TwapRound(Run(o1, es), e)
      && FirstPrice(Averages(o1, es) + [AverageOf(Run(o1, es), e)], Step(Run(o1, es), e).value.published.value.price)
  {
    var o1 := ForceRotate(o, sender, chain).value.oracle;
    RunWaits(o1, es);
    StepWaits(Run(o1, es), e, Averages(o1, es));
  }

  /** And until then none is overdue: with no price yet, no two successive averages agree and there
      are at most twelve. */
  lemma {:induction false} NoPriceOverdue(o: Oracle, sender: Addr, chain: Chain, es: seq<Event>)
    requires o.core.lastPrice > 0 && ForceRotate(o, sender, chain).Ok? && NoResets(es)
    requires Published(ForceRotate(o, sender, chain).value.oracle, es) == []
    ensures var averages := Averages(ForceRotate(o, sender, chain).value.oracle, es);
      AllDisagree(averages) && |averages| <= 12
  {
    RunWaits(ForceRotate(o, sender, chain).value.oracle, es);
  }
}
