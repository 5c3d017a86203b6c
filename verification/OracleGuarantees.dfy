/** The oracle's promises, each for every run from deployment. */
module OracleGuarantees {
  import opened Base
  import opened Drift
  import opened TwapWindow
  import opened OracleModel
  import opened OracleRuns

  /** A fresh deployment satisfies the invariant, so every reachable state does. */
  lemma {:induction false} Reachable(admin: Addr, anchor: Addr, chain: Chain, es: seq<Event>)
    ensures var o := Initial(admin, anchor, chain);
      Inv(Run(o, es), Published(o, es))
  {
    RunKeeps(Initial(admin, anchor, chain), es);
  }

  /** In every run the price cache tracks the publications. */
  lemma {:induction false} PublicationsTracked(admin: Addr, anchor: Addr, chain: Chain, es: seq<Event>)
    ensures var o := Initial(admin, anchor, chain);
      Tracks(Run(o, es), Published(o, es)) && Chained(Published(o, es))
  {
    Reachable(admin, anchor, chain, es);
  }

  // ----- How fast a published price can move -----

  lemma {:induction false} PowPositive(b: nat, k: nat)
    requires b > 0
    ensures Pow(b, k) > 0
  {
    if k > 0 {
      PowPositive(b, k - 1);
    }
  }

  /** Strict bounds multiply. */
  lemma BoundsCompose(p: nat, q: nat, r: nat, a: nat, b: nat, c: nat, d: nat)
    requires q * a < b * p && r * c < d * q && a > 0 && d > 0
    ensures r * (c * a) < (d * b) * p
  {
    calc {
      r * (c * a);
    ==
      (r * c) * a;
    <=  { MulMono(r * c, d * q, a); }
      (d * q) * a;
    ==
      d * (q * a);
    <  { MulMono(q * a + 1, b * p, d); Distribute(d, q * a, 1); }
      d * (b * p);
    ==
      (d * b) * p;
    }
  }

  lemma {:induction false} ChainedBounds(pubs: seq<Publication>, i: nat, j: nat)
    requires Chained(pubs) && i <= j < |pubs| && pubs[i].price > 0
    ensures pubs[j].price > 0
    ensures i < j ==> pubs[j].price * Pow(10_000, j - i) < Pow(13_001, j - i) * pubs[i].price
    ensures i < j ==> pubs[i].price * Pow(10_000, j - i) < Pow(13_001, j - i) * pubs[j].price
    decreases j
  {
    if i < j {
      ChainedBounds(pubs, i, j - 1);
      var p, q, r := pubs[i].price, pubs[j - 1].price, pubs[j].price;
      DriftBoundsRatio(r, q);
      var k := j - 1 - i;
      if k == 0 {
        assert Pow(10_000, 1) == 10_000 * Pow(10_000, 0) && Pow(13_001, 1) == 13_001 * Pow(13_001, 0);
      } else {
        PowPositive(10_000, k);
        PowPositive(13_001, k);
        BoundsCompose(p, q, r, Pow(10_000, k), Pow(13_001, k), 10_000, 13_001);
        BoundsCompose(r, q, p, 10_000, 13_001, Pow(10_000, k), Pow(13_001, k));
      }
    }
  }

  lemma {:induction false} ChainedSpacing(pubs: seq<Publication>, i: nat, j: nat)
    requires Chained(pubs) && i <= j < |pubs|
    ensures pubs[j].time - pubs[i].time >= (j - i) * UPDATE_INTERVAL
    decreases j
  {
    if i < j {
      ChainedSpacing(pubs, i, j - 1);
    }
  }

  /** Two publications `k` apart: `k` cooldowns between them, and the price moved by less than a
      factor `1.3001^k` either way. */
  ghost predicate RateBetween(p: Publication, q: Publication, k: nat) {
    && q.time - p.time >= k * UPDATE_INTERVAL && q.price > 0
    && q.price * Pow(10_000, k) < Pow(13_001, k) * p.price && p.price * Pow(10_000, k) < Pow(13_001, k) * q.price
  }

  ghost predicate RateKept(pubs: seq<Publication>) {
    forall i, j :: 0 <= i < j < |pubs| && pubs[i].price > 0 ==> RateBetween(pubs[i], pubs[j], j - i)
  }

  lemma ChainKeepsRate(pubs: seq<Publication>)
    requires Chained(pubs)
    ensures RateKept(pubs)
  {
    forall i, j | 0 <= i < j < |pubs| && pubs[i].price > 0
      ensures RateBetween(pubs[i], pubs[j], j - i)
    {
      ChainedBounds(pubs, i, j);
      ChainedSpacing(pubs, i, j);
    }
  }

  /** In every run, `k` publications after a positive price with no reset between, at least `k`
      cooldowns have passed and the price has moved by less than a factor `1.3001^k` either way;
      it never becomes zero. */
  lemma {:induction false} RateBound(admin: Addr, anchor: Addr, chain: Chain, es: seq<Event>, i: nat, j: nat)
    requires i < j < |Published(Initial(admin, anchor, chain), es)|
    requires Published(Initial(admin, anchor, chain), es)[i].price > 0
    ensures var pubs := Published(Initial(admin, anchor, chain), es);
      var k := j - i;
      && pubs[j].time - pubs[i].time >= k * UPDATE_INTERVAL
      && pubs[j].price > 0
      && pubs[j].price * Pow(10_000, k) < Pow(13_001, k) * pubs[i].price
      && pubs[i].price * Pow(10_000, k) < Pow(13_001, k) * pubs[j].price
  {
    Reachable(admin, anchor, chain, es);
    var pubs := Published(Initial(admin, anchor, chain), es);
    ChainedBounds(pubs, i, j);
    ChainedSpacing(pubs, i, j);
  }

  /** While a price is live, a round whose pools yield a price succeeds exactly when the cooldown
      is over, neighbouring prices in the window fit 128 bits when added, and the new average is
      within the limit of the live price; it then publishes that average. */
  lemma LiveRound(o: Oracle, pubs: seq<Publication>, chain: Chain)
    requires Inv(o, pubs) && o.core.lastPrice > 0
    requires var s := Rotated(o, chain);
      var round := W.Weigh(MarketSeen(o, s, chain), s.selected);
      round.Ok? && round.value.prices.Some?
    ensures var t, s := Seconds(chain.now), Rotated(o, chain);
      var (price, atomPrice) := W.Weigh(MarketSeen(o, s, chain), s.selected).value.prices.value;
      var obs := Observed(o.core, t, price, atomPrice).observations;
      && (Update(o, chain).Ok? <==>
            && o.core.lastUpdate + UPDATE_INTERVAL <= t
            && SumsFit(obs) && Twap(obs).Ok?
            && DriftBps(Twap(obs).value, o.core.lastPrice) <= MAX_TWAP_DRIFT_BPS)
      && (o.core.lastUpdate + UPDATE_INTERVAL <= t ==> (Twap(obs).Ok? <==> SumsFit(obs)))
      && (Update(o, chain).Ok? ==>
            Update(o, chain).value.published == Some(Publication(t, Twap(obs).value)))
  {
    var t, s := Seconds(chain.now), Rotated(o, chain);
    var (price, atomPrice) := W.Weigh(MarketSeen(o, s, chain), s.selected).value.prices.value;
    if o.core.lastUpdate + UPDATE_INTERVAL <= t {
      ObservedShape(o.core, t, price, atomPrice);
      TwapDefined(Observed(o.core, t, price, atomPrice).observations);
    }
  }

  // ----- Modes -----

  /** In every reachable state at most one of live price, held candidate and waiting bootstrap
      price is present; the admin's confirmation therefore never replaces a live price, and the
      stored price is always the last one published since the last reset. */
  lemma {:induction false} ModesExclusive(admin: Addr, anchor: Addr, chain: Chain, es: seq<Event>, sender: Addr,
        now: Timestamp, pyth: Option<PythQuote>)
    ensures var o := Run(Initial(admin, anchor, chain), es);
      var pubs := Published(Initial(admin, anchor, chain), es);
      && OneMode(o)
      && o.core.lastPrice == (if pubs == [] then 0 else pubs[|pubs| - 1].price)
      && (ConfirmBootstrap(o, sender, now, pyth).Ok? ==> o.core.lastPrice == 0 && o.core.preReset == 0)
  {
    Reachable(admin, anchor, chain, es);
  }

  // ----- Liveness after a reset -----

  /** A call that got as far as an average of the pools' prices and succeeded. */
  ghost predicate TwapRound(o: Oracle, e: Event) {
    && e.UpdateCall? && Step(o, e).Ok?
    && var s := Rotated(o, e.chain);
       W.Weigh(MarketSeen(o, s, e.chain), s.selected).value.prices.Some?
  }

  ghost function TwapRounds(o: Oracle, es: seq<Event>): nat {
    if es == [] then 0
    else
      var earlier, e := es[..|es| - 1], es[|es| - 1];
      TwapRounds(o, earlier) + if TwapRound(Run(o, earlier), e) then 1 else 0
  }

  ghost predicate NoResets(es: seq<Event>) {
    forall i :: 0 <= i < |es| ==> !es[i].ForceRotateCall?
  }

  /** The mean and the anchor's own price the pools yielded in such a round. */
  ghost function PricesOf(o: Oracle, e: Event): (Uint128, Uint128)
    requires TwapRound(o, e)
  {
    var s := Rotated(o, e.chain);
    W.Weigh(MarketSeen(o, s, e.chain), s.selected).value.prices.value
  }

  /** The average such a round held against the breaker. */
  ghost function AverageOf(o: Oracle, e: Event): Uint128
    requires TwapRound(o, e)
  {
    var s := Rotated(o, e.chain);
    var (price, atomPrice) := W.Weigh(MarketSeen(o, s, e.chain), s.selected).value.prices.value;
    Twap(Observed(o.core, Seconds(e.chain.now), price, atomPrice).observations).value
  }

  /** With a candidate held, a round publishes exactly when the new average agrees with it or the
      failure counter is one short of its cap, and then publishes their midpoint; otherwise the
      average takes the candidate's place and the counter goes up by one. */
  lemma CandidateRound(o: Oracle, e: Event)
    requires OneMode(o) && o.core.candidate.Some? && TwapRound(o, e)
    ensures var s, average := Step(o, e).value, AverageOf(o, e);
      && (s.published.Some? <==>
            DriftBps(average, o.core.candidate.value) <= MAX_TWAP_DRIFT_BPS
            || o.core.failures + 1 == MAX_CONSECUTIVE_FAILURES)
      && (s.published.Some? ==>
            s.published.value.price == Midpoint(o.core.candidate.value, average)
            && s.oracle.core.candidate.None?)
      && (s.published.None? ==>
            s.oracle.core.candidate == Some(average) && s.oracle.core.failures == o.core.failures + 1)
  {
  }

  lemma {:induction false} StillHeld(o: Oracle, es: seq<Event>)
    requires OneMode(o) && o.core.candidate.Some? && NoResets(es) && Published(o, es) == []
    ensures var o' := Run(o, es);
      OneMode(o') && o'.core.candidate.Some? && o'.core.failures == o.core.failures + TwapRounds(o, es)
  {
    if es != [] {
      var earlier, e := es[..|es| - 1], es[|es| - 1];
      assert Published(o, earlier) == [] by {
        assert !e.ForceRotateCall?;
      }
      StillHeld(o, earlier);
      var before := Run(o, earlier);
      if TwapRound(before, e) {
        CandidateRound(before, e);
      }
      KeepsModes(before, e);
    }
  }

  /** Modes stay exclusive even without looking at what was published before. */
  lemma KeepsModes(o: Oracle, e: Event)
    requires OneMode(o)
    ensures OneMode(After(o, e))
  {
    if TwapRound(o, e) {
      var s := Rotated(o, e.chain);
      var round := W.Weigh(MarketSeen(o, s, e.chain), s.selected).value;
      RoundKeepsModes(o.(sampling := s.(snapshots := round.snapshots)), e.chain.now,
                      round.prices.value.0, round.prices.value.1, e.chain.pyth);
    }
  }

  lemma RoundKeepsModes(o: Oracle, now: Timestamp, price: Uint128, atomPrice: Uint128, pyth: Option<PythQuote>)
    requires OneMode(o) && PriceRound(o, now, price, atomPrice, pyth).Ok?
    ensures OneMode(PriceRound(o, now, price, atomPrice, pyth).value.oracle)
  {
  }

  /** From any state holding a candidate after `f` failures, whatever else is called short of a
      new reset, a price is published by the time `12 - f` rounds have produced an average. */
  lemma {:induction false} PublishesInTime(o: Oracle, es: seq<Event>)
    requires OneMode(o) && o.core.candidate.Some? && NoResets(es)
    requires TwapRounds(o, es) >= MAX_CONSECUTIVE_FAILURES - o.core.failures
    ensures Published(o, es) != []
  {
    if Published(o, es) == [] {
      StillHeld(o, es);
    }
  }

  /** While nothing was published since the reset, the window is empty, so a round's average is
      its own price and the only thing that can make it fail is a 128-bit overflow of the sum
      with the candidate. */
  lemma CandidateRoundSucceeds(o: Oracle, now: Timestamp, price: Uint128, atomPrice: Uint128, pyth: Option<PythQuote>)
    requires Inv(o, []) && o.core.candidate.Some?
    ensures PriceRound(o, now, price, atomPrice, pyth).Ok? <==> o.core.candidate.value + price <= U128_MAX
  {
    var t := Seconds(now);
    var one := [Observation(t, price, atomPrice)];
    assert o.core.observations + one == one;
    assert one[..0] == [] && Retain(one[..0], SatSub(t, TWAP_WINDOW)) == [];
    assert Observed(o.core, t, price, atomPrice).observations == [Observation(t, price, atomPrice)];
  }

  // ----- The observation window -----

  /** A call that goes through and may change the window. */
  ghost predicate Touches(o: Oracle, e: Event) {
    TwapRound(o, e) || (Step(o, e).Ok? && (e.ForceRotateCall? || e.ConfirmBootstrapCall?))
  }

  /** A confirmation that goes through more than an hour after the oldest observation in the window. */
  ghost predicate LateConfirm(o: Oracle, e: Event) {
    && e.ConfirmBootstrapCall? && Step(o, e).Ok? && o.core.observations != []
    && Seconds(e.now) - o.core.observations[0].timestamp > TWAP_WINDOW
  }

  /** The last call of the run that touched the window was such a confirmation. */
  ghost predicate Stretched(o: Oracle, es: seq<Event>) {
    es != []
    && var earlier, e := es[..|es| - 1], es[|es| - 1];
       if Touches(Run(o, earlier), e) then LateConfirm(Run(o, earlier), e) else Stretched(o, earlier)
  }

  lemma PrefixSpans(obs: seq<Observation>, n: nat)
    requires n <= |obs| && SpansAtMost(obs, TWAP_WINDOW)
    ensures SpansAtMost(obs[..n], TWAP_WINDOW)
  {
  }

  lemma LastPriceSpans(c: Core, price: Uint128)
    requires SpansAtMost(c.observations, TWAP_WINDOW)
    ensures SpansAtMost(WithLastPrice(c, price).observations, TWAP_WINDOW)
  {
  }

  lemma BranchCLeaves(c: Core, twap: Uint128, candidate: Uint128, now: Uint64)
    requires BranchC(c, twap, candidate, now).Ok?
    ensures var v := BranchC(c, twap, candidate, now).value;
      v.core.observations
      == if v.published.Some? then WithLastPrice(c, v.published.value).observations else WithoutLast(c).observations
  {
  }

  /** What a round makes of the window after its own observation went in. */
  lemma RoundLeaves(o: Oracle, now: Timestamp, price: Uint128, atomPrice: Uint128, pyth: Option<PythQuote>)
    requires PriceRound(o, now, price, atomPrice, pyth).Ok?
    ensures var s := PriceRound(o, now, price, atomPrice, pyth).value;
      var c := Observed(o.core, Seconds(now), price, atomPrice);
      var left := s.oracle.core.observations;
      || left == c.observations || left == WithoutLast(c).observations
      || (s.published.Some? && left == WithLastPrice(c, s.published.value.price).observations)
  {
    var c := Observed(o.core, Seconds(now), price, atomPrice);
    if c.lastPrice == 0 && c.candidate.Some? {
      BranchCLeaves(c, Twap(c.observations).value, c.candidate.value, Seconds(now));
    }
  }

  /** An averaged round leaves an hour at most, whatever it found. */
  lemma RoundSpans(o: Oracle, pubs: seq<Publication>, now: Timestamp, price: Uint128, atomPrice: Uint128,
        pyth: Option<PythQuote>)
    requires Inv(o, pubs) && o.core.lastUpdate + UPDATE_INTERVAL <= Seconds(now)
    requires PriceRound(o, now, price, atomPrice, pyth).Ok?
    ensures SpansAtMost(PriceRound(o, now, price, atomPrice, pyth).value.oracle.core.observations, TWAP_WINDOW)
  {
    var s, c := PriceRound(o, now, price, atomPrice, pyth).value, Observed(o.core, Seconds(now), price, atomPrice);
    ObservedShape(o.core, Seconds(now), price, atomPrice);
    RoundLeaves(o, now, price, atomPrice, pyth);
    PrefixSpans(c.observations, |c.observations| - 1);
    if s.published.Some? {
      LastPriceSpans(c, s.published.value.price);
    }
  }

  lemma ConfirmSpans(o: Oracle, pubs: seq<Publication>, e: Event)
    requires Inv(o, pubs) && e.ConfirmBootstrapCall? && Step(o, e).Ok?
    ensures SpansAtMost(After(o, e).core.observations, TWAP_WINDOW) <==> !LateConfirm(o, e)
  {
    var obs, left := o.core.observations, After(o, e).core.observations;
    SecondsAfterDelay(o.bootstrap.value.proposedAt, e.now, BOOTSTRAP_OBSERVATION_SECONDS);
    assert |left| == |obs| + 1 && left[..|obs|] == obs && left[|obs|].timestamp == Seconds(e.now);
    if obs != [] {
      assert left[0] == obs[0];
    }
  }

  /** The window spans more than an hour after a call exactly when the call is such a confirmation, or
      the window did before and the call left it alone. */
  lemma StepSpans(o: Oracle, pubs: seq<Publication>, e: Event)
    requires Inv(o, pubs)
    ensures SpansAtMost(After(o, e).core.observations, TWAP_WINDOW)
            <==> if Touches(o, e) then !LateConfirm(o, e) else SpansAtMost(o.core.observations, TWAP_WINDOW)
  {
    if TwapRound(o, e) {
      var s := Rotated(o, e.chain);
      var round := W.Weigh(MarketSeen(o, s, e.chain), s.selected).value;
      CooldownPassed(o.core, e.chain.now);
      RoundSpans(o.(sampling := s.(snapshots := round.snapshots)), pubs, e.chain.now,
                 round.prices.value.0, round.prices.value.1, e.chain.pyth);
    } else if e.ConfirmBootstrapCall? && Step(o, e).Ok? {
      ConfirmSpans(o, pubs, e);
    } else if !Touches(o, e) {
      UntouchedWindow(o, e);
    }
  }

  lemma UntouchedWindow(o: Oracle, e: Event)
    requires !Touches(o, e)
    ensures After(o, e).core.observations == o.core.observations
  {
  }

  lemma {:induction false} RunSpans(o: Oracle, es: seq<Event>)
    requires Inv(o, [])
    ensures SpansAtMost(Run(o, es).core.observations, TWAP_WINDOW) <==> !Stretched(o, es)
  {
    if es == [] {
      assert o.core.observations == [];
    } else {
      var earlier := es[..|es| - 1];
      RunKeeps(o, earlier);
      RunSpans(o, earlier);
      StepSpans(Run(o, earlier), Published(o, earlier), es[|es| - 1]);
    }
  }

  /** In every reachable state the window is in time order and a live price lies between its smallest
      and largest observation; it spans more than an hour if and only if the last call that touched it
      was a confirmation more than an hour after its oldest observation, which takes a zero published
      since the last reset. */
  lemma {:induction false} WindowHoldsPrice(admin: Addr, anchor: Addr, chain: Chain, es: seq<Event>)
    ensures var o := Run(Initial(admin, anchor, chain), es);
      var pubs := Published(Initial(admin, anchor, chain), es);
      && Ordered(o.core.observations)
      && (o.core.lastPrice > 0 ==> o.core.observations != [] && InHull(o.core.lastPrice, o.core.observations))
      && (SpansAtMost(o.core.observations, TWAP_WINDOW) <==> !Stretched(Initial(admin, anchor, chain), es))
      && (AllPositive(pubs) ==> SpansAtMost(o.core.observations, TWAP_WINDOW))
  {
    Reachable(admin, anchor, chain, es);
    RunSpans(Initial(admin, anchor, chain), es);
  }

  /** A confirmation can only be late where the last price published since the reset is a zero that was
      confirmed itself: nothing was trusted before the reset. */
  lemma LateAfterZero(o: Oracle, pubs: seq<Publication>, e: Event)
    requires Inv(o, pubs) && LateConfirm(o, e)
    ensures pubs != [] && pubs[|pubs| - 1].price == 0 && o.core.preReset == 0
  {
  }

  // ----- Zero prices -----

  /** What a round publishes, if anything. */
  lemma PublishedPrice(o: Oracle, now: Timestamp, price: Uint128, atomPrice: Uint128, pyth: Option<PythQuote>)
    requires OneMode(o) && PriceRound(o, now, price, atomPrice, pyth).Ok?
    requires PriceRound(o, now, price, atomPrice, pyth).value.published.Some?
    ensures var average := Twap(Observed(o.core, Seconds(now), price, atomPrice).observations).value;
      PriceRound(o, now, price, atomPrice, pyth).value.published.value.price == 0
      <==> o.core.candidate.Some? && o.core.candidate.value + average <= 1
  {
  }

  /** A published price is zero exactly when a round forces or agrees on a midpoint of candidate and
      average that come to at most one, or when the admin confirms a queued zero. */
  lemma ZeroPublished(o: Oracle, e: Event)
    requires OneMode(o) && Step(o, e).Ok? && Step(o, e).value.published.Some?
    ensures e.ConfirmBootstrapCall? || TwapRound(o, e)
    ensures Step(o, e).value.published.value.price == 0
            <==> if e.ConfirmBootstrapCall? then o.bootstrap.value.price == 0
                 else o.core.candidate.Some? && o.core.candidate.value + AverageOf(o, e) <= 1
  {
    if e.UpdateCall? {
      var s := Rotated(o, e.chain);
      var round := W.Weigh(MarketSeen(o, s, e.chain), s.selected).value;
      PublishedPrice(o.(sampling := s.(snapshots := round.snapshots)), e.chain.now,
                     round.prices.value.0, round.prices.value.1, e.chain.pyth);
    }
  }

  // ----- The cooldown -----

  /** Until the first publication after deployment or a reset, the cooldown refuses a round exactly in
      the first 300 seconds of the chain's clock: such rounds are not spaced. */
  lemma {:induction false} CooldownAfterReset(admin: Addr, anchor: Addr, chain: Chain, es: seq<Event>, later: Chain)
    requires Published(Initial(admin, anchor, chain), es) == []
    ensures Update(Run(Initial(admin, anchor, chain), es), later) == Err(UpdateTooSoon)
            <==> Seconds(later.now) < UPDATE_INTERVAL
  {
    Reachable(admin, anchor, chain, es);
  }

  // ----- A reset before anything was published -----

  /** Reset while `price` was stored, and nothing averaged since. */
  ghost predicate FreshlyReset(o: Oracle, price: Uint128) {
    o.core.lastPrice == 0 && o.core.candidate.None? && o.bootstrap.None? && o.core.preReset == price
  }

  lemma {:induction false} StillFresh(o: Oracle, es: seq<Event>, price: Uint128)
    requires FreshlyReset(o, price) && NoResets(es) && TwapRounds(o, es) == 0
    ensures FreshlyReset(Run(o, es), price)
  {
    if es != [] {
      var earlier, e := es[..|es| - 1], es[|es| - 1];
      assert !e.ForceRotateCall?;
      StillFresh(o, earlier, price);
    }
  }

  /** Whatever is called after a reset, the average of the first averaged round is held as a candidate
      exactly when a price was live at the reset; otherwise it is queued for the admin again. */
  lemma {:induction false} FirstRoundAfterReset(o: Oracle, sender: Addr, chain: Chain, es: seq<Event>, later: Chain)
    requires ForceRotate(o, sender, chain).Ok?
    requires var o1 := ForceRotate(o, sender, chain).value.oracle;
      NoResets(es) && TwapRounds(o1, es) == 0 && TwapRound(Run(o1, es), UpdateCall(later))
    ensures var o2 := Run(ForceRotate(o, sender, chain).value.oracle, es);
      var o3, average := Update(o2, later).value.oracle, AverageOf(o2, UpdateCall(later));
      && o3.core.lastPrice == 0 && o3.core.preReset == o.core.lastPrice
      && (if o.core.lastPrice > 0 then o3.core.candidate == Some(average) && o3.bootstrap.None?
          else o3.core.candidate.None? && o3.bootstrap.Some? && o3.bootstrap.value.price == average)
  {
    var o1 := ForceRotate(o, sender, chain).value.oracle;
    StillFresh(o1, es, o.core.lastPrice);
    FirstAveragedRound(Run(o1, es), later);
  }

  lemma FirstAveragedRound(o: Oracle, later: Chain)
    requires FreshlyReset(o, o.core.preReset) && TwapRound(o, UpdateCall(later))
    ensures var o', average := Update(o, later).value.oracle, AverageOf(o, UpdateCall(later));
      && o'.core.lastPrice == 0 && o'.core.preReset == o.core.preReset
      && (if o.core.preReset > 0 then o'.core.candidate == Some(average) && o'.bootstrap.None?
          else o'.core.candidate.None? && o'.bootstrap.Some? && o'.bootstrap.value.price == average)
  {
    var s := Rotated(o, later);
    var round := W.Weigh(MarketSeen(o, s, later), s.selected).value;
    FreshRound(o.(sampling := s.(snapshots := round.snapshots)), later.now,
               round.prices.value.0, round.prices.value.1, later.pyth);
  }

  /** An averaged round on an oracle with no price, no candidate and nothing queued. */
  lemma FreshRound(o: Oracle, now: Timestamp, price: Uint128, atomPrice: Uint128, pyth: Option<PythQuote>)
    requires o.core.lastPrice == 0 && o.core.candidate.None? && o.bootstrap.None?
    requires PriceRound(o, now, price, atomPrice, pyth).Ok?
    ensures var o', average := PriceRound(o, now, price, atomPrice, pyth).value.oracle,
          Twap(Observed(o.core, Seconds(now), price, atomPrice).observations).value;
      && o'.core.lastPrice == 0 && o'.core.preReset == o.core.preReset
      && (if o.core.preReset > 0 then o'.core.candidate == Some(average) && o'.bootstrap.None?
          else o'.core.candidate.None? && o'.bootstrap.Some? && o'.bootstrap.value.price == average)
  {
  }

  ghost predicate NeverTrusted(o: Oracle) {
    o.core.lastPrice == 0 && o.core.preReset == 0 && o.core.candidate.None?
  }

  lemma {:induction false} SecondResetForgets(o: Oracle, sender: Addr, chain: Chain, es: seq<Event>, sender': Addr,
        chain': Chain)
    requires OneMode(o) && ForceRotate(o, sender, chain).Ok?
    requires var o1 := ForceRotate(o, sender, chain).value.oracle;
      && NoResets(es) && Published(o1, es) == []
      && ForceRotate(Run(o1, es), sender', chain').Ok?
    ensures var o1 := ForceRotate(o, sender, chain).value.oracle;
      NeverTrusted(ForceRotate(Run(o1, es), sender', chain').value.oracle)
  {
    var o1 := ForceRotate(o, sender, chain).value.oracle;
    NoPriceWithoutPublication(o1, es);
  }

  /** Two timelocked resets, one right after the other. */
  function TwoResets(admin: Addr, t: Timestamp, chain: Chain): seq<Event>
    requires PlusSeconds(t, 2 * ADMIN_TIMELOCK_SECONDS) <= U64_MAX
  {
    var once, twice := PlusSeconds(t, ADMIN_TIMELOCK_SECONDS), PlusSeconds(t, 2 * ADMIN_TIMELOCK_SECONDS);
    [ProposeRotationCall(admin, t), ForceRotateCall(admin, chain.(now := once)),
     ProposeRotationCall(admin, once), ForceRotateCall(admin, chain.(now := twice))]
  }

  /** A call that goes through and publishes nothing. */
  ghost predicate Quietly(o: Oracle, e: Event) {
    Step(o, e).Ok? && Step(o, e).value.published.None?
  }

  /** A proposal and, a timelock later, the reset. */
  lemma TimelockedReset(o: Oracle, t: Timestamp, chain: Chain)
    requires o.pendingRotation.None? && PlusSeconds(t, ADMIN_TIMELOCK_SECONDS) <= U64_MAX
    ensures var e1 := ProposeRotationCall(o.admin, t);
      var e2 := ForceRotateCall(o.admin, chain.(now := PlusSeconds(t, ADMIN_TIMELOCK_SECONDS)));
      var o1 := After(o, e1);
      var o2 := After(o1, e2);
      && Quietly(o, e1) && Quietly(o1, e2)
      && o2.core == Reset(o.core) && o2.pendingRotation.None? && o2.admin == o.admin
  {
  }

  lemma {:induction false} FourCalls(o: Oracle, es: seq<Event>)
    requires |es| == 4
    ensures var o1 := After(o, es[0]);
      var o2 := After(o1, es[1]);
      var o3 := After(o2, es[2]);
      && Run(o, es[..0]) == o && Run(o, es[..1]) == o1 && Run(o, es[..2]) == o2 && Run(o, es[..3]) == o3
      && Run(o, es) == After(o3, es[3])
  {
    assert es[..1][..0] == es[..0] && es[..2][..1] == es[..1] && es[..3][..2] == es[..2];
  }

  /** Such a run exists from every state with no rotation pending, a live price or not: every call
      goes through, none publishes, and every price is forgotten. */
  lemma {:induction false} TwoResetsForget(o: Oracle, t: Timestamp, chain: Chain)
    requires o.pendingRotation.None? && PlusSeconds(t, 2 * ADMIN_TIMELOCK_SECONDS) <= U64_MAX
    ensures var es := TwoResets(o.admin, t, chain);
      && Quietly(o, es[0]) && Quietly(Run(o, es[..1]), es[1])
      && Quietly(Run(o, es[..2]), es[2]) && Quietly(Run(o, es[..3]), es[3])
      && NeverTrusted(Run(o, es))
  {
    var es := TwoResets(o.admin, t, chain);
    FourCalls(o, es);
    TimelockedReset(o, t, chain);
    TimelockedReset(Run(o, es[..2]), PlusSeconds(t, ADMIN_TIMELOCK_SECONDS), chain);
  }

  lemma {:induction false} NoPriceWithoutPublication(o: Oracle, es: seq<Event>)
    requires o.core.lastPrice == 0 && NoResets(es) && Published(o, es) == []
    ensures Run(o, es).core.lastPrice == 0
  {
    if es != [] {
      assert !es[|es| - 1].ForceRotateCall?;
      NoPriceWithoutPublication(o, es[..|es| - 1]);
    }
  }

  /** From such a state no sequence of calls publishes anything until the admin confirms. */
  lemma {:induction false} OnlyTheAdminResumes(o: Oracle, es: seq<Event>)
    requires NeverTrusted(o)
    requires forall i :: 0 <= i < |es| ==> !es[i].ConfirmBootstrapCall?
    ensures Published(o, es) == [] && NeverTrusted(Run(o, es))
  {
    if es != [] {
      OnlyTheAdminResumes(o, es[..|es| - 1]);
      assert !es[|es| - 1].ConfirmBootstrapCall?;
    }
  }

  // ----- What stands behind a confirmed bootstrap price -----

  /** An averaged round: its time, its average and the anchor's own price in it. */
  datatype BootstrapRound = BootstrapRound(now: Timestamp, average: Uint128, atomPrice: Uint128)

  /** The rounds that fed the price now waiting for the admin. */
  ghost function BootstrapRounds(o: Oracle, es: seq<Event>): seq<BootstrapRound> {
    if es == [] then []
    else
      var earlier, e := es[..|es| - 1], es[|es| - 1];
      RoundsAfter(Run(o, earlier), e, BootstrapRounds(o, earlier))
  }

  /** A round averaged while no price is trusted joins them; a confirmation, a cancellation or a reset
      begins anew. */
  ghost function RoundsAfter(o: Oracle, e: Event, rounds: seq<BootstrapRound>): seq<BootstrapRound> {
    if Step(o, e).Err? then rounds
    else if e.ConfirmBootstrapCall? || e.CancelBootstrapCall? || e.ForceRotateCall? then []
    else if TwapRound(o, e) && o.core.lastPrice == 0 && o.core.preReset == 0 then
      rounds + [BootstrapRound(e.chain.now, AverageOf(o, e), PricesOf(o, e).1)]
    else rounds
  }

  /** The queued entry carries the time of the first of these rounds, their number, and the prices of
      the last. */
  ghost predicate Counts(b: Option<PendingBootstrap>, rounds: seq<BootstrapRound>) {
    match b
    case None => rounds == []
    case Some(p) =>
      rounds != [] && p.proposedAt == rounds[0].now && p.count == Min(|rounds|, U32_MAX)
      && p.price == rounds[|rounds| - 1].average && p.atomPoolPrice == rounds[|rounds| - 1].atomPrice
  }

  lemma PriceRoundCounted(o: Oracle, now: Timestamp, price: Uint128, atomPrice: Uint128, pyth: Option<PythQuote>,
        rounds: seq<BootstrapRound>)
    requires OneMode(o) && Counts(o.bootstrap, rounds) && PriceRound(o, now, price, atomPrice, pyth).Ok?
    ensures var b := PriceRound(o, now, price, atomPrice, pyth).value.oracle.bootstrap;
      var average := Twap(Observed(o.core, Seconds(now), price, atomPrice).observations).value;
      if o.core.lastPrice == 0 && o.core.preReset == 0
      then Counts(b, rounds + [BootstrapRound(now, average, atomPrice)]) else Counts(b, rounds)
  {
  }

  lemma StepCounted(o: Oracle, e: Event, rounds: seq<BootstrapRound>)
    requires OneMode(o) && Counts(o.bootstrap, rounds)
    ensures Counts(After(o, e).bootstrap, RoundsAfter(o, e, rounds))
  {
    if TwapRound(o, e) {
      var s := Rotated(o, e.chain);
      var round := W.Weigh(MarketSeen(o, s, e.chain), s.selected).value;
      PriceRoundCounted(o.(sampling := s.(snapshots := round.snapshots)), e.chain.now,
                        round.prices.value.0, round.prices.value.1, e.chain.pyth, rounds);
    }
  }

  lemma {:induction false} BootstrapCounted(o: Oracle, es: seq<Event>)
    requires OneMode(o) && o.bootstrap.None?
    ensures OneMode(Run(o, es)) && Counts(Run(o, es).bootstrap, BootstrapRounds(o, es))
  {
    if es != [] {
      var earlier, e := es[..|es| - 1], es[|es| - 1];
      BootstrapCounted(o, earlier);
      KeepsModes(Run(o, earlier), e);
      StepCounted(Run(o, earlier), e, BootstrapRounds(o, earlier));
    }
  }

  /** In every run only the admin confirms or drops a bootstrap price: it is dropped whenever a round fed
      it, and confirmed exactly when six rounds or more did, the first of them an hour or more before.
      What is published then is the average of the last of them, and its observation carries the
      anchor's price of that round. */
  lemma {:induction false} ConfirmedOnEvidence(admin: Addr, anchor: Addr, chain: Chain, es: seq<Event>, sender: Addr,
        now: Timestamp, pyth: Option<PythQuote>)
    ensures var o, rounds := Run(Initial(admin, anchor, chain), es), BootstrapRounds(Initial(admin, anchor, chain), es);
      var confirmed := ConfirmBootstrap(o, sender, now, pyth);
      && (CancelBootstrap(o, sender).Ok? <==> sender == admin && rounds != [])
      && (confirmed.Ok? <==> sender == admin && |rounds| >= 6 && rounds[0].now + 3600 * NANOS <= now)
      && (confirmed.Ok? ==>
            var last := rounds[|rounds| - 1];
            && confirmed.value.published == Some(Publication(Seconds(now), last.average))
            && confirmed.value.oracle.core.observations
               == o.core.observations + [Observation(Seconds(now), last.average, last.atomPrice)])
  {
    BootstrapCounted(Initial(admin, anchor, chain), es);
    AdminStays(Initial(admin, anchor, chain), es);
  }

  lemma {:induction false} AdminStays(o: Oracle, es: seq<Event>)
    ensures Run(o, es).admin == o.admin
  {
    if es != [] {
      AdminStays(o, es[..|es| - 1]);
      StepKeepsAdmin(Run(o, es[..|es| - 1]), es[|es| - 1]);
    }
  }

  lemma StepKeepsAdmin(o: Oracle, e: Event)
    ensures After(o, e).admin == o.admin
  {
  }
}
