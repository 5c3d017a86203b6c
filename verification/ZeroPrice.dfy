/** A run from deployment that publishes a zero price and stretches the observation window beyond its
    hour: an anchor pool whose accumulator grows by one unit in 300 seconds, as it does for reserves of
    5000 bluechip against 1.5 million million of the other asset, has a price that rounds to zero. */
module ZeroPrice {
  import opened Base
  import opened TwapWindow
  import opened OracleModel
  import opened OracleRuns
  import opened OracleGuarantees

  const BLUECHIP_RESERVE := 5_000_000_000
  const OTHER_RESERVE := 1_500_000_000_000_000_000

  /** The end of the `k`-th stretch of 300 seconds. */
  function Tick(k: nat): Timestamp
    requires k <= 100
  {
    300 * k * NANOS
  }

  lemma TickSeconds(k: nat)
    requires k <= 100
    ensures Seconds(Tick(k)) == 300 * k
  {
    ModUnique(300 * k * NANOS, NANOS, 300 * k, 0);
  }

  /** What the accumulators of such a pool are at that time. */
  function Accumulated(k: nat): W.PoolState
    requires k <= 100
  {
    W.PoolState(BLUECHIP_RESERVE, OTHER_RESERVE, 90_000_000_000_000_000 * k, k, 300 * k)
  }

  /** The chain then: `c` with the anchor pool, and nothing else to read. */
  function ChainAt(c: Chain, anchor: Addr, k: nat): Chain
    requires k <= 100
  {
    c.(now := Tick(k), basket := false, answers := map[anchor := Accumulated(k)])
  }

  function Round(c: Chain, anchor: Addr, k: nat): Event
    requires k <= 100
  {
    UpdateCall(ChainAt(c, anchor, k))
  }

  /** `n` rounds from tick `first` on. */
  function Rounds(c: Chain, anchor: Addr, first: nat, n: nat): seq<Event>
    requires first + n <= 100
  {
    seq(n, i requires 0 <= i < n => Round(c, anchor, first + i))
  }

  // ----- One round -----

  ghost predicate Pinned(o: Oracle, k: nat)
    requires k <= 100
  {
    o.sampling.selected == [o.anchor] && o.sampling.anchorSide == 0 && o.sampling.rotationInterval == ROTATION_INTERVAL
    && o.sampling.snapshots == [W.Snapshot(o.anchor, k, 300 * k)]
  }

  /** `n` zeros queued, the first of them at tick `first`. */
  ghost function Queue(first: nat, n: nat): Option<PendingBootstrap>
    requires first <= 100 && n <= 10
  {
    if n == 0 then None else Some(PendingBootstrap(0, 0, Tick(first), n))
  }

  /** The oracle at tick `k`: no price was ever live, the window holds `obs`, `n` zeros wait for the
      admin. */
  ghost predicate Waits(o: Oracle, k: nat, u: nat, obs: seq<Observation>, first: nat, n: nat)
    requires k <= 100 && first <= 100
  {
    && Pinned(o, k) && o.core.lastPrice == 0 && o.core.preReset == 0 && o.core.candidate.None?
    && o.core.updateInterval == UPDATE_INTERVAL && o.core.lastUpdate == u
    && o.core.observations == obs && n <= 10 && o.bootstrap == Queue(first, n)
  }

  /** The sample stays the anchor, and its snapshot stays with it. */
  lemma SampleStays(o: Oracle, c: Chain, k: nat, next: nat)
    requires k < next <= 100 && Pinned(o, k)
    ensures var s := Rotated(o, ChainAt(c, o.anchor, next));
      s.selected == [o.anchor] && s.anchorSide == 0 && s.snapshots == [W.Snapshot(o.anchor, k, 300 * k)]
      && s.rotationInterval == ROTATION_INTERVAL
  {
    var snapshots := o.sampling.snapshots;
    assert snapshots[..0] == [] && KeepSnapshots(snapshots[..0], [o.anchor]) == [];
    assert KeepSnapshots(snapshots, [o.anchor]) == [] + [snapshots[0]] == snapshots;
  }

  lemma AnchorReads(m: W.Market, k: nat, next: nat)
    requires k < next <= 100 && m.anchorSide == 0 && m.lastPrice == 0
    requires m.answers == map[m.anchor := Accumulated(next)] && m.previous == [W.Snapshot(m.anchor, k, 300 * k)]
    ensures W.Read(m, m.anchor) == W.Priced(W.Snapshot(m.anchor, next, 300 * next), 0, 2 * BLUECHIP_RESERVE)
  {
    W.GrowthPins(next - k, 300 * (next - k));
    assert W.GrowthPerSecond(next - k, 300 * (next - k)) == 0 by {
      if W.GrowthPerSecond(next - k, 300 * (next - k)) >= 1 {
        MulMono(1, W.GrowthPerSecond(next - k, 300 * (next - k)), 300 * (next - k));
      }
    }
  }

  /** The round's price is zero. */
  lemma {:induction false} AnchorWeighs(m: W.Market, k: nat, next: nat)
    requires k < next <= 100 && m.anchorSide == 0 && m.lastPrice == 0
    requires m.answers == map[m.anchor := Accumulated(next)] && m.previous == [W.Snapshot(m.anchor, k, 300 * k)]
    ensures W.Weigh(m, [m.anchor]) == Ok(W.Round(Some((0, 0)), [W.Snapshot(m.anchor, next, 300 * next)]))
  {
    AnchorReads(m, k, next);
    var pools := [m.anchor];
    assert pools[..0] == [];
    assert W.WeightedSum(m, pools[..0]) == 0 && W.TotalWeight(m, pools[..0]) == 0 && W.Snapshots(m, pools[..0]) == [];
    assert W.WeightedSum(m, pools) == W.Product(0, 2 * BLUECHIP_RESERVE) == 0;
    assert W.TotalWeight(m, pools) == 2 * BLUECHIP_RESERVE;
    assert [] + [W.Accumulator(m, m.anchor)] == [W.Snapshot(m.anchor, next, 300 * next)];
  }

  /** A window that is empty or holds one zero younger than an hour. */
  ghost predicate Zeros(obs: seq<Observation>, seconds: nat) {
    obs == [] || (obs == [Observation(obs[0].timestamp, 0, 0)]
        && SatSub(seconds, TWAP_WINDOW) <= obs[0].timestamp <= seconds)
  }

  lemma {:induction false} ZeroObserved(obs: seq<Observation>, seconds: Uint64)
    requires Zeros(obs, seconds)
    ensures var more := obs + [Observation(seconds, 0, 0)];
      Retain(more, SatSub(seconds, TWAP_WINDOW)) == more && Twap(more) == Ok(0)
  {
    var more, cutoff := obs + [Observation(seconds, 0, 0)], SatSub(seconds, TWAP_WINDOW);
    assert more[..|obs|] == obs;
    if obs == [] {
      assert Retain(obs, cutoff) == obs;
    } else {
      assert obs[..0] == [] && Retain(obs[..0], cutoff) == [];
      assert Retain(obs, cutoff) == [] + [obs[0]] == obs;
    }
    assert Retain(more, cutoff) == obs + [Observation(seconds, 0, 0)];
    TwapDefined(more);
    TwapWithin(more, 0, 0);
  }

  lemma ZeroPriceRound(o: Oracle, k: nat, u: nat, obs: seq<Observation>, first: nat, n: nat, next: nat,
        pyth: Option<PythQuote>)
    requires k <= 100 && first <= 100 && next <= 100 && n < 10 && Waits(o, k, u, obs, first, n)
    requires Zeros(obs, 300 * next) && (n == 0 ==> first == next)
    ensures var r := PriceRound(o, Tick(next), 0, 0, pyth);
      r == Ok(Stepped(o.(bootstrap := Queue(first, n + 1)), None))
  {
    TickSeconds(next);
    ZeroObserved(obs, 300 * next);
    var c := Observed(o.core, 300 * next, 0, 0);
    assert c.observations == obs + [Observation(300 * next, 0, 0)];
    assert (obs + [Observation(300 * next, 0, 0)])[..|obs|] == obs;
    assert WithoutLast(c) == o.core;
  }

  /** One round queues one more zero. */
  lemma {:induction false} RoundQueues(o: Oracle, c: Chain, k: nat, u: nat, obs: seq<Observation>, first: nat, n: nat,
        next: nat)
    requires k < next <= 100 && first <= 100 && n < 10 && Waits(o, k, u, obs, first, n)
    requires Zeros(obs, 300 * next) && (n == 0 ==> first == next) && u + UPDATE_INTERVAL <= 300 * next
    ensures var e := Round(c, o.anchor, next);
      && Step(o, e).Ok? && Step(o, e).value.published.None? && After(o, e).anchor == o.anchor
          && After(o, e).admin == o.admin
      && Waits(After(o, e), next, u, obs, first, n + 1)
  {
    var chain := ChainAt(c, o.anchor, next);
    TickSeconds(next);
    SampleStays(o, c, k, next);
    var s := Rotated(o, chain);
    AnchorWeighs(MarketSeen(o, s, chain), k, next);
    var o' := o.(sampling := s.(snapshots := [W.Snapshot(o.anchor, next, 300 * next)]));
    ReadAnew(o, o', k, u, obs, first, n, next);
    UpdatePrices(o, chain, o');
    ZeroPriceRound(o', next, u, obs, first, n, next, chain.pyth);
    QueueGrows(o', next, u, obs, first, n);
  }

  lemma ReadAnew(o: Oracle, o': Oracle, k: nat, u: nat, obs: seq<Observation>, first: nat, n: nat, next: nat)
    requires k <= 100 && next <= 100 && first <= 100 && Waits(o, k, u, obs, first, n)
    requires o' == o.(sampling := o'.sampling) && Pinned(o', next)
    ensures Waits(o', next, u, obs, first, n)
  {
  }

  lemma QueueGrows(o: Oracle, k: nat, u: nat, obs: seq<Observation>, first: nat, n: nat)
    requires k <= 100 && first <= 100 && n < 10 && Waits(o, k, u, obs, first, n)
    ensures Waits(o.(bootstrap := Queue(first, n + 1)), k, u, obs, first, n + 1)
  {
  }

  /** A round whose pools yield zero goes on with the new snapshots. */
  lemma UpdatePrices(o: Oracle, chain: Chain, o': Oracle)
    requires Seconds(chain.now) >= SatAdd64(o.core.lastUpdate, o.core.updateInterval)
    requires var s := Rotated(o, chain);
      W.Weigh(MarketSeen(o, s, chain), s.selected) == Ok(W.Round(Some((0, 0)), o'.sampling.snapshots))
      && o' == o.(sampling := s.(snapshots := o'.sampling.snapshots))
    ensures Update(o, chain) == PriceRound(o', chain.now, 0, 0, chain.pyth)
  {
  }

  // ----- The run -----

  ghost predicate At(o: Oracle, es: seq<Event>, pubs: seq<Publication>, k: nat, u: nat, obs: seq<Observation>,
        first: nat, n: nat)
    requires k <= 100 && first <= 100
  {
    && Published(o, es) == pubs && Waits(Run(o, es), k, u, obs, first, n)
    && Run(o, es).anchor == o.anchor && Run(o, es).admin == o.admin
  }

  lemma {:induction false} OneMore(o: Oracle, es: seq<Event>, e: Event)
    ensures Run(o, es + [e]) == After(Run(o, es), e)
    ensures Published(o, es + [e]) == Extend(Published(o, es), Run(o, es), e)
  {
    assert (es + [e])[..|es|] == es;
  }

  lemma RoundsGrow(es: seq<Event>, c: Chain, anchor: Addr, first: nat, n: nat)
    requires 0 < n && first + n <= 100
    ensures es + Rounds(c, anchor, first, n) == es + Rounds(c, anchor, first, n - 1) + [Round(c, anchor, first + n - 1)]
  {
  }

  lemma NoRounds(es: seq<Event>, c: Chain, anchor: Addr, first: nat)
    requires first <= 100
    ensures es + Rounds(c, anchor, first, 0) == es
  {
  }

  /** When the anchor was read last. */
  function LastRead(k: nat, first: nat, n: nat): nat {
    if n == 0 then k else first + n - 1
  }

  lemma {:induction false} OneMoreRound(o: Oracle, es: seq<Event>, c: Chain, pubs: seq<Publication>, k: nat, u: nat,
        obs: seq<Observation>, first: nat, n: nat, next: nat, longer: seq<Event>)
    requires next <= 100 && longer == es + [Round(c, o.anchor, next)]
    requires k < next <= 100 && first <= 100 && 0 < n <= 10 && At(o, es, pubs, k, u, obs, first, n - 1)
    requires u + UPDATE_INTERVAL <= 300 * next && Zeros(obs, 300 * next) && (n == 1 ==> first == next)
    ensures At(o, longer, pubs, next, u, obs, first, n)
  {
    OneMore(o, es, Round(c, o.anchor, next));
    RoundQueues(Run(o, es), c, k, u, obs, first, n - 1, next);
  }

  /** Such rounds in a row. */
  lemma {:induction false} RoundsQueue(o: Oracle, es: seq<Event>, c: Chain, pubs: seq<Publication>, k: nat, u: nat,
        obs: seq<Observation>, first: nat, n: nat)
    requires k < first <= 90 && n <= 6 && At(o, es, pubs, k, u, obs, first, 0) && u + UPDATE_INTERVAL <= 300 * first
    requires forall i: nat :: first <= i < first + 6 ==> Zeros(obs, 300 * i)
    ensures At(o, es + Rounds(c, o.anchor, first, n), pubs, LastRead(k, first, n), u, obs, first, n)
  {
    if n == 0 {
      NoRounds(es, c, o.anchor, first);
    } else {
      RoundsQueue(o, es, c, pubs, k, u, obs, first, n - 1);
      var next, before := first + n - 1, es + Rounds(c, o.anchor, first, n - 1);
      RoundsGrow(es, c, o.anchor, first, n);
      assert Zeros(obs, 300 * next);
      OneMoreRound(o, before, c, pubs, LastRead(k, first, n - 1), u, obs, first, n, next,
                   es + Rounds(c, o.anchor, first, n));
    }
  }

  function Confirm(admin: Addr, k: nat): Event
    requires k <= 100
  {
    ConfirmBootstrapCall(admin, Tick(k), None)
  }

  /** The confirmation publishes the zero and leaves it in the window. */
  lemma {:induction false} ConfirmsZero(o: Oracle, es: seq<Event>, pubs: seq<Publication>, k: nat, u: nat,
        obs: seq<Observation>, first: nat, at: nat)
    requires k <= at < 100 && first + 12 <= at && At(o, es, pubs, k, u, obs, first, 6)
    ensures Step(Run(o, es), Confirm(o.admin, at)).Ok?
    ensures At(o, es + [Confirm(o.admin, at)], pubs + [Publication(300 * at, 0)], k, 300 * at,
               obs + [Observation(300 * at, 0, 0)], at + 1, 0)
  {
    TickSeconds(at);
    OneMore(o, es, Confirm(o.admin, at));
  }

  /** The first round has nothing to compare with and only reads the anchor. */
  lemma {:induction false} FirstRead(admin: Addr, anchor: Addr, c: Chain)
    ensures At(Initial(admin, anchor, ChainAt(c, anchor, 0)), [Round(c, anchor, 1)], [], 1, 0, [], 2, 0)
  {
    var o, e := Initial(admin, anchor, ChainAt(c, anchor, 0)), Round(c, anchor, 1);
    TickSeconds(0);
    TickSeconds(1);
    assert [] + [e] == [e] && Run(o, []) == o && Published(o, []) == [];
    OneMore(o, [], e);
    var chain := ChainAt(c, anchor, 1);
    var s := Rotated(o, chain);
    assert s == o.sampling && s.selected == [anchor];
    AnchorSeen(MarketSeen(o, s, chain), 1);
  }

  lemma {:induction false} AnchorSeen(m: W.Market, k: nat)
    requires k <= 100 && m.anchorSide == 0 && m.lastPrice == 0
    requires m.answers == map[m.anchor := Accumulated(k)] && m.previous == []
    ensures W.Weigh(m, [m.anchor]) == Ok(W.Round(None, [W.Snapshot(m.anchor, k, 300 * k)]))
  {
    var pools := [m.anchor];
    assert W.Read(m, m.anchor) == W.Seen(W.Snapshot(m.anchor, k, 300 * k));
    assert pools[..0] == [];
    assert W.WeightedSum(m, pools[..0]) == 0 && W.TotalWeight(m, pools[..0]) == 0 && W.Snapshots(m, pools[..0]) == [];
    assert [] + [W.Accumulator(m, m.anchor)] == [W.Snapshot(m.anchor, k, 300 * k)];
  }

  const FIRST_ZERO := Observation(4200, 0, 0)

  function UntilFirst(admin: Addr, anchor: Addr, c: Chain): seq<Event> {
    [Round(c, anchor, 1)] + Rounds(c, anchor, 2, 6) + [Confirm(admin, 14)]
  }

  /** Six zeros confirmed at 4200 seconds. */
  lemma {:induction false} FirstConfirmed(admin: Addr, anchor: Addr, c: Chain)
    ensures At(Initial(admin, anchor, ChainAt(c, anchor, 0)), UntilFirst(admin, anchor, c), [Publication(4200, 0)],
               7, 4200, [FIRST_ZERO], 15, 0)
  {
    var o, es := Initial(admin, anchor, ChainAt(c, anchor, 0)), [Round(c, anchor, 1)];
    FirstRead(admin, anchor, c);
    RoundsQueue(o, es, c, [], 1, 0, [], 2, 6);
    ConfirmsZero(o, es + Rounds(c, anchor, 2, 6), [], 7, 0, [], 2, 14);
    assert [] + [Publication(4200, 0)] == [Publication(4200, 0)] && [] + [FIRST_ZERO] == [FIRST_ZERO];
  }

  function UntilSecond(admin: Addr, anchor: Addr, c: Chain): seq<Event> {
    UntilFirst(admin, anchor, c) + Rounds(c, anchor, 15, 6) + [Confirm(admin, 27)]
  }

  lemma ZerosStay()
    ensures forall i: nat :: 15 <= i < 21 ==> Zeros([FIRST_ZERO], 300 * i)
  {
  }

  /** Six more confirmed at 8100. */
  lemma {:induction false} SecondConfirmed(admin: Addr, anchor: Addr, c: Chain)
    ensures At(Initial(admin, anchor, ChainAt(c, anchor, 0)), UntilSecond(admin, anchor, c),
               [Publication(4200, 0)] + [Publication(8100, 0)], 20, 8100,
               [FIRST_ZERO] + [Observation(8100, 0, 0)], 28, 0)
  {
    var o, es := Initial(admin, anchor, ChainAt(c, anchor, 0)), UntilFirst(admin, anchor, c);
    FirstConfirmed(admin, anchor, c);
    ZerosStay();
    RoundsQueue(o, es, c, [Publication(4200, 0)], 7, 4200, [FIRST_ZERO], 15, 6);
    ConfirmsZero(o, es + Rounds(c, anchor, 15, 6), [Publication(4200, 0)], 20, 4200, [FIRST_ZERO], 15, 27);
  }

  /** Whoever runs it, from deployment: the run publishes two zeros and leaves a window of 3900 seconds. */
  lemma {:induction false} WindowStretches(admin: Addr, anchor: Addr, c: Chain) returns (start: Chain, es: seq<Event>)
    ensures var o := Initial(admin, anchor, start);
      && Published(o, es) == [Publication(4200, 0), Publication(8100, 0)]
      && Run(o, es).core.observations == [Observation(4200, 0, 0), Observation(8100, 0, 0)]
      && !SpansAtMost(Run(o, es).core.observations, TWAP_WINDOW) && Stretched(o, es)
  {
    start, es := ChainAt(c, anchor, 0), UntilSecond(admin, anchor, c);
    var o := Initial(admin, anchor, start);
    SecondConfirmed(admin, anchor, c);
    var left := Run(o, es).core.observations;
    assert left[1].timestamp - left[0].timestamp > TWAP_WINDOW;
    Deployed(admin, anchor, start);
    RunSpans(o, es);
  }

  lemma Deployed(admin: Addr, anchor: Addr, chain: Chain)
    ensures Inv(Initial(admin, anchor, chain), [])
  {
  }
}
