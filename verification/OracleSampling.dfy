/** Which pools the oracle reads, against what, and who may redraw them, over every run. */
module OracleSampling {
  import opened Base
  import opened OracleModel
  import opened OracleRuns
  import opened OracleGuarantees

  // ----- The sample in force -----

  /** The chain as the call saw it that drew the sample in force after the run: the deployment, the last
      reset, or the last round that went through an hour or more after the draw before it. */
  ghost function LastDraw(o: Oracle, first: Chain, es: seq<Event>): Chain {
    if es == [] then first
    else
      var earlier, e := es[..|es| - 1], es[|es| - 1];
      var draw := LastDraw(o, first, earlier);
      if Step(Run(o, earlier), e).Err? then draw
      else if e.ForceRotateCall? then e.chain
      else if e.UpdateCall? && Seconds(e.chain.now) >= Seconds(draw.now) + 3600 then e.chain
      else draw
  }

  /** The sample is the selection of 75 pools that call's chain calls for. */
  ghost predicate DrawnFrom(o: Oracle, draw: Chain) {
    && o.sampling.selected == Sampler.Selection(draw.basket, o.anchor, draw.eligible, 75, draw.digest)
    && o.sampling.lastRotation == Seconds(draw.now) && o.sampling.rotationInterval == 3600
  }

  /** What a round leaves of the sampling: the sample it read, and the snapshots it took. */
  lemma UpdateSamples(o: Oracle, chain: Chain)
    requires Update(o, chain).Ok?
    ensures var s, o' := Rotated(o, chain), Update(o, chain).value.oracle;
      && o'.sampling == s.(snapshots := W.Snapshots(MarketSeen(o, s, chain), s.selected))
      && o'.anchor == o.anchor && o'.pendingRotation == o.pendingRotation
  {
  }

  lemma UpdateDraws(o: Oracle, chain: Chain, draw: Chain)
    requires DrawnFrom(o, draw) && Update(o, chain).Ok?
    ensures var o' := Update(o, chain).value.oracle;
      o'.anchor == o.anchor && DrawnFrom(o', if Seconds(chain.now) >= Seconds(draw.now) + 3600 then chain else draw)
  {
    LastSecond(draw.now);
    UpdateSamples(o, chain);
  }

  /** The clock's 64 bits of nanoseconds leave room for an hour in seconds. */
  lemma LastSecond(t: Timestamp)
    ensures Seconds(t) + 3600 <= U64_MAX
  {
  }

  /** In every run the sample is the one drawn by the last call that had to draw one. */
  lemma {:induction false} SampleDrawn(admin: Addr, anchor: Addr, chain: Chain, es: seq<Event>)
    ensures var o := Initial(admin, anchor, chain);
      Run(o, es).anchor == anchor && DrawnFrom(Run(o, es), LastDraw(o, chain, es))
  {
    var o := Initial(admin, anchor, chain);
    if es != [] {
      var earlier, e := es[..|es| - 1], es[|es| - 1];
      SampleDrawn(admin, anchor, chain, earlier);
      StepDraws(Run(o, earlier), e, LastDraw(o, chain, earlier));
    }
  }

  lemma StepDraws(o: Oracle, e: Event, draw: Chain)
    requires DrawnFrom(o, draw)
    ensures After(o, e).anchor == o.anchor
    ensures DrawnFrom(After(o, e),
                      if Step(o, e).Err? then draw
                      else if e.ForceRotateCall? then e.chain
                      else if e.UpdateCall? && Seconds(e.chain.now) >= Seconds(draw.now) + 3600 then e.chain
                      else draw)
  {
    if e.UpdateCall? && Step(o, e).Ok? {
      UpdateDraws(o, e.chain, draw);
    }
  }

  // ----- What a round compares against -----

  /** The market the last round that went through saw and the pools it read, unless a reset came after. */
  ghost function LastRound(o: Oracle, es: seq<Event>): Option<(W.Market, seq<Addr>)> {
    if es == [] then None
    else
      var earlier, e := es[..|es| - 1], es[|es| - 1];
      if Step(Run(o, earlier), e).Err? then LastRound(o, earlier)
      else if e.UpdateCall? then Some((RoundMarket(o, earlier, e.chain), RoundPools(o, earlier, e.chain)))
      else if e.ForceRotateCall? then None
      else LastRound(o, earlier)
  }

  /** The pools the next round reads. */
  ghost function RoundPools(o: Oracle, es: seq<Event>, chain: Chain): seq<Addr> {
    Rotated(Run(o, es), chain).selected
  }

  ghost function RoundMarket(o: Oracle, es: seq<Event>, chain: Chain): W.Market {
    MarketSeen(Run(o, es), Rotated(Run(o, es), chain), chain)
  }

  ghost function LastSnapshots(last: Option<(W.Market, seq<Addr>)>): seq<W.Snapshot> {
    match last
    case None => []
    case Some((m, pools)) => W.Snapshots(m, pools)
  }

  lemma SnapshotsStep(o: Oracle, e: Event)
    ensures After(o, e).sampling.snapshots
            == if Step(o, e).Err? then o.sampling.snapshots
               else if e.UpdateCall? then
                 W.Snapshots(MarketSeen(o, Rotated(o, e.chain), e.chain), Rotated(o, e.chain).selected)
               else if e.ForceRotateCall? then []
               else o.sampling.snapshots
  {
    if e.UpdateCall? && Step(o, e).Ok? {
      UpdateSamples(o, e.chain);
    }
  }

  lemma {:induction false} SnapshotsKept(o: Oracle, es: seq<Event>)
    requires o.sampling.snapshots == []
    ensures Run(o, es).sampling.snapshots == LastSnapshots(LastRound(o, es))
  {
    if es != [] {
      SnapshotsKept(o, es[..|es| - 1]);
      SnapshotsStep(Run(o, es[..|es| - 1]), es[|es| - 1]);
    }
  }

  lemma {:induction false} FindKept(snapshots: seq<W.Snapshot>, pools: seq<Addr>, pool: Addr)
    ensures W.FindSnapshot(KeepSnapshots(snapshots, pools), pool)
            == if pool in pools then W.FindSnapshot(snapshots, pool) else None
  {
    if snapshots != [] {
      var front, last := snapshots[..|snapshots| - 1], snapshots[|snapshots| - 1];
      FindKept(front, pools, pool);
      assert snapshots == front + [last];
      W.FindAppended(front, last, pool);
      if last.pool in pools {
        W.FindAppended(KeepSnapshots(front, pools), last, pool);
      } else {
        assert KeepSnapshots(snapshots, pools) == KeepSnapshots(front, pools);
      }
    }
  }

  /** A pool's reading in a round, against the reading of an earlier one. */
  ghost predicate Measured(later: W.Market, last: Option<(W.Market, seq<Addr>)>, pool: Addr)
    requires W.Readable(later, pool)
  {
    match last
    case None => !W.Read(later, pool).Priced?
    case Some((m, pools)) =>
      && (W.Read(later, pool).Priced? <==>
            && pool in pools && W.Readable(m, pool)
            && m.answers[pool].blockTimeLast < later.answers[pool].blockTimeLast
            && W.QuoteAccumulator(m, pool) < W.QuoteAccumulator(later, pool))
      && (W.Read(later, pool).Priced? ==>
            var dt := later.answers[pool].blockTimeLast - m.answers[pool].blockTimeLast;
            var dc := W.QuoteAccumulator(later, pool) - W.QuoteAccumulator(m, pool);
            W.Read(later, pool).price * dt <= dc < (W.Read(later, pool).price + 1) * dt)
  }

  lemma RoundReads(o: Oracle, chain: Chain, last: Option<(W.Market, seq<Addr>)>, pool: Addr)
    requires o.sampling.snapshots == LastSnapshots(last) && pool in Rotated(o, chain).selected
    requires W.Readable(MarketSeen(o, Rotated(o, chain), chain), pool)
    ensures Measured(MarketSeen(o, Rotated(o, chain), chain), last, pool)
  {
    var m := MarketSeen(o, Rotated(o, chain), chain);
    FindKept(o.sampling.snapshots, Rotated(o, chain).selected, pool);
    assert W.FindSnapshot(m.previous, pool) == W.FindSnapshot(LastSnapshots(last), pool);
    if last.Some? {
      W.PriceBetweenRounds(last.value.0, last.value.1, m, pool);
    }
  }

  /** In every run a round sees the answers of its own block, measures them by the last published price,
      and prices a pool by its accumulator's growth since the last round that went through, whatever the
      sample was then; not at all if that round did not read it, or if there was none since the reset. */
  lemma {:induction false} RoundMeasures(admin: Addr, anchor: Addr, chain: Chain, es: seq<Event>, later: Chain,
        pool: Addr)
    requires var o := Initial(admin, anchor, chain);
      pool in RoundPools(o, es, later) && W.Readable(RoundMarket(o, es, later), pool)
    ensures var o := Initial(admin, anchor, chain);
      var m, pubs := RoundMarket(o, es, later), Published(o, es);
      && m.anchor == anchor && m.answers == later.answers && m.sides == later.sides
      && m.lastPrice == (if pubs == [] then 0 else pubs[|pubs| - 1].price)
      && Measured(m, LastRound(o, es), pool)
  {
    var o := Initial(admin, anchor, chain);
    SampleDrawn(admin, anchor, chain, es);
    PublicationsTracked(admin, anchor, chain, es);
    SnapshotsKept(o, es);
    RoundReads(Run(o, es), later, LastRound(o, es), pool);
  }

  // ----- Who may reset -----

  /** When the proposal to reset that still stands was made, from the calls alone: the admin's first
      stands until the admin cancels it, or carries it out 48 hours later or more. */
  ghost function Standing(admin: Addr, es: seq<Event>): Option<Timestamp> {
    if es == [] then None else StandingAfter(admin, Standing(admin, es[..|es| - 1]), es[|es| - 1])
  }

  ghost function StandingAfter(admin: Addr, proposal: Option<Timestamp>, e: Event): Option<Timestamp> {
    match e
    case ProposeRotationCall(sender, now) => if sender == admin && proposal.None? then Some(now) else proposal
    case CancelRotationCall(sender) => if sender == admin then None else proposal
    case ForceRotateCall(sender, chain) => if sender == admin && Ripe(proposal, chain.now) then None else proposal
    case _ => proposal
  }

  ghost predicate Ripe(proposal: Option<Timestamp>, now: Timestamp) {
    proposal.Some? && proposal.value + 48 * 3600 * NANOS <= now
  }

  /** What a state remembers of it. */
  ghost predicate Pending(o: Oracle, proposal: Option<Timestamp>) {
    o.pendingRotation == if proposal.None? then None else Some(PlusSeconds(proposal.value, ADMIN_TIMELOCK_SECONDS))
  }

  lemma PendingStep(o: Oracle, e: Event, proposal: Option<Timestamp>)
    requires Pending(o, proposal)
    ensures Pending(After(o, e), StandingAfter(o.admin, proposal, e))
  {
    if e.UpdateCall? && Step(o, e).Ok? {
      UpdateSamples(o, e.chain);
    }
  }

  lemma {:induction false} RunPending(o: Oracle, es: seq<Event>)
    requires o.pendingRotation.None?
    ensures Run(o, es).admin == o.admin && Pending(Run(o, es), Standing(o.admin, es))
  {
    AdminStays(o, es);
    if es != [] {
      var earlier := es[..|es| - 1];
      AdminStays(o, earlier);
      RunPending(o, earlier);
      PendingStep(Run(o, earlier), es[|es| - 1], Standing(o.admin, earlier));
    }
  }

  /** In every run only the admin proposes, cancels and carries out a reset: a proposal is taken when none
      stands, a cancellation when one does, and a reset goes through exactly when one has stood for 48
      hours. */
  lemma {:induction false} ResetProtocol(admin: Addr, anchor: Addr, chain: Chain, es: seq<Event>, e: Event)
    ensures var o, proposal := Run(Initial(admin, anchor, chain), es), Standing(admin, es);
      && (e.ProposeRotationCall? ==> (Step(o, e).Ok? <==> e.sender == admin && proposal.None?))
      && (e.CancelRotationCall? ==> (Step(o, e).Ok? <==> e.sender == admin && proposal.Some?))
      && (e.ForceRotateCall? ==> (Step(o, e).Ok? <==> e.sender == admin && Ripe(proposal, e.chain.now)))
  {
    RunPending(Initial(admin, anchor, chain), es);
  }
}
