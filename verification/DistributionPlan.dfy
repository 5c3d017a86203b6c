/** What a creator pool's committers get, over every run from its instantiation. */
module DistributionPlan {
  import opened Base
  import opened Ordering
  import opened CommitSplit
  import opened MintIsolation
  import opened Distribution
  import opened CommitLedger
  import opened DistributionRuns

  /** The ledger as the crossing left it; empty before the crossing. */
  ghost function Committers(p: Pool, es: seq<Event>): seq<Commit> {
    if es == [] then []
    else
      var q := Run(p, es[..|es| - 1]);
      if !q.thresholdHit && After(q, es[|es| - 1]).thresholdHit then After(q, es[|es| - 1]).ledger
      else Committers(p, es[..|es| - 1])
  }

  /** The rounding left over once every committer is paid, which goes to the creator. */
  ghost function Dust(all: seq<Commit>, creator: Addr, target: Uint128): seq<Payment> {
    var paid := Sum(Shares(all, COMMIT_RETURN, target));
    if 0 < paid < COMMIT_RETURN then [Payment(creator, COMMIT_RETURN - paid)] else []
  }

  /** The payments due once the first `k` committers are served. */
  ghost function Due(all: seq<Commit>, k: nat, creator: Addr, target: Uint128): seq<Payment>
    requires k <= |all|
  {
    Shares(all[..k], COMMIT_RETURN, target) + if k == |all| then Dust(all, creator, target) else []
  }

  // ----- The invariant -----

  ghost predicate Funding(p: Pool, batched: seq<MintMsg>) {
    && p.distribution.None? && p.raised < p.target && TotalUsd(p.ledger) == p.raised && batched == []
  }

  /** The ledger is what is left of the committers, and exactly the others are paid. */
  ghost predicate Draining(p: Pool, all: seq<Commit>, batched: seq<MintMsg>) {
    && Sorted(all) && AllPaid(all) && TotalUsd(all) == p.target == p.raised
    && |p.ledger| <= |all| && p.ledger == all[|all| - |p.ledger|..]
    && (p.distribution.Some? <==> p.ledger != [])
    && Pays(batched, Due(all, |all| - |p.ledger|, p.creator, p.target))
    && (p.distribution.Some? ==> Resumable(p, all, p.distribution.value))
  }

  ghost predicate Resumable(p: Pool, all: seq<Commit>, s: State)
    requires |p.ledger| <= |all|
  {
    && s.total == COMMIT_RETURN && s.committed == p.target
    && s.distributed == Sum(Shares(all[..|all| - |p.ledger|], COMMIT_RETURN, p.target))
    && NothingHidden(p.ledger, s.cursor)
  }

  /** Every entry sorts after the cursor. */
  ghost predicate NothingHidden(ledger: seq<Commit>, cursor: Option<Addr>) {
    forall i :: 0 <= i < |ledger| ==> cursor.None? || !LexLeq(ledger[i].payer, cursor.value)
  }

  ghost predicate Inv(p: Pool, all: seq<Commit>, batched: seq<MintMsg>) {
    && p.target > 0 && Sorted(p.ledger) && AllPaid(p.ledger)
    && if p.thresholdHit then Draining(p, all, batched) else Funding(p, batched)
  }

  // ----- Every call keeps it -----

  ghost function AllAfter(p: Pool, e: Event, all: seq<Commit>): seq<Commit> {
    if !p.thresholdHit && After(p, e).thresholdHit then After(p, e).ledger else all
  }

  ghost function BatchedAfter(p: Pool, e: Event, batched: seq<MintMsg>): seq<MintMsg> {
    batched + if e.ContinueCall? then SentBy(p, e) else []
  }

  /** The crossing commit brings the ledger to the target exactly and starts the distribution. */
  lemma {:induction false} CrossingStarts(p: Pool, ledger: seq<Commit>, raised: Uint128, now: Timestamp)
    requires p.target > 0 && Sorted(ledger) && AllPaid(ledger) && ledger != []
    requires TotalUsd(ledger) == p.target == raised
    ensures Inv(Cross(p.(ledger := ledger, raised := raised), now).pool, ledger, [])
  {
    assert ledger[0..] == ledger && ledger[..0] == [];
  }

  /** Nothing here depends on the mint slots. */
  lemma MintsAside(p: Pool, m: Mints, all: seq<Commit>, batched: seq<MintMsg>)
    requires Inv(p, all, batched)
    ensures Inv(p.(mints := m), all, batched)
  {
  }

  lemma FundsKeep(p: Pool, e: Event, all: seq<Commit>, batched: seq<MintMsg>)
    requires Inv(p, all, batched) && e.CommitCall? && !p.thresholdHit
    requires CommitFunds(p, e.sender, e.usd, e.accepted, e.now).Ok?
    ensures var q := CommitFunds(p, e.sender, e.usd, e.accepted, e.now).value.pool;
      Inv(q, if q.thresholdHit then q.ledger else all, batched)
  {
    var amount := if p.raised + e.usd < p.target then e.usd else p.target - p.raised;
    SplitOnlyOnOvershoot(p.raised, e.usd, p.target);
    assert Credit(p.ledger, e.sender, amount).Ok?;
    CreditRaises(p.ledger, e.sender, amount);
    CreditKeepsOrder(p.ledger, e.sender, amount);
    if p.raised + e.usd >= p.target {
      CrossingStarts(p, Credit(p.ledger, e.sender, amount).value, p.target, e.now);
    }
  }

  lemma CommitKeeps(p: Pool, e: Event, all: seq<Commit>, batched: seq<MintMsg>)
    requires Inv(p, all, batched) && e.CommitCall? && !p.thresholdHit
    ensures Inv(After(p, e), AllAfter(p, e, all), batched)
  {
    if Step(p, e).Ok? {
      FundsKeep(p, e, all, batched);
      var q := CommitFunds(p, e.sender, e.usd, e.accepted, e.now).value.pool;
      MintsAside(q, After(p, e).mints, if q.thresholdHit then q.ledger else all, batched);
    }
  }

  /** Claims, retried notices and deposits touch the mint slots alone. */
  lemma MintCallsKeep(p: Pool, e: Event, all: seq<Commit>, batched: seq<MintMsg>)
    requires Inv(p, all, batched) && (e.ClaimCall? || e.RetryNotifyCall? || e.DepositCall?)
    ensures Inv(After(p, e), AllAfter(p, e, all), batched)
  {
    assert After(p, e) == p.(mints := After(p, e).mints);
    MintsAside(p, After(p, e).mints, all, batched);
  }

  /** The distribution `s` is in progress and the first `k` committers are served. */
  ghost predicate ReadyAt(p: Pool, s: State, all: seq<Commit>, k: nat, batched: seq<MintMsg>) {
    && p.thresholdHit && p.raised == p.target > 0 && p.distribution == Some(s)
    && Sorted(all) && AllPaid(all) && TotalUsd(all) == p.target
    && k < |all| && p.ledger == all[k..] && NothingHidden(p.ledger, s.cursor)
    && s.total == COMMIT_RETURN && s.committed == p.target
    && s.distributed == Sum(Shares(all[..k], COMMIT_RETURN, p.target))
    && Pays(batched, Shares(all[..k], COMMIT_RETURN, p.target))
  }

  lemma InvReady(p: Pool, all: seq<Commit>, batched: seq<MintMsg>)
    requires Inv(p, all, batched) && p.distribution.Some?
    ensures ReadyAt(p, p.distribution.value, all, |all| - |p.ledger|, batched)
  {
    DueWhileDraining(all, |all| - |p.ledger|, p.creator, p.target);
  }

  lemma ReadyInv(p: Pool, s: State, all: seq<Commit>, k: nat, batched: seq<MintMsg>)
    requires ReadyAt(p, s, all, k, batched)
    ensures Inv(p, all, batched)
  {
    DueWhileDraining(all, k, p.creator, p.target);
  }

  /** A restart forgets the cursor and nothing else the plan depends on. */
  lemma RestartReady(p: Pool, s: State, now: Timestamp, all: seq<Commit>, k: nat, batched: seq<MintMsg>)
    requires ReadyAt(p, s, all, k, batched)
    ensures Restarted(p, s, now).distribution.Some?
    ensures ReadyAt(Restarted(p, s, now), Restarted(p, s, now).distribution.value, all, k, batched)
  {
  }

  lemma RestartKeeps(p: Pool, e: Event, all: seq<Commit>, batched: seq<MintMsg>)
    requires Inv(p, all, batched) && (e.RecoverCall? || e.SelfRecoverCall?)
    ensures Inv(After(p, e), AllAfter(p, e, all), batched)
  {
    if Step(p, e).Ok? {
      var s, k := p.distribution.value, |all| - |p.ledger|;
      InvReady(p, all, batched);
      RestartReady(p, s, e.now, all, k, batched);
      var q := Restarted(p, s, e.now);
      ReadyInv(q, q.distribution.value, all, k, batched);
    }
  }

  /** The next batch is the ledger's first `n` entries, and nothing hides behind the cursor it
      leaves. */
  ghost predicate Leads(p: Pool, s: State, n: nat) {
    && 0 < n <= |p.ledger| && n == Min(EffectiveBatchSize(s), |p.ledger|)
    && Batch(p, s) == p.ledger[..n] && RemoveCommits(p.ledger, p.ledger[..n]) == p.ledger[n..]
    && Beyond(p.ledger[n..], Some(p.ledger[n - 1].payer)) == p.ledger[n..]
    && NothingHidden(p.ledger[n..], Some(p.ledger[n - 1].payer))
  }

  /** A batch takes the ledger's leading entries, whatever its size. */
  lemma BatchLeads(p: Pool, s: State)
    requires Sorted(p.ledger) && p.ledger != [] && NothingHidden(p.ledger, s.cursor)
    ensures Leads(p, s, |Batch(p, s)|)
  {
    BatchTaken(p, s);
    NothingLeftBehind(p.ledger, |Batch(p, s)|);
  }

  lemma BatchTaken(p: Pool, s: State)
    requires p.ledger != [] && NothingHidden(p.ledger, s.cursor)
    ensures 0 < |Batch(p, s)| == Min(EffectiveBatchSize(s), |p.ledger|)
    ensures Batch(p, s) == p.ledger[..|Batch(p, s)|]
  {
    BeyondAll(p.ledger, s.cursor);
    assert EffectiveBatchSize(s) >= 1;
  }

  lemma {:induction false} NothingLeftBehind(ledger: seq<Commit>, n: nat)
    requires Sorted(ledger) && 0 < n <= |ledger|
    ensures RemoveCommits(ledger, ledger[..n]) == ledger[n..]
    ensures NothingHidden(ledger[n..], Some(ledger[n - 1].payer))
    ensures Beyond(ledger[n..], Some(ledger[n - 1].payer)) == ledger[n..]
  {
    RemoveLeading(ledger, n);
    AfterCursor(ledger, n);
    BeyondAll(ledger[n..], Some(ledger[n - 1].payer));
  }

  /** A batch is empty only when nothing is left to take, so no call can find entries and take none. */
  lemma EmptyBatchEnds(p: Pool, s: State)
    ensures Batch(p, s) == [] <==> Beyond(p.ledger, s.cursor) == []
  {
    assert EffectiveBatchSize(s) >= 1;
  }

  lemma PaysMore(a: seq<MintMsg>, b: seq<MintMsg>, x: seq<Payment>, y: seq<Payment>)
    requires Pays(a, x) && Pays(b, y)
    ensures Pays(a + b, x + y)
  {
  }

  /** Before the end, only shares are due. */
  lemma {:induction false} DueWhileDraining(all: seq<Commit>, k: nat, creator: Addr, target: Uint128)
    requires k < |all|
    ensures Due(all, k, creator, target) == Shares(all[..k], COMMIT_RETURN, target)
  {
  }

  /** What a batch sends on top of the shares of those already served... */
  lemma {:induction false} BatchPays(m: Mints, done: seq<Commit>, batch: seq<Commit>, target: Uint128,
        batched: seq<MintMsg>)
    requires Pays(batched, Shares(done, COMMIT_RETURN, target)) && PayBatch(m, batch, COMMIT_RETURN, target).Ok?
    ensures Pays(batched + PayBatch(m, batch, COMMIT_RETURN, target).value.sent,
                 Shares(done + batch, COMMIT_RETURN, target))
  {
    SharesJoin(done, batch, COMMIT_RETURN, target);
    PayBatchExact(m, batch, COMMIT_RETURN, target);
    PaysMore(batched, PayBatch(m, batch, COMMIT_RETURN, target).value.sent,
             Shares(done, COMMIT_RETURN, target), Shares(batch, COMMIT_RETURN, target));
  }

  /** ... and what it comes to. */
  lemma {:induction false} BatchSums(m: Mints, done: seq<Commit>, batch: seq<Commit>, target: Uint128)
    requires PayBatch(m, batch, COMMIT_RETURN, target).Ok?
    ensures Sum(Shares(done, COMMIT_RETURN, target)) + PayBatch(m, batch, COMMIT_RETURN, target).value.amount
            == Sum(Shares(done + batch, COMMIT_RETURN, target))
  {
    SharesJoin(done, batch, COMMIT_RETURN, target);
    PayBatchExact(m, batch, COMMIT_RETURN, target);
  }

  lemma ContinueAdvances(p: Pool, s: State, now: Timestamp)
    requires p.distribution == Some(s) && Continue(p, now).Ok?
    ensures var paid := PayBatch(p.mints, Batch(p, s), s.total, s.committed);
      paid.Ok? && Continue(p, now) == Advance(p, s, Batch(p, s), paid.value, now)
  {
  }

  /** What a batch call makes of the pool, in terms of the ledger's leading entries. */
  lemma ContinueResult(p: Pool, s: State, now: Timestamp, n: nat)
    requires p.distribution == Some(s) && Leads(p, s, n) && Continue(p, now).Ok?
    ensures var paid := PayBatch(p.mints, p.ledger[..n], s.total, s.committed);
      && paid.Ok? && s.distributed + paid.value.amount <= U128_MAX
      && (n == |p.ledger| ==>
            Continue(p, now) == Settle(p.(ledger := [], distribution := None, mints := paid.value.mints),
                                       paid.value.sent, s.distributed + paid.value.amount, s.total))
      && (n < |p.ledger| ==>
            Continue(p, now) == Ok(Stepped(Moved(p, s, now, n, paid.value), 0, paid.value.sent)))
  {
    ContinueAdvances(p, s, now);
    assert n == |p.ledger| ==> p.ledger[n..] == [];
  }

  /** The pool after a batch of `n` that leaves entries. */
  ghost function Moved(p: Pool, s: State, now: Timestamp, n: nat, paid: Payout): Pool
    requires 0 < n <= |p.ledger| && s.distributed + paid.amount <= U128_MAX
  {
    p.(ledger := p.ledger[n..], mints := paid.mints,
       distribution := Some(s.(cursor := Some(p.ledger[n - 1].payer), distributed := s.distributed + paid.amount,
                               failures := 0, lastUpdated := now)))
  }

  lemma MovedReady(p: Pool, s: State, now: Timestamp, all: seq<Commit>, k: nat, batched: seq<MintMsg>, n: nat,
        paid: Payout)
    requires ReadyAt(p, s, all, k, batched) && 0 < n < |p.ledger|
    requires NothingHidden(p.ledger[n..], Some(p.ledger[n - 1].payer))
    requires s.distributed + paid.amount <= U128_MAX
    requires Pays(batched + paid.sent, Shares(all[..k + n], COMMIT_RETURN, p.target))
    requires s.distributed + paid.amount == Sum(Shares(all[..k + n], COMMIT_RETURN, p.target))
    ensures var moved := Moved(p, s, now, n, paid);
      ReadyAt(moved, moved.distribution.value, all, k + n, batched + paid.sent)
  {
    RestOfRest(all, k, n);
  }

  lemma MovedKeeps(p: Pool, s: State, now: Timestamp, all: seq<Commit>, k: nat, batched: seq<MintMsg>, n: nat,
        paid: Payout)
    requires ReadyAt(p, s, all, k, batched) && 0 < n < |p.ledger|
    requires NothingHidden(p.ledger[n..], Some(p.ledger[n - 1].payer))
    requires s.distributed + paid.amount <= U128_MAX
    requires Pays(batched + paid.sent, Shares(all[..k + n], COMMIT_RETURN, p.target))
    requires s.distributed + paid.amount == Sum(Shares(all[..k + n], COMMIT_RETURN, p.target))
    ensures Inv(Moved(p, s, now, n, paid), all, batched + paid.sent)
  {
    MovedReady(p, s, now, all, k, batched, n, paid);
    var moved := Moved(p, s, now, n, paid);
    ReadyInv(moved, moved.distribution.value, all, k + n, batched + paid.sent);
  }

  lemma RestOfRest(all: seq<Commit>, k: nat, n: nat)
    requires k + n <= |all|
    ensures all[k..][n..] == all[k + n..]
  {
  }

  lemma ServedPiece(all: seq<Commit>, k: nat, n: nat)
    requires k + n <= |all|
    ensures all[..k + n] == all[..k] + all[k..][..n]
  {
  }

  /** The next batch sends what completes the shares of its committers... */
  lemma {:induction false} NextPays(m: Mints, all: seq<Commit>, k: nat, n: nat, target: Uint128, batched: seq<MintMsg>)
    requires k + n <= |all| && Pays(batched, Shares(all[..k], COMMIT_RETURN, target))
    requires PayBatch(m, all[k..][..n], COMMIT_RETURN, target).Ok?
    ensures Pays(batched + PayBatch(m, all[k..][..n], COMMIT_RETURN, target).value.sent,
                 Shares(all[..k + n], COMMIT_RETURN, target))
  {
    ServedPiece(all, k, n);
    BatchPays(m, all[..k], all[k..][..n], target, batched);
  }

  /** ... and brings what was distributed to their sum. */
  lemma {:induction false} NextSums(m: Mints, all: seq<Commit>, k: nat, n: nat, target: Uint128)
    requires k + n <= |all| && PayBatch(m, all[k..][..n], COMMIT_RETURN, target).Ok?
    ensures Sum(Shares(all[..k], COMMIT_RETURN, target))
              + PayBatch(m, all[k..][..n], COMMIT_RETURN, target).value.amount
            == Sum(Shares(all[..k + n], COMMIT_RETURN, target))
  {
    ServedPiece(all, k, n);
    BatchSums(m, all[..k], all[k..][..n], target);
  }

  /** The same of the ledger's leading entries, while draining. */
  lemma {:induction false} NextServed(p: Pool, s: State, all: seq<Commit>, k: nat, batched: seq<MintMsg>, n: nat,
        served: seq<Commit>)
    requires ReadyAt(p, s, all, k, batched) && n <= |p.ledger| && served == all[..k + n]
    requires PayBatch(p.mints, p.ledger[..n], s.total, s.committed).Ok?
    ensures var paid := PayBatch(p.mints, p.ledger[..n], s.total, s.committed).value;
      && Pays(batched + paid.sent, Shares(served, COMMIT_RETURN, p.target))
      && s.distributed + paid.amount == Sum(Shares(served, COMMIT_RETURN, p.target))
  {
    NextPays(p.mints, all, k, n, p.target, batched);
    NextSums(p.mints, all, k, n, p.target);
  }

  /** A batch that leaves entries moves the cursor behind itself. */
  lemma PartialBatch(p: Pool, s: State, now: Timestamp, all: seq<Commit>, k: nat, batched: seq<MintMsg>, n: nat)
    requires ReadyAt(p, s, all, k, batched) && Leads(p, s, n) && n < |p.ledger| && Continue(p, now).Ok?
    ensures Inv(Continue(p, now).value.pool, all, batched + Continue(p, now).value.sent)
  {
    ContinueResult(p, s, now, n);
    NextServed(p, s, all, k, batched, n, all[..k + n]);
    MovedKeeps(p, s, now, all, k, batched, n, PayBatch(p.mints, p.ledger[..n], s.total, s.committed).value);
  }

  lemma {:induction false} FinalKeeps(p: Pool, all: seq<Commit>, batched: seq<MintMsg>, paid: Payout, distributed: nat)
    requires p.thresholdHit && p.raised == p.target > 0 && Sorted(all) && AllPaid(all) && TotalUsd(all) == p.target
    requires Pays(batched + paid.sent, Shares(all, COMMIT_RETURN, p.target))
    requires distributed == Sum(Shares(all, COMMIT_RETURN, p.target))
    ensures var done := p.(ledger := [], distribution := None, mints := paid.mints);
      var r := Settle(done, paid.sent, distributed, COMMIT_RETURN);
      r.Ok? ==> Inv(r.value.pool, all, batched + r.value.sent)
  {
    var done := p.(ledger := [], distribution := None, mints := paid.mints);
    var r := Settle(done, paid.sent, distributed, COMMIT_RETURN);
    if r.Ok? {
      SettlesDust(done, all, batched, paid.sent);
      Finished(done, all, batched + r.value.sent, r.value.pool.mints);
    }
  }

  lemma WholeLedger(all: seq<Commit>, k: nat, n: nat)
    requires k + n == |all|
    ensures all == all[..k + n]
  {
  }

  lemma LastServed(p: Pool, s: State, all: seq<Commit>, k: nat, batched: seq<MintMsg>, paid: Payout)
    requires ReadyAt(p, s, all, k, batched)
               && PayBatch(p.mints, p.ledger[..|p.ledger|], s.total, s.committed) == Ok(paid)
    ensures var done := p.(ledger := [], distribution := None, mints := paid.mints);
      var r := Settle(done, paid.sent, s.distributed + paid.amount, s.total);
      r.Ok? ==> Inv(r.value.pool, all, batched + r.value.sent)
  {
    WholeLedger(all, k, |p.ledger|);
    NextServed(p, s, all, k, batched, |p.ledger|, all);
    FinalKeeps(p, all, batched, paid, s.distributed + paid.amount);
  }

  /** The batch that empties the ledger ends the distribution and settles the dust. */
  lemma FinalBatch(p: Pool, s: State, now: Timestamp, all: seq<Commit>, k: nat, batched: seq<MintMsg>)
    requires ReadyAt(p, s, all, k, batched) && Leads(p, s, |p.ledger|) && Continue(p, now).Ok?
    ensures Inv(Continue(p, now).value.pool, all, batched + Continue(p, now).value.sent)
  {
    ContinueResult(p, s, now, |p.ledger|);
    LastServed(p, s, all, k, batched, PayBatch(p.mints, p.ledger[..|p.ledger|], s.total, s.committed).value);
  }

  lemma {:induction false} Finished(p: Pool, all: seq<Commit>, batched: seq<MintMsg>, m: Mints)
    requires p.thresholdHit && p.ledger == [] && p.distribution.None? && p.raised == p.target > 0
    requires Sorted(all) && AllPaid(all) && TotalUsd(all) == p.target
               && Pays(batched, Due(all, |all|, p.creator, p.target))
    ensures Inv(p.(mints := m), all, batched)
  {
  }

  lemma {:induction false} DueAtEnd(all: seq<Commit>, creator: Addr, target: Uint128)
    ensures Due(all, |all|, creator, target) == Shares(all, COMMIT_RETURN, target) + Dust(all, creator, target)
  {
    assert all[..|all|] == all;
  }

  /** Once every committer is served, settling leaves nothing due. */
  lemma {:induction false} SettlesDust(p: Pool, all: seq<Commit>, batched: seq<MintMsg>, sent: seq<MintMsg>)
    requires Pays(batched + sent, Shares(all, COMMIT_RETURN, p.target))
    requires Settle(p, sent, Sum(Shares(all, COMMIT_RETURN, p.target)), COMMIT_RETURN).Ok?
    ensures var r := Settle(p, sent, Sum(Shares(all, COMMIT_RETURN, p.target)), COMMIT_RETURN).value;
      r.pool == p.(mints := r.pool.mints) && Pays(batched + r.sent, Due(all, |all|, p.creator, p.target))
  {
    DueAtEnd(all, p.creator, p.target);
    var shares := Shares(all, COMMIT_RETURN, p.target);
    if 0 < Sum(shares) < COMMIT_RETURN {
      DustPaid(p, batched, sent, shares);
    } else {
      assert shares + [] == shares;
    }
  }

  lemma {:induction false} DustPaid(p: Pool, batched: seq<MintMsg>, sent: seq<MintMsg>, shares: seq<Payment>)
    requires Pays(batched + sent, shares) && 0 < Sum(shares) < COMMIT_RETURN
    requires Settle(p, sent, Sum(shares), COMMIT_RETURN).Ok?
    ensures var r := Settle(p, sent, Sum(shares), COMMIT_RETURN).value;
      r.pool == p.(mints := r.pool.mints)
      && Pays(batched + r.sent, shares + [Payment(p.creator, COMMIT_RETURN - Sum(shares))])
  {
    var rest := COMMIT_RETURN - Sum(shares);
    var msg := Dispatch(p.mints, p.creator, p.creator, rest).value.1;
    OneMorePaid(batched + sent, shares, msg, Payment(p.creator, rest));
    assert batched + (sent + [msg]) == batched + sent + [msg];
  }

  lemma BatchKeeps(p: Pool, now: Timestamp, all: seq<Commit>, batched: seq<MintMsg>)
    requires Inv(p, all, batched) && p.distribution.Some? && Continue(p, now).Ok?
    ensures Inv(Continue(p, now).value.pool, all, batched + Continue(p, now).value.sent)
  {
    var s, k := p.distribution.value, |all| - |p.ledger|;
    InvReady(p, all, batched);
    BatchLeads(p, s);
    var n := |Batch(p, s)|;
    if n < |p.ledger| {
      PartialBatch(p, s, now, all, k, batched, n);
    } else {
      FinalBatch(p, s, now, all, k, batched);
    }
  }

  lemma ContinueKeeps(p: Pool, e: Event, all: seq<Commit>, batched: seq<MintMsg>)
    requires Inv(p, all, batched) && e.ContinueCall?
    ensures Inv(After(p, e), AllAfter(p, e, all), BatchedAfter(p, e, batched))
  {
    if Step(p, e).Ok? {
      BatchKeeps(p, e.now, all, batched);
      var r := Continue(p, e.now).value;
      MintsAside(r.pool, After(p, e).mints, all, batched + r.sent);
      assert AllAfter(p, e, all) == all;
    } else {
      assert BatchedAfter(p, e, batched) == batched;
    }
  }

  lemma StepKeeps(p: Pool, e: Event, all: seq<Commit>, batched: seq<MintMsg>)
    requires Inv(p, all, batched)
    ensures Inv(After(p, e), AllAfter(p, e, all), BatchedAfter(p, e, batched))
  {
    assert !e.ContinueCall? ==> BatchedAfter(p, e, batched) == batched;
    match e
    case CommitCall(_, _, _, _, _) =>
      if !p.thresholdHit {
        CommitKeeps(p, e, all, batched);
      }
    case ContinueCall(_, _) => ContinueKeeps(p, e, all, batched);
    case RecoverCall(_) => RestartKeeps(p, e, all, batched);
    case SelfRecoverCall(_) => RestartKeeps(p, e, all, batched);
    case _ => MintCallsKeep(p, e, all, batched);
  }

  lemma StepKeepsTerms(p: Pool, e: Event)
    ensures After(p, e).creator == p.creator && After(p, e).target == p.target
  {
  }

  lemma {:induction false} RunKeepsTerms(p: Pool, es: seq<Event>)
    ensures Run(p, es).creator == p.creator && Run(p, es).target == p.target
  {
    if es != [] {
      RunKeepsTerms(p, es[..|es| - 1]);
      StepKeepsTerms(Run(p, es[..|es| - 1]), es[|es| - 1]);
    }
  }

  lemma {:induction false} RunKeeps(creator: Addr, target: Uint128, es: seq<Event>)
    requires target > 0
    ensures var p := Instantiated(creator, target); Inv(Run(p, es), Committers(p, es), Batched(p, es))
  {
    var p := Instantiated(creator, target);
    if es != [] {
      var before, e := es[..|es| - 1], es[|es| - 1];
      RunKeeps(creator, target, before);
      StepKeeps(Run(p, before), e, Committers(p, before), Batched(p, before));
      assert Committers(p, es) == AllAfter(Run(p, before), e, Committers(p, before));
      assert Batched(p, es) == BatchedAfter(Run(p, before), e, Batched(p, before));
    }
  }

  // ----- What the committers get -----

  /** The USD value raised, from the calls alone: every commit that is accepted counts, up to the
      target. */
  ghost function Raised(target: Uint128, es: seq<Event>): (raised: nat)
    ensures raised <= target
  {
    if es == [] then 0 else RaisedAfter(target, Raised(target, es[..|es| - 1]), es[|es| - 1])
  }

  ghost function RaisedAfter(target: Uint128, raised: nat, e: Event): nat {
    if e.CommitCall? && e.accepted && raised + e.usd <= U128_MAX then Min(raised + e.usd, target) else raised
  }

  /** What a user has staked: what their commits raised. */
  ghost function Staked(target: Uint128, es: seq<Event>, user: Addr): nat {
    if es == [] then 0
    else
      var before, e := es[..|es| - 1], es[|es| - 1];
      Staked(target, before, user)
      + if e.CommitCall? && e.sender == user then Raised(target, es) - Raised(target, before) else 0
  }

  lemma CommitRaises(p: Pool, e: Event, all: seq<Commit>, batched: seq<MintMsg>)
    requires Inv(p, all, batched) && e.CommitCall?
    ensures Step(p, e).Ok? <==> e.accepted && e.usd > 0 && (p.thresholdHit || p.raised + e.usd <= U128_MAX)
    ensures After(p, e).raised == (if p.thresholdHit then p.raised else RaisedAfter(p.target, p.raised, e))
    ensures After(p, e).thresholdHit <==> After(p, e).raised == p.target
  {
    if !p.thresholdHit && p.raised + e.usd <= U128_MAX {
      CreditFits(p.ledger, e.sender, e.usd);
      CreditFits(p.ledger, e.sender, p.target - p.raised);
    }
  }

  /** No other call raises anything. */
  lemma OthersRaiseNothing(p: Pool, e: Event)
    requires !e.CommitCall?
    ensures After(p, e).raised == p.raised && After(p, e).thresholdHit == p.thresholdHit
  {
  }

  lemma {:induction false} RaisedIs(creator: Addr, target: Uint128, es: seq<Event>)
    requires target > 0
    ensures var q := Run(Instantiated(creator, target), es);
      q.raised == Raised(target, es) && (q.thresholdHit <==> q.raised == target)
  {
    var p := Instantiated(creator, target);
    if es != [] {
      var before, e := es[..|es| - 1], es[|es| - 1];
      RaisedIs(creator, target, before);
      RunKeeps(creator, target, before);
      RunKeepsTerms(p, before);
      if e.CommitCall? {
        CommitRaises(Run(p, before), e, Committers(p, before), Batched(p, before));
      } else {
        OthersRaiseNothing(Run(p, before), e);
      }
    }
  }

  /** In every run the pool has raised what the calls make of it, the threshold is hit once that is the
      target, and a commit goes through exactly when it is accepted, worth something and, before the
      threshold, within 128 bits. */
  lemma {:induction false} FundingExact(creator: Addr, target: Uint128, es: seq<Event>, e: Event)
    requires target > 0 && e.CommitCall?
    ensures var q, raised := Run(Instantiated(creator, target), es), Raised(target, es);
      && q.raised == raised && (q.thresholdHit <==> raised == target)
      && (Step(q, e).Ok? <==> e.accepted && e.usd > 0 && (raised == target || raised + e.usd <= U128_MAX))
  {
    var p := Instantiated(creator, target);
    RaisedIs(creator, target, es);
    RunKeeps(creator, target, es);
    CommitRaises(Run(p, es), e, Committers(p, es), Batched(p, es));
  }

  /** Whether the factory still has to be told of the crossing, from the calls alone: its notice failed and
      no retry was delivered since. */
  ghost function NoticeDue(target: Uint128, es: seq<Event>): bool {
    if es == [] then false
    else
      var before, e := es[..|es| - 1], es[|es| - 1];
      if e.CommitCall? && Raised(target, before) < target == Raised(target, es) then !e.notified
      else NoticeDue(target, before) && !(e.RetryNotifyCall? && e.delivered)
  }

  lemma CommitNotices(p: Pool, e: Event)
    requires e.CommitCall?
    ensures After(p, e).mints.notifyPending
            == ((!p.thresholdHit && After(p, e).thresholdHit && !e.notified) || p.mints.notifyPending)
  {
  }

  /** Batches and claims send no notice. */
  lemma MintsKeepNotice(p: Pool, e: Event)
    requires Quiet(p.mints) && SendsMints(e)
    ensures After(p, e).mints.notifyPending == p.mints.notifyPending
  {
    if Step(p, e).Ok? {
      HandledAwaits(p, e);
      var handled := Handled(p, e).value;
      assert handled.sent[..|handled.sent|] == handled.sent;
      RepliesSettle(handled.pool.mints, p.mints.counter, handled.sent, e.outcomes, |handled.sent|, "");
    }
  }

  lemma OthersKeepNotice(p: Pool, e: Event)
    requires !e.CommitCall? && !SendsMints(e)
    ensures After(p, e).mints.notifyPending == (p.mints.notifyPending && !(e.RetryNotifyCall? && e.delivered))
    ensures e.RetryNotifyCall? ==> (Step(p, e).Ok? <==> p.mints.notifyPending)
    ensures e.DepositCall? ==> (Step(p, e).Ok? <==> e.transferred && e.balanced)
    ensures e.DepositCall? && !p.mints.depositContext ==> After(p, e) == p
  {
  }

  lemma {:induction false} NoticeIs(creator: Addr, target: Uint128, es: seq<Event>)
    requires target > 0
    ensures Run(Instantiated(creator, target), es).mints.notifyPending == NoticeDue(target, es)
  {
    var p := Instantiated(creator, target);
    if es != [] {
      var before, e := es[..|es| - 1], es[|es| - 1];
      NoticeIs(creator, target, before);
      RaisedIs(creator, target, before);
      RaisedIs(creator, target, es);
      if e.CommitCall? {
        CommitNotices(Run(p, before), e);
        if Raised(target, before) < target {
          NoNoticeYet(target, before);
        }
      } else if SendsMints(e) {
        IdsNeverReused(p, before);
        MintsKeepNotice(Run(p, before), e);
      } else {
        OthersKeepNotice(Run(p, before), e);
      }
    }
  }

  lemma {:induction false} NoNoticeYet(target: Uint128, es: seq<Event>)
    requires Raised(target, es) < target
    ensures !NoticeDue(target, es)
  {
    if es != [] {
      NoNoticeYet(target, es[..|es| - 1]);
    }
  }

  /** In every run the notice to the factory can be retried exactly while it is due. A deposit goes through
      exactly when it is transferred and its balances agree, and leaves nothing behind. */
  lemma {:induction false} NoticeExact(creator: Addr, target: Uint128, es: seq<Event>, e: Event)
    requires target > 0
    ensures var q := Run(Instantiated(creator, target), es);
      && q.mints.notifyPending == NoticeDue(target, es)
      && (e.RetryNotifyCall? ==> (Step(q, e).Ok? <==> NoticeDue(target, es)))
      && (e.DepositCall? ==> (Step(q, e).Ok? <==> e.transferred && e.balanced) && After(q, e) == q)
  {
    NoticeIs(creator, target, es);
    IdsNeverReused(Instantiated(creator, target), es);
    if e.RetryNotifyCall? || e.DepositCall? {
      OthersKeepNotice(Run(Instantiated(creator, target), es), e);
    }
  }

  /** What a call adds to a committer's stake. */
  ghost function StakedBy(p: Pool, e: Event, user: Addr): int {
    if e.CommitCall? && e.sender == user then After(p, e).raised - p.raised else 0
  }

  lemma {:induction false} StakeCredited(p: Pool, e: Event, all: seq<Commit>, batched: seq<MintMsg>, user: Addr)
    requires Inv(p, all, batched) && !p.thresholdHit
    ensures Committed(After(p, e).ledger, user) == Committed(p.ledger, user) + StakedBy(p, e, user)
  {
    if e.CommitCall? && Step(p, e).Ok? {
      SplitOnlyOnOvershoot(p.raised, e.usd, p.target);
      CreditAdds(p.ledger, e.sender, Min(e.usd, p.target - p.raised), user);
    }
  }

  lemma PostThresholdStakes(p: Pool, e: Event, user: Addr)
    requires p.thresholdHit
    ensures StakedBy(p, e, user) == 0
  {
  }

  /** The ledger that holds everybody's stake. */
  ghost function Recorded(p: Pool, all: seq<Commit>): seq<Commit> {
    if p.thresholdHit then all else p.ledger
  }

  lemma {:induction false} StepRecords(p: Pool, e: Event, all: seq<Commit>, batched: seq<MintMsg>, user: Addr)
    requires Inv(p, all, batched)
    ensures Committed(Recorded(After(p, e), AllAfter(p, e, all)), user)
            == Committed(Recorded(p, all), user) + StakedBy(p, e, user)
  {
    if p.thresholdHit {
      StepCrosses(p, e);
      PostThresholdStakes(p, e, user);
    } else {
      StakeCredited(p, e, all, batched, user);
    }
  }

  /** The committers a distribution serves are those who committed, each with what they staked. */
  lemma {:induction false} StakesRecorded(creator: Addr, target: Uint128, es: seq<Event>, user: Addr)
    requires target > 0
    ensures var p := Instantiated(creator, target);
      Committed(Recorded(Run(p, es), Committers(p, es)), user) == Staked(target, es, user)
  {
    var p := Instantiated(creator, target);
    if es != [] {
      var before, e := es[..|es| - 1], es[|es| - 1];
      RunKeeps(creator, target, before);
      StakesRecorded(creator, target, before, user);
      StepRecords(Run(p, before), e, Committers(p, before), Batched(p, before), user);
      RaisedIs(creator, target, before);
      RaisedIs(creator, target, es);
      assert Committers(p, es) == AllAfter(Run(p, before), e, Committers(p, before));
    }
  }

  ghost predicate Waiting(p: Pool, user: Addr) {
    exists i :: 0 <= i < |p.ledger| && p.ledger[i].payer == user
  }

  /** Entries behind the ledger's front are exactly those of users no longer waiting. */
  lemma {:induction false} ServedOrWaiting(all: seq<Commit>, k: nat, user: Addr)
    requires Sorted(all) && k <= |all|
    ensures if exists i :: k <= i < |all| && all[i].payer == user then Committed(all[..k], user) == 0
            else Committed(all[..k], user) == Committed(all, user)
  {
    if i :| k <= i < |all| && all[i].payer == user {
      NobodyBefore(all[..k], user);
    } else {
      NoneAmongRest(all, k, user);
    }
  }

  lemma {:induction false} NoneAmongRest(all: seq<Commit>, k: nat, user: Addr)
    requires k <= |all| && forall i :: k <= i < |all| ==> all[i].payer != user
    ensures Committed(all[..k], user) == Committed(all, user)
  {
    if all == [] {
      assert all[..k] == all;
    } else if k == 0 {
      NobodyBefore(all, user);
    } else {
      NoneAmongRest(all[1..], k - 1, user);
      assert all[..k][1..] == all[1..][..k - 1];
    }
  }

  /** In every run, once the threshold is hit, batches have sent a committer nothing while their
      entry waits, and from then on exactly the floor of their stake's share of the payout, however
      the distribution was cut into batches or restarted; nobody else gets anything, except that
      the creator gets the dust when the last committer is served. */
  lemma {:induction false} EachPaidExactly(creator: Addr, target: Uint128, es: seq<Event>, user: Addr)
    requires target > 0
    ensures var p := Instantiated(creator, target);
      var q, stake := Run(p, es), Staked(target, es, user);
      && (!q.thresholdHit ==> Batched(p, es) == [])
      && (forall i :: 0 <= i < |Batched(p, es)| ==> Batched(p, es)[i].recipient == Batched(p, es)[i].user)
      && (q.thresholdHit ==>
            && stake <= U128_MAX
            && SumFor(Batched(p, es), user)
               == (if Waiting(q, user) then 0 else stake * 500_000_000_000 / target)
                  + (if user == creator && q.ledger == [] then Sum(Dust(Committers(p, es), creator, target)) else 0))
  {
    var p := Instantiated(creator, target);
    RunKeeps(creator, target, es);
    RunKeepsTerms(p, es);
    if Run(p, es).thresholdHit {
      StakesRecorded(creator, target, es, user);
      DrainedPays(Run(p, es), Committers(p, es), Batched(p, es), user);
    }
  }

  /** Together with the ledger of isolated mints: what a user is due at any moment of any run has
      been minted for them or can be claimed, and nothing beyond it ever was or will be. */
  lemma {:induction false} EveryAccountBalances(creator: Addr, target: Uint128, es: seq<Event>, user: Addr)
    requires target > 0 && Run(Instantiated(creator, target), es).thresholdHit
    ensures Staked(target, es, user) <= U128_MAX
    ensures var p := Instantiated(creator, target);
      var q := Run(p, es);
      MintedFor(p, es, user) + Failed(q.mints, user)
      == (if Waiting(q, user) then 0 else Staked(target, es, user) * 500_000_000_000 / target)
         + (if user == creator && q.ledger == [] then Sum(Dust(Committers(p, es), creator, target)) else 0)
  {
    EachPaidExactly(creator, target, es, user);
    MintsConserved(Instantiated(creator, target), es, user);
  }

  lemma {:induction false} DrainedPays(q: Pool, all: seq<Commit>, batched: seq<MintMsg>, user: Addr)
    requires q.target > 0 && Draining(q, all, batched)
    ensures Committed(all, user) <= U128_MAX
    ensures SumFor(batched, user)
            == (if Waiting(q, user) then 0 else Reward(Committed(all, user), COMMIT_RETURN, q.target))
               + (if user == q.creator && q.ledger == [] then Sum(Dust(all, q.creator, q.target)) else 0)
  {
    var k := |all| - |q.ledger|;
    PaysSum(batched, Due(all, k, q.creator, q.target), user);
    DuePays(all, k, q.creator, q.target, user);
    ServedOrWaiting(all, k, user);
    SuffixWaits(all, k, q, user);
    NothingForNothing(COMMIT_RETURN, q.target);
    ShareOf(all, COMMIT_RETURN, q.target, user);
  }

  lemma SuffixWaits(all: seq<Commit>, k: nat, q: Pool, user: Addr)
    requires k <= |all| && q.ledger == all[k..]
    ensures Waiting(q, user) <==> exists i :: k <= i < |all| && all[i].payer == user
  {
    if Waiting(q, user) {
      var i :| 0 <= i < |q.ledger| && q.ledger[i].payer == user;
      assert all[k + i].payer == user;
    }
    if i :| k <= i < |all| && all[i].payer == user {
      assert q.ledger[i - k].payer == user;
    }
  }

  lemma {:induction false} DuePays(all: seq<Commit>, k: nat, creator: Addr, target: Uint128, user: Addr)
    requires Sorted(all) && k <= |all|
    ensures Committed(all[..k], user) <= U128_MAX
    ensures SumTo(Due(all, k, creator, target), user)
            == Reward(Committed(all[..k], user), COMMIT_RETURN, target)
               + if user == creator && k == |all| then Sum(Dust(all, creator, target)) else 0
  {
    ShareOf(all[..k], COMMIT_RETURN, target, user);
    var dust := Dust(all, creator, target);
    var rest := if k == |all| then dust else [];
    SumConcat(Shares(all[..k], COMMIT_RETURN, target), rest, user);
    if rest != [] {
      assert rest[..0] == [];
    }
  }

  // ----- The whole supply -----

  /** What a run has minted at once, at crossings. */
  ghost function MintedAtOnce(p: Pool, es: seq<Event>): nat {
    if es == [] then 0
    else
      MintedAtOnce(p, es[..|es| - 1])
      + match Step(Run(p, es[..|es| - 1]), es[|es| - 1])
        case Ok(s) => s.minted
        case Err(_) => 0
  }

  ghost function SumOf(msgs: seq<MintMsg>): nat {
    if msgs == [] then 0 else SumOf(msgs[..|msgs| - 1]) + msgs[|msgs| - 1].amount
  }

  lemma {:induction false} PaysTotal(msgs: seq<MintMsg>, payments: seq<Payment>)
    requires Pays(msgs, payments)
    ensures SumOf(msgs) == Sum(payments)
  {
    if msgs != [] {
      PaysTotal(msgs[..|msgs| - 1], payments[..|payments| - 1]);
    }
  }

  /** A pool crosses its threshold at most once. */
  lemma {:induction false} CrossesOnce(p: Pool, es: seq<Event>)
    requires !p.thresholdHit
    ensures MintedAtOnce(p, es) == if Run(p, es).thresholdHit then CROSSING_MINTS else 0
  {
    if es != [] {
      CrossesOnce(p, es[..|es| - 1]);
      StepCrosses(Run(p, es[..|es| - 1]), es[|es| - 1]);
    }
  }

  lemma StepCrosses(p: Pool, e: Event)
    ensures p.thresholdHit ==> After(p, e).thresholdHit
    ensures (match Step(p, e) case Ok(s) => s.minted case Err(_) => 0)
            == if !p.thresholdHit && After(p, e).thresholdHit then CROSSING_MINTS else 0
  {
  }

  /** In every run the batches never send more than the committers' payout, and a pool whose ledger is
      drained has sent all of it, unless every committer's share rounds to nothing: then it has sent
      none. The latter takes more committers than the payout has units, so with up to that many a
      finished pool has issued exactly its fixed supply of 1.2 million million units. */
  lemma {:induction false} SupplyExact(creator: Addr, target: Uint128, es: seq<Event>)
    requires target > 0
    ensures var p := Instantiated(creator, target);
      var q, all := Run(p, es), Committers(p, es);
      var finished := q.thresholdHit && q.ledger == [];
      && SumOf(Batched(p, es)) <= COMMIT_RETURN
      && (finished ==> SumOf(Batched(p, es)) == if NoShares(all, COMMIT_RETURN, target) then 0 else COMMIT_RETURN)
      && (finished && NoShares(all, COMMIT_RETURN, target) ==> |all| > COMMIT_RETURN)
      && (finished && |all| <= COMMIT_RETURN ==> MintedAtOnce(p, es) + SumOf(Batched(p, es)) == 1_200_000_000_000)
  {
    var p := Instantiated(creator, target);
    RunKeeps(creator, target, es);
    RunKeepsTerms(p, es);
    CrossesOnce(p, es);
    var q := Run(p, es);
    if q.thresholdHit {
      var all := Committers(p, es);
      var k := |all| - |q.ledger|;
      PaysTotal(Batched(p, es), Due(all, k, creator, target));
      DueTotals(all, k, creator, target);
      SharesNone(all, COMMIT_RETURN, target);
      if NoShares(all, COMMIT_RETURN, target) {
        NothingTakesMany(all, COMMIT_RETURN, target);
      }
    }
  }

  lemma {:induction false} DueTotals(all: seq<Commit>, k: nat, creator: Addr, target: Uint128)
    requires TotalUsd(all) == target > 0 && k <= |all|
    ensures Sum(Due(all, k, creator, target)) <= COMMIT_RETURN
    ensures k == |all| ==>
              if Sum(Shares(all, COMMIT_RETURN, target)) == 0 then Sum(Due(all, k, creator, target)) == 0
              else Sum(Due(all, k, creator, target)) == COMMIT_RETURN
  {
    SharesFit(all, k, COMMIT_RETURN, target);
    var rest := if k == |all| then Dust(all, creator, target) else [];
    SumConcat(Shares(all[..k], COMMIT_RETURN, target), rest, "");
    assert all[..|all|] == all;
    if rest != [] {
      assert rest[..0] == [];
    }
  }

  // ----- Progress -----

  lemma {:induction false} PayBatchSucceeds(m: Mints, batch: seq<Commit>, target: Uint128)
    requires 0 < target && TotalUsd(batch) <= target && m.counter + |batch| <= U64_MAX - REPLY_ID_MINT_BASE
    ensures PayBatch(m, batch, COMMIT_RETURN, target).Ok?
    ensures PayBatch(m, batch, COMMIT_RETURN, target).value.mints.counter <= m.counter + |batch|
  {
    if batch != [] {
      var front, last := batch[..|batch| - 1], batch[|batch| - 1];
      PayBatchSucceeds(m, front, target);
      ShareFits(last.usd, COMMIT_RETURN, target);
      PayBatchExact(m, front, COMMIT_RETURN, target);
      SharesWithin(front, COMMIT_RETURN, target);
      MulMono(TotalUsd(front), target, COMMIT_RETURN);
      Cancel(Sum(Shares(front, COMMIT_RETURN, target)), COMMIT_RETURN, target);
    }
  }

  lemma {:induction false} NextSucceeds(m: Mints, all: seq<Commit>, k: nat, n: nat, target: Uint128)
    requires 0 < target == TotalUsd(all) && k + n <= |all| && m.counter + n <= U64_MAX - REPLY_ID_MINT_BASE
    ensures PayBatch(m, all[k..][..n], COMMIT_RETURN, target).Ok?
    ensures PayBatch(m, all[k..][..n], COMMIT_RETURN, target).value.mints.counter <= m.counter + n
  {
    PieceWithin(all, k, n);
    PayBatchSucceeds(m, all[k..][..n], target);
  }

  lemma NextBatchPays(p: Pool, s: State, all: seq<Commit>, k: nat, batched: seq<MintMsg>, n: nat)
    requires ReadyAt(p, s, all, k, batched) && n <= |p.ledger| && n <= MAX_PER_TX && p.mints.counter <= MINT_IDS
    ensures var paid := PayBatch(p.mints, p.ledger[..n], s.total, s.committed);
      && paid.Ok? && s.distributed + paid.value.amount <= COMMIT_RETURN
      && paid.value.mints.counter <= MINT_IDS + MAX_PER_TX
  {
    NextSucceeds(p.mints, all, k, n, p.target);
    NextServed(p, s, all, k, batched, n, all[..k + n]);
    ServedFits(all, k + n, p.target);
  }

  lemma {:induction false} ServedFits(all: seq<Commit>, k: nat, target: Uint128)
    requires k <= |all| && TotalUsd(all) == target > 0
    ensures Sum(Shares(all[..k], COMMIT_RETURN, target)) <= COMMIT_RETURN
  {
    SharesFit(all, k, COMMIT_RETURN, target);
  }

  lemma {:induction false} PieceWithin(all: seq<Commit>, k: nat, n: nat)
    requires k + n <= |all|
    ensures TotalUsd(all[k..][..n]) <= TotalUsd(all)
  {
    ServedPiece(all, k, n);
    assert all == all[..k + n] + all[k + n..];
    TotalConcat(all[..k + n], all[k + n..]);
    TotalConcat(all[..k], all[k..][..n]);
  }

  lemma PaidBatchContinues(p: Pool, s: State, now: Timestamp, n: nat)
    requires p.distribution == Some(s) && Leads(p, s, n)
    requires SatSub(Seconds(now), Seconds(s.lastUpdated)) <= STALL_TIMEOUT_SECONDS
    requires var paid := PayBatch(p.mints, p.ledger[..n], s.total, s.committed);
      && paid.Ok? && s.distributed + paid.value.amount <= U128_MAX
      && paid.value.mints.counter + 1 <= U64_MAX - REPLY_ID_MINT_BASE
    ensures Continue(p, now).Ok?
  {
  }

  /** A batch's own handler goes through exactly when it comes in time, and then takes the leading
      entries of the ledger. */
  lemma HandlerExact(p: Pool, s: State, all: seq<Commit>, k: nat, batched: seq<MintMsg>, now: Timestamp)
    requires ReadyAt(p, s, all, k, batched) && p.mints.counter <= MINT_IDS
    ensures Continue(p, now).Ok? <==> SatSub(Seconds(now), Seconds(s.lastUpdated)) <= STALL_TIMEOUT_SECONDS
    ensures Continue(p, now).Ok? ==>
              var n := Min(EffectiveBatchSize(s), |p.ledger|);
              var q := Continue(p, now).value.pool;
              && q.ledger == p.ledger[n..]
              && (if n == |p.ledger| then q.distribution.None?
                  else && q.distribution.Some? && q.distribution.value.lastUpdated == now
                       && EffectiveBatchSize(q.distribution.value) == EffectiveBatchSize(s))
  {
    if SatSub(Seconds(now), Seconds(s.lastUpdated)) <= STALL_TIMEOUT_SECONDS {
      BatchLeads(p, s);
      var n := |Batch(p, s)|;
      NextBatchPays(p, s, all, k, batched, n);
      PaidBatchContinues(p, s, now, n);
      ContinueResult(p, s, now, n);
    }
  }

  /** In no reachable state can a failed mint overflow the failed amounts. */
  lemma {:induction false} NoFailureOverflows(creator: Addr, target: Uint128, es: seq<Event>, e: Event)
    requires target > 0
    ensures var q := Run(Instantiated(creator, target), es);
      SendsMints(e) && Handled(q, e).Ok? ==> OwedFits(Handled(q, e).value.pool.mints)
  {
    var p := Instantiated(creator, target);
    var q := Run(p, es);
    IdsNeverReused(p, es);
    if SendsMints(e) && Handled(q, e).Ok? {
      forall u
        ensures Owed(Handled(q, e).value.pool.mints, u) <= U128_MAX
      {
        HandledOwes(q, e, u);
        FailedWithin(creator, target, es, e, u);
      }
    }
  }

  /** What failed for a user, and what a batch would send on top, are part of the payout. */
  lemma {:induction false} FailedWithin(creator: Addr, target: Uint128, es: seq<Event>, e: Event, u: Addr)
    requires target > 0 && SendsMints(e) && Handled(Run(Instantiated(creator, target), es), e).Ok?
    ensures var q := Run(Instantiated(creator, target), es);
      Failed(q.mints, u) + (if e.ContinueCall? then SumFor(Handled(q, e).value.sent, u) else 0) <= COMMIT_RETURN
  {
    var p := Instantiated(creator, target);
    var q, all, batched := Run(p, es), Committers(p, es), Batched(p, es);
    RunKeeps(creator, target, es);
    MintsConserved(p, es, u);
    if e.ContinueCall? {
      BatchKeeps(q, e.now, all, batched);
      var r := Continue(q, e.now).value;
      PaidWithin(r.pool, all, batched + r.sent, u);
      SumForConcat(batched, r.sent, u);
    } else {
      PaidWithin(q, all, batched, u);
    }
  }

  lemma {:induction false} PaidWithin(p: Pool, all: seq<Commit>, batched: seq<MintMsg>, u: Addr)
    requires Inv(p, all, batched)
    ensures SumFor(batched, u) <= SumOf(batched) <= COMMIT_RETURN
  {
    PartOfSum(batched, u);
    if p.thresholdHit {
      PaysTotal(batched, Due(all, |all| - |p.ledger|, p.creator, p.target));
      DueTotals(all, |all| - |p.ledger|, p.creator, p.target);
    }
  }

  lemma {:induction false} PartOfSum(msgs: seq<MintMsg>, u: Addr)
    ensures SumFor(msgs, u) <= SumOf(msgs)
  {
    if msgs != [] {
      PartOfSum(msgs[..|msgs| - 1], u);
    }
  }

  /** In every run a batch or a claim whose handler goes through is kept, together with its mints and
      their replies, exactly when their ids all lie below that of the deposit verification, a
      condition on the stored counter; otherwise it is undone, whatever became of its mints. */
  lemma {:induction false} CommittedExactly(creator: Addr, target: Uint128, es: seq<Event>, e: Event)
    requires target > 0 && SendsMints(e)
    ensures var q := Run(Instantiated(creator, target), es);
      Step(q, e).Ok? <==> Handled(q, e).Ok? && q.mints.counter + |Handled(q, e).value.sent| <= MINT_IDS
  {
    IdsNeverReused(Instantiated(creator, target), es);
    NoFailureOverflows(creator, target, es, e);
    KeptExactly(Run(Instantiated(creator, target), es), e);
  }

  lemma ClaimHandled(q: Pool, e: Event)
    requires e.ClaimCall? && q.mints.counter <= MINT_IDS
    ensures Handled(q, e).Ok? <==> Failed(q.mints, e.sender) > 0 && e.recipientValid
    ensures Handled(q, e).Ok? ==>
              Handled(q, e).value.sent
              == [MintMsg(REPLY_ID_MINT_BASE + q.mints.counter, if e.recipient.Some? then e.recipient.value
                  else e.sender,
                          e.sender, Failed(q.mints, e.sender))]
  {
  }

  lemma RepliesKeepSent(q: Pool, e: Event)
    requires SendsMints(e) && Step(q, e).Ok?
    ensures Handled(q, e).Ok? && Step(q, e).value.sent == Handled(q, e).value.sent
  {
  }

  /** A claim is kept exactly when the sender has a failed amount, the recipient is valid and an id is
      left; it mints the whole failed amount to the recipient named, or to the sender. */
  lemma {:induction false} ClaimsExactly(creator: Addr, target: Uint128, es: seq<Event>, e: Event)
    requires target > 0 && e.ClaimCall?
    ensures var q := Run(Instantiated(creator, target), es);
      && (Step(q, e).Ok? <==> Failed(q.mints, e.sender) > 0 && e.recipientValid && q.mints.counter < MINT_IDS)
      && (Step(q, e).Ok? ==>
            Step(q, e).value.sent
            == [MintMsg(REPLY_ID_MINT_BASE + q.mints.counter, if e.recipient.Some? then e.recipient.value else e.sender,
                        e.sender, Failed(q.mints, e.sender))])
  {
    var q := Run(Instantiated(creator, target), es);
    IdsNeverReused(Instantiated(creator, target), es);
    CommittedExactly(creator, target, es, e);
    ClaimHandled(q, e);
    if Step(q, e).Ok? {
      RepliesKeepSent(q, e);
    }
  }

  /** In every run a distribution in progress takes 40 committers a batch: the gas it may use is 40 times
      what a mint is allowed, and 40 is the most it takes. */
  lemma {:induction false} FortyPerBatch(p: Pool, es: seq<Event>)
    requires p.distribution.None?
    ensures var d := Run(p, es).distribution;
      d.Some? ==> d.value.gasPerMint == 50_000 && d.value.maxGas == 2_000_000 && EffectiveBatchSize(d.value) == 40
  {
    if es != [] {
      FortyPerBatch(p, es[..|es| - 1]);
      BatchSizeKept(Run(p, es[..|es| - 1]), es[|es| - 1]);
    }
  }

  /** Whatever a call does to a distribution, its gas settings stay, or are the initial ones. */
  ghost predicate SizeKept(d: Option<State>, d': Option<State>) {
    d'.Some? ==>
      || (d.Some? && d'.value.gasPerMint == d.value.gasPerMint && d'.value.maxGas == d.value.maxGas)
      || (d'.value.gasPerMint == 50_000 && d'.value.maxGas == 2_000_000)
  }

  lemma FundsSizeKept(q: Pool, sender: Addr, usd: Uint128, accepted: bool, now: Timestamp)
    requires CommitFunds(q, sender, usd, accepted, now).Ok?
    ensures SizeKept(q.distribution, CommitFunds(q, sender, usd, accepted, now).value.pool.distribution)
  {
  }

  lemma ContinueSizeKept(q: Pool, now: Timestamp)
    requires Continue(q, now).Ok?
    ensures SizeKept(q.distribution, Continue(q, now).value.pool.distribution)
  {
    ContinueAdvances(q, q.distribution.value, now);
  }

  lemma BatchSizeKept(q: Pool, e: Event)
    ensures SizeKept(q.distribution, After(q, e).distribution)
  {
    if Step(q, e).Ok? {
      match e
      case CommitCall(sender, usd, accepted, now, _) => FundsSizeKept(q, sender, usd, accepted, now);
      case ContinueCall(now, _) => ContinueSizeKept(q, now);
      case _ =>
    }
  }

  /** When the distribution was last started, advanced or restarted. */
  ghost function LastMoved(p: Pool, es: seq<Event>): Timestamp {
    if es == [] then 0
    else
      var before, e := es[..|es| - 1], es[|es| - 1];
      if Moves(Run(p, before), e) then e.now else LastMoved(p, before)
  }

  ghost predicate Moves(q: Pool, e: Event) {
    && Step(q, e).Ok?
    && (e.ContinueCall? || e.RecoverCall? || e.SelfRecoverCall?
        || (e.CommitCall? && !q.thresholdHit && After(q, e).thresholdHit))
  }

  /** The time of the last move, and no failure counted: nothing in the contract counts one. */
  ghost predicate MovedAt(d: Option<State>, t: Timestamp) {
    d.Some? ==> d.value.lastUpdated == t && d.value.failures == 0
  }

  lemma FundsMove(q: Pool, sender: Addr, usd: Uint128, accepted: bool, now: Timestamp, t: Timestamp)
    requires CommitFunds(q, sender, usd, accepted, now).Ok? && MovedAt(q.distribution, t)
    ensures var q' := CommitFunds(q, sender, usd, accepted, now).value.pool;
      MovedAt(q'.distribution, if !q.thresholdHit && q'.thresholdHit then now else t)
  {
  }

  lemma ContinueMoves(q: Pool, now: Timestamp)
    requires Continue(q, now).Ok?
    ensures MovedAt(Continue(q, now).value.pool.distribution, now)
  {
    ContinueAdvances(q, q.distribution.value, now);
  }

  lemma StepMoves(q: Pool, e: Event, t: Timestamp)
    requires MovedAt(q.distribution, t)
    ensures MovedAt(After(q, e).distribution, if Moves(q, e) then e.now else t)
  {
    if Step(q, e).Ok? {
      match e
      case CommitCall(sender, usd, accepted, now, _) => FundsMove(q, sender, usd, accepted, now, t);
      case ContinueCall(now, _) => ContinueMoves(q, now);
      case _ =>
    }
  }

  lemma {:induction false} RunMoves(p: Pool, es: seq<Event>)
    requires p.distribution.None?
    ensures MovedAt(Run(p, es).distribution, LastMoved(p, es))
  {
    if es != [] {
      RunMoves(p, es[..|es| - 1]);
      StepMoves(Run(p, es[..|es| - 1]), es[|es| - 1], LastMoved(p, es[..|es| - 1]));
    }
  }

  /** Restarted at `now`: nothing but the cursor and the clock is forgotten. */
  ghost predicate RestartedAt(q: Pool, r: Result<Stepped, Error>, now: Timestamp)
    requires q.distribution.Some?
  {
    var s := q.distribution.value;
    && r.Ok? && r.value.minted == 0 && r.value.sent == []
    && r.value.pool == q.(distribution := Some(s.(cursor := None, lastUpdated := now)))
  }

  /** In any state, reached or not, five counted failures would also do for the factory. */
  lemma FailuresRecover(q: Pool, now: Timestamp)
    ensures Step(q, RecoverCall(now)).Ok? <==>
            && q.distribution.Some?
            && (Seconds(now) >= Seconds(q.distribution.value.lastUpdated) + 3600 || q.distribution.value.failures >= 5)
  {
  }

  /** In every run the factory can restart a distribution exactly when nothing has moved it for an hour,
      and anybody when nothing has for a week; who is paid and what is left stay as they were. */
  lemma {:induction false} RecoveryExact(creator: Addr, target: Uint128, es: seq<Event>, now: Timestamp)
    requires target > 0
    ensures var p := Instantiated(creator, target);
      var q, idle := Run(p, es), SatSub(Seconds(now), Seconds(LastMoved(p, es)));
      && (q.distribution.Some? <==> q.thresholdHit && q.ledger != [])
      && (if q.distribution.Some? && idle >= 3600 then RestartedAt(q, Step(q, RecoverCall(now)), now)
          else Step(q, RecoverCall(now)).Err?)
      && (if q.distribution.Some? && idle >= 7 * 86_400 then RestartedAt(q, Step(q, SelfRecoverCall(now)), now)
          else Step(q, SelfRecoverCall(now)).Err?)
  {
    var p := Instantiated(creator, target);
    RunKeeps(creator, target, es);
    RunMoves(p, es);
    FortyPerBatch(p, es);
  }

  /** In every run, while entries wait, a batch is kept exactly when it comes within the stall
      timeout and its mints find ids below that of the deposit verification; it then serves the next
      40 committers. One that comes too late is refused, and then the factory
      can restart the distribution. */
  lemma {:induction false} BatchesProgress(creator: Addr, target: Uint128, es: seq<Event>, now: Timestamp,
        outcomes: seq<bool>)
    requires target > 0
    requires Run(Instantiated(creator, target), es).distribution.Some?
    ensures var q := Run(Instantiated(creator, target), es);
      var late := SatSub(Seconds(now), Seconds(LastMoved(Instantiated(creator, target), es))) > 86_400;
      var r := Step(q, ContinueCall(now, outcomes));
      && (Continue(q, now).Ok? <==> !late)
      && (r.Ok? <==> !late && q.mints.counter + |Continue(q, now).value.sent| <= MINT_IDS)
      && (late ==> Step(q, RecoverCall(now)).Ok? && Step(q, RecoverCall(now)).value.pool.distribution.Some?)
      && (r.Ok? ==> r.value.pool.ledger == q.ledger[Min(40, |q.ledger|)..])
  {
    FortyPerBatch(Instantiated(creator, target), es);
    RunMoves(Instantiated(creator, target), es);
    RunKeeps(creator, target, es);
    IdsNeverReused(Instantiated(creator, target), es);
    CommittedExactly(creator, target, es, ContinueCall(now, outcomes));
    var q := Run(Instantiated(creator, target), es);
    var all, batched := Committers(Instantiated(creator, target), es), Batched(Instantiated(creator, target), es);
    InvReady(q, all, batched);
    BatchProgresses(q, q.distribution.value, all, |all| - |q.ledger|, batched, now, outcomes);
  }

  lemma BatchProgresses(q: Pool, s: State, all: seq<Commit>, k: nat, batched: seq<MintMsg>, now: Timestamp,
        outcomes: seq<bool>)
    requires ReadyAt(q, s, all, k, batched) && q.mints.counter <= MINT_IDS
    ensures var late := SatSub(Seconds(now), Seconds(s.lastUpdated)) > STALL_TIMEOUT_SECONDS;
      var r := Step(q, ContinueCall(now, outcomes));
      && (Continue(q, now).Ok? <==> !late)
      && (late ==> Step(q, RecoverCall(now)).Ok? && Step(q, RecoverCall(now)).value.pool.distribution.Some?)
      && (r.Ok? ==> r.value.pool.ledger == q.ledger[Min(EffectiveBatchSize(s), |q.ledger|)..])
  {
    HandlerExact(q, s, all, k, batched, now);
  }

  /** How many mints a batch sends: at most one for each entry it serves and one for the dust. */
  lemma MintsPerBatch(p: Pool, s: State, now: Timestamp)
    requires p.distribution == Some(s) && Sorted(p.ledger) && p.ledger != [] && NothingHidden(p.ledger, s.cursor)
    requires Continue(p, now).Ok?
    ensures var n := Min(EffectiveBatchSize(s), |p.ledger|);
      |Continue(p, now).value.sent| <= n + if n == |p.ledger| then 1 else 0
  {
    BatchLeads(p, s);
    var n := |Batch(p, s)|;
    ContinueResult(p, s, now, n);
    SentAtMostOne(p.mints, p.ledger[..n], s.total, s.committed);
  }

  lemma {:induction false} SentAtMostOne(m: Mints, batch: seq<Commit>, total: Uint128, committed: Uint128)
    requires PayBatch(m, batch, total, committed).Ok?
    ensures |PayBatch(m, batch, total, committed).value.sent| <= |batch|
  {
    PayBatchExact(m, batch, total, committed);
    SharesAtMostOne(batch, total, committed);
  }

  lemma {:induction false} SharesAtMostOne(ledger: seq<Commit>, total: Uint128, committed: Uint128)
    ensures |Shares(ledger, total, committed)| <= |ledger|
  {
    if ledger != [] {
      SharesAtMostOne(ledger[..|ledger| - 1], total, committed);
    }
  }

  // ----- Draining the whole ledger -----

  /** The time of the last of a series of batch calls. */
  ghost function LastTime(from: Timestamp, cs: seq<Event>): Timestamp {
    if cs != [] && cs[|cs| - 1].ContinueCall? then cs[|cs| - 1].now else from
  }

  /** A series of batch calls, each within the stall timeout of the one before. */
  ghost predicate Timely(from: Timestamp, cs: seq<Event>) {
    cs == []
    || (&& Timely(from, cs[..|cs| - 1]) && cs[|cs| - 1].ContinueCall?
        && SatSub(Seconds(cs[|cs| - 1].now), Seconds(LastTime(from, cs[..|cs| - 1]))) <= STALL_TIMEOUT_SECONDS)
  }

  /** How far `j` batches of `size` get in a ledger of `n`. */
  ghost function Served(j: nat, size: nat, n: nat): nat {
    if j == 0 then 0 else Min(Served(j - 1, size, n) + size, n)
  }

  lemma NextProduct(j: nat, size: nat)
    ensures (j + 1) * size == j * size + size
  {
  }

  lemma {:induction false} ServedIs(j: nat, size: nat, n: nat)
    ensures Served(j, size, n) == Min(j * size, n)
  {
    if j > 0 {
      ServedIs(j - 1, size, n);
      NextProduct(j - 1, size);
    }
  }

  /** What a timely batch does to the ledger and the distribution. */
  ghost predicate ServedBatch(q: Pool, q': Pool, now: Timestamp)
    requires q.distribution.Some?
  {
    var s := q.distribution.value;
    var n := Min(EffectiveBatchSize(s), |q.ledger|);
    && q'.ledger == q.ledger[n..]
    && (if n == |q.ledger| then q'.distribution.None?
        else && q'.distribution.Some? && q'.distribution.value.lastUpdated == now
             && EffectiveBatchSize(q'.distribution.value) == EffectiveBatchSize(s)
             && q'.mints.counter <= q.mints.counter + n)
  }

  lemma KeptBatchServes(q: Pool, s: State, all: seq<Commit>, k: nat, batched: seq<MintMsg>, e: Event)
    requires ReadyAt(q, s, all, k, batched) && Quiet(q.mints) && e.ContinueCall? && Step(q, e).Ok?
    ensures ServedBatch(q, After(q, e), e.now)
  {
    HandlerExact(q, s, all, k, batched, e.now);
    MintsPerBatch(q, s, e.now);
    StepQuiet(q, e);
  }

  /** One timely batch. */
  lemma {:induction false} BatchServes(creator: Addr, target: Uint128, es: seq<Event>, e: Event)
    requires target > 0 && e.ContinueCall?
    requires var q := Run(Instantiated(creator, target), es);
      && q.distribution.Some? && q.mints.counter + |q.ledger| + 1 <= MINT_IDS
      && SatSub(Seconds(e.now), Seconds(q.distribution.value.lastUpdated)) <= STALL_TIMEOUT_SECONDS
    ensures var q := Run(Instantiated(creator, target), es); ServedBatch(q, After(q, e), e.now)
  {
    var p := Instantiated(creator, target);
    RunKeeps(creator, target, es);
    IdsNeverReused(p, es);
    var q, all, batched := Run(p, es), Committers(p, es), Batched(p, es);
    var s, k := q.distribution.value, |all| - |q.ledger|;
    InvReady(q, all, batched);
    HandlerExact(q, s, all, k, batched, e.now);
    MintsPerBatch(q, s, e.now);
    CommittedExactly(creator, target, es, e);
    KeptBatchServes(q, s, all, k, batched, e);
  }

  /** What a series of timely batches has left of the ledger. */
  ghost predicate DrainedBy(q: Pool, q': Pool, cs: seq<Event>)
    requires q.distribution.Some?
  {
    var s := q.distribution.value;
    var done := Served(|cs|, EffectiveBatchSize(s), |q.ledger|);
    && done <= |q.ledger| && q'.ledger == q.ledger[done..]
    && (if done == |q.ledger| then q'.distribution.None?
        else && q'.distribution.Some? && EffectiveBatchSize(q'.distribution.value) == EffectiveBatchSize(s)
             && q'.distribution.value.lastUpdated == LastTime(s.lastUpdated, cs)
             && q'.mints.counter <= q.mints.counter + done)
  }

  lemma {:induction false} BatchesDrain(creator: Addr, target: Uint128, es: seq<Event>, cs: seq<Event>)
    requires target > 0
    requires var q := Run(Instantiated(creator, target), es);
      && q.distribution.Some? && q.ledger != [] && Timely(q.distribution.value.lastUpdated, cs)
      && q.mints.counter + |q.ledger| + 1 <= MINT_IDS
    ensures DrainedBy(Run(Instantiated(creator, target), es), Run(Instantiated(creator, target), es + cs), cs)
  {
    var p := Instantiated(creator, target);
    var q := Run(p, es);
    if cs == [] {
      assert es + cs == es;
    } else {
      var before, e := cs[..|cs| - 1], cs[|cs| - 1];
      assert (es + cs)[..|es + cs| - 1] == es + before;
      BatchesDrain(creator, target, es, before);
      var q1 := Run(p, es + before);
      assert Run(p, es + cs) == After(q1, e);
      if q1.distribution.Some? {
        BatchServes(creator, target, es + before, e);
      }
      DrainsMore(q, q1, After(q1, e), cs);
    }
  }

  lemma DrainsMore(q: Pool, q1: Pool, q2: Pool, cs: seq<Event>)
    requires cs != [] && cs[|cs| - 1].ContinueCall? && q.distribution.Some?
    requires DrainedBy(q, q1, cs[..|cs| - 1])
    requires if q1.distribution.Some? then ServedBatch(q1, q2, cs[|cs| - 1].now) else q2 == q1
    ensures DrainedBy(q, q2, cs)
  {
  }

  /** In every run, timely batch calls drain the ledger: after `j` of them `40 j` of the entries are
      served, so the distribution of `n` committers ends with call number `n / 40`, rounded up,
          whatever becomes of the mints; ids for `n + 1` mints suffice. */
  lemma {:induction false} LedgerDrains(creator: Addr, target: Uint128, es: seq<Event>, cs: seq<Event>)
    requires target > 0
    requires var q := Run(Instantiated(creator, target), es);
      && q.distribution.Some? && Timely(q.distribution.value.lastUpdated, cs)
      && q.mints.counter + |q.ledger| + 1 <= MINT_IDS
    ensures var q, q' := Run(Instantiated(creator, target), es), Run(Instantiated(creator, target), es + cs);
      var reach := |cs| * 40;
      && (reach < |q.ledger| ==> q'.ledger == q.ledger[reach..] && q'.distribution.Some?)
      && (reach >= |q.ledger| ==> q'.ledger == [] && q'.distribution.None?)
  {
    FortyPerBatch(Instantiated(creator, target), es);
    RunKeeps(creator, target, es);
    BatchesDrain(creator, target, es, cs);
    var q := Run(Instantiated(creator, target), es);
    ServedIs(|cs|, EffectiveBatchSize(q.distribution.value), |q.ledger|);
  }
}
