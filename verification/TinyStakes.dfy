/** One committer more than the payout has units, each with the same stake: a run in which every share
    rounds to nothing and the payout is never minted. */
module TinyStakes {
  import opened Base
  import opened Ordering
  import opened MintIsolation
  import opened Distribution
  import opened CommitLedger
  import opened DistributionRuns
  import opened DistributionPlan

  const MANY := COMMIT_RETURN + 1

  // ----- Funding -----

  /** The `i`-th committer. */
  function Name(i: nat): Addr {
    seq(i, _ => 'a')
  }

  lemma {:induction false} NamesAscend(i: nat, j: nat)
    requires i < j
    ensures !LexLeq(Name(j), Name(i)) && Name(j) != Name(i)
  {
    assert |Name(j)| == j && |Name(i)| == i;
    if i > 0 {
      NamesAscend(i - 1, j - 1);
      assert Name(j)[1..] == Name(j - 1) && Name(i)[1..] == Name(i - 1);
    }
  }

  ghost function Ledger(stake: Uint128, n: nat): seq<Commit> {
    seq(n, i requires 0 <= i < n => Commit(Name(i), stake))
  }

  /** A commit by somebody who sorts behind everybody goes to the end. */
  lemma {:induction false} CreditAppends(ledger: seq<Commit>, payer: Addr, usd: Uint128)
    requires forall i :: 0 <= i < |ledger| ==> ledger[i].payer != payer && !LexLeq(payer, ledger[i].payer)
    ensures Credit(ledger, payer, usd) == Ok(ledger + [Commit(payer, usd)])
  {
    if ledger == [] {
      assert ledger + [Commit(payer, usd)] == [Commit(payer, usd)];
    } else {
      CreditAppends(ledger[1..], payer, usd);
      assert [ledger[0]] + (ledger[1..] + [Commit(payer, usd)]) == ledger + [Commit(payer, usd)];
    }
  }

  lemma {:induction false} NextCredit(stake: Uint128, n: nat)
    ensures Credit(Ledger(stake, n), Name(n), stake) == Ok(Ledger(stake, n + 1))
  {
    forall i | 0 <= i < n
      ensures Ledger(stake, n)[i].payer != Name(n) && !LexLeq(Name(n), Ledger(stake, n)[i].payer)
    {
      NamesAscend(i, n);
    }
    CreditAppends(Ledger(stake, n), Name(n), stake);
    assert Ledger(stake, n) + [Commit(Name(n), stake)] == Ledger(stake, n + 1);
  }

  function Funds(stake: Uint128, n: nat): seq<Event> {
    seq(n, i requires 0 <= i < n => CommitCall(Name(i), stake, true, 0, true))
  }

  lemma FundsGrow(stake: Uint128, n: nat)
    ensures Funds(stake, n + 1)[..n] == Funds(stake, n)
    ensures Funds(stake, n + 1)[n] == CommitCall(Name(n), stake, true, 0, true)
  {
  }

  /** After `n` commits, short of the threshold. */
  ghost predicate Raised(p: Pool, stake: Uint128, n: nat) {
    && !p.thresholdHit && p.distribution.None? && p.ledger == Ledger(stake, n) && p.raised == n * stake
  }

  lemma StepRaises(p: Pool, stake: Uint128, n: nat)
    requires stake > 0 && Raised(p, stake, n) && (n + 1) * stake < p.target
    ensures Raised(After(p, CommitCall(Name(n), stake, true, 0, true)), stake, n + 1)
  {
    NextCredit(stake, n);
    Distribute(stake, n, 1);
  }

  lemma {:induction false} FundsRaise(creator: Addr, target: Uint128, stake: Uint128, n: nat)
    requires stake > 0 && n * stake < target
    ensures Raised(Run(Instantiated(creator, target), Funds(stake, n)), stake, n)
  {
    var p := Instantiated(creator, target);
    if n > 0 {
      MulMono(n - 1, n, stake);
      FundsRaise(creator, target, stake, n - 1);
      FundsGrow(stake, n - 1);
      RunKeepsTerms(p, Funds(stake, n - 1));
      StepRaises(Run(p, Funds(stake, n - 1)), stake, n - 1);
    }
  }

  lemma LastRaises(p: Pool, stake: Uint128, n: nat)
    requires stake > 0 && Raised(p, stake, n) && (n + 1) * stake == p.target
    ensures var q := After(p, CommitCall(Name(n), stake, true, 0, true));
      q.thresholdHit && q.ledger == Ledger(stake, n + 1)
  {
    NextCredit(stake, n);
    Distribute(stake, n, 1);
  }

  lemma {:induction false} OneMoreFund(p: Pool, stake: Uint128, n: nat, next: nat)
    requires next == n + 1
    ensures Run(p, Funds(stake, next)) == After(Run(p, Funds(stake, n)), CommitCall(Name(n), stake, true, 0, true))
    ensures !Run(p, Funds(stake, n)).thresholdHit && Run(p, Funds(stake, next)).thresholdHit ==>
              Committers(p, Funds(stake, next)) == Run(p, Funds(stake, next)).ledger
  {
    FundsGrow(stake, n);
  }

  /** The last of them reaches the threshold exactly. */
  lemma {:induction false} FundsCross(creator: Addr, target: Uint128, stake: Uint128, n: nat)
    requires stake > 0 && (n + 1) * stake == target
    ensures var p := Instantiated(creator, target);
      Run(p, Funds(stake, n + 1)).thresholdHit && Committers(p, Funds(stake, n + 1)) == Ledger(stake, n + 1)
  {
    var p := Instantiated(creator, target);
    Distribute(stake, n, 1);
    FundsRaise(creator, target, stake, n);
    RunKeepsTerms(p, Funds(stake, n));
    LastRaises(Run(p, Funds(stake, n)), stake, n);
    OneMoreFund(p, stake, n, n + 1);
  }

  // ----- Draining -----

  /** Where every share rounds to nothing, nothing was ever sent. */
  lemma {:induction false} NothingBatched(p: Pool, all: seq<Commit>, batched: seq<MintMsg>)
    requires Inv(p, all, batched) && p.thresholdHit && NoShares(all, COMMIT_RETURN, p.target)
    ensures batched == []
  {
    NothingDue(all, |all| - |p.ledger|, p.creator, p.target);
  }

  lemma NothingSent(q: Pool, all: seq<Commit>, batched: seq<MintMsg>, now: Timestamp)
    requires Inv(q, all, batched) && q.distribution.Some? && NoShares(all, COMMIT_RETURN, q.target)
    requires Continue(q, now).Ok?
    ensures Continue(q, now).value.sent == []
  {
    BatchKeeps(q, now, all, batched);
    var after := Continue(q, now).value;
    ContinueKeepsTerms(q, now);
    NothingBatched(after.pool, all, batched + after.sent);
    assert |batched + after.sent| == 0;
  }

  lemma ContinueKeepsTerms(q: Pool, now: Timestamp)
    requires Continue(q, now).Ok?
    ensures var p := Continue(q, now).value.pool;
      p.creator == q.creator && p.target == q.target && p.thresholdHit == q.thresholdHit
  {
  }

  lemma {:induction false} NothingDue(all: seq<Commit>, k: nat, creator: Addr, target: Uint128)
    requires NoShares(all, COMMIT_RETURN, target) && k <= |all|
    ensures Due(all, k, creator, target) == []
  {
    NoPayments(all[..k], target);
    SharesNone(all, COMMIT_RETURN, target);
  }

  lemma {:induction false} NoPayments(ledger: seq<Commit>, target: Uint128)
    requires NoShares(ledger, COMMIT_RETURN, target)
    ensures Shares(ledger, COMMIT_RETURN, target) == []
  {
    if ledger != [] {
      NoPayments(ledger[..|ledger| - 1], target);
    }
  }

  /** So batches drain the ledger to the end, whatever it holds. */
  lemma {:induction false} DrainsUnpaid(creator: Addr, target: Uint128, es: seq<Event>) returns (more: seq<Event>)
    requires target > 0 && Run(Instantiated(creator, target), es).thresholdHit
    requires NoShares(Committers(Instantiated(creator, target), es), COMMIT_RETURN, target)
    ensures var p := Instantiated(creator, target);
      var q := Run(p, es + more);
      q.thresholdHit && q.ledger == [] && Committers(p, es + more) == Committers(p, es)
    decreases |Run(Instantiated(creator, target), es).ledger|
  {
    var q := Run(Instantiated(creator, target), es);
    if q.ledger == [] {
      more := [];
      assert es + more == es;
    } else {
      StillDistributing(creator, target, es);
      var e := ContinueCall(q.distribution.value.lastUpdated, []);
      OneMoreBatch(creator, target, es, e.now);
      var rest := DrainsUnpaid(creator, target, es + [e]);
      more := [e] + rest;
      Regroup(es, e, rest);
    }
  }

  lemma {:induction false} StillDistributing(creator: Addr, target: Uint128, es: seq<Event>)
    requires target > 0
    requires var q := Run(Instantiated(creator, target), es); q.thresholdHit && q.ledger != []
    ensures Run(Instantiated(creator, target), es).distribution.Some?
  {
    RunKeeps(creator, target, es);
  }

  lemma Regroup(es: seq<Event>, e: Event, rest: seq<Event>)
    ensures es + [e] + rest == es + ([e] + rest)
  {
  }

  lemma {:induction false} OneMoreBatch(creator: Addr, target: Uint128, es: seq<Event>, now: Timestamp)
    requires target > 0
    requires var q := Run(Instantiated(creator, target), es);
      q.thresholdHit && q.ledger != [] && q.distribution.Some? && now == q.distribution.value.lastUpdated
    requires NoShares(Committers(Instantiated(creator, target), es), COMMIT_RETURN, target)
    ensures var p := Instantiated(creator, target);
      var more := es + [ContinueCall(now, [])];
      && Run(p, more).thresholdHit && |Run(p, more).ledger| < |Run(p, es).ledger|
      && Committers(p, more) == Committers(p, es)
  {
    var p, e := Instantiated(creator, target), ContinueCall(now, []);
    var q := Run(p, es);
    RunKeeps(creator, target, es);
    RunKeepsTerms(p, es);
    IdsNeverReused(p, es);
    RunMoves(p, es);
    BatchesProgress(creator, target, es, now, []);
    NothingSent(q, Committers(p, es), Batched(p, es), now);
    assert (es + [e])[..|es|] == es;
    StepCrosses(q, e);
  }

  // ----- The run -----

  lemma {:induction false} StakesRoundToNothing(stake: Uint128, target: Uint128)
    requires stake > 0 && target == MANY * stake
    ensures NoShares(Ledger(stake, MANY), COMMIT_RETURN, target)
  {
    MulMono(COMMIT_RETURN, MANY, stake);
    Distribute(stake, COMMIT_RETURN, 1);
    DivAtLeast(stake * COMMIT_RETURN, target, 0);
    DivAtMost(stake * COMMIT_RETURN, target, 0);
  }

  /** For every stake the target leaves room for there is a run from instantiation that is finished with
      one committer more than the payout has units, and has minted the fixed part of a crossing only. */
  lemma {:induction false} PayoutNeverMinted(creator: Addr, stake: Uint128) returns (es: seq<Event>)
    requires stake > 0 && MANY * stake <= U128_MAX
    ensures var p := Instantiated(creator, MANY * stake);
      var q := Run(p, es);
      && q.thresholdHit && q.ledger == [] && |Committers(p, es)| == COMMIT_RETURN + 1
      && MintedAtOnce(p, es) + SumOf(Batched(p, es)) == 700_000_000_000
  {
    var target := MANY * stake;
    MulMono(1, MANY, stake);
    FundsCross(creator, target, stake, COMMIT_RETURN);
    StakesRoundToNothing(stake, target);
    var more := DrainsUnpaid(creator, target, Funds(stake, MANY));
    es := Funds(stake, MANY) + more;
    SupplyExact(creator, target, es);
    CrossesOnce(Instantiated(creator, target), es);
  }
}
