/** The life of a creator pool's commit ledger: credited by commits until the funding threshold is
    crossed, then drained in batches that mint every committer their share, with what rounding left
    over settled to the creator. */
module Distribution {
  import opened Base
  import opened Ordering
  import opened CommitSplit
  import opened MintIsolation

  const STALL_TIMEOUT_SECONDS := 86_400
  const STUCK_RECOVERY_SECONDS := 3_600
  const PUBLIC_RECOVERY_SECONDS := 604_800
  const MAX_CONSECUTIVE_FAILURES := 5
  const MAX_PER_TX := 40
  const DEFAULT_GAS_PER_DISTRIBUTION := 50_000
  const DEFAULT_MAX_GAS := 2_000_000

  /** The fixed payout of a crossing: minted at once to the creator, the protocol and the pool, and
      minted to the committers in batches. */
  const CROSSING_MINTS := 325_000_000_000 + 25_000_000_000 + 350_000_000_000
  const COMMIT_RETURN := 500_000_000_000

  datatype Commit = Commit(payer: Addr, usd: Uint128)

  datatype State = State(
    total: Uint128, committed: Uint128, cursor: Option<Addr>, distributed: Uint128,
    gasPerMint: Uint64, maxGas: Uint64, failures: Uint32, lastUpdated: Timestamp)

  /** The slots of a pool this concerns; the ledger is in key order. */
  datatype Pool = Pool(
    creator: Addr, target: Uint128, raised: Uint128, thresholdHit: bool,
    ledger: seq<Commit>, distribution: Option<State>, mints: Mints)

  datatype Error =
    | Refused | CommitOverflow | NoDistribution | DistributionTimeout | RewardOverflow | NotStalled
    | Mint(error: MintError)

  /** What a call mints at once, and the isolated mints it sends out. */
  datatype Stepped = Stepped(pool: Pool, minted: nat, sent: seq<MintMsg>)

  function Instantiated(creator: Addr, target: Uint128): Pool {
    Pool(creator, target, 0, false, [], None, Mints(0, map[], map[], false, false))
  }

  // ----- Funding -----

  /** Adds to a committer's entry, or opens one at its place in key order. */
  function Credit(ledger: seq<Commit>, payer: Addr, usd: Uint128): Result<seq<Commit>, Error> {
    if ledger == [] then Ok([Commit(payer, usd)])
    else if ledger[0].payer == payer then
      if ledger[0].usd + usd > U128_MAX then Err(CommitOverflow)
      else Ok([Commit(payer, ledger[0].usd + usd)] + ledger[1..])
    else if LexLeq(payer, ledger[0].payer) then Ok([Commit(payer, usd)] + ledger)
    else
      var rest :- Credit(ledger[1..], payer, usd);
      Ok([ledger[0]] + rest)
  }

  /** `trigger_threshold_payout`, once the crossing commit is credited. */
  function Cross(p: Pool, now: Timestamp): Stepped {
    var d :=
      if p.ledger == [] then None
      else Some(State(COMMIT_RETURN, p.target, None, 0, DEFAULT_GAS_PER_DISTRIBUTION, DEFAULT_MAX_GAS, 0, now));
    Stepped(p.(thresholdHit := true, distribution := d), CROSSING_MINTS, [])
  }

  /** A commit worth `usd`; `accepted` stands for the checks on funds, fees and minimum, and for
      the swaps of the later phases. */
  function CommitFunds(p: Pool, sender: Addr, usd: Uint128, accepted: bool, now: Timestamp): Result<Stepped, Error> {
    if !accepted || usd == 0 then Err(Refused)
    else if !p.thresholdHit && p.raised + usd > U128_MAX then Err(CommitOverflow)
    else
      match PhaseOf(p.thresholdHit, p.raised, usd, p.target)
      case PostThreshold => Ok(Stepped(p, 0, []))
      case PreThreshold =>
        var ledger :- Credit(p.ledger, sender, usd);
        Ok(Stepped(p.(ledger := ledger, raised := p.raised + usd), 0, []))
      case ThresholdWithExcess =>
        var ledger :- Credit(p.ledger, sender, p.target - p.raised);
        Ok(Cross(p.(ledger := ledger, raised := p.target), now))
      case ThresholdHitExact =>
        var ledger :- Credit(p.ledger, sender, usd);
        Ok(Cross(p.(ledger := ledger, raised := Min(p.raised + usd, p.target)), now))
  }

  // ----- Distribution -----

  function EffectiveBatchSize(s: State): nat {
    var base := if s.gasPerMint == 0 then 1 else Min(s.maxGas / s.gasPerMint, U32_MAX);
    Max(Min(base, MAX_PER_TX), 1)
  }

  /** Entries with a key strictly after the cursor. */
  function Beyond(ledger: seq<Commit>, cursor: Option<Addr>): seq<Commit> {
    if ledger == [] then []
    else
      Beyond(ledger[..|ledger| - 1], cursor)
      + if cursor.None? || !LexLeq(ledger[|ledger| - 1].payer, cursor.value) then [ledger[|ledger| - 1]] else []
  }

  function RemoveCommit(ledger: seq<Commit>, payer: Addr): seq<Commit> {
    if ledger == [] then []
    else if ledger[0].payer == payer then ledger[1..]
    else [ledger[0]] + RemoveCommit(ledger[1..], payer)
  }

  function RemoveCommits(ledger: seq<Commit>, batch: seq<Commit>): seq<Commit> {
    if batch == [] then ledger
    else RemoveCommit(RemoveCommits(ledger, batch[..|batch| - 1]), batch[|batch| - 1].payer)
  }

  /** A committer's share, rounded down. */
  function Reward(usd: Uint128, total: Uint128, committed: Uint128): nat {
    if committed == 0 then 0 else FloorDiv(Times(usd, total), committed)
  }

  datatype Payout = Payout(mints: Mints, sent: seq<MintMsg>, amount: nat)

  /** One mint per entry of the batch with a share of at least one unit. */
  function PayBatch(m: Mints, batch: seq<Commit>, total: Uint128, committed: Uint128): Result<Payout, Error> {
    if batch == [] then Ok(Payout(m, [], 0))
    else
      var before :- PayBatch(m, batch[..|batch| - 1], total, committed);
      PayOne(before, batch[|batch| - 1].payer, Reward(batch[|batch| - 1].usd, total, committed))
  }

  function PayOne(before: Payout, payer: Addr, reward: nat): Result<Payout, Error> {
    if reward > U128_MAX then Err(RewardOverflow)
    else if reward == 0 then Ok(before)
    else
      match Dispatch(before.mints, payer, payer, reward)
      case Err(e) => Err(Mint(e))
      case Ok((m', msg)) =>
        if before.amount + reward > U128_MAX then Err(RewardOverflow)
        else Ok(Payout(m', before.sent + [msg], before.amount + reward))
  }

  /** The entries the next batch takes. */
  function Batch(p: Pool, s: State): seq<Commit> {
    var open := Beyond(p.ledger, s.cursor);
    open[..Min(EffectiveBatchSize(s), |open|)]
  }

  /** `process_distribution_batch`, behind the entry point's own checks. */
  function Continue(p: Pool, now: Timestamp): Result<Stepped, Error> {
    if p.distribution.None? then Err(NoDistribution)
    else
      var s := p.distribution.value;
      if SatSub(Seconds(now), Seconds(s.lastUpdated)) > STALL_TIMEOUT_SECONDS then Err(DistributionTimeout)
      else
        var batch := Batch(p, s);
        var paid :- PayBatch(p.mints, batch, s.total, s.committed);
        Advance(p, s, batch, paid, now)
  }

  /** The ledger without the batch, and the cursor behind it; or the end of the distribution when
      nothing lies beyond. */
  function Advance(p: Pool, s: State, batch: seq<Commit>, paid: Payout, now: Timestamp): Result<Stepped, Error> {
    if s.distributed + paid.amount > U128_MAX then Err(RewardOverflow)
    else
      var distributed := s.distributed + paid.amount;
      var ledger := RemoveCommits(p.ledger, batch);
      var cursor := if batch == [] then s.cursor else Some(batch[|batch| - 1].payer);
      if Beyond(ledger, cursor) == [] then
        Settle(p.(ledger := ledger, distribution := None, mints := paid.mints), paid.sent, distributed, s.total)
      else
        var s' := s.(cursor := cursor, distributed := distributed, failures := 0, lastUpdated := now);
        Ok(Stepped(p.(ledger := ledger, distribution := Some(s'), mints := paid.mints), 0, paid.sent))
  }

  /** After the last batch, the rest of the total goes to the creator. */
  function Settle(p: Pool, sent: seq<MintMsg>, distributed: nat, total: Uint128): Result<Stepped, Error> {
    if 0 < distributed < total then
      match Dispatch(p.mints, p.creator, p.creator, total - distributed)
      case Err(e) => Err(Mint(e))
      case Ok((m', msg)) => Ok(Stepped(p.(mints := m'), 0, sent + [msg]))
    else Ok(Stepped(p, 0, sent))
  }

  /** A restart of the cursor; what was distributed stays counted. */
  function Restarted(p: Pool, s: State, now: Timestamp): Pool {
    p.(distribution :=
         if p.ledger == [] then None
         else Some(s.(cursor := None, gasPerMint := DEFAULT_GAS_PER_DISTRIBUTION, maxGas := DEFAULT_MAX_GAS,
                      failures := 0, lastUpdated := now)))
  }

  /** The factory's recovery of a stuck distribution. */
  function Recover(p: Pool, now: Timestamp): Result<Stepped, Error> {
    if p.distribution.None? then Err(NoDistribution)
    else
      var s := p.distribution.value;
      if SatSub(Seconds(now), Seconds(s.lastUpdated)) >= STUCK_RECOVERY_SECONDS
          || s.failures >= MAX_CONSECUTIVE_FAILURES then
        Ok(Stepped(Restarted(p, s, now), 0, []))
      else Err(NotStalled)
  }

  /** Anyone's recovery after a week. */
  function SelfRecover(p: Pool, now: Timestamp): Result<Stepped, Error> {
    if p.distribution.None? then Err(NoDistribution)
    else
      var s := p.distribution.value;
      if SatSub(Seconds(now), Seconds(s.lastUpdated)) < PUBLIC_RECOVERY_SECONDS then Err(NotStalled)
      else Ok(Stepped(Restarted(p, s, now), 0, []))
  }

  /** `ClaimFailedDistribution`. */
  function ClaimFailed(p: Pool, sender: Addr, recipient: Option<Addr>, recipientValid: bool): Result<Stepped, Error> {
    match Claim(p.mints, sender, recipient, recipientValid)
    case Err(e) => Err(Mint(e))
    case Ok((m', msg)) => Ok(Stepped(p.(mints := m'), 0, [msg]))
  }

  // ----- Transactions -----

  /** `s` with the mint slots a reply left, or undone by a failed reply. */
  function Replied(s: Stepped, r: Result<Mints, MintError>): Result<Stepped, Error> {
    match r
    case Err(e) => Err(Mint(e))
    case Ok(m') => Ok(s.(pool := s.pool.(mints := m')))
  }

  /** A handler's call together with its mints and their replies. */
  function WithReplies(r: Result<Stepped, Error>, outcomes: seq<bool>): Result<Stepped, Error> {
    var s :- r;
    Replied(s, ReplyAll(s.pool.mints, s.sent, outcomes))
  }

  /** A crossing notifies the factory; a notice that fails is answered, one that is delivered is
      not. */
  function WithNotice(r: Result<Stepped, Error>, notified: bool): Result<Stepped, Error> {
    var s :- r;
    if s.minted == 0 || notified then Ok(s)
    else Replied(s, Reply(s.pool.mints, REPLY_ID_FACTORY_NOTIFY_INITIAL, false, true))
  }

  /** A transaction, with what became of the messages it sends: whether the factory took the notice,
      which mints succeeded, whether a deposit's transfer did and its balances agree. */
  datatype Event =
    | CommitCall(sender: Addr, usd: Uint128, accepted: bool, now: Timestamp, notified: bool)
    | ContinueCall(now: Timestamp, outcomes: seq<bool>)
    | RecoverCall(now: Timestamp)
    | SelfRecoverCall(now: Timestamp)
    | ClaimCall(sender: Addr, recipient: Option<Addr>, recipientValid: bool, outcomes: seq<bool>)
    | RetryNotifyCall(delivered: bool)
    | DepositCall(transferred: bool, balanced: bool)

  function Step(p: Pool, e: Event): Result<Stepped, Error> {
    match e
    case CommitCall(sender, usd, accepted, now, notified) =>
      WithNotice(CommitFunds(p, sender, usd, accepted, now), notified)
    case ContinueCall(now, outcomes) => WithReplies(Continue(p, now), outcomes)
    case RecoverCall(now) => Recover(p, now)
    case SelfRecoverCall(now) => SelfRecover(p, now)
    case ClaimCall(sender, recipient, recipientValid, outcomes) =>
      WithReplies(ClaimFailed(p, sender, recipient, recipientValid), outcomes)
    case RetryNotifyCall(delivered) => Replied(Stepped(p, 0, []), RetryNotify(p.mints, delivered))
    case DepositCall(transferred, balanced) => Replied(Stepped(p, 0, []), Deposit(p.mints, transferred, balanced))
  }
}
