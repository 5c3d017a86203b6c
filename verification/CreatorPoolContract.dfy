/** The creator pool's handlers over its storage slots: commits, the distribution batches, and the
    replies and claims of isolated mints; and the chain that runs a handler, the messages it sends
    and their replies as one transaction. */
module CreatorPoolContract {
  import opened Base
  import opened Ordering
  import opened MintIsolation
  import opened Distribution
  import opened DistributionRuns
  import DistributionPlan

  /** A call did what the model says: on success the state and the mints match, on failure the error
      matches and nothing changed. */
  ghost predicate Did(expected: Result<Stepped, Error>, r: Result<Response, Error>, before: Pool, after: Pool) {
    match r
    case Ok(s) => expected == Ok(Stepped(after, s.minted, s.sent))
    case Err(e) => expected == Err(e) && after == before
  }

  datatype Response = Response(minted: nat, sent: seq<MintMsg>)

  const SILENT := Response(0, [])

  lemma {:induction false} BeyondPrefix(ledger: seq<Commit>, i: nat, cursor: Option<Addr>)
    requires i <= |ledger|
    ensures Beyond(ledger[..i], cursor) <= Beyond(ledger, cursor)
  {
    if i == |ledger| {
      assert ledger[..i] == ledger;
    } else {
      BeyondPrefix(ledger[..|ledger| - 1], i, cursor);
      assert ledger[..|ledger| - 1][..i] == ledger[..i];
    }
  }

  /** A batch fails with its first failure. */
  lemma {:induction false} FailsEarly(m: Mints, batch: seq<Commit>, i: nat, total: Uint128, committed: Uint128)
    requires i <= |batch| && PayBatch(m, batch[..i], total, committed).Err?
    ensures PayBatch(m, batch, total, committed) == PayBatch(m, batch[..i], total, committed)
  {
    if i == |batch| {
      assert batch[..i] == batch;
    } else {
      assert batch[..|batch| - 1][..i] == batch[..i];
      FailsEarly(m, batch[..|batch| - 1], i, total, committed);
    }
  }

  class CreatorPool {
    const creator: Addr
    const target: Uint128
    var usdRaised: Uint128
    var thresholdHit: bool
    var commitLedger: seq<Commit>
    var distributionState: Option<State>
    var nextReplyId: Uint64
    var pendingMintReplies: map<nat, PendingMint>
    var failedMints: map<Addr, Uint128>
    var pendingFactoryNotify: bool
    var depositVerifyContext: bool

    function MintSlots(): Mints
      reads this
    {
      Mints(nextReplyId, pendingMintReplies, failedMints, pendingFactoryNotify, depositVerifyContext)
    }

    function Slots(): Pool
      reads this
    {
      Pool(creator, target, usdRaised, thresholdHit, commitLedger, distributionState, MintSlots())
    }

    constructor Instantiate(creator: Addr, target: Uint128)
      ensures Slots() == Instantiated(creator, target)
    {
      this.creator, this.target := creator, target;
      usdRaised, thresholdHit, commitLedger, distributionState := 0, false, [], None;
      nextReplyId, pendingMintReplies, failedMints := 0, map[], map[];
      pendingFactoryNotify, depositVerifyContext := false, false;
    }

    /** The chain undoes the writes of a call that fails. */
    method Rollback(saved: Pool)
      requires saved.creator == creator && saved.target == target
      modifies this
      ensures Slots() == saved
    {
      usdRaised, thresholdHit := saved.raised, saved.thresholdHit;
      commitLedger, distributionState := saved.ledger, saved.distribution;
      nextReplyId, pendingMintReplies := saved.mints.counter, saved.mints.pending;
      failedMints := saved.mints.failed;
      pendingFactoryNotify, depositVerifyContext := saved.mints.notifyPending, saved.mints.depositContext;
    }

    method TriggerThresholdPayout(now: Timestamp) returns (response: Response)
      requires !thresholdHit
      modifies this`thresholdHit, this`distributionState
      ensures Stepped(Slots(), response.minted, response.sent) == Cross(old(Slots()), now)
    {
      if |commitLedger| > 0 {
        distributionState := Some(State(COMMIT_RETURN, target, None, 0, DEFAULT_GAS_PER_DISTRIBUTION,
            DEFAULT_MAX_GAS, 0, now));
      } else {
        distributionState := None;
      }
      thresholdHit := true;
      return Response(CROSSING_MINTS, []);
    }

    method ExecuteCommit(sender: Addr, usd: Uint128, accepted: bool, now: Timestamp)
      returns (r: Result<Response, Error>)
      modifies this
      ensures Did(CommitFunds(old(Slots()), sender, usd, accepted, now), r, old(Slots()), Slots())
    {
      if !accepted || usd == 0 {
        return Err(Refused);
      }
      if thresholdHit {
        return Ok(SILENT);
      }
      if usdRaised + usd > U128_MAX {
        return Err(CommitOverflow);
      }
      var newTotal := usdRaised + usd;
      var toThreshold := SatSub(target, usdRaised);
      var crossing := newTotal >= target;
      var withExcess := crossing && usd > toThreshold && toThreshold > 0;
      var credited := Credit(commitLedger, sender, if withExcess then toThreshold else usd);
      if credited.Err? {
        return Err(credited.error);
      }
      commitLedger := credited.value;
      if !crossing {
        usdRaised := newTotal;
        return Ok(SILENT);
      }
      usdRaised := if withExcess then target else Min(newTotal, target);
      var response := TriggerThresholdPayout(now);
      return Ok(response);
    }

    method BuildDistributionMintSubmsg(recipient: Addr, user: Addr, amount: Uint128) returns (r: Result<MintMsg, Error>)
      modifies this`nextReplyId, this`pendingMintReplies
      ensures match r
              case Ok(msg) => Dispatch(old(MintSlots()), recipient, user, amount) == Ok((MintSlots(), msg))
              case Err(e) => e.Mint? && Dispatch(old(MintSlots()), recipient, user, amount) == Err(e.error)
    {
      var counter := nextReplyId;
      if counter + 1 > U64_MAX {
        return Err(Mint(CounterOverflow));
      }
      nextReplyId := counter + 1;
      if REPLY_ID_MINT_BASE + counter > U64_MAX {
        return Err(Mint(IdSpaceExhausted));
      }
      var id := REPLY_ID_MINT_BASE + counter;
      pendingMintReplies := pendingMintReplies[id := PendingMint(user, amount)];
      return Ok(MintMsg(id, recipient, user, amount));
    }

    /** The first `limit` ledger entries after the cursor. */
    method TakeAfter(cursor: Option<Addr>, limit: nat) returns (batch: seq<Commit>)
      ensures var open := Beyond(commitLedger, cursor); batch == open[..Min(limit, |open|)]
    {
      batch := [];
      var i := 0;
      while i < |commitLedger| && |batch| < limit
        invariant 0 <= i <= |commitLedger| && |batch| <= limit
        invariant batch == Beyond(commitLedger[..i], cursor)
      {
        assert commitLedger[..i + 1][..i] == commitLedger[..i];
        if cursor.None? || !LexLeq(commitLedger[i].payer, cursor.value) {
          batch := batch + [commitLedger[i]];
        }
        i := i + 1;
      }
      BeyondPrefix(commitLedger, i, cursor);
      assert commitLedger[..|commitLedger|] == commitLedger;
    }

    method RemoveEntry(payer: Addr)
      modifies this`commitLedger
      ensures commitLedger == RemoveCommit(old(commitLedger), payer)
    {
      commitLedger := RemoveCommit(commitLedger, payer);
    }

    /** One share on top of what the batch has sent so far. */
    method PayShare(payer: Addr, reward: nat, submsgs: seq<MintMsg>, amount: nat) returns (r: Result<Payout, Error>)
      modifies this`nextReplyId, this`pendingMintReplies
      ensures r == PayOne(Payout(old(MintSlots()), submsgs, amount), payer, reward)
      ensures r.Ok? ==> r.value.mints == MintSlots()
    {
      if reward > U128_MAX {
        return Err(RewardOverflow);
      }
      if reward == 0 {
        return Ok(Payout(MintSlots(), submsgs, amount));
      }
      var sent := BuildDistributionMintSubmsg(payer, payer, reward);
      if sent.Err? {
        return Err(sent.error);
      }
      if amount + reward > U128_MAX {
        return Err(RewardOverflow);
      }
      return Ok(Payout(MintSlots(), submsgs + [sent.value], amount + reward));
    }

    /** Pays and removes the entries of a batch, one after the other. */
    method PayCommitters(batch: seq<Commit>, total: Uint128, committed: Uint128) returns (r: Result<Payout, Error>)
      modifies this`nextReplyId, this`pendingMintReplies, this`commitLedger
      ensures r == PayBatch(old(MintSlots()), batch, total, committed)
      ensures r.Ok? ==> r.value.mints == MintSlots() && commitLedger == RemoveCommits(old(commitLedger), batch)
    {
      ghost var start, ledger := MintSlots(), commitLedger;
      var paid := Payout(MintSlots(), [], 0);
      for i := 0 to |batch|
        invariant paid.mints == MintSlots() && PayBatch(start, batch[..i], total, committed) == Ok(paid)
        invariant commitLedger == RemoveCommits(ledger, batch[..i])
      {
        assert batch[..i + 1][..i] == batch[..i];
        var entry := batch[i];
        var reward := Reward(entry.usd, total, committed);
        var next := PayShare(entry.payer, reward, paid.sent, paid.amount);
        if next.Err? {
          FailsEarly(start, batch, i + 1, total, committed);
          return next;
        }
        paid := next.value;
        RemoveEntry(entry.payer);
      }
      assert batch[..|batch|] == batch;
      return Ok(paid);
    }

    /** The end of a batch call: the next cursor, or the settlement of what rounding left over. */
    method AdvanceDistribution(ghost before: Pool, s: State, batch: seq<Commit>, paid: Payout, now: Timestamp)
      returns (r: Result<Response, Error>)
      requires Slots() == before.(ledger := RemoveCommits(before.ledger, batch), mints := paid.mints)
      modifies this`distributionState, this`nextReplyId, this`pendingMintReplies
      ensures match r
              case Ok(x) => Advance(before, s, batch, paid, now) == Ok(Stepped(Slots(), x.minted, x.sent))
              case Err(e) => Advance(before, s, batch, paid, now) == Err(e)
    {
      if s.distributed + paid.amount > U128_MAX {
        return Err(RewardOverflow);
      }
      var distributed := s.distributed + paid.amount;
      var cursor := if |batch| > 0 then Some(batch[|batch| - 1].payer) else s.cursor;
      var more := TakeAfter(cursor, 1);
      if |more| > 0 {
        distributionState := Some(s.(cursor := cursor, distributed := distributed, failures := 0, lastUpdated := now));
        return Ok(Response(0, paid.sent));
      }
      distributionState := None;
      r := SettleDust(distributed, s.total, paid.sent);
    }

    /** What rounding left of the total goes to the creator. */
    method SettleDust(distributed: nat, total: Uint128, submsgs: seq<MintMsg>) returns (r: Result<Response, Error>)
      modifies this`nextReplyId, this`pendingMintReplies
      ensures match r
              case Ok(x) => Settle(old(Slots()), submsgs, distributed, total) == Ok(Stepped(Slots(), x.minted, x.sent))
              case Err(e) => Settle(old(Slots()), submsgs, distributed, total) == Err(e)
    {
      if 0 < distributed < total {
        var sent := BuildDistributionMintSubmsg(creator, creator, total - distributed);
        if sent.Err? {
          return Err(sent.error);
        }
        return Ok(Response(0, submsgs + [sent.value]));
      }
      return Ok(Response(0, submsgs));
    }

    method ProcessDistributionBatch(now: Timestamp) returns (r: Result<Response, Error>)
      modifies this
      ensures Did(Continue(old(Slots()), now), r, old(Slots()), Slots())
    {
      var saved := Slots();
      if distributionState.None? {
        return Err(NoDistribution);
      }
      var s := distributionState.value;
      if SatSub(Seconds(now), Seconds(s.lastUpdated)) > STALL_TIMEOUT_SECONDS {
        return Err(DistributionTimeout);
      }
      var batch := TakeAfter(s.cursor, EffectiveBatchSize(s));
      var paid := PayCommitters(batch, s.total, s.committed);
      if paid.Err? {
        Rollback(saved);
        return Err(paid.error);
      }
      r := AdvanceDistribution(saved, s, batch, paid.value, now);
      if r.Err? {
        Rollback(saved);
      }
    }

    method RestartDistribution(s: State, now: Timestamp)
      modifies this`distributionState
      ensures Slots() == Restarted(old(Slots()), s, now)
    {
      if |commitLedger| == 0 {
        distributionState := None;
      } else {
        distributionState := Some(State(s.total, s.committed, None, s.distributed,
                                        DEFAULT_GAS_PER_DISTRIBUTION, DEFAULT_MAX_GAS, 0, now));
      }
    }

    method RecoverDistribution(now: Timestamp) returns (r: Result<Response, Error>)
      modifies this`distributionState
      ensures Did(Recover(old(Slots()), now), r, old(Slots()), Slots())
    {
      if distributionState.None? {
        return Err(NoDistribution);
      }
      var s := distributionState.value;
      var idle := SatSub(Seconds(now), Seconds(s.lastUpdated));
      if idle < STUCK_RECOVERY_SECONDS && s.failures < MAX_CONSECUTIVE_FAILURES {
        return Err(NotStalled);
      }
      RestartDistribution(s, now);
      return Ok(SILENT);
    }

    method ExecuteSelfRecoverDistribution(now: Timestamp) returns (r: Result<Response, Error>)
      modifies this`distributionState
      ensures Did(SelfRecover(old(Slots()), now), r, old(Slots()), Slots())
    {
      if distributionState.None? {
        return Err(NoDistribution);
      }
      var s := distributionState.value;
      if SatSub(Seconds(now), Seconds(s.lastUpdated)) < PUBLIC_RECOVERY_SECONDS {
        return Err(NotStalled);
      }
      RestartDistribution(s, now);
      return Ok(SILENT);
    }

    method HandleReply(id: nat, success: bool, balanced: bool) returns (r: Result<(), MintError>)
      modifies this
      ensures match r
              case Ok(_) => Slots() == old(Slots()).(mints := MintSlots())
                  && Reply(old(MintSlots()), id, success, balanced) == Ok(MintSlots())
              case Err(e) => Slots() == old(Slots()) && Reply(old(MintSlots()), id, success, balanced) == Err(e)
    {
      if id == REPLY_ID_FACTORY_NOTIFY_INITIAL {
        if !success {
          pendingFactoryNotify := true;
        }
        return Ok(());
      }
      if id == REPLY_ID_FACTORY_NOTIFY_RETRY {
        if success {
          pendingFactoryNotify := false;
        }
        return Ok(());
      }
      if id == DEPOSIT_VERIFY_REPLY_ID {
        if !success || !depositVerifyContext || !balanced {
          return Err(DepositVerification);
        }
        depositVerifyContext := false;
        return Ok(());
      }
      if id < REPLY_ID_MINT_BASE || id !in pendingMintReplies {
        return Err(UnknownReplyId);
      }
      var saved := pendingMintReplies;
      var p := pendingMintReplies[id];
      pendingMintReplies := pendingMintReplies - {id};
      if !success {
        var prior := if p.user in failedMints then failedMints[p.user] else 0;
        if prior + p.amount > U128_MAX {
          pendingMintReplies := saved;
          return Err(FailedMintOverflow);
        }
        failedMints := failedMints[p.user := prior + p.amount];
      }
      return Ok(());
    }

    method ExecuteClaimFailedDistribution(sender: Addr, recipient: Option<Addr>, recipientValid: bool)
      returns (r: Result<Response, Error>)
      modifies this
      ensures Did(ClaimFailed(old(Slots()), sender, recipient, recipientValid), r, old(Slots()), Slots())
    {
      var saved := Slots();
      if sender !in failedMints || failedMints[sender] == 0 {
        return Err(Mint(NoFailedMintEntry));
      }
      var owed := failedMints[sender];
      if !recipientValid {
        return Err(Mint(InvalidAddress));
      }
      var to := if recipient.Some? then recipient.value else sender;
      failedMints := failedMints - {sender};
      var sent := BuildDistributionMintSubmsg(to, sender, owed);
      if sent.Err? {
        Rollback(saved);
        return Err(sent.error);
      }
      return Ok(Response(0, [sent.value]));
    }

    // ----- Transactions -----

    /** The chain runs the mints of a call in order, each with its reply. */
    method RunReplies(sent: seq<MintMsg>, outcomes: seq<bool>) returns (r: Result<(), MintError>)
      modifies this
      ensures match r
              case Ok(_) => Slots() == old(Slots()).(mints := MintSlots())
                  && ReplyAll(old(MintSlots()), sent, outcomes) == Ok(MintSlots())
              case Err(e) => ReplyAll(old(MintSlots()), sent, outcomes) == Err(e)
    {
      ghost var start := Slots();
      for i := 0 to |sent|
        invariant Slots() == start.(mints := MintSlots())
        invariant ReplyAll(start.mints, sent[..i], outcomes) == Ok(MintSlots())
      {
        assert sent[..i + 1][..i] == sent[..i];
        var replied := HandleReply(sent[i].id, i < |outcomes| && outcomes[i], true);
        if replied.Err? {
          PrefixFails(start.mints, sent, outcomes, i + 1);
          return Err(replied.error);
        }
      }
      assert sent[..|sent|] == sent;
      return Ok(());
    }

    /** A batch or a claim with its mints and their replies, kept or undone as a whole. */
    method Finish(saved: Pool, handled: Result<Response, Error>, outcomes: seq<bool>)
      returns (r: Result<Response, Error>)
      requires saved.creator == creator && saved.target == target
      requires handled.Err? ==> Slots() == saved
      modifies this
      ensures handled.Err? ==> r == handled && Slots() == saved
      ensures handled.Ok? ==>
                Did(Replied(Stepped(old(Slots()), handled.value.minted, handled.value.sent),
                            ReplyAll(old(MintSlots()), handled.value.sent, outcomes)),
                    r, saved, Slots())
    {
      if handled.Err? {
        return handled;
      }
      var replied := RunReplies(handled.value.sent, outcomes);
      if replied.Err? {
        Rollback(saved);
        return Err(Mint(replied.error));
      }
      return handled;
    }

    method ExecuteTransaction(e: Event) returns (r: Result<Response, Error>)
      modifies this
      ensures Did(Step(old(Slots()), e), r, old(Slots()), Slots())
    {
      var saved := Slots();
      match e
      case CommitCall(sender, usd, accepted, now, notified) =>
        r := ExecuteCommit(sender, usd, accepted, now);
        if r.Ok? && r.value.minted != 0 && !notified {
          var replied := HandleReply(REPLY_ID_FACTORY_NOTIFY_INITIAL, false, true);
        }
      case ContinueCall(now, outcomes) =>
        var handled := ProcessDistributionBatch(now);
        r := Finish(saved, handled, outcomes);
      case RecoverCall(now) =>
        r := RecoverDistribution(now);
      case SelfRecoverCall(now) =>
        r := ExecuteSelfRecoverDistribution(now);
      case ClaimCall(sender, recipient, recipientValid, outcomes) =>
        var handled := ExecuteClaimFailedDistribution(sender, recipient, recipientValid);
        r := Finish(saved, handled, outcomes);
      case RetryNotifyCall(delivered) =>
        if !pendingFactoryNotify {
          return Err(Mint(NoPendingFactoryNotify));
        }
        var replied := HandleReply(REPLY_ID_FACTORY_NOTIFY_RETRY, delivered, true);
        r := Ok(SILENT);
      case DepositCall(transferred, balanced) =>
        if !transferred {
          return Err(Mint(TransferFailed));
        }
        depositVerifyContext := true;
        var replied := HandleReply(DEPOSIT_VERIFY_REPLY_ID, true, balanced);
        if replied.Err? {
          Rollback(saved);
          return Err(Mint(replied.error));
        }
        r := Ok(SILENT);
    }

    /** Any sequence of transactions on a pool: it ends where the model's run ends, having sent the
        mints of that run. From instantiation, a pool whose ledger is drained has issued its fixed
        supply, unless its committers outnumber the units of the payout, and no mint ever had the id of
        the deposit verification. */
    method ExecuteAll(es: seq<Event>) returns (minted: nat, batched: seq<MintMsg>, sent: seq<MintMsg>)
      modifies this
      ensures Slots() == Run(old(Slots()), es)
      ensures minted == DistributionPlan.MintedAtOnce(old(Slots()), es)
      ensures batched == Batched(old(Slots()), es) && sent == Sent(old(Slots()), es)
      ensures old(Slots()) == Instantiated(creator, target) && target > 0 ==>
                && (thresholdHit && commitLedger == []
                    && |DistributionPlan.Committers(old(Slots()), es)| <= COMMIT_RETURN ==>
                      minted + DistributionPlan.SumOf(batched) == 1_200_000_000_000)
                && forall i :: 0 <= i < |sent| ==> sent[i].id < DEPOSIT_VERIFY_REPLY_ID
    {
      ghost var start := Slots();
      minted, batched, sent := 0, [], [];
      for i := 0 to |es|
        invariant Slots() == Run(start, es[..i])
        invariant minted == DistributionPlan.MintedAtOnce(start, es[..i])
        invariant batched == Batched(start, es[..i]) && sent == Sent(start, es[..i])
      {
        assert es[..i + 1][..i] == es[..i];
        var r := ExecuteTransaction(es[i]);
        if r.Ok? {
          minted := minted + r.value.minted;
          sent := sent + r.value.sent;
          if es[i].ContinueCall? {
            batched := batched + r.value.sent;
          }
        }
      }
      assert es[..|es|] == es;
      if start == Instantiated(creator, target) && target > 0 {
        DistributionPlan.SupplyExact(creator, target, es);
        IdsNeverReused(start, es);
      }
    }
  }
}
