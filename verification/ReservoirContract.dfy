/** The expand-economy contract's handlers over its storage slots. */
module ReservoirContract {
  import opened Base
  import opened SlidingWindow
  import opened ReservoirModel
  import opened ReservoirRuns
  import opened ReservoirCustody

  /** A handler did what the model says: on success the state and the coins sent match, on failure
      the error matches and nothing changed. */
  ghost predicate Did(expected: Result<Stepped, Error>, r: Result<Option<Transfer>, Error>, before: Reservoir,
        after: Reservoir) {
    match r
    case Ok(sent) => expected == Ok(Stepped(after, sent))
    case Err(e) => expected == Err(e) && after == before
  }

  class ExpandEconomy {
    const self: Addr
    var config: Config
    var expansionLog: Option<seq<Entry>>
    var expansionWindow: Option<LegacyWindow>
    var pendingConfigUpdate: Option<PendingConfig>
    var pendingWithdrawal: Option<PendingWithdrawal>
    var balances: map<Denom, nat>

    function State(): Reservoir
      reads this
    {
      Reservoir(self, config, expansionLog, expansionWindow, pendingConfigUpdate, pendingWithdrawal, balances)
    }

    constructor Instantiate(self: Addr, config: Config)
      ensures State() == Reservoir(self, config, None, None, None, None, map[])
    {
      this.self, this.config := self, config;
      expansionLog, expansionWindow := None, None;
      pendingConfigUpdate, pendingWithdrawal := None, None;
      balances := map[];
    }

    method ExecuteExpandEconomy(call: Call) returns (r: Result<Option<Transfer>, Error>)
      requires call.msg.RequestExpansion?
      modifies this
      ensures Did(Step(old(State()), call), r, old(State()), State())
    {
      if call.sender != config.factory {
        return Err(Unauthorized);
      }
      if call.msg.factoryDenom.None? {
        return Err(FactoryQueryFailed);
      }
      if call.msg.factoryDenom.value != config.denom {
        return Err(DenomMismatch);
      }
      var amount := call.msg.amount;
      if amount == 0 {
        return Ok(None);
      }
      if call.msg.recipient.None? {
        return Err(InvalidAddress);
      }
      var recipient := call.msg.recipient.value;
      var log := if expansionLog.Some? then expansionLog.value else [];
      var window := CheckAndComputeWindow(log, call.now, amount);
      if window.Err? {
        return Err(Window(window.error));
      }
      if Balance(State(), config.denom) < amount {
        return Ok(None);
      }
      expansionLog := Some(window.value.0 + [Entry(call.now, amount)]);
      Send(recipient, config.denom, amount);
      return Ok(Some(Transfer(recipient, config.denom, amount)));
    }

    /** The bank transfer the chain carries out after the handler. */
    method Send(recipient: Addr, denom: Denom, amount: nat)
      requires amount <= Balance(State(), denom)
      modifies this`balances
      ensures State() == Pay(old(State()), recipient, denom, amount)
    {
      if recipient != self {
        balances := balances[denom := Balance(State(), denom) - amount];
      }
    }

    method ExecuteProposeConfigUpdate(call: Call) returns (r: Result<Option<Transfer>, Error>)
      requires call.msg.ProposeConfigUpdate?
      modifies this`pendingConfigUpdate
      ensures Did(Step(old(State()), call), r, old(State()), State())
    {
      if call.sender != config.owner {
        return Err(Unauthorized);
      }
      if pendingConfigUpdate.Some? {
        return Err(ConfigUpdateAlreadyPending);
      }
      if !call.msg.addressesValid {
        return Err(InvalidAddress);
      }
      if call.msg.newDenom.Some? && !ValidDenom(call.msg.newDenom.value) {
        return Err(InvalidDenom);
      }
      var unlocksAt := PlusSeconds(call.now, CONFIG_TIMELOCK_SECONDS);
      pendingConfigUpdate := Some(PendingConfig(call.msg.factory, call.msg.owner, call.msg.newDenom, unlocksAt));
      return Ok(None);
    }

    method ExecuteApplyConfigUpdate(call: Call) returns (r: Result<Option<Transfer>, Error>)
      requires call.msg.ExecuteConfigUpdate?
      modifies this
      ensures Did(Step(old(State()), call), r, old(State()), State())
    {
      if call.sender != config.owner {
        return Err(Unauthorized);
      }
      var priorOwner := config.owner;
      if pendingConfigUpdate.None? {
        return Err(NoPendingConfigUpdate);
      }
      var pending := pendingConfigUpdate.value;
      if call.now < pending.unlocksAt {
        return Err(TimelockNotExpired);
      }
      var updated := config;
      if pending.factory.Some? {
        updated := updated.(factory := pending.factory.value);
      }
      if pending.owner.Some? {
        updated := updated.(owner := pending.owner.value);
      }
      if pending.denom.Some? {
        if !ValidDenom(pending.denom.value) {
          return Err(InvalidDenom);
        }
        updated := updated.(denom := pending.denom.value);
      }
      config := updated;
      pendingConfigUpdate := None;
      if priorOwner != config.owner {
        pendingWithdrawal := None;
      }
      return Ok(None);
    }

    method ExecuteCancelConfigUpdate(call: Call) returns (r: Result<Option<Transfer>, Error>)
      requires call.msg.CancelConfigUpdate?
      modifies this`pendingConfigUpdate
      ensures Did(Step(old(State()), call), r, old(State()), State())
    {
      if call.sender != config.owner {
        return Err(Unauthorized);
      }
      if pendingConfigUpdate.None? {
        return Err(NoPendingConfigUpdate);
      }
      pendingConfigUpdate := None;
      return Ok(None);
    }

    method ExecuteProposeWithdrawal(call: Call) returns (r: Result<Option<Transfer>, Error>)
      requires call.msg.ProposeWithdrawal?
      modifies this`pendingWithdrawal
      ensures Did(Step(old(State()), call), r, old(State()), State())
    {
      if call.sender != config.owner {
        return Err(Unauthorized);
      }
      if pendingWithdrawal.Some? {
        return Err(WithdrawalAlreadyPending);
      }
      if call.msg.amount == 0 {
        return Err(WithdrawalAmountZero);
      }
      var target := if call.msg.recipient.Some? then call.msg.recipient.value else call.sender;
      if !call.msg.recipientValid {
        return Err(InvalidAddress);
      }
      if !ValidDenom(call.msg.denom) {
        return Err(InvalidDenom);
      }
      var unlocksAt := PlusSeconds(call.now, WITHDRAW_TIMELOCK_SECONDS);
      pendingWithdrawal := Some(PendingWithdrawal(call.msg.amount, call.msg.denom, target, unlocksAt));
      return Ok(None);
    }

    method ExecuteStagedWithdrawal(call: Call) returns (r: Result<Option<Transfer>, Error>)
      requires call.msg.ExecuteWithdrawal?
      modifies this
      ensures Did(Step(old(State()), call), r, old(State()), State())
    {
      if call.sender != config.owner {
        return Err(Unauthorized);
      }
      if pendingWithdrawal.None? {
        return Err(NoPendingWithdrawal);
      }
      var pending := pendingWithdrawal.value;
      if call.now < pending.unlocksAt {
        return Err(TimelockNotExpired);
      }
      if !ValidDenom(pending.denom) {
        return Err(InvalidDenom);
      }
      pendingWithdrawal := None;
      var balance := Balance(State(), pending.denom);
      var amount := if pending.amount <= balance then pending.amount else balance;
      if amount == 0 {
        return Ok(None);
      }
      Send(pending.recipient, pending.denom, amount);
      return Ok(Some(Transfer(pending.recipient, pending.denom, amount)));
    }

    method ExecuteCancelWithdrawal(call: Call) returns (r: Result<Option<Transfer>, Error>)
      requires call.msg.CancelWithdrawal?
      modifies this`pendingWithdrawal
      ensures Did(Step(old(State()), call), r, old(State()), State())
    {
      if call.sender != config.owner {
        return Err(Unauthorized);
      }
      if pendingWithdrawal.None? {
        return Err(NoPendingWithdrawal);
      }
      pendingWithdrawal := None;
      return Ok(None);
    }

    method MigrateExpansionWindowToLog()
      modifies this`expansionLog, this`expansionWindow
      ensures State() == MigrateLog(old(State()))
    {
      if expansionWindow.Some? {
        var bucket := expansionWindow.value;
        if bucket.spent != 0 {
          if expansionLog.None? {
            expansionLog := Some([Entry(bucket.windowStart, bucket.spent)]);
          }
        }
        expansionWindow := None;
      }
    }

    /** Coins that arrive at the contract. */
    method Receive(denom: Denom, coins: nat)
      modifies this`balances
      ensures State() == old(State()).(balances := old(balances)[denom := Balance(old(State()), denom) + coins])
    {
      balances := balances[denom := Balance(State(), denom) + coins];
    }

    method ExecuteCall(call: Call) returns (r: Result<Option<Transfer>, Error>)
      modifies this
      ensures Did(Step(old(State()), call), r, old(State()), State())
    {
      match call.msg
      case RequestExpansion(_, _, _) => r := ExecuteExpandEconomy(call);
      case ProposeConfigUpdate(_, _, _, _) => r := ExecuteProposeConfigUpdate(call);
      case ExecuteConfigUpdate => r := ExecuteApplyConfigUpdate(call);
      case CancelConfigUpdate => r := ExecuteCancelConfigUpdate(call);
      case ProposeWithdrawal(_, _, _, _) => r := ExecuteProposeWithdrawal(call);
      case ExecuteWithdrawal => r := ExecuteStagedWithdrawal(call);
      case CancelWithdrawal => r := ExecuteCancelWithdrawal(call);
      case Deposit(denom, coins) =>
        Receive(denom, coins);
        r := Ok(None);
      case Migrate =>
        MigrateExpansionWindowToLog();
        r := Ok(None);
    }

    /** One call, and the payout it made. */
    method ExecuteLogged(call: Call) returns (payout: seq<Entry>)
      modifies this
      ensures State() == After(old(State()), call, true) && payout == Paid(old(State()), call)
    {
      var r := ExecuteCall(call);
      if call.msg.RequestExpansion? && r.Ok? && r.value.Some? {
        return [Entry(call.now, call.msg.amount)];
      }
      return [];
    }

    /** Any sequence of calls on a reservoir: it ends where the model's run ends, having made that
        run's payouts. */
    method ExecuteCalls(calls: seq<Call>) returns (payouts: seq<Entry>)
      modifies this
      ensures State() == Run(old(State()), calls) && Log(old(State())) + payouts == History(old(State()), calls)
    {
      ghost var before := State();
      payouts := [];
      for i := 0 to |calls|
        invariant State() == Run(before, calls[..i])
        invariant Log(before) + payouts == History(before, calls[..i])
      {
        OneMoreCall(before, calls, i);
        var payout := ExecuteLogged(calls[i]);
        OneMorePayout(Log(before), payouts, payout);
        payouts := payouts + payout;
      }
      assert calls[..|calls|] == calls;
    }

    /** What such a sequence promises: from a seeded start the payouts on top of the seed keep every
        24 hours within the cap, and no coin of any denomination is lost. */
    method ExecuteAll(calls: seq<Call>, ghost start: Timestamp) returns (payouts: seq<Entry>)
      modifies this
      ensures Seeded(old(State()), start) && Clocked(calls, start) ==> Capped(Log(old(State())) + payouts)
      ensures forall d :: Balance(State(), d) + PaidOut(old(State()), calls, d)
                          == Balance(old(State()), d) + Deposited(old(State()), calls, d)
    {
      payouts := ExecuteCalls(calls);
      Promises(old(State()), calls, start);
    }
  }

  lemma {:induction false} OneMoreCall(r: Reservoir, calls: seq<Call>, i: nat)
    requires i < |calls|
    ensures Run(r, calls[..i + 1]) == After(Run(r, calls[..i]), calls[i], true)
    ensures History(r, calls[..i + 1]) == History(r, calls[..i]) + Paid(Run(r, calls[..i]), calls[i])
  {
    assert calls[..i + 1][..i] == calls[..i];
  }

  lemma OneMorePayout(log: seq<Entry>, payouts: seq<Entry>, payout: seq<Entry>)
    ensures log + (payouts + payout) == log + payouts + payout
  {
  }

  lemma {:induction false} Promises(r: Reservoir, calls: seq<Call>, start: Timestamp)
    ensures Seeded(r, start) && Clocked(calls, start) ==> Capped(History(r, calls))
    ensures forall d :: Balance(Run(r, calls), d) + PaidOut(r, calls, d) == Balance(r, d) + Deposited(r, calls, d)
  {
    if Seeded(r, start) && Clocked(calls, start) {
      forall a
        ensures DaySum(History(r, calls), a) <= DAILY_EXPANSION_CAP
      {
        SlidingCap(r, start, calls, a);
      }
    }
    forall d
      ensures Balance(Run(r, calls), d) + PaidOut(r, calls, d) == Balance(r, d) + Deposited(r, calls, d)
    {
      CoinsConserved(r, calls, d);
    }
  }
}
