/** The expand-economy contract as a state machine: capped payouts on the factory's request, and
    the owner's timelocked changes of configuration and withdrawals. */
module ReservoirModel {
  import opened Base
  import opened SlidingWindow

  const CONFIG_TIMELOCK_SECONDS := 172_800
  const WITHDRAW_TIMELOCK_SECONDS := 172_800

  type Denom = string

  datatype Config = Config(factory: Addr, owner: Addr, denom: Denom)

  datatype PendingConfig = PendingConfig(factory: Option<Addr>, owner: Option<Addr>, denom: Option<Denom>,
      unlocksAt: nat)

  datatype PendingWithdrawal = PendingWithdrawal(amount: Uint128, denom: Denom, recipient: Addr, unlocksAt: nat)

  /** The single-bucket window of earlier versions. */
  datatype LegacyWindow = LegacyWindow(windowStart: Timestamp, spent: Uint128)

  datatype Reservoir = Reservoir(
    self: Addr, config: Config, log: Option<seq<Entry>>, legacy: Option<LegacyWindow>,
    pendingConfig: Option<PendingConfig>, pendingWithdrawal: Option<PendingWithdrawal>,
    balances: map<Denom, nat>)

  /** An address argument as the chain validates it: `None` when it is malformed. */
  datatype Msg =
    | RequestExpansion(recipient: Option<Addr>, amount: Uint128, factoryDenom: Option<Denom>)
    | ProposeConfigUpdate(factory: Option<Addr>, owner: Option<Addr>, newDenom: Option<Denom>, addressesValid: bool)
    | ExecuteConfigUpdate
    | CancelConfigUpdate
    | ProposeWithdrawal(amount: Uint128, denom: Denom, recipient: Option<Addr>, recipientValid: bool)
    | ExecuteWithdrawal
    | CancelWithdrawal
    | Deposit(denom: Denom, coins: nat)
    | Migrate

  datatype Call = Call(now: Timestamp, sender: Addr, msg: Msg)

  datatype Transfer = Transfer(recipient: Addr, denom: Denom, amount: nat)

  datatype Stepped = Stepped(reservoir: Reservoir, sent: Option<Transfer>)

  datatype Error =
    | Unauthorized | FactoryQueryFailed | DenomMismatch | InvalidAddress | InvalidDenom
    | Window(error: WindowError) | TimelockNotExpired
    | ConfigUpdateAlreadyPending | NoPendingConfigUpdate
    | WithdrawalAlreadyPending | NoPendingWithdrawal | WithdrawalAmountZero

  function Balance(r: Reservoir, denom: Denom): nat {
    if denom in r.balances then r.balances[denom] else 0
  }

  function Log(r: Reservoir): seq<Entry> {
    if r.log.Some? then r.log.value else []
  }

  predicate Letter(c: char) {
    'a' <= c <= 'z' || 'A' <= c <= 'Z'
  }

  predicate DenomChar(c: char) {
    Letter(c) || '0' <= c <= '9' || c in "/:._-"
  }

  /** The bank module's shape of a native denom. */
  predicate ValidDenom(d: Denom) {
    3 <= |d| <= 128 && Letter(d[0]) && forall i :: 1 <= i < |d| ==> DenomChar(d[i])
  }

  /** Coins sent to the contract itself stay where they are. */
  function Pay(r: Reservoir, recipient: Addr, denom: Denom, amount: nat): Reservoir
    requires amount <= Balance(r, denom)
  {
    if recipient == r.self then r else r.(balances := r.balances[denom := Balance(r, denom) - amount])
  }

  /** `RequestExpansion`. `prune` is how the contract stores its log; without it the log keeps
      every payout ever made. */
  function Expand(r: Reservoir, call: Call, prune: bool): Result<Stepped, Error>
    requires call.msg.RequestExpansion?
  {
    var m := call.msg;
    if call.sender != r.config.factory then Err(Unauthorized)
    else if m.factoryDenom.None? then Err(FactoryQueryFailed)
    else if m.factoryDenom.value != r.config.denom then Err(DenomMismatch)
    else if m.amount == 0 then Ok(Stepped(r, None))
    else if m.recipient.None? then Err(InvalidAddress)
    else
      var decision := Decide(Log(r), call.now, m.amount);
      if decision.Err? then Err(Window(decision.error))
      else if Balance(r, r.config.denom) < m.amount then Ok(Stepped(r, None))
      else
        var kept := if prune then Recent(Log(r), Cutoff(call.now)) else Log(r);
        var r' := r.(log := Some(kept + [Entry(call.now, m.amount)]));
        Ok(Stepped(Pay(r', m.recipient.value, r.config.denom, m.amount),
                   Some(Transfer(m.recipient.value, r.config.denom, m.amount))))
  }

  /** What a proposed configuration is stored as. */
  function Proposed(call: Call): PendingConfig
    requires call.msg.ProposeConfigUpdate?
  {
    var m := call.msg;
    PendingConfig(m.factory, m.owner, m.newDenom, PlusSeconds(call.now, CONFIG_TIMELOCK_SECONDS))
  }

  function Propose(r: Reservoir, call: Call): Result<Stepped, Error>
    requires call.msg.ProposeConfigUpdate?
  {
    var m := call.msg;
    if call.sender != r.config.owner then Err(Unauthorized)
    else if r.pendingConfig.Some? then Err(ConfigUpdateAlreadyPending)
    else if !m.addressesValid then Err(InvalidAddress)
    else if m.newDenom.Some? && !ValidDenom(m.newDenom.value) then Err(InvalidDenom)
    else Ok(Stepped(r.(pendingConfig := Some(Proposed(call))), None))
  }

  function GetOr<T>(o: Option<T>, default: T): T {
    if o.Some? then o.value else default
  }

  /** `ExecuteConfigUpdate`: a change of owner drops the withdrawal the old owner staged. */
  function Apply(r: Reservoir, call: Call): Result<Stepped, Error> {
    if call.sender != r.config.owner then Err(Unauthorized)
    else if r.pendingConfig.None? then Err(NoPendingConfigUpdate)
    else
      var p := r.pendingConfig.value;
      if call.now < p.unlocksAt then Err(TimelockNotExpired)
      else if p.denom.Some? && !ValidDenom(p.denom.value) then Err(InvalidDenom)
      else
        var config := Config(GetOr(p.factory, r.config.factory), GetOr(p.owner, r.config.owner),
                             GetOr(p.denom, r.config.denom));
        var staged := if config.owner != r.config.owner then None else r.pendingWithdrawal;
        Ok(Stepped(r.(config := config, pendingConfig := None, pendingWithdrawal := staged), None))
  }

  function CancelConfig(r: Reservoir, call: Call): Result<Stepped, Error> {
    if call.sender != r.config.owner then Err(Unauthorized)
    else if r.pendingConfig.None? then Err(NoPendingConfigUpdate)
    else Ok(Stepped(r.(pendingConfig := None), None))
  }

  /** What a proposed withdrawal is stored as; the proposer is paid unless someone else is named. */
  function Staged(call: Call): PendingWithdrawal
    requires call.msg.ProposeWithdrawal?
  {
    PendingWithdrawal(call.msg.amount, call.msg.denom, GetOr(call.msg.recipient, call.sender),
                      PlusSeconds(call.now, WITHDRAW_TIMELOCK_SECONDS))
  }

  function Stage(r: Reservoir, call: Call): Result<Stepped, Error>
    requires call.msg.ProposeWithdrawal?
  {
    if call.sender != r.config.owner then Err(Unauthorized)
    else if r.pendingWithdrawal.Some? then Err(WithdrawalAlreadyPending)
    else if call.msg.amount == 0 then Err(WithdrawalAmountZero)
    else if !call.msg.recipientValid then Err(InvalidAddress)
    else if !ValidDenom(call.msg.denom) then Err(InvalidDenom)
    else Ok(Stepped(r.(pendingWithdrawal := Some(Staged(call))), None))
  }

  /** `ExecuteWithdrawal`: the smaller of the amount asked for and the balance. */
  function Withdraw(r: Reservoir, call: Call): Result<Stepped, Error> {
    if call.sender != r.config.owner then Err(Unauthorized)
    else if r.pendingWithdrawal.None? then Err(NoPendingWithdrawal)
    else
      var p := r.pendingWithdrawal.value;
      if call.now < p.unlocksAt then Err(TimelockNotExpired)
      else if !ValidDenom(p.denom) then Err(InvalidDenom)
      else
        var amount := Min(p.amount, Balance(r, p.denom));
        var r' := r.(pendingWithdrawal := None);
        if amount == 0 then Ok(Stepped(r', None))
        else Ok(Stepped(Pay(r', p.recipient, p.denom, amount), Some(Transfer(p.recipient, p.denom, amount))))
  }

  function CancelStaged(r: Reservoir, call: Call): Result<Stepped, Error> {
    if call.sender != r.config.owner then Err(Unauthorized)
    else if r.pendingWithdrawal.None? then Err(NoPendingWithdrawal)
    else Ok(Stepped(r.(pendingWithdrawal := None), None))
  }

  /** The migration turns the old bucket into a one-entry log, once. */
  function MigrateLog(r: Reservoir): Reservoir {
    if r.legacy.None? then r
    else
      var w := r.legacy.value;
      if w.spent != 0 && r.log.None? then r.(legacy := None, log := Some([Entry(w.windowStart, w.spent)]))
      else r.(legacy := None)
  }

  /** One call. `prune` as in `Expand`. */
  function Execute(r: Reservoir, call: Call, prune: bool): Result<Stepped, Error> {
    match call.msg
    case RequestExpansion(_, _, _) => Expand(r, call, prune)
    case ProposeConfigUpdate(_, _, _, _) => Propose(r, call)
    case ExecuteConfigUpdate => Apply(r, call)
    case CancelConfigUpdate => CancelConfig(r, call)
    case ProposeWithdrawal(_, _, _, _) => Stage(r, call)
    case ExecuteWithdrawal => Withdraw(r, call)
    case CancelWithdrawal => CancelStaged(r, call)
    case Deposit(denom, amount) =>
      Ok(Stepped(r.(balances := r.balances[denom := Balance(r, denom) + amount]), None))
    case Migrate => Ok(Stepped(MigrateLog(r), None))
  }

  /** The contract as deployed. */
  function Step(r: Reservoir, call: Call): Result<Stepped, Error> {
    Execute(r, call, true)
  }
}
