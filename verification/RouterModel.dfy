/** The router: a route is a transaction of calls the router makes to itself, one per hop, and a
    final check of what the recipient got. */
module RouterModel {
  import opened Base
  import opened Assets

  const MAX_HOPS := 3
  const REPLY_ID_HOP_BASE := 1000

  datatype SwapOperation = SwapOperation(pool: Addr, offer: TokenType, ask: TokenType)

  /** A pool's own numbers: reserves, fees, accumulators. */
  type PoolNumbers = seq<nat>

  datatype Quote = Quote(returned: nat, spread: nat, next: PoolNumbers)

  /** The answer to a simulation query. */
  datatype Answer = Answer(returned: nat, spread: nat)

  /** A pool swaps on its own numbers alone: `quote` is its pricing, for an offer of the first asset or
      the second, and `accepts` stands for every other reason it may refuse a swap. A simulation may
      also look at what the pool holds of its two assets. */
  datatype Pool = Pool(
    asset0: TokenType, asset1: TokenType, committed: bool, numbers: PoolNumbers,
    quote: (PoolNumbers, bool, nat) -> Option<Quote>, accepts: (PoolNumbers, bool, nat) -> bool,
    simulate: (PoolNumbers, nat, nat, bool, nat) -> Option<Answer>)

  datatype World = World(bank: Bank, pools: map<Addr, Pool>)

  datatype RouterError =
    | EmptyRoute | MaxHopsExceeded | SameTokenHop(hop: nat) | RouteDiscontinuity(hop: nat) | SameInputOutput
    | ZeroAmount | DeadlineExceeded | WrongEntry | InsufficientFunds | HopFailed(hop: nat) | SlippageExceeded
    | BalanceDecreased | PoolInCommitPhase(hop: nat) | QueryFailed(hop: nat) | AmountOverflow

  // ----- Routes -----

  predicate Distinguishes(ops: seq<SwapOperation>) {
    forall i :: 0 <= i < |ops| ==> ops[i].offer != ops[i].ask
  }

  predicate Continuous(ops: seq<SwapOperation>) {
    forall i {:trigger ops[i].ask} :: 0 <= i < |ops| - 1 ==> ops[i].ask == ops[i + 1].offer
  }

  predicate ValidRoute(ops: seq<SwapOperation>) {
    && 1 <= |ops| <= 3 && Distinguishes(ops) && Continuous(ops)
    && ops[0].offer != ops[|ops| - 1].ask
  }

  function FirstSameToken(ops: seq<SwapOperation>, i: nat): Option<nat>
    requires i <= |ops|
    decreases |ops| - i
  {
    if i == |ops| then None else if ops[i].offer == ops[i].ask then Some(i) else FirstSameToken(ops, i + 1)
  }

  function FirstBreak(ops: seq<SwapOperation>, i: nat): Option<nat>
    requires i < |ops|
    decreases |ops| - i
  {
    if i + 1 == |ops| then None else if ops[i].ask != ops[i + 1].offer then Some(i) else FirstBreak(ops, i + 1)
  }

  /** Why a route is refused: the first hop that trades a token for itself comes before the first
      break between hops. */
  function RouteFault(ops: seq<SwapOperation>): Option<RouterError> {
    if ops == [] then Some(EmptyRoute)
    else if |ops| > MAX_HOPS then Some(MaxHopsExceeded)
    else if FirstSameToken(ops, 0).Some? then Some(SameTokenHop(FirstSameToken(ops, 0).value))
    else if FirstBreak(ops, 0).Some? then Some(RouteDiscontinuity(FirstBreak(ops, 0).value))
    else if ops[0].offer == ops[|ops| - 1].ask then Some(SameInputOutput)
    else None
  }

  method ValidateRoute(ops: seq<SwapOperation>) returns (r: Option<RouterError>)
    ensures r == RouteFault(ops)
  {
    if |ops| == 0 {
      return Some(EmptyRoute);
    }
    if |ops| > MAX_HOPS {
      return Some(MaxHopsExceeded);
    }
    for i := 0 to |ops|
      invariant FirstSameToken(ops, 0) == FirstSameToken(ops, i)
    {
      if ops[i].offer == ops[i].ask {
        return Some(SameTokenHop(i));
      }
    }
    for i := 0 to |ops| - 1
      invariant FirstBreak(ops, 0) == FirstBreak(ops, i)
    {
      if ops[i].ask != ops[i + 1].offer {
        return Some(RouteDiscontinuity(i));
      }
    }
    if ops[0].offer == ops[|ops| - 1].ask {
      return Some(SameInputOutput);
    }
    return None;
  }

  lemma {:induction false} FirstSameTokenExact(ops: seq<SwapOperation>, i: nat)
    requires i <= |ops|
    ensures var f := FirstSameToken(ops, i);
      && (f.None? <==> forall k :: i <= k < |ops| ==> ops[k].offer != ops[k].ask)
      && (f.Some? ==> i <= f.value < |ops| && ops[f.value].offer == ops[f.value].ask
                      && forall k :: i <= k < f.value ==> ops[k].offer != ops[k].ask)
    decreases |ops| - i
  {
    if i < |ops| {
      FirstSameTokenExact(ops, i + 1);
    }
  }

  lemma {:induction false} FirstBreakExact(ops: seq<SwapOperation>, i: nat)
    requires i < |ops|
    ensures var f := FirstBreak(ops, i);
      && (f.None? <==> forall k :: i <= k < |ops| - 1 ==> ops[k].ask == ops[k + 1].offer)
      && (f.Some? ==> i <= f.value < |ops| - 1 && ops[f.value].ask != ops[f.value + 1].offer
                      && forall k :: i <= k < f.value ==> ops[k].ask == ops[k + 1].offer)
    decreases |ops| - i
  {
    if i + 1 < |ops| {
      FirstBreakExact(ops, i + 1);
    }
  }

  /** The loops accept exactly the valid routes. */
  lemma RouteFaultExact(ops: seq<SwapOperation>)
    ensures RouteFault(ops).None? <==> ValidRoute(ops)
  {
    FirstSameTokenExact(ops, 0);
    if ops != [] {
      FirstBreakExact(ops, 0);
    }
  }

  // ----- One hop -----

  function HopReplyId(hop: nat): nat {
    REPLY_ID_HOP_BASE + hop
  }

  function ParseHopReplyId(id: nat): Option<nat> {
    if REPLY_ID_HOP_BASE <= id < REPLY_ID_HOP_BASE + MAX_HOPS then Some(id - REPLY_ID_HOP_BASE) else None
  }

  /** The asset a pool pays for an offer. */
  function OtherAsset(p: Pool, offer: TokenType): Option<TokenType> {
    if offer == p.asset0 then Some(p.asset1)
    else if offer == p.asset1 then Some(p.asset0)
    else None
  }

  /** What a pool makes of an offer when it swaps. */
  function QuoteOf(p: Pool, offer: TokenType, amount: nat): Option<Quote> {
    if OtherAsset(p, offer).None? then None else p.quote(p.numbers, offer == p.asset0, amount)
  }

  predicate Accepts(p: Pool, offer: TokenType, amount: nat) {
    p.accepts(p.numbers, offer == p.asset0, amount)
  }

  /** What it answers when it is only asked. */
  function SimulationOf(w: World, pool: Addr, offer: TokenType, amount: nat): Option<Answer>
    requires pool in w.pools
  {
    var p := w.pools[pool];
    if OtherAsset(p, offer).None? then None
    else p.simulate(p.numbers, Held(w.bank, p.asset0, pool), Held(w.bank, p.asset1, pool), offer == p.asset0, amount)
  }

  /** A swap changes the pool that made it. */
  function Traded(pools: map<Addr, Pool>, pool: Addr, q: Quote): map<Addr, Pool>
    requires pool in pools
  {
    pools[pool := pools[pool].(numbers := q.next)]
  }

  datatype Ran = Ran(world: World, outputs: seq<nat>)

  /** The pool takes the offer from the router and pays the other asset from its own holdings; a
      refusal anywhere fails the hop. */
  function Swap(w: World, router: Addr, pool: Addr, offer: TokenType, amount: nat, to: Addr): Option<Ran> {
    if pool !in w.pools || amount > Held(w.bank, offer, router) then None
    else
      var p := w.pools[pool];
      var q := QuoteOf(p, offer, amount);
      if !p.committed || q.None? || !Accepts(p, offer, amount) then None
      else
        var taken := Move(w.bank, offer, router, pool, amount);
        var paid := OtherAsset(p, offer).value;
        if q.value.returned > Held(taken, paid, pool) then None
        else
          Some(Ran(World(Move(taken, paid, pool, to, q.value.returned), Traded(w.pools, pool, q.value)),
                   [q.value.returned]))
  }

  /** `ExecuteSwapOperation`: the whole of the router's balance of the offer goes in. A pool's error
      comes back through the reply handler under the hop's reply id. */
  function Hop(w: World, router: Addr, op: SwapOperation, hop: nat, to: Addr): Result<Ran, RouterError> {
    var amount := Held(w.bank, op.offer, router);
    if amount == 0 then Err(HopFailed(hop))
    else
      match Swap(w, router, op.pool, op.offer, amount, to)
      case Some(r) => Ok(r)
      case None =>
        var failed := ParseHopReplyId(HopReplyId(hop));
        Err(HopFailed(if failed.Some? then failed.value else 0))
  }

  // ----- The transaction -----

  datatype Msg =
    | ExecuteSwapOperation(operation: SwapOperation, hopIndex: nat, to: Addr)
    | AssertReceived(ask: TokenType, recipient: Addr, prevBalance: nat, minimumReceive: nat)

  datatype SubMsg = SubMsg(id: nat, msg: Msg)

  function HopMessage(ops: seq<SwapOperation>, router: Addr, recipient: Addr, i: nat): SubMsg
    requires i < |ops|
  {
    SubMsg(HopReplyId(i), ExecuteSwapOperation(ops[i], i, if i == |ops| - 1 then recipient else router))
  }

  /** One self-call per hop, the last of them paying the recipient, and the final check. */
  function Messages(w: World, ops: seq<SwapOperation>, router: Addr, recipient: Addr, minimum: nat): seq<SubMsg>
    requires ops != []
  {
    var ask := ops[|ops| - 1].ask;
    HopMessages(ops, router, recipient, |ops|)
    + [SubMsg(0, AssertReceived(ask, recipient, Held(w.bank, ask, recipient), minimum))]
  }

  function HopMessages(ops: seq<SwapOperation>, router: Addr, recipient: Addr, n: nat): seq<SubMsg>
    requires n <= |ops|
  {
    seq(n, i requires 0 <= i < n => HopMessage(ops, router, recipient, i))
  }

  /** What the platform does with the messages of one response: each in turn, any failure undoing
      all of them. */
  function Deliver(w: World, router: Addr, msgs: seq<SubMsg>): Result<Ran, RouterError>
    decreases |msgs|
  {
    if msgs == [] then Ok(Ran(w, []))
    else
      match msgs[0].msg
      case ExecuteSwapOperation(op, hop, to) =>
        var first :- Hop(w, router, op, hop, to);
        var rest :- Deliver(first.world, router, msgs[1..]);
        Ok(Ran(rest.world, first.outputs + rest.outputs))
      case AssertReceived(ask, recipient, prevBalance, minimum) =>
        var now := Held(w.bank, ask, recipient);
        if now < prevBalance then Err(BalanceDecreased)
        else if now - prevBalance < minimum then Err(SlippageExceeded)
        else Deliver(w, router, msgs[1..])
  }

  datatype Request = Request(
    sender: Addr, token: TokenType, amount: nat, ops: seq<SwapOperation>, minimum: nat,
    deadline: Option<Timestamp>, recipient: Option<Addr>, now: Timestamp)

  function Recipient(q: Request): Addr {
    if q.recipient.Some? then q.recipient.value else q.sender
  }

  /** Why a request is refused before any coin moves. The first hop must offer the token that came
      in, whichever entry point it came through. */
  function StartFault(q: Request): Option<RouterError> {
    if q.ops == [] then Some(EmptyRoute)
    else if q.ops[0].offer != q.token then Some(WrongEntry)
    else if q.amount == 0 then Some(ZeroAmount)
    else if q.deadline.Some? && q.now > q.deadline.value then Some(DeadlineExceeded)
    else RouteFault(q.ops)
  }

  /** `start_multi_hop`, with the entry points' own check in front. */
  method StartMultiHop(w: World, router: Addr, q: Request) returns (r: Result<seq<SubMsg>, RouterError>)
    ensures match r
      case Ok(msgs) => StartFault(q).None? && msgs == Messages(w, q.ops, router, Recipient(q), q.minimum)
      case Err(e) => StartFault(q) == Some(e)
  {
    if |q.ops| == 0 {
      return Err(EmptyRoute);
    }
    if q.ops[0].offer != q.token {
      return Err(WrongEntry);
    }
    if q.amount == 0 {
      return Err(ZeroAmount);
    }
    if q.deadline.Some? && q.now > q.deadline.value {
      return Err(DeadlineExceeded);
    }
    var invalid := ValidateRoute(q.ops);
    if invalid.Some? {
      return Err(invalid.value);
    }
    var recipient := Recipient(q);
    var lastIdx := |q.ops| - 1;
    var finalAsk := q.ops[lastIdx].ask;
    var initialBalance := Held(w.bank, finalAsk, recipient);
    var messages: seq<SubMsg> := [];
    for idx := 0 to |q.ops|
      invariant messages == HopMessages(q.ops, router, recipient, idx)
    {
      var to := if idx == lastIdx then recipient else router;
      messages := messages + [SubMsg(HopReplyId(idx), ExecuteSwapOperation(q.ops[idx], idx, to))];
    }
    messages := messages + [SubMsg(0, AssertReceived(finalAsk, recipient, initialBalance, q.minimum))];
    return Ok(messages);
  }

  /** The whole transaction: the sender's offer arrives at the router, then the messages run. */
  function Transact(w: World, router: Addr, q: Request): Result<Ran, RouterError> {
    if Held(w.bank, q.token, q.sender) < q.amount then Err(InsufficientFunds)
    else if StartFault(q).Some? then Err(StartFault(q).value)
    else
      var funded := Funded(w, router, q);
      Deliver(funded, router, Messages(funded, q.ops, router, Recipient(q), q.minimum))
  }

  function Funded(w: World, router: Addr, q: Request): World
    requires q.amount <= Held(w.bank, q.token, q.sender)
  {
    w.(bank := Move(w.bank, q.token, q.sender, router, q.amount))
  }

  /** A failed transaction leaves the chain as it was. */
  function After(w: World, router: Addr, q: Request): World {
    match Transact(w, router, q)
    case Ok(r) => r.world
    case Err(_) => w
  }
}
