/** What a routed swap does to everyone's holdings. */
module RouterRuns {
  import opened Base
  import opened Assets
  import opened RouterModel

  /** The amounts a route turns its input into, looking at the pools alone: each hop's pool accepts
      the previous hop's output, in the state the earlier hops left it. */
  ghost function Chain(pools: map<Addr, Pool>, ops: seq<SwapOperation>, amount: nat): Option<seq<nat>>
    decreases |ops|
  {
    if ops == [] then Some([])
    else if ops[0].pool !in pools || !pools[ops[0].pool].committed then None
    else
      var q := QuoteOf(pools[ops[0].pool], ops[0].offer, amount);
      if q.None? || !Accepts(pools[ops[0].pool], ops[0].offer, amount) then None
      else
        var rest := Chain(Traded(pools, ops[0].pool, q.value), ops[1..], q.value.returned);
        if rest.None? then None else Some([q.value.returned] + rest.value)
  }

  /** The router holds what it held in `base`, and `amount` of `token` on top. */
  ghost predicate Carries(b: Bank, base: Bank, router: Addr, token: TokenType, amount: nat) {
    forall t :: Held(b, t, router) == Held(base, t, router) + if t == token then amount else 0
  }

  ghost predicate HoldsNone(b: Bank, router: Addr, ops: seq<SwapOperation>) {
    forall i :: 0 <= i < |ops| ==> Held(b, ops[i].offer, router) == 0 && Held(b, ops[i].ask, router) == 0
  }

  ghost predicate SameSupply(b: Bank, c: Bank) {
    forall t :: Supply(b, t) == Supply(c, t)
  }

  /** What a pool really pays for a hop's offer. */
  ghost function Pays(pools: map<Addr, Pool>, op: SwapOperation): Option<TokenType> {
    if op.pool in pools then OtherAsset(pools[op.pool], op.offer) else None
  }

  /** `a` is neither the router nor a pool of the route. */
  ghost predicate Outsider(a: Addr, router: Addr, ops: seq<SwapOperation>) {
    a != router && forall i :: 0 <= i < |ops| ==> ops[i].pool != a
  }

  /** `amount` of `offer` went from the router to the pool, `out` of `paid` from the pool to `to`. */
  ghost predicate Exchanged(before: Bank, after: Bank, router: Addr, pool: Addr, offer: TokenType, amount: nat,
        paid: TokenType, out: nat, to: Addr) {
    forall t, a :: a != pool ==>
      Held(after, t, a) == Held(before, t, a)
        - (if a == router && t == offer then amount else 0)
        + (if a == to && t == paid then out else 0)
  }

  lemma MovesExchange(b: Bank, router: Addr, pool: Addr, offer: TokenType, amount: nat, paid: TokenType, out: nat,
        to: Addr)
    requires pool != router && amount == Held(b, offer, router)
    requires out <= Held(Move(b, offer, router, pool, amount), paid, pool)
    ensures var after := Move(Move(b, offer, router, pool, amount), paid, pool, to, out);
      Exchanged(b, after, router, pool, offer, amount, paid, out, to) && SameSupply(after, b)
  {
    MoveEffect(b, offer, router, pool, amount);
    MoveEffect(Move(b, offer, router, pool, amount), paid, pool, to, out);
  }

  /** One successful hop: the router's whole balance of the offer becomes the pool's output, which
      goes to `to`; nothing is created or lost. */
  lemma HopEffect(w: World, router: Addr, op: SwapOperation, hop: nat, to: Addr)
    requires Hop(w, router, op, hop, to).Ok? && op.pool != router
    ensures var amount := Held(w.bank, op.offer, router);
      var r := Hop(w, router, op, hop, to).value;
      && amount > 0 && op.pool in w.pools && w.pools[op.pool].committed && Pays(w.pools, op).Some?
      && var q := QuoteOf(w.pools[op.pool], op.offer, amount);
         && q.Some? && Accepts(w.pools[op.pool], op.offer, amount) && r.outputs == [q.value.returned]
         && r.world.pools == Traded(w.pools, op.pool, q.value)
         && SameSupply(r.world.bank, w.bank)
         && Exchanged(w.bank, r.world.bank, router, op.pool, op.offer, amount, Pays(w.pools, op).value,
             q.value.returned, to)
  {
    var amount := Held(w.bank, op.offer, router);
    var q := QuoteOf(w.pools[op.pool], op.offer, amount).value;
    MovesExchange(w.bank, router, op.pool, op.offer, amount, Pays(w.pools, op).value, q.returned, to);
  }

  // ----- A whole route -----

  /** The messages still to run once `i` hops are done. */
  ghost function Remaining(ops: seq<SwapOperation>, router: Addr, recipient: Addr, i: nat, check: SubMsg): seq<SubMsg>
    requires i <= |ops|
    decreases |ops| - i
  {
    if i == |ops| then [check]
    else [HopMessage(ops, router, recipient, i)] + Remaining(ops, router, recipient, i + 1, check)
  }

  lemma {:induction false} RemainingIsSuffix(ops: seq<SwapOperation>, router: Addr, recipient: Addr, i: nat,
        check: SubMsg)
    requires i <= |ops|
    ensures Remaining(ops, router, recipient, i, check) == (HopMessages(ops, router, recipient, |ops|) + [check])[i..]
    decreases |ops| - i
  {
    if i < |ops| {
      RemainingIsSuffix(ops, router, recipient, i + 1, check);
    }
  }

  /** The hypotheses under which a route is clean. */
  ghost predicate CleanRoute(base: Bank, router: Addr, ops: seq<SwapOperation>, recipient: Addr) {
    && ValidRoute(ops) && HoldsNone(base, router, ops)
    && Outsider(recipient, router, ops)
    && forall i :: 0 <= i < |ops| ==> ops[i].pool != router
  }

  /** In the middle of a route, the router can offer the next token only if the pool paid it, and
      then carries exactly what the pool paid. */
  lemma MiddleHop(before: Bank, after: Bank, base: Bank, router: Addr, op: SwapOperation, amount: nat,
        paid: TokenType, out: nat)
    requires Carries(before, base, router, op.offer, amount) && op.pool != router && op.offer != op.ask
    requires Held(base, op.offer, router) == 0 && Held(base, op.ask, router) == 0
    requires Exchanged(before, after, router, op.pool, op.offer, amount, paid, out, router)
    requires Held(after, op.ask, router) > 0
    ensures paid == op.ask && Carries(after, base, router, op.ask, out)
  {
    assert Held(before, op.ask, router) == 0;
  }

  lemma LastHop(before: Bank, after: Bank, base: Bank, router: Addr, op: SwapOperation, amount: nat, paid: TokenType,
        out: nat, to: Addr)
    requires Carries(before, base, router, op.offer, amount) && op.pool != router && to != router
    requires Exchanged(before, after, router, op.pool, op.offer, amount, paid, out, to)
    ensures Carries(after, base, router, op.ask, 0)
  {
  }

  lemma {:induction false} DeliverHop(w: World, router: Addr, op: SwapOperation, hop: nat, to: Addr, id: nat,
        rest: seq<SubMsg>)
    requires Deliver(w, router, [SubMsg(id, ExecuteSwapOperation(op, hop, to))] + rest).Ok?
    ensures Hop(w, router, op, hop, to).Ok?
    ensures var first := Hop(w, router, op, hop, to).value;
      && Deliver(first.world, router, rest).Ok?
      && Deliver(w, router, [SubMsg(id, ExecuteSwapOperation(op, hop, to))] + rest).value
         == Ran(Deliver(first.world, router, rest).value.world,
                first.outputs + Deliver(first.world, router, rest).value.outputs)
  {
    assert ([SubMsg(id, ExecuteSwapOperation(op, hop, to))] + rest)[1..] == rest;
  }

  lemma {:induction false} DeliverCheck(w: World, router: Addr, ask: TokenType, recipient: Addr, prev: nat,
        minimum: nat)
    requires Deliver(w, router, [SubMsg(0, AssertReceived(ask, recipient, prev, minimum))]).Ok?
    ensures Deliver(w, router, [SubMsg(0, AssertReceived(ask, recipient, prev, minimum))]).value == Ran(w, [])
    ensures Held(w.bank, ask, recipient) >= prev + minimum
  {
    assert [SubMsg(0, AssertReceived(ask, recipient, prev, minimum))][1..] == [];
  }

  function Check(ops: seq<SwapOperation>, recipient: Addr, prev: nat, minimum: nat): SubMsg
    requires ops != []
  {
    SubMsg(0, AssertReceived(ops[|ops| - 1].ask, recipient, prev, minimum))
  }

  /** What a finished route guarantees, seen from before its hop `i`. */
  ghost predicate Settled(w: World, r: Ran, base: Bank, router: Addr, ops: seq<SwapOperation>, recipient: Addr,
        i: nat, amount: nat)
    requires i < |ops|
  {
    var last := ops[|ops| - 1];
    && Carries(r.world.bank, base, router, last.ask, 0)
    && SameSupply(r.world.bank, w.bank)
    && |r.outputs| == |ops| - i
    && Chain(w.pools, ops[i..], amount) == Some(r.outputs)
    && forall t :: Held(r.world.bank, t, recipient)
         == Held(w.bank, t, recipient) + if Some(t) == Pays(w.pools, last) then r.outputs[|r.outputs| - 1] else 0
  }

  lemma {:induction false} ChainStep(pools: map<Addr, Pool>, ops: seq<SwapOperation>, i: nat, amount: nat)
    requires i < |ops| && ops[i].pool in pools && pools[ops[i].pool].committed
    ensures var q := QuoteOf(pools[ops[i].pool], ops[i].offer, amount);
      q.Some? && Accepts(pools[ops[i].pool], ops[i].offer, amount) ==>
        var rest := Chain(Traded(pools, ops[i].pool, q.value), ops[i + 1..], q.value.returned);
        Chain(pools, ops[i..], amount) == if rest.None? then None else Some([q.value.returned] + rest.value)
  {
    assert ops[i..][1..] == ops[i + 1..];
  }

  /** The exchange made by hop `i` of a route. */
  ghost predicate HopDone(w: World, first: World, router: Addr, op: SwapOperation, amount: nat, out: nat, to: Addr) {
    && op.pool in w.pools && w.pools[op.pool].committed && Pays(w.pools, op).Some?
    && var q := QuoteOf(w.pools[op.pool], op.offer, amount);
       && q.Some? && q.value.returned == out && Accepts(w.pools[op.pool], op.offer, amount)
       && first.pools == Traded(w.pools, op.pool, q.value)
       && SameSupply(first.bank, w.bank)
       && Exchanged(w.bank, first.bank, router, op.pool, op.offer, amount, Pays(w.pools, op).value, out, to)
  }

  lemma SettleLast(w: World, first: World, base: Bank, router: Addr, ops: seq<SwapOperation>, recipient: Addr,
        amount: nat, out: nat)
    requires CleanRoute(base, router, ops, recipient)
    requires var op := ops[|ops| - 1];
      Carries(w.bank, base, router, op.offer, amount) && HopDone(w, first, router, op, amount, out, recipient)
    ensures Settled(w, Ran(first, [out]), base, router, ops, recipient, |ops| - 1, amount)
  {
    var op := ops[|ops| - 1];
    LastHop(w.bank, first.bank, base, router, op, amount, Pays(w.pools, op).value, out, recipient);
    ChainStep(w.pools, ops, |ops| - 1, amount);
    assert ops[|ops|..] == [] && Chain(first.pools, ops[|ops|..], out) == Some([]);
    assert [out] + [] == [out];
  }

  lemma SettleMiddle(w: World, first: World, r: Ran, base: Bank, router: Addr, ops: seq<SwapOperation>,
        recipient: Addr, i: nat, amount: nat, out: nat)
    requires i + 1 < |ops| && recipient != router && ops[i].pool != recipient
    requires HopDone(w, first, router, ops[i], amount, out, router)
    requires Settled(first, r, base, router, ops, recipient, i + 1, out)
    ensures Settled(w, Ran(r.world, [out] + r.outputs), base, router, ops, recipient, i, amount)
  {
    ChainStep(w.pools, ops, i, amount);
    TradedPays(w.pools, ops[i].pool, QuoteOf(w.pools[ops[i].pool], ops[i].offer, amount).value, ops[|ops| - 1]);
    OutsiderKeeps(w.bank, first.bank, router, ops[i], amount, Pays(w.pools, ops[i]).value, out, recipient);
  }

  /** A trade does not change which assets a pool pairs. */
  lemma TradedPays(pools: map<Addr, Pool>, pool: Addr, q: Quote, op: SwapOperation)
    requires pool in pools
    ensures Pays(Traded(pools, pool, q), op) == Pays(pools, op)
  {
  }

  lemma OutsiderKeeps(before: Bank, after: Bank, router: Addr, op: SwapOperation, amount: nat, paid: TokenType,
        out: nat, recipient: Addr)
    requires Exchanged(before, after, router, op.pool, op.offer, amount, paid, out, router)
    requires recipient != router && recipient != op.pool
    ensures forall t :: Held(after, t, recipient) == Held(before, t, recipient)
  {
  }

  /** The remaining messages run the next hop first. */
  lemma {:induction false} NextRuns(w: World, router: Addr, ops: seq<SwapOperation>, recipient: Addr, i: nat,
        check: SubMsg)
    requires i < |ops| && Deliver(w, router, Remaining(ops, router, recipient, i, check)).Ok?
    ensures var to := if i == |ops| - 1 then recipient else router;
      && Hop(w, router, ops[i], i, to).Ok?
      && var ran := Hop(w, router, ops[i], i, to).value;
         && Deliver(ran.world, router, Remaining(ops, router, recipient, i + 1, check)).Ok?
         && var later := Deliver(ran.world, router, Remaining(ops, router, recipient, i + 1, check)).value;
            Deliver(w, router, Remaining(ops, router, recipient, i, check)).value
            == Ran(later.world, ran.outputs + later.outputs)
  {
    var to := if i == |ops| - 1 then recipient else router;
    DeliverHop(w, router, ops[i], i, to, HopReplyId(i), Remaining(ops, router, recipient, i + 1, check));
  }

  /** A hop that goes through found something of its offer at the router. */
  lemma {:induction false} NextHopIsFunded(w: World, router: Addr, ops: seq<SwapOperation>, recipient: Addr, i: nat,
        check: SubMsg)
    requires i < |ops| && Deliver(w, router, Remaining(ops, router, recipient, i, check)).Ok?
    ensures Held(w.bank, ops[i].offer, router) > 0
  {
    NextRuns(w, router, ops, recipient, i, check);
  }

  lemma {:induction false} DeliverRoute(
    w: World, base: Bank, router: Addr, ops: seq<SwapOperation>, recipient: Addr, i: nat, amount: nat, prev: nat,
        minimum: nat)
    requires CleanRoute(base, router, ops, recipient) && i < |ops|
    requires Carries(w.bank, base, router, ops[i].offer, amount)
    requires Deliver(w, router, Remaining(ops, router, recipient, i, Check(ops, recipient, prev, minimum))).Ok?
    ensures var check := Check(ops, recipient, prev, minimum);
      var r := Deliver(w, router, Remaining(ops, router, recipient, i, check)).value;
      && Settled(w, r, base, router, ops, recipient, i, amount)
      && Held(r.world.bank, ops[|ops| - 1].ask, recipient) >= prev + minimum
    decreases |ops| - i
  {
    if i == |ops| - 1 {
      DeliverLast(w, base, router, ops, recipient, amount, prev, minimum);
    } else {
      var check := Check(ops, recipient, prev, minimum);
      var first, out := DeliverNext(w, base, router, ops, recipient, i, amount, check);
      DeliverRoute(first, base, router, ops, recipient, i + 1, out, prev, minimum);
      var r := Deliver(first, router, Remaining(ops, router, recipient, i + 1, check)).value;
      SettleMiddle(w, first, r, base, router, ops, recipient, i, amount, out);
    }
  }

  /** The last hop pays the recipient and passes the check. */
  lemma {:induction false} DeliverLast(w: World, base: Bank, router: Addr, ops: seq<SwapOperation>, recipient: Addr,
        amount: nat, prev: nat, minimum: nat)
    requires CleanRoute(base, router, ops, recipient)
    requires Carries(w.bank, base, router, ops[|ops| - 1].offer, amount)
    requires Deliver(w, router, Remaining(ops, router, recipient, |ops| - 1, Check(ops, recipient, prev, minimum))).Ok?
    ensures var r :=
        Deliver(w, router, Remaining(ops, router, recipient, |ops| - 1, Check(ops, recipient, prev, minimum))).value;
      && Settled(w, r, base, router, ops, recipient, |ops| - 1, amount)
      && Held(r.world.bank, ops[|ops| - 1].ask, recipient) >= prev + minimum
  {
    var first, out := LastDelivered(w, base, router, ops, recipient, amount, prev, minimum);
    SettleLast(w, first, base, router, ops, recipient, amount, out);
  }

  lemma {:induction false} LastDelivered(w: World, base: Bank, router: Addr, ops: seq<SwapOperation>, recipient: Addr,
        amount: nat, prev: nat, minimum: nat) returns (first: World, out: nat)
    requires CleanRoute(base, router, ops, recipient)
    requires Carries(w.bank, base, router, ops[|ops| - 1].offer, amount)
    requires Deliver(w, router, Remaining(ops, router, recipient, |ops| - 1, Check(ops, recipient, prev, minimum))).Ok?
    ensures HopDone(w, first, router, ops[|ops| - 1], amount, out, recipient)
    ensures Deliver(w, router, Remaining(ops, router, recipient, |ops| - 1, Check(ops, recipient, prev, minimum))).value
            == Ran(first, [out])
    ensures Held(first.bank, ops[|ops| - 1].ask, recipient) >= prev + minimum
  {
    var i := |ops| - 1;
    first, out := HopDelivered(w, base, router, ops, recipient, i, amount, Check(ops, recipient, prev, minimum));
    CheckPassed(first, router, ops, recipient, i + 1, prev, minimum);
    assert [out] + [] == [out];
  }

  /** With no hop left, only the check remains. */
  lemma {:induction false} CheckPassed(w: World, router: Addr, ops: seq<SwapOperation>, recipient: Addr, i: nat,
        prev: nat, minimum: nat)
    requires i == |ops| > 0
    requires Deliver(w, router, Remaining(ops, router, recipient, i, Check(ops, recipient, prev, minimum))).Ok?
    ensures Deliver(w, router, Remaining(ops, router, recipient, i, Check(ops, recipient, prev, minimum))).value
              == Ran(w, [])
    ensures Held(w.bank, ops[i - 1].ask, recipient) >= prev + minimum
  {
    DeliverCheck(w, router, ops[i - 1].ask, recipient, prev, minimum);
  }

  /** Any earlier hop pays the router what the next one offers. */
  lemma {:induction false} DeliverNext(w: World, base: Bank, router: Addr, ops: seq<SwapOperation>, recipient: Addr,
        i: nat, amount: nat, check: SubMsg) returns (first: World, out: nat)
    requires CleanRoute(base, router, ops, recipient) && i + 1 < |ops|
    requires Carries(w.bank, base, router, ops[i].offer, amount)
    requires Deliver(w, router, Remaining(ops, router, recipient, i, check)).Ok?
    ensures HopDone(w, first, router, ops[i], amount, out, router)
    ensures Carries(first.bank, base, router, ops[i + 1].offer, out)
    ensures Deliver(first, router, Remaining(ops, router, recipient, i + 1, check)).Ok?
    ensures var later := Deliver(first, router, Remaining(ops, router, recipient, i + 1, check)).value;
      Deliver(w, router, Remaining(ops, router, recipient, i, check)).value == Ran(later.world, [out] + later.outputs)
  {
    first, out := HopDelivered(w, base, router, ops, recipient, i, amount, check);
    NextHopIsFunded(first, router, ops, recipient, i + 1, check);
    MiddleHop(w.bank, first.bank, base, router, ops[i], amount, Pays(w.pools, ops[i]).value, out);
  }

  /** The first of the remaining hops, and the delivery of the others. */
  lemma {:induction false} HopDelivered(w: World, base: Bank, router: Addr, ops: seq<SwapOperation>, recipient: Addr,
        i: nat, amount: nat, check: SubMsg) returns (first: World, out: nat)
    requires CleanRoute(base, router, ops, recipient) && i < |ops|
    requires Carries(w.bank, base, router, ops[i].offer, amount)
    requires Deliver(w, router, Remaining(ops, router, recipient, i, check)).Ok?
    ensures HopDone(w, first, router, ops[i], amount, out, if i == |ops| - 1 then recipient else router)
    ensures Deliver(first, router, Remaining(ops, router, recipient, i + 1, check)).Ok?
    ensures var later := Deliver(first, router, Remaining(ops, router, recipient, i + 1, check)).value;
      Deliver(w, router, Remaining(ops, router, recipient, i, check)).value == Ran(later.world, [out] + later.outputs)
  {
    var to := if i == |ops| - 1 then recipient else router;
    NextRuns(w, router, ops, recipient, i, check);
    var ran := FirstHop(w, base, router, ops[i], i, to, amount);
    first, out := ran.world, ran.outputs[0];
    assert ran.outputs == [out];
  }

  lemma FirstHop(w: World, base: Bank, router: Addr, op: SwapOperation, i: nat, to: Addr,
        amount: nat) returns (first: Ran)
    requires Hop(w, router, op, i, to).Ok? && op.pool != router
    requires Carries(w.bank, base, router, op.offer, amount) && Held(base, op.offer, router) == 0
    ensures first == Hop(w, router, op, i, to).value && |first.outputs| == 1
    ensures HopDone(w, first.world, router, op, amount, first.outputs[0], to)
  {
    assert Held(w.bank, op.offer, router) == amount;
    HopEffect(w, router, op, i, to);
    first := Hop(w, router, op, i, to).value;
  }

  /** A successful route, from a router holding none of its tokens, to a recipient that is neither
      the router nor one of its pools: the router ends as it began, every token's supply is
      unchanged, each pool was fed exactly the previous pool's output, and the recipient's balance of
      the final asset rose by at least the minimum, namely by the last output unless the last pool
      pays some other asset than the route declares, which only a minimum of zero lets through. */
  lemma RouteSettles(w: World, router: Addr, q: Request)
    requires Transact(w, router, q).Ok?
    requires q.ops != [] ==> HoldsNone(w.bank, router, q.ops)
    requires Outsider(Recipient(q), router, q.ops)
    requires q.sender != router && forall i :: 0 <= i < |q.ops| ==> q.ops[i].pool != router
    ensures var r := Transact(w, router, q).value;
      && q.ops != []
      && var ask, got := q.ops[|q.ops| - 1].ask, r.outputs;
         && (forall t :: Held(r.world.bank, t, router) == Held(w.bank, t, router))
         && SameSupply(r.world.bank, w.bank)
         && |got| == |q.ops| && Chain(w.pools, q.ops, q.amount) == Some(got)
         && Held(r.world.bank, ask, Recipient(q)) >= Held(w.bank, ask, Recipient(q)) + q.minimum
         && Held(r.world.bank, ask, Recipient(q)) == Held(w.bank, ask, Recipient(q))
              + (if Pays(w.pools, q.ops[|q.ops| - 1]) == Some(ask) then got[|got| - 1] else 0)
  {
    var funded, r := SettledFromStart(w, router, q);
    var ask, recipient := q.ops[|q.ops| - 1].ask, Recipient(q);
    assert q.ops[0..] == q.ops;
    assert Held(funded.bank, ask, recipient) == Held(w.bank, ask, recipient);
  }

  lemma SettledFromStart(w: World, router: Addr, q: Request) returns (funded: World, r: Ran)
    requires Transact(w, router, q).Ok?
    requires q.ops != [] ==> HoldsNone(w.bank, router, q.ops)
    requires Outsider(Recipient(q), router, q.ops)
    requires q.sender != router && forall i :: 0 <= i < |q.ops| ==> q.ops[i].pool != router
    ensures r == Transact(w, router, q).value && ValidRoute(q.ops)
    ensures Settled(funded, r, w.bank, router, q.ops, Recipient(q), 0, q.amount)
    ensures var ask := q.ops[|q.ops| - 1].ask;
      Held(r.world.bank, ask, Recipient(q)) >= Held(funded.bank, ask, Recipient(q)) + q.minimum
    ensures SameSupply(funded.bank, w.bank) && funded.pools == w.pools
    ensures forall t, a :: t != q.ops[0].offer ==> Held(funded.bank, t, a) == Held(w.bank, t, a)
  {
    RouteFaultExact(q.ops);
    funded, r := Funded(w, router, q), Transact(w, router, q).value;
    var recipient := Recipient(q);
    FundingEffect(w, router, q);
    var prev := Held(funded.bank, q.ops[|q.ops| - 1].ask, recipient);
    MessagesRemain(funded, q.ops, router, recipient, prev, q.minimum);
    var check := Check(q.ops, recipient, prev, q.minimum);
    assert Deliver(funded, router, Remaining(q.ops, router, recipient, 0, check)) == Ok(r);
    DeliverRoute(funded, w.bank, router, q.ops, recipient, 0, q.amount, prev, q.minimum);
  }

  lemma FundingEffect(w: World, router: Addr, q: Request)
    requires q.amount <= Held(w.bank, q.token, q.sender) && q.sender != router
    ensures var funded := Funded(w, router, q);
      && Carries(funded.bank, w.bank, router, q.token, q.amount) && SameSupply(funded.bank, w.bank)
      && funded.pools == w.pools
      && forall t, a :: t != q.token ==> Held(funded.bank, t, a) == Held(w.bank, t, a)
  {
    MoveEffect(w.bank, q.token, q.sender, router, q.amount);
  }

  lemma {:induction false} MessagesRemain(w: World, ops: seq<SwapOperation>, router: Addr, recipient: Addr, prev: nat,
        minimum: nat)
    requires ops != [] && prev == Held(w.bank, ops[|ops| - 1].ask, recipient)
    ensures Messages(w, ops, router, recipient, minimum)
              == Remaining(ops, router, recipient, 0, Check(ops, recipient, prev, minimum))
  {
    var check := Check(ops, recipient, prev, minimum);
    RemainingIsSuffix(ops, router, recipient, 0, check);
    var msgs := HopMessages(ops, router, recipient, |ops|) + [check];
    assert msgs[0..] == msgs;
  }
}
