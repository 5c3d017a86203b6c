/** Which requests the router refuses, and which error a route that fails comes back with. */
module RouterFailures {
  import opened Base
  import opened Assets
  import opened RouterModel

  // ----- Before any coin moves -----

  /** A request is started exactly when its route is valid and begins with the token that came in, there
      is something of it, and the deadline, if any, is not over. */
  lemma StartsExactly(q: Request)
    ensures StartFault(q).None? <==>
            && ValidRoute(q.ops) && q.ops[0].offer == q.token && q.amount > 0
            && (q.deadline.Some? ==> q.now <= q.deadline.value)
  {
    RouteFaultExact(q.ops);
  }

  /** Which of several faults is named. */
  lemma FaultsInOrder(q: Request)
    ensures StartFault(q) == Some(EmptyRoute) <==> q.ops == []
    ensures StartFault(q) == Some(WrongEntry) <==> q.ops != [] && q.ops[0].offer != q.token
    ensures StartFault(q) == Some(ZeroAmount) <==> q.ops != [] && q.ops[0].offer == q.token && q.amount == 0
    ensures StartFault(q) == Some(DeadlineExceeded) <==>
            && q.ops != [] && q.ops[0].offer == q.token && q.amount > 0
            && q.deadline.Some? && q.now > q.deadline.value
  {
  }

  // ----- One hop -----

  /** Everything a hop needs: the router has some of the offer, the pool is there, has left its commit
      phase, trades the offer, prices and accepts it, and holds what it pays. */
  ghost predicate Served(w: World, router: Addr, op: SwapOperation) {
    && Held(w.bank, op.offer, router) > 0 && op.pool in w.pools
    && var p, amount := w.pools[op.pool], Held(w.bank, op.offer, router);
       && p.committed && (op.offer == p.asset0 || op.offer == p.asset1)
       && p.accepts(p.numbers, op.offer == p.asset0, amount)
       && var q := p.quote(p.numbers, op.offer == p.asset0, amount);
          var paid := if op.offer == p.asset0 then p.asset1 else p.asset0;
          q.Some? && q.value.returned
                     <= Held(w.bank, paid, op.pool) + if paid == op.offer && op.pool != router then amount else 0
  }

  /** What the pool holds of an asset once it has taken the offer. */
  lemma AfterTaking(b: Bank, offer: TokenType, router: Addr, pool: Addr, paid: TokenType)
    ensures Held(Move(b, offer, router, pool, Held(b, offer, router)), paid, pool)
            == Held(b, paid, pool) + if paid == offer && pool != router then Held(b, offer, router) else 0
  {
    MoveEffect(b, offer, router, pool, Held(b, offer, router));
  }

  lemma SwapServed(w: World, router: Addr, op: SwapOperation, to: Addr)
    requires Held(w.bank, op.offer, router) > 0
    ensures Swap(w, router, op.pool, op.offer, Held(w.bank, op.offer, router), to).Some? <==> Served(w, router, op)
  {
    if op.pool in w.pools && OtherAsset(w.pools[op.pool], op.offer).Some? {
      AfterTaking(w.bank, op.offer, router, op.pool, OtherAsset(w.pools[op.pool], op.offer).value);
    }
  }

  lemma HopServed(w: World, router: Addr, op: SwapOperation, hop: nat, to: Addr)
    requires hop < 3
    ensures Hop(w, router, op, hop, to).Ok? <==> Served(w, router, op)
    ensures Hop(w, router, op, hop, to).Err? ==> Hop(w, router, op, hop, to) == Err(HopFailed(hop))
  {
    if Held(w.bank, op.offer, router) > 0 {
      SwapServed(w, router, op, to);
    }
  }

  // ----- A whole route -----

  /** Delivering one batch of messages after another. */
  function Joined(first: Result<Ran, RouterError>, router: Addr, later: seq<SubMsg>): Result<Ran, RouterError> {
    match first
    case Err(e) => Err(e)
    case Ok(a) =>
      match Deliver(a.world, router, later)
      case Err(e) => Err(e)
      case Ok(b) => Ok(Ran(b.world, a.outputs + b.outputs))
  }

  lemma {:induction false} DeliverInTwo(w: World, router: Addr, a: seq<SubMsg>, b: seq<SubMsg>)
    ensures Deliver(w, router, a + b) == Joined(Deliver(w, router, a), router, b)
    decreases |a|
  {
    if a == [] {
      assert a + b == b;
      NothingBefore(w, router, b);
    } else {
      assert (a + b)[0] == a[0] && (a + b)[1..] == a[1..] + b;
      match a[0].msg
      case ExecuteSwapOperation(op, hop, to) =>
        if Hop(w, router, op, hop, to).Ok? {
          var first := Hop(w, router, op, hop, to).value;
          DeliverInTwo(first.world, router, a[1..], b);
          Regroup(first.outputs, Deliver(first.world, router, a[1..]), router, b);
        }
      case AssertReceived(_, _, _, _) =>
        DeliverInTwo(w, router, a[1..], b);
    }
  }

  lemma {:induction false} NothingBefore(w: World, router: Addr, b: seq<SubMsg>)
    ensures Joined(Ok(Ran(w, [])), router, b) == Deliver(w, router, b)
  {
    if Deliver(w, router, b).Ok? {
      assert [] + Deliver(w, router, b).value.outputs == Deliver(w, router, b).value.outputs;
    }
  }

  lemma Regroup(x: seq<nat>, r: Result<Ran, RouterError>, router: Addr, b: seq<SubMsg>)
    ensures r.Ok? && Joined(r, router, b).Ok? ==>
              Joined(Ok(Ran(r.value.world, x + r.value.outputs)), router, b)
              == Ok(Ran(Joined(r, router, b).value.world, x + Joined(r, router, b).value.outputs))
  {
    if r.Ok? && Joined(r, router, b).Ok? {
      var later := Deliver(r.value.world, router, b).value.outputs;
      assert x + r.value.outputs + later == x + (r.value.outputs + later);
    }
  }

  /** What the first `n` hops come to. */
  ghost function Hops(w: World, router: Addr, q: Request, n: nat): Result<Ran, RouterError>
    requires n <= |q.ops|
  {
    Deliver(w, router, HopMessages(q.ops, router, Recipient(q), n))
  }

  /** The hop that fails after `k` that went through. */
  ghost predicate FailsAt(w: World, router: Addr, q: Request, k: nat) {
    k < |q.ops| && Hops(w, router, q, k).Ok? && !Served(Hops(w, router, q, k).value.world, router, q.ops[k])
  }

  lemma {:induction false} DeliverOne(w: World, router: Addr, id: nat, op: SwapOperation, hop: nat, to: Addr)
    ensures var r, h := Deliver(w, router, [SubMsg(id, ExecuteSwapOperation(op, hop, to))]), Hop(w, router, op, hop,
              to);
      (r.Ok? <==> h.Ok?) && (h.Err? ==> r == Err(h.error))
  {
    assert [SubMsg(id, ExecuteSwapOperation(op, hop, to))][1..] == [];
  }

  lemma OneMoreHop(ops: seq<SwapOperation>, router: Addr, recipient: Addr, n: nat)
    requires 0 < n <= |ops|
    ensures HopMessages(ops, router, recipient, n)
            == HopMessages(ops, router, recipient, n - 1) + [HopMessage(ops, router, recipient, n - 1)]
  {
  }

  lemma {:induction false} HopsStep(w: World, router: Addr, q: Request, n: nat)
    requires 0 < n <= |q.ops| && Hops(w, router, q, n - 1).Ok?
    ensures var before := Hops(w, router, q, n - 1).value;
      var hop := Hop(before.world, router, q.ops[n - 1], n - 1, if n == |q.ops| then Recipient(q) else router);
      && (Hops(w, router, q, n).Ok? <==> hop.Ok?)
      && (hop.Err? ==> Hops(w, router, q, n) == Err(hop.error))
  {
    var earlier, to := HopMessages(q.ops, router, Recipient(q), n - 1), if n == |q.ops| then Recipient(q) else router;
    var before := Hops(w, router, q, n - 1).value;
    OneMoreHop(q.ops, router, Recipient(q), n);
    DeliverInTwo(w, router, earlier, [HopMessage(q.ops, router, Recipient(q), n - 1)]);
    DeliverOne(before.world, router, HopReplyId(n - 1), q.ops[n - 1], n - 1, to);
  }

  lemma {:induction false} HopsFail(w: World, router: Addr, q: Request, n: nat) returns (k: nat)
    requires n <= |q.ops| <= 3 && Hops(w, router, q, n).Err?
    ensures FailsAt(w, router, q, k) && Hops(w, router, q, n) == Err(HopFailed(k))
  {
    assert n > 0;
    if Hops(w, router, q, n - 1).Err? {
      k := HopsFail(w, router, q, n - 1);
      HopsFailOn(w, router, q, n);
    } else {
      k := n - 1;
      HopsStep(w, router, q, n);
      HopServed(Hops(w, router, q, k).value.world, router, q.ops[k], k, if n == |q.ops| then Recipient(q) else router);
    }
  }

  lemma {:induction false} HopsFailOn(w: World, router: Addr, q: Request, n: nat)
    requires 0 < n <= |q.ops| && Hops(w, router, q, n - 1).Err?
    ensures Hops(w, router, q, n) == Hops(w, router, q, n - 1)
  {
    var earlier, msg := HopMessages(q.ops, router, Recipient(q), n - 1), HopMessage(q.ops, router, Recipient(q), n - 1);
    OneMoreHop(q.ops, router, Recipient(q), n);
    DeliverInTwo(w, router, earlier, [msg]);
  }

  /** The final check, on top of hops that all went through. */
  lemma {:induction false} CheckOutcome(w: World, router: Addr, ask: TokenType, recipient: Addr, prev: nat,
        minimum: nat)
    ensures var r := Deliver(w, router, [SubMsg(0, AssertReceived(ask, recipient, prev, minimum))]);
      r == if Held(w.bank, ask, recipient) < prev then Err(BalanceDecreased)
           else if Held(w.bank, ask, recipient) < prev + minimum then Err(SlippageExceeded)
           else Ok(Ran(w, []))
  {
    assert [SubMsg(0, AssertReceived(ask, recipient, prev, minimum))][1..] == [];
  }

  /** The outcome of any request. Without the funds, or with a fault, no coin moves. Otherwise the hops
      run in order: the first the router or its pool cannot serve fails the whole under its own number;
      when all go through, the request succeeds exactly when the recipient's balance of the last asset
      has grown by the minimum. */
  lemma {:induction false} RouteOutcome(w: World, router: Addr, q: Request) returns (k: nat)
    ensures var t := Transact(w, router, q);
      if Held(w.bank, q.token, q.sender) < q.amount then t == Err(InsufficientFunds)
      else if StartFault(q).Some? then t == Err(StartFault(q).value)
      else
        var funded, n := Funded(w, router, q), |q.ops|;
        if Hops(funded, router, q, n).Err? then t == Err(HopFailed(k)) && FailsAt(funded, router, q, k)
        else
          var end, ask := Hops(funded, router, q, n).value, q.ops[n - 1].ask;
          var recipient := if q.recipient.Some? then q.recipient.value else q.sender;
          var before, after := Held(funded.bank, ask, recipient), Held(end.world.bank, ask, recipient);
          t == if after < before then Err(BalanceDecreased)
               else if after < before + q.minimum then Err(SlippageExceeded)
               else Ok(end)
  {
    k := 0;
    if Held(w.bank, q.token, q.sender) >= q.amount && StartFault(q).None? {
      StartsExactly(q);
      var funded, n := Funded(w, router, q), |q.ops|;
      var ask := q.ops[n - 1].ask;
      var prev := Held(funded.bank, ask, Recipient(q));
      var check := SubMsg(0, AssertReceived(ask, Recipient(q), prev, q.minimum));
      DeliverInTwo(funded, router, HopMessages(q.ops, router, Recipient(q), n), [check]);
      if Hops(funded, router, q, n).Err? {
        k := HopsFail(funded, router, q, n);
      } else {
        var end := Hops(funded, router, q, n).value;
        CheckOutcome(end.world, router, ask, Recipient(q), prev, q.minimum);
        assert end.outputs + [] == end.outputs;
      }
    }
  }
}
