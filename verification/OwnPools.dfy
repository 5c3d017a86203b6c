/** Routes over the repository's own pools, and what their previews are worth. */
module OwnPools {
  import opened Base
  import opened Assets
  import opened RouterModel
  import opened RouterRuns
  import opened Simulation
  import opened PoolSwap

  // ----- A route visits no pool twice -----

  /** The pools of the route make a sender wait between swaps. */
  ghost predicate Paced(pools: map<Addr, Pool>, ops: seq<SwapOperation>) {
    forall i :: 0 <= i < |ops| && ops[i].pool in pools ==>
      Own(pools[ops[i].pool]) && pools[ops[i].pool].numbers[3] > 0
  }

  /** Once the router has swapped in such a pool, the rest of the route cannot. */
  lemma {:induction false} WaitingPool(pools: map<Addr, Pool>, ops: seq<SwapOperation>, amount: nat, pool: Addr)
    requires pool in pools && Own(pools[pool]) && pools[pool].numbers[4] != 0
    requires Chain(pools, ops, amount).Some?
    ensures forall i :: 0 <= i < |ops| ==> ops[i].pool != pool
  {
    if ops != [] {
      assert ops[0].pool != pool;
      var q := QuoteOf(pools[ops[0].pool], ops[0].offer, amount).value;
      WaitingPool(Traded(pools, ops[0].pool, q), ops[1..], q.returned, pool);
      forall i | 0 <= i < |ops|
        ensures ops[i].pool != pool
      {
        if i > 0 {
          assert ops[1..][i - 1] == ops[i];
        }
      }
    }
  }

  lemma PacedAfter(pools: map<Addr, Pool>, ops: seq<SwapOperation>, amount: nat)
    requires ops != [] && Paced(pools, ops) && ops[0].pool in pools && Accepts(pools[ops[0].pool], ops[0].offer, amount)
    requires QuoteOf(pools[ops[0].pool], ops[0].offer, amount).Some?
    ensures var now := Traded(pools, ops[0].pool, QuoteOf(pools[ops[0].pool], ops[0].offer, amount).value);
      Paced(now, ops[1..]) && Own(now[ops[0].pool]) && now[ops[0].pool].numbers[4] == 1
  {
    var p := pools[ops[0].pool];
    assert Own(p) && p.numbers[3] > 0;
    AcceptedFits(p, ops[0].offer, amount);
    forall i | 0 <= i < |ops[1..]|
      ensures ops[1..][i] == ops[i + 1]
    {
    }
  }

  lemma {:induction false} ChainDistinct(pools: map<Addr, Pool>, ops: seq<SwapOperation>, amount: nat)
    requires Paced(pools, ops) && Chain(pools, ops, amount).Some?
    ensures DistinctPools(ops)
  {
    if ops != [] {
      var q := QuoteOf(pools[ops[0].pool], ops[0].offer, amount).value;
      var now := Traded(pools, ops[0].pool, q);
      PacedAfter(pools, ops, amount);
      WaitingPool(now, ops[1..], q.returned, ops[0].pool);
      ChainDistinct(now, ops[1..], q.returned);
      forall i, j | 0 <= i < j < |ops|
        ensures ops[i].pool != ops[j].pool
      {
        assert ops[1..][j - 1] == ops[j];
        if i > 0 {
          assert ops[1..][i - 1] == ops[i];
        }
      }
    }
  }

  /** A clean request: the router holds none of the route's tokens, and the recipient is neither the
      router nor one of its pools. */
  ghost predicate CleanRequest(w: World, router: Addr, q: Request) {
    && (q.ops != [] ==> HoldsNone(w.bank, router, q.ops)) && Outsider(Recipient(q), router, q.ops)
    && q.sender != router && forall i :: 0 <= i < |q.ops| ==> q.ops[i].pool != router
  }

  /** The interval between two swaps of one sender counts for the router too: over the repository's own
      pools, unless one has the interval switched off, a route that goes through visits no pool twice. */
  lemma {:induction false} NoPoolTwice(w: World, router: Addr, q: Request)
    requires Transact(w, router, q).Ok? && CleanRequest(w, router, q) && Paced(w.pools, q.ops)
    ensures DistinctPools(q.ops)
  {
    RouteSettles(w, router, q);
    ChainDistinct(w.pools, q.ops, q.amount);
  }

  // ----- The preview -----

  /** The pool holds its reserves and nothing more. */
  ghost predicate Reconciled(w: World, pool: Addr) {
    pool in w.pools && Own(w.pools[pool])
    && Held(w.bank, w.pools[pool].asset0, pool) == w.pools[pool].numbers[0]
    && Held(w.bank, w.pools[pool].asset1, pool) == w.pools[pool].numbers[1]
  }

  lemma ReconciledForetells(w: World, op: SwapOperation, input: nat, out: nat)
    requires Reconciled(w, op.pool) && Served(w.pools, op, input, out)
    ensures Foretold(w, op, input, out)
  {
    AcceptedFits(w.pools[op.pool], op.offer, input);
  }

  /** Over own pools that hold exactly their reserves, the preview of a route that goes through is right. */
  lemma {:induction false} OwnPreview(w: World, router: Addr, q: Request)
    requires Transact(w, router, q).Ok? && CleanRequest(w, router, q) && Paced(w.pools, q.ops)
    requires forall i :: 0 <= i < |q.ops| ==> Reconciled(w, q.ops[i].pool)
    ensures Outputs(w, q.ops, q.amount, |q.ops|) == Ok(Transact(w, router, q).value.outputs)
  {
    NoPoolTwice(w, router, q);
    PreviewAgrees(w, router, q);
    var outputs := Transact(w, router, q).value.outputs;
    forall k | 0 <= k < |q.ops|
      ensures Foretold(w, q.ops[k], InputOf(outputs, q.amount, k), outputs[k])
    {
      assert Served(w.pools, q.ops[k], InputOf(outputs, q.amount, k), outputs[k]);
      ReconciledForetells(w, q.ops[k], InputOf(outputs, q.amount, k), outputs[k]);
    }
  }

  /** What a pool holds of its first or second asset beyond its reserve. */
  ghost function Surplus(w: World, pool: Addr, first: bool): int
    requires pool in w.pools && Own(w.pools[pool])
  {
    var p := w.pools[pool];
    if first then Held(w.bank, p.asset0, pool) - p.numbers[0] else Held(w.bank, p.asset1, pool) - p.numbers[1]
  }

  /** The fee of an offer. */
  ghost function FeeOf(p: Pool, first: bool, amount: Uint128): nat
    requires Own(p)
  {
    match ComputeSwap(OfferReserve(p.numbers, first), AskReserve(p.numbers, first), amount, p.numbers[2])
    case None => 0
    case Some(s) => s.commission
  }

  /** The fee stays with the pool but leaves its reserve, so every hop puts the two apart on the side it
      pays, by exactly the fee: a pool that was reconciled before is so after only if the fee was
      nothing. */
  lemma FeesPart(w: World, router: Addr, op: SwapOperation, hop: nat, to: Addr)
    requires op.pool in w.pools && Own(w.pools[op.pool]) && op.pool != router && op.pool != to
    requires Hop(w, router, op, hop, to).Ok?
    ensures var p, amount := w.pools[op.pool], Held(w.bank, op.offer, router);
      var first, after := op.offer == p.asset0, Hop(w, router, op, hop, to).value.world;
      && amount <= U128_MAX && op.pool in after.pools && Own(after.pools[op.pool])
      && Surplus(after, op.pool, first) == Surplus(w, op.pool, first)
      && Surplus(after, op.pool, !first) == Surplus(w, op.pool, !first) + FeeOf(p, first, amount)
  {
    var p, amount := w.pools[op.pool], Held(w.bank, op.offer, router);
    var q, paid := QuoteOf(p, op.offer, amount).value, OtherAsset(p, op.offer).value;
    AcceptedFits(p, op.offer, amount);
    MoveEffect(w.bank, op.offer, router, op.pool, amount);
    var taken := Move(w.bank, op.offer, router, op.pool, amount);
    MoveEffect(taken, paid, op.pool, to, q.returned);
    var after := Hop(w, router, op, hop, to).value.world;
    assert after.bank == Move(taken, paid, op.pool, to, q.returned) && after.pools[op.pool] == p.(numbers := q.next);
  }
}
