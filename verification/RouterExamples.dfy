/** Requests that go through, one for each way a preview or a declared asset can mislead. */
module RouterExamples {
  import opened Base
  import opened Assets
  import opened RouterModel
  import opened RouterRuns
  import opened Simulation
  import opened PoolSwap
  import opened OwnPools

  const LOW_FEE := 3_000_000_000_000_000
  const HIGH_FEE := 100_000_000_000_000_000

  /** The parties of an example, whatever they are called: two pools, the router and the sender. */
  datatype Cast = Cast(p: Addr, q: Addr, router: Addr, sender: Addr, bluechip: TokenType, creator: TokenType)

  ghost predicate Apart(c: Cast) {
    && c.p != c.q && c.p != c.router && c.q != c.router
    && c.sender != c.router && c.sender != c.p && c.sender != c.q && c.bluechip != c.creator
  }

  /** An own pool with no interval between swaps. */
  function Unpaced(c: Cast, asset1: TokenType, reserve0: nat, reserve1: nat, fee: nat): Pool {
    OwnPool(c.bluechip, asset1, true, [reserve0, reserve1, fee, 0, 0])
  }

  // ----- What makes a request go through -----

  /** A hop goes through when the router holds something of its offer, the pool quotes and accepts it,
      and the pool can pay. */
  lemma HopGoes(w: World, router: Addr, op: SwapOperation, hop: nat, to: Addr, q: Quote)
    requires Held(w.bank, op.offer, router) > 0 && op.pool in w.pools && op.pool != router
    requires var p, amount := w.pools[op.pool], Held(w.bank, op.offer, router);
      && p.committed && p.asset0 != p.asset1 && OtherAsset(p, op.offer).Some?
      && QuoteOf(p, op.offer, amount) == Some(q) && Accepts(p, op.offer, amount)
      && q.returned <= Held(w.bank, OtherAsset(p, op.offer).value, op.pool)
    ensures Hop(w, router, op, hop, to).Ok?
  {
  }

  lemma {:induction false} DeliverGoes(w: World, router: Addr, op: SwapOperation, hop: nat, to: Addr, id: nat,
        rest: seq<SubMsg>)
    requires Hop(w, router, op, hop, to).Ok? && Deliver(Hop(w, router, op, hop, to).value.world, router, rest).Ok?
    ensures Deliver(w, router, [SubMsg(id, ExecuteSwapOperation(op, hop, to))] + rest).Ok?
  {
    assert ([SubMsg(id, ExecuteSwapOperation(op, hop, to))] + rest)[1..] == rest;
  }

  /** A hop that goes through, and the delivery of what remains after it. */
  lemma {:induction false} NextGoes(w: World, router: Addr, ops: seq<SwapOperation>, recipient: Addr, i: nat, to: Addr,
        next: nat, check: SubMsg)
    requires i < |ops| && next == i + 1 && to == if i == |ops| - 1 then recipient else router
    requires Hop(w, router, ops[i], i, to).Ok?
    requires Deliver(Hop(w, router, ops[i], i, to).value.world, router,
                     Remaining(ops, router, recipient, next, check)).Ok?
    ensures var first := Hop(w, router, ops[i], i, to).value;
      var later := Deliver(first.world, router, Remaining(ops, router, recipient, next, check)).value;
      Deliver(w, router, Remaining(ops, router, recipient, i, check))
          == Ok(Ran(later.world, first.outputs + later.outputs))
  {
    DeliverGoes(w, router, ops[i], i, to, HopReplyId(i), Remaining(ops, router, recipient, next, check));
    DeliverHop(w, router, ops[i], i, to, HopReplyId(i), Remaining(ops, router, recipient, next, check));
  }

  lemma {:induction false} CheckPasses(w: World, router: Addr, ask: TokenType, recipient: Addr, prev: nat, minimum: nat)
    requires Held(w.bank, ask, recipient) >= prev + minimum
    ensures Deliver(w, router, [SubMsg(0, AssertReceived(ask, recipient, prev, minimum))]).Ok?
  {
    assert [SubMsg(0, AssertReceived(ask, recipient, prev, minimum))][1..] == [];
  }

  lemma {:induction false} OneHopDelivers(w: World, router: Addr, ops: seq<SwapOperation>, recipient: Addr, prev: nat)
    requires |ops| == 1 && Hop(w, router, ops[0], 0, recipient).Ok?
    requires Held(Hop(w, router, ops[0], 0, recipient).value.world.bank, ops[0].ask, recipient) >= prev
    ensures var r := Deliver(w, router, Remaining(ops, router, recipient, 0, Check(ops, recipient, prev, 0)));
      r.Ok? && r.value.world == Hop(w, router, ops[0], 0, recipient).value.world
  {
    var rest := Remaining(ops, router, recipient, 1, Check(ops, recipient, prev, 0));
    var after := Hop(w, router, ops[0], 0, recipient).value.world;
    CheckPasses(after, router, ops[0].ask, recipient, prev, 0);
    DeliverGoes(w, router, ops[0], 0, recipient, HopReplyId(0), rest);
    DeliverHop(w, router, ops[0], 0, recipient, HopReplyId(0), rest);
    DeliverCheck(after, router, ops[0].ask, recipient, prev, 0);
  }

  /** A request of one hop for the sender, with no minimum and no deadline. */
  ghost predicate Plain(w: World, router: Addr, q: Request) {
    && |q.ops| == 1 && q.ops[0].offer == q.token != q.ops[0].ask && q.minimum == 0
    && q.deadline.None? && q.recipient.None?
    && 0 < q.amount <= Held(w.bank, q.token, q.sender) && CleanRequest(w, router, q)
  }

  /** Its only hop. */
  ghost predicate Quoted(w: World, q: Request, quote: Quote)
    requires |q.ops| == 1
  {
    && q.ops[0].pool in w.pools
    && var p := w.pools[q.ops[0].pool];
       && p.committed && p.asset0 == q.token != p.asset1
       && QuoteOf(p, q.token, q.amount) == Some(quote) && Accepts(p, q.token, q.amount)
       && quote.returned <= Held(w.bank, p.asset1, q.ops[0].pool)
  }

  lemma OnlyHop(w: World, router: Addr, q: Request, quote: Quote)
    requires Plain(w, router, q) && Quoted(w, q, quote)
    ensures var funded := Funded(w, router, q);
      && Hop(funded, router, q.ops[0], 0, q.sender).Ok?
      && Held(Hop(funded, router, q.ops[0], 0, q.sender).value.world.bank, q.ops[0].ask, q.sender)
         >= Held(funded.bank, q.ops[0].ask, q.sender)
  {
    var funded := Funded(w, router, q);
    FundingEffect(w, router, q);
    assert Held(funded.bank, q.token, router) == q.amount;
    assert Held(funded.bank, w.pools[q.ops[0].pool].asset1, q.ops[0].pool) >= quote.returned;
    HopGoes(funded, router, q.ops[0], 0, q.sender, quote);
    HopEffect(funded, router, q.ops[0], 0, q.sender);
  }

  lemma {:induction false} PlainGoes(w: World, router: Addr, q: Request, quote: Quote)
    requires Plain(w, router, q) && Quoted(w, q, quote)
    ensures Transact(w, router, q).Ok? && Transact(w, router, q).value.outputs == [quote.returned]
    ensures Hop(Funded(w, router, q), router, q.ops[0], 0, q.sender).Ok?
    ensures Transact(w, router, q).value.world == Hop(Funded(w, router, q), router, q.ops[0], 0, q.sender).value.world
  {
    var funded := Funded(w, router, q);
    var prev := Held(funded.bank, q.ops[0].ask, q.sender);
    RouteFaultExact(q.ops);
    OnlyHop(w, router, q, quote);
    OneHopDelivers(funded, router, q.ops, q.sender, prev);
    MessagesRemain(funded, q.ops, router, q.sender, prev, 0);
    assert Transact(w, router, q).Ok?;
    RouteSettles(w, router, q);
    OneHopChain(w.pools, q.ops, q.amount, quote);
  }

  lemma {:induction false} OneHopChain(pools: map<Addr, Pool>, ops: seq<SwapOperation>, amount: nat, quote: Quote)
    requires |ops| == 1 && Chain(pools, ops, amount).Some?
    requires QuoteOf(pools[ops[0].pool], ops[0].offer, amount) == Some(quote)
    ensures Chain(pools, ops, amount) == Some([quote.returned])
  {
    assert ops[1..] == [] && [quote.returned] + [] == [quote.returned];
  }

  function Direct(c: Cast): seq<SwapOperation> {
    [SwapOperation(c.p, c.bluechip, c.creator)]
  }

  function DirectRequest(c: Cast, amount: nat): Request {
    Request(c.sender, c.bluechip, amount, Direct(c), 0, None, None, 0)
  }

  lemma DirectIsClean(c: Cast, w: World, amount: nat)
    requires Apart(c) && Held(w.bank, c.bluechip, c.router) == 0 && Held(w.bank, c.creator, c.router) == 0
    ensures CleanRequest(w, c.router, DirectRequest(c, amount)) && DistinctPools(Direct(c))
  {
  }

  /** The first swap of 4000 in a pool of a million each, at the low fee. */
  lemma FirstSwap()
    ensures ComputeSwap(1_000_000, 1_000_000, 4000, LOW_FEE) == Some(SwapAmounts(3973, 16, 11))
  {
    SwapFrom(1_000_000, 1_000_000, 4000, LOW_FEE, 996_015_936_254_980_079_681_274, 3984, 1_000_000_000_000_000_000,
        4000, 11);
  }

  // ----- Another asset than declared -----

  /** The pool of the hop pairs bluechip with another token than the hop declares. */
  function OtherWorld(c: Cast, other: TokenType): World {
    World(map[c.bluechip := multiset{}[c.sender := 4000], other := multiset{}[c.p := 1_000_000]],
          map[c.p := Unpaced(c, other, 1_000_000, 1_000_000, LOW_FEE)])
  }

  lemma OtherQuoted(c: Cast, other: TokenType)
    requires Apart(c) && other != c.bluechip && other != c.creator
    ensures Quoted(OtherWorld(c, other), DirectRequest(c, 4000), Quote(3973, 16, [1_004_000, 996_016, LOW_FEE, 0, 0]))
  {
    FirstSwap();
  }

  /** Without a minimum a request goes through whose recipient gains nothing of the asset it declares;
      the sender's offer has become another token. */
  lemma OtherAssetPaid(c: Cast, other: TokenType) returns (w: World, q: Request)
    requires Apart(c) && other != c.bluechip && other != c.creator
    ensures Transact(w, c.router, q).Ok? && CleanRequest(w, c.router, q) && q.amount > 0 && q.minimum == 0
    ensures var after, ask := Transact(w, c.router, q).value.world.bank, q.ops[|q.ops| - 1].ask;
      Held(after, ask, Recipient(q)) == Held(w.bank, ask, Recipient(q))
    ensures Transact(w, c.router, q).value.outputs == [3973]
  {
    w, q := OtherWorld(c, other), DirectRequest(c, 4000);
    DirectIsClean(c, w, 4000);
    OtherQuoted(c, other);
    PlainGoes(w, c.router, q, Quote(3973, 16, [1_004_000, 996_016, LOW_FEE, 0, 0]));
    RouteSettles(w, c.router, q);
  }

  // ----- A preview that fails -----

  /** A foreign pool, whose output and spread together leave 128 bits. */
  function Vast(c: Cast): Pool {
    Pool(c.bluechip, c.creator, true, [],
         (n: PoolNumbers, first: bool, x: nat) => Some(Quote(1, U128_MAX, [])),
         (n: PoolNumbers, first: bool, x: nat) => true,
         (n: PoolNumbers, held0: nat, held1: nat, first: bool, x: nat) => Some(Answer(1, U128_MAX)))
  }

  function VastWorld(c: Cast): World {
    World(map[c.bluechip := multiset{}[c.sender := 1], c.creator := multiset{}[c.p := 1]], map[c.p := Vast(c)])
  }

  /** A request goes through though its preview fails. None of the repository's own pools is like that:
      they refuse such a swap (`AcceptedFits`). */
  lemma PreviewFails(c: Cast) returns (w: World, q: Request)
    requires Apart(c)
    ensures Transact(w, c.router, q).Ok? && CleanRequest(w, c.router, q) && DistinctPools(q.ops)
    ensures Outputs(w, q.ops, q.amount, |q.ops|) == Err(AmountOverflow)
  {
    w, q := VastWorld(c), DirectRequest(c, 1);
    DirectIsClean(c, w, 1);
    PlainGoes(w, c.router, q, Quote(1, U128_MAX, []));
  }

  // ----- Fees in the pool -----

  function FeeWorld(c: Cast): World {
    World(map[c.bluechip := multiset{}[c.sender := 8000][c.p := 1_000_000], c.creator := multiset{}[c.p := 1_000_000]],
          map[c.p := Unpaced(c, c.creator, 1_000_000, 1_000_000, HIGH_FEE)])
  }

  /** The pool pays 3586 and keeps a fee of 398, which leaves its reserve. */
  lemma FeeQuoted(c: Cast)
    requires Apart(c)
    ensures Quoted(FeeWorld(c), DirectRequest(c, 4000), Quote(3586, 16, [1_004_000, 996_016, HIGH_FEE, 0, 0]))
  {
    SwapFrom(1_000_000, 1_000_000, 4000, HIGH_FEE, 996_015_936_254_980_079_681_274, 3984, 1_000_000_000_000_000_000,
        4000, 398);
  }

  lemma FeeStarts(c: Cast)
    requires Apart(c)
    ensures Plain(FeeWorld(c), c.router, DirectRequest(c, 4000)) && Reconciled(FeeWorld(c), c.p)
  {
    DirectIsClean(c, FeeWorld(c), 4000);
  }

  /** The pool after the first request holds 398 creator tokens more than its reserve. */
  ghost predicate FeeKept(c: Cast, w: World) {
    && c.p in w.pools && w.pools[c.p] == Unpaced(c, c.creator, 1_004_000, 996_016, HIGH_FEE)
    && Held(w.bank, c.bluechip, c.p) == 1_004_000 && Held(w.bank, c.creator, c.p) == 996_414
    && Held(w.bank, c.bluechip, c.sender) == 4000
    && Held(w.bank, c.bluechip, c.router) == 0 && Held(w.bank, c.creator, c.router) == 0
  }

  lemma FirstFee(c: Cast)
    requires Apart(c)
    ensures Transact(FeeWorld(c), c.router, DirectRequest(c, 4000)).Ok?
    ensures FeeKept(c, Transact(FeeWorld(c), c.router, DirectRequest(c, 4000)).value.world)
  {
    var w, q := FeeWorld(c), DirectRequest(c, 4000);
    FeeStarts(c);
    FeeQuoted(c);
    PlainGoes(w, c.router, q, Quote(3586, 16, [1_004_000, 996_016, HIGH_FEE, 0, 0]));
    FeeLeft(c, Funded(w, c.router, q));
  }

  lemma FeeLeft(c: Cast, funded: World)
    requires Apart(c) && funded == Funded(FeeWorld(c), c.router, DirectRequest(c, 4000))
    requires Quoted(FeeWorld(c), DirectRequest(c, 4000), Quote(3586, 16, [1_004_000, 996_016, HIGH_FEE, 0, 0]))
    requires Hop(funded, c.router, Direct(c)[0], 0, c.sender).Ok?
    ensures FeeKept(c, Hop(funded, c.router, Direct(c)[0], 0, c.sender).value.world)
  {
    MoveEffect(FeeWorld(c).bank, c.bluechip, c.sender, c.router, 4000);
    assert Held(funded.bank, c.bluechip, c.router) == 4000;
    MoveEffect(funded.bank, c.bluechip, c.router, c.p, 4000);
    MoveEffect(Move(funded.bank, c.bluechip, c.router, c.p, 4000), c.creator, c.p, c.sender, 3586);
  }

  lemma SecondQuoted(c: Cast, w: World)
    requires Apart(c) && FeeKept(c, w)
    ensures Quoted(w, DirectRequest(c, 4000), Quote(3557, 16, [1_008_000, 992_064, HIGH_FEE, 0, 0]))
  {
    SwapFrom(1_004_000, 996_016, 4000, HIGH_FEE, 992_063_555_555_555_555_555_555, 3952, 992_047_808_764_940_239,
        3968, 395);
  }

  lemma {:induction false} SecondPreviewed(c: Cast, w: World)
    requires Apart(c) && FeeKept(c, w)
    ensures Outputs(w, Direct(c), 4000, 1) == Ok([3559])
  {
    SwapFrom(1_004_000, 996_414, 4000, HIGH_FEE, 992_459_976_190_476_190_476_190, 3954, 992_444_223_107_569_721,
        3969, 395);
    assert Outputs(w, Direct(c), 4000, 0) == Ok([]) && [] + [3559] == [3559];
  }

  /** Two requests in a row through a pool that held exactly its reserves: both go through, and the
      preview taken between them is two units too high, since it counts the first one's fee as
      liquidity. */
  lemma FeesMislead(c: Cast) returns (w: World, q: Request)
    requires Apart(c)
    ensures (forall i :: 0 <= i < |q.ops| ==> Reconciled(w, q.ops[i].pool)) && CleanRequest(w, c.router, q)
    ensures Transact(w, c.router, q).Ok?
    ensures var after := Transact(w, c.router, q).value.world;
      && Transact(after, c.router, q).Ok? && CleanRequest(after, c.router, q) && DistinctPools(q.ops)
      && Transact(after, c.router, q).value.outputs == [3557]
      && Outputs(after, q.ops, q.amount, |q.ops|) == Ok([3559])
  {
    w, q := FeeWorld(c), DirectRequest(c, 4000);
    FeeStarts(c);
    FirstFee(c);
    var after := Transact(w, c.router, q).value.world;
    DirectIsClean(c, after, 4000);
    SecondQuoted(c, after);
    SecondPreviewed(c, after);
    PlainGoes(after, c.router, q, Quote(3557, 16, [1_008_000, 992_064, HIGH_FEE, 0, 0]));
  }

  // ----- A pool visited twice -----

  /** There and back through two pools, and there again through the first. */
  function Twice(c: Cast): seq<SwapOperation> {
    [SwapOperation(c.p, c.bluechip, c.creator), SwapOperation(c.q, c.creator, c.bluechip),
     SwapOperation(c.p, c.bluechip, c.creator)]
  }

  function Million(c: Cast): Pool {
    Unpaced(c, c.creator, 1_000_000, 1_000_000, LOW_FEE)
  }

  function TwiceWorld(c: Cast): World {
    World(map[c.bluechip := multiset{}[c.sender := 4000][c.p := 1_000_000][c.q := 1_000_000],
              c.creator := multiset{}[c.p := 1_000_000][c.q := 1_000_000]],
          map[c.p := Million(c), c.q := Million(c)])
  }

  function TwiceRequest(c: Cast): Request {
    Request(c.sender, c.bluechip, 4000, Twice(c), 3888, None, None, 0)
  }

  /** What the example needs of a world: the router's two balances, and what the pools can pay. */
  ghost predicate Stands(c: Cast, w: World, p: Pool, bluechip: nat, creator: nat, payable: nat) {
    && c.p in w.pools && w.pools[c.p] == p && c.q in w.pools
    && Held(w.bank, c.bluechip, c.router) == bluechip && Held(w.bank, c.creator, c.router) == creator
    && Held(w.bank, c.creator, c.p) == payable && Held(w.bank, c.creator, c.sender) == 0
  }

  function Used(c: Cast): Pool {
    Unpaced(c, c.creator, 1_004_000, 996_016, LOW_FEE)
  }

  /** The first hop: 4000 bluechip for 3973 creator tokens. */
  lemma TwiceFirst(c: Cast, w: World)
    requires Apart(c) && Stands(c, w, Million(c), 4000, 0, 1_000_000)
    ensures Hop(w, c.router, Twice(c)[0], 0, c.router).Ok?
    ensures var r := Hop(w, c.router, Twice(c)[0], 0, c.router).value;
      && r.outputs == [3973] && Stands(c, r.world, Used(c), 0, 3973, 996_027)
      && r.world.pools[c.q] == w.pools[c.q] && Held(r.world.bank, c.bluechip, c.q) == Held(w.bank, c.bluechip, c.q)
  {
    FirstSwap();
    HopGoes(w, c.router, Twice(c)[0], 0, c.router, Quote(3973, 16, [1_004_000, 996_016, LOW_FEE, 0, 0]));
    MoveEffect(w.bank, c.bluechip, c.router, c.p, 4000);
    MoveEffect(Move(w.bank, c.bluechip, c.router, c.p, 4000), c.creator, c.p, c.router, 3973);
  }

  lemma BackSwap()
    ensures ComputeSwap(1_000_000, 1_000_000, 3973, LOW_FEE) == Some(SwapAmounts(3946, 16, 11))
  {
    SwapFrom(1_000_000, 1_000_000, 3973, LOW_FEE, 996_042_722_264_443_366_504_876, 3957, 1_000_000_000_000_000_000,
        3973, 11);
  }

  lemma LastSwap()
    ensures ComputeSwap(1_004_000, 996_016, 3946, LOW_FEE) == Some(SwapAmounts(3888, 15, 11))
  {
    SwapFrom(1_004_000, 996_016, 3946, LOW_FEE, 992_116_704_664_734_023_449_668, 3899, 992_047_808_764_940_239, 3914,
        11);
  }

  lemma SecondSwap(c: Cast)
    requires c.bluechip != c.creator
    ensures QuoteOf(Million(c), c.creator, 3973) == Some(Quote(3946, 16, [996_043, 1_003_973, LOW_FEE, 0, 0]))
    ensures Accepts(Million(c), c.creator, 3973)
  {
    BackSwap();
  }

  /** The second: 3973 creator tokens for 3946 bluechip. */
  lemma TwiceSecond(c: Cast, w: World)
    requires Apart(c) && Stands(c, w, Used(c), 0, 3973, 996_027)
    requires w.pools[c.q] == Million(c) && Held(w.bank, c.bluechip, c.q) == 1_000_000
    ensures Hop(w, c.router, Twice(c)[1], 1, c.router).Ok?
    ensures var r := Hop(w, c.router, Twice(c)[1], 1, c.router).value;
      r.outputs == [3946] && Stands(c, r.world, Used(c), 3946, 0, 996_027)
  {
    SecondSwap(c);
    HopGoes(w, c.router, Twice(c)[1], 1, c.router, Quote(3946, 16, [996_043, 1_003_973, LOW_FEE, 0, 0]));
    MoveEffect(w.bank, c.creator, c.router, c.q, 3973);
    MoveEffect(Move(w.bank, c.creator, c.router, c.q, 3973), c.bluechip, c.q, c.router, 3946);
  }

  /** The third: 3946 bluechip for 3888 creator tokens, where the preview shows 3919. */
  lemma TwiceThird(c: Cast, w: World)
    requires Apart(c) && Stands(c, w, Used(c), 3946, 0, 996_027)
    ensures Hop(w, c.router, Twice(c)[2], 2, c.sender).Ok?
    ensures var r := Hop(w, c.router, Twice(c)[2], 2, c.sender).value;
      r.outputs == [3888] && Held(r.world.bank, c.creator, c.sender) == 3888
  {
    LastSwap();
    HopGoes(w, c.router, Twice(c)[2], 2, c.sender, Quote(3888, 15, [1_007_946, 992_117, LOW_FEE, 0, 0]));
    MoveEffect(w.bank, c.bluechip, c.router, c.p, 3946);
    MoveEffect(Move(w.bank, c.bluechip, c.router, c.p, 3946), c.creator, c.p, c.sender, 3888);
  }

  lemma TwiceValid(c: Cast)
    requires Apart(c)
    ensures StartFault(TwiceRequest(c)).None?
  {
    RouteFaultExact(Twice(c));
  }

  lemma TwiceStarts(c: Cast)
    requires Apart(c)
    ensures Held(TwiceWorld(c).bank, c.bluechip, c.sender) == 4000
    ensures var w := Funded(TwiceWorld(c), c.router, TwiceRequest(c));
      && Stands(c, w, Million(c), 4000, 0, 1_000_000) && w.pools == TwiceWorld(c).pools
      && Held(w.bank, c.bluechip, c.q) == 1_000_000
  {
    MoveEffect(TwiceWorld(c).bank, c.bluechip, c.sender, c.router, 4000);
  }

  lemma {:induction false} TwiceDelivers(c: Cast, w: World)
    requires Apart(c) && Stands(c, w, Million(c), 4000, 0, 1_000_000)
    requires w.pools[c.q] == Million(c) && Held(w.bank, c.bluechip, c.q) == 1_000_000
    ensures var check := Check(Twice(c), c.sender, 0, 3888);
      var r := Deliver(w, c.router, Remaining(Twice(c), c.router, c.sender, 0, check));
      r.Ok? && r.value.outputs == [3973, 3946, 3888]
  {
    TwiceFirst(c, w);
    var w1 := Hop(w, c.router, Twice(c)[0], 0, c.router).value.world;
    TwiceSecond(c, w1);
    var w2 := Hop(w1, c.router, Twice(c)[1], 1, c.router).value.world;
    TwiceThird(c, w2);
    var w3, check := Hop(w2, c.router, Twice(c)[2], 2, c.sender).value.world, Check(Twice(c), c.sender, 0, 3888);
    CheckPasses(w3, c.router, c.creator, c.sender, 0, 3888);
    DeliverCheck(w3, c.router, c.creator, c.sender, 0, 3888);
    NextGoes(w2, c.router, Twice(c), c.sender, 2, c.sender, 3, check);
    NextGoes(w1, c.router, Twice(c), c.sender, 1, c.router, 2, check);
    NextGoes(w, c.router, Twice(c), c.sender, 0, c.router, 1, check);
    assert [3973] + ([3946] + ([3888] + [])) == [3973, 3946, 3888];
  }

  /** The whole request goes through. */
  lemma {:induction false} TwiceGoes(c: Cast)
    requires Apart(c)
    ensures var r := Transact(TwiceWorld(c), c.router, TwiceRequest(c)); r.Ok? && r.value.outputs == [3973, 3946, 3888]
  {
    TwiceValid(c);
    TwiceStarts(c);
    var w := Funded(TwiceWorld(c), c.router, TwiceRequest(c));
    TwiceDelivers(c, w);
    MessagesRemain(w, Twice(c), c.router, c.sender, 0, 3888);
  }

  lemma {:induction false} TwicePreviewed(c: Cast)
    requires Apart(c)
    ensures Outputs(TwiceWorld(c), Twice(c), 4000, 3) == Ok([3973, 3946, 3919])
  {
    var w := TwiceWorld(c);
    FirstSwap();
    assert SimulationOf(w, c.p, c.bluechip, 4000) == Some(Answer(3973, 16));
    BackSwap();
    assert SimulationOf(w, c.q, c.creator, 3973) == Some(Answer(3946, 16));
    SwapFrom(1_000_000, 1_000_000, 3946, LOW_FEE, 996_069_509_714_665_928_247_136, 3930, 1_000_000_000_000_000_000,
        3946, 11);
    assert SimulationOf(w, c.p, c.bluechip, 3946) == Some(Answer(3919, 16));
    ThreeShown(w, Twice(c), 4000, 3973, 3946, 3919);
  }

  lemma {:induction false} ThreeShown(w: World, ops: seq<SwapOperation>, amount: nat, out0: nat, out1: nat, out2: nat)
    requires |ops| == 3 && forall k :: 0 <= k < 3 ==> ops[k].pool in w.pools && w.pools[ops[k].pool].committed
    requires Foretold(w, ops[0], amount, out0) && Foretold(w, ops[1], out0, out1) && Foretold(w, ops[2], out1, out2)
    ensures Outputs(w, ops, amount, 3) == Ok([out0, out1, out2])
  {
    assert [] + [out0] == [out0] && [out0] + [out1] == [out0, out1] && [out0, out1] + [out2] == [out0, out1, out2];
    assert Outputs(w, ops, amount, 1) == Ok([out0]);
    assert Outputs(w, ops, amount, 2) == Ok([out0, out1]);
  }

  lemma TwiceIsClean(c: Cast)
    requires Apart(c)
    ensures CleanRequest(TwiceWorld(c), c.router, TwiceRequest(c))
  {
    assert Held(TwiceWorld(c).bank, c.bluechip, c.router) == 0 && Held(TwiceWorld(c).bank, c.creator, c.router) == 0;
    assert forall i :: 0 <= i < |Twice(c)| ==> Twice(c)[i].pool == c.p || Twice(c)[i].pool == c.q;
  }

  lemma TwiceReconciled(c: Cast)
    requires Apart(c)
    ensures forall i :: 0 <= i < |Twice(c)| ==> Reconciled(TwiceWorld(c), Twice(c)[i].pool)
  {
    assert Reconciled(TwiceWorld(c), c.p) && Reconciled(TwiceWorld(c), c.q);
    assert forall i :: 0 <= i < |Twice(c)| ==> Twice(c)[i].pool == c.p || Twice(c)[i].pool == c.q;
  }

  /** Distinctness is needed in `PreviewAgrees`: where a pool's interval is switched off, a request that
      visits it twice goes through over pools that hold exactly their reserves, and delivers other
      amounts than its preview shows. The pool answers the execution in its new state and the preview
      in its old one. */
  lemma ReusedPoolDiffers(c: Cast) returns (w: World, q: Request)
    requires Apart(c)
    ensures Transact(w, c.router, q).Ok? && CleanRequest(w, c.router, q) && !DistinctPools(q.ops)
    ensures forall i :: 0 <= i < |q.ops| ==> Reconciled(w, q.ops[i].pool)
    ensures Transact(w, c.router, q).value.outputs == [3973, 3946, 3888]
    ensures Outputs(w, q.ops, q.amount, |q.ops|) == Ok([3973, 3946, 3919])
  {
    w, q := TwiceWorld(c), TwiceRequest(c);
    TwiceIsClean(c);
    TwiceReconciled(c);
    TwiceGoes(c);
    TwicePreviewed(c);
    assert q.ops[0].pool == q.ops[2].pool;
  }
}
