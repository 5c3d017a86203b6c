/** The swap of the repository's own pools: constant product with a fee, on the stored reserves, behind
    the pool's checks. */
module PoolSwap {
  import opened Base
  import opened Assets
  import opened RouterModel

  const MINIMUM_LIQUIDITY := 1000

  /** `DEFAULT_SLIPPAGE`, half a percent: a route passes no limit of its own. */
  const DEFAULT_MAX_SPREAD := 5_000_000_000_000_000

  datatype SwapAmounts = SwapAmounts(returned: nat, spread: nat, commission: nat)

  // ----- The pricing -----

  /** What should stay of the ask side to keep the product, as a decimal rounded down. */
  function Staying(offerPool: nat, askPool: nat, amount: nat): nat
    requires offerPool + amount > 0
  {
    FloorDiv(Times(Times(offerPool, askPool), ONE), offerPool + amount)
  }

  lemma StayingFits(offerPool: nat, askPool: nat, amount: nat)
    requires offerPool + amount > 0
    ensures Staying(offerPool, askPool, amount) <= Times(askPool, ONE)
  {
    var n := Times(askPool, ONE);
    assert Times(Times(offerPool, askPool), ONE) == offerPool * n by {
      Associate(offerPool, askPool, ONE);
    }
    MulMono(offerPool, offerPool + amount, n);
    DivWithin(offerPool * n, offerPool + amount, 0, n);
  }

  lemma Associate(a: nat, b: nat, c: nat)
    ensures a * b * c == a * (b * c)
  {
  }

  /** What leaves the ask side, fee included. */
  function Gross(offerPool: nat, askPool: nat, amount: nat): nat
    requires offerPool + amount > 0
  {
    StayingFits(offerPool, askPool, amount);
    FloorDiv(Times(askPool, ONE) - Staying(offerPool, askPool, amount), ONE)
  }

  /** `compute_swap`; none where its arithmetic fails. */
  function ComputeSwap(offerPool: Uint128, askPool: Uint128, amount: Uint128, fee: nat): Option<SwapAmounts> {
    if offerPool == 0 then None
    else
      var gross := Gross(offerPool, askPool, amount);
      var scaled := Times(amount, FloorDiv(Times(askPool, ONE), offerPool));
      var ideal := FloorDiv(scaled, ONE);
      var spread := SatSub(ideal, gross);
      var commission := FloorDiv(Times(gross, fee), ONE);
      if scaled > U256_MAX || commission > gross || spread > U128_MAX then None
      else Some(SwapAmounts(gross - commission, spread, commission))
  }

  lemma QuotientIs(n: nat, d: nat, q: nat)
    requires d > 0 && q * d <= n < (q + 1) * d
    ensures FloorDiv(n, d) == q
  {
    DivAtLeast(n, d, q);
    DivAtMost(n, d, q);
  }

  /** A swap from its five quotients: what stays, what leaves, the price, the ideal return and the fee. It
      fails exactly where the offer at that price leaves 256 bits, the fee exceeds what leaves, or the
      spread leaves 128 bits. */
  lemma SwapFrom(offerPool: Uint128, askPool: Uint128, amount: Uint128, fee: nat, staying: nat, gross: nat, price: nat,
        ideal: nat, commission: nat)
    requires offerPool > 0
    requires staying * (offerPool + amount) <= offerPool * askPool * ONE < (staying + 1) * (offerPool + amount)
    requires gross * ONE <= askPool * ONE - staying < (gross + 1) * ONE
    requires price * offerPool <= askPool * ONE < (price + 1) * offerPool
    requires ideal * ONE <= amount * price < (ideal + 1) * ONE
    requires commission * ONE <= gross * fee < (commission + 1) * ONE
    ensures ComputeSwap(offerPool, askPool, amount, fee)
            == if amount * price > U256_MAX || commission > gross || ideal - gross > U128_MAX then None
               else Some(SwapAmounts(gross - commission, Max(ideal - gross, 0), commission))
  {
    QuotientIs(offerPool * askPool * ONE, offerPool + amount, staying);
    QuotientIs(askPool * ONE - staying, ONE, gross);
    QuotientIs(askPool * ONE, offerPool, price);
    QuotientIs(amount * price, ONE, ideal);
    QuotientIs(gross * fee, ONE, commission);
  }

  // ----- The product -----

  /** In decimals, a quotient and the rounded rest of the division. */
  lemma StayingSplits(offerPool: nat, askPool: nat, amount: nat)
    requires offerPool + amount > 0
    ensures var n, cp := offerPool + amount, offerPool * askPool;
      Staying(offerPool, askPool, amount) == (cp / n) * ONE + (cp % n) * ONE / n
  {
    var n, cp := offerPool + amount, offerPool * askPool;
    var q, r := cp / n, cp % n;
    var f, g := r * ONE / n, r * ONE % n;
    MulMono(0, r, ONE);
    assert cp * ONE == (q * ONE + f) * n + g by {
      assert cp == q * n + r;
      Rearrange(q, n, r, ONE, f, g);
    }
    ModUnique(cp * ONE, n, q * ONE + f, g);
  }

  lemma Rearrange(q: int, n: int, r: int, s: int, f: int, g: int)
    requires r * s == f * n + g
    ensures (q * n + r) * s == (q * s + f) * n + g
  {
  }

  lemma RestRounds(r: nat, n: nat)
    requires r < n
    ensures 0 <= r * ONE / n < ONE
    ensures r * ONE / n > 0 <==> r * ONE >= n
  {
    MulMono(0, r, ONE);
    Distribute(ONE, n, -1);
    MulMono(r, n - 1, ONE);
    DivPins(r * ONE, n);
    DivAtLeast(r * ONE, n, 0);
    if r * ONE >= n {
      DivAtLeast(r * ONE, n, 1);
    }
    if r * ONE / n >= ONE {
      MulMono(ONE, r * ONE / n, n);
    }
    if r * ONE / n >= 1 {
      MulMono(1, r * ONE / n, n);
    }
  }

  /** The gross amount is what the quotient leaves of the ask side, less one unit when the decimals show
      a rest. */
  lemma GrossIs(offerPool: nat, askPool: nat, amount: nat)
    requires offerPool > 0
    ensures var n, cp := offerPool + amount, offerPool * askPool;
      Gross(offerPool, askPool, amount) == askPool - cp / n - (if (cp % n) * ONE >= n then 1 else 0)
  {
    var n, cp := offerPool + amount, offerPool * askPool;
    var q, r := cp / n, cp % n;
    var f := r * ONE / n;
    StayingFits(offerPool, askPool, amount);
    StayingSplits(offerPool, askPool, amount);
    RestRounds(r, n);
    var left := Times(askPool, ONE) - Staying(offerPool, askPool, amount);
    assert left == (askPool - q) * ONE - f by {
      Distribute(ONE, askPool, -q);
    }
    if f == 0 {
      ModUnique(left, ONE, askPool - q, 0);
    } else {
      ModUnique(left, ONE, askPool - q - 1, ONE - f);
    }
  }

  /** The product of the reserves, fee left aside, never falls by a swap exactly when the offer side
      divides it, or leaves a rest that eighteen decimals can show. */
  lemma ProductKept(offerPool: nat, askPool: nat, amount: nat)
    requires offerPool > 0
    ensures var n, cp := offerPool + amount, offerPool * askPool;
      n * (askPool - Gross(offerPool, askPool, amount)) >= cp <==> cp % n == 0 || (cp % n) * ONE >= n
  {
    var n, cp := offerPool + amount, offerPool * askPool;
    GrossIs(offerPool, askPool, amount);
    DivPins(cp, n);
    Distribute(n, cp / n, 1);
    if cp % n == 0 {
      assert n * (cp / n) == cp;
    }
  }

  /** So it never falls while the offer side stays within `10^18`. */
  lemma ProductKeptBelow(offerPool: nat, askPool: nat, amount: nat)
    requires 0 < offerPool && offerPool + amount <= ONE
    ensures (offerPool + amount) * (askPool - Gross(offerPool, askPool, amount)) >= offerPool * askPool
  {
    ProductKept(offerPool, askPool, amount);
    var r := offerPool * askPool % (offerPool + amount);
    if r >= 1 {
      MulMono(1, r, ONE);
    }
  }

  /** Just beyond, it can. */
  lemma ProductFalls()
    ensures (ONE + 1) * (ONE - Gross(ONE, ONE, 1)) < ONE * ONE
  {
    ModUnique(ONE * ONE, ONE + 1, ONE - 1, 1);
    ProductKept(ONE, ONE, 1);
  }

  // ----- The pool -----

  /** A pool's numbers: both reserves, the fee, the interval one sender has to leave between swaps, and
      whether the router has to wait (it swapped here less than the interval ago, or the pool is
      paused). */
  predicate Formed(n: PoolNumbers) {
    |n| == 5 && n[0] <= U128_MAX && n[1] <= U128_MAX
  }

  function OfferReserve(n: PoolNumbers, first: bool): Uint128
    requires Formed(n)
  {
    if first then n[0] else n[1]
  }

  function AskReserve(n: PoolNumbers, first: bool): Uint128
    requires Formed(n)
  {
    if first then n[1] else n[0]
  }

  /** `execute_simple_swap`: the fee leaves the ask reserve with what is paid, and all swaps of a route
      happen at one time, so the interval keeps the router out until the route is over. */
  function SwapQuote(n: PoolNumbers, first: bool, amount: nat): Option<Quote> {
    if !Formed(n) || OfferReserve(n, first) + amount > U128_MAX then None
    else
      match ComputeSwap(OfferReserve(n, first), AskReserve(n, first), amount, n[2])
      case None => None
      case Some(s) =>
        var offer, ask := OfferReserve(n, first) + amount, SatSub(AskReserve(n, first), s.returned + s.commission);
        var blocked := if n[3] > 0 then 1 else 0;
        Some(Quote(s.returned, s.spread,
                   [if first then offer else ask, if first then ask else offer, n[2], n[3], blocked]))
  }

  /** `assert_max_spread` with nothing but the default limit. */
  predicate WithinSpread(gross: nat, spread: nat) {
    0 < gross + spread <= U128_MAX && FloorDiv(Times(spread, ONE), gross + spread) <= DEFAULT_MAX_SPREAD
  }

  predicate SwapAccepted(n: PoolNumbers, first: bool, amount: nat) {
    && Formed(n) && n[4] == 0 && n[0] >= MINIMUM_LIQUIDITY && n[1] >= MINIMUM_LIQUIDITY && amount <= U128_MAX
    && match ComputeSwap(OfferReserve(n, first), AskReserve(n, first), amount, n[2])
       case None => false
       case Some(s) =>
         && s.returned > 0 && WithinSpread(s.returned + s.commission, s.spread)
         && AskReserve(n, first) >= s.returned + s.commission + MINIMUM_LIQUIDITY
  }

  /** `query_simulation`: the same pricing on what the pool holds, not on its reserves. */
  function SwapSimulated(n: PoolNumbers, held0: nat, held1: nat, first: bool, amount: nat): Option<Answer> {
    if !Formed(n) || held0 > U128_MAX || held1 > U128_MAX || amount > U128_MAX then None
    else
      match ComputeSwap(if first then held0 else held1, if first then held1 else held0, amount, n[2])
      case None => None
      case Some(s) => Some(Answer(s.returned, s.spread))
  }

  function OwnPool(asset0: TokenType, asset1: TokenType, committed: bool, numbers: PoolNumbers): Pool {
    Pool(asset0, asset1, committed, numbers, SwapQuote, SwapAccepted, SwapSimulated)
  }

  /** One of the repository's own pools. */
  ghost predicate Own(p: Pool) {
    p == OwnPool(p.asset0, p.asset1, p.committed, p.numbers) && Formed(p.numbers) && p.asset0 != p.asset1
  }

  /** What `compute_swap` answers for a pool's reserves. */
  ghost function Swapped(n: PoolNumbers, first: bool, amount: Uint128): Option<SwapAmounts>
    requires Formed(n)
  {
    if first then ComputeSwap(n[0], n[1], amount, n[2]) else ComputeSwap(n[1], n[0], amount, n[2])
  }

  lemma SpreadWithin(gross: nat, spread: nat)
    requires gross + spread > 0
    ensures FloorDiv(Times(spread, ONE), gross + spread) <= DEFAULT_MAX_SPREAD
            <==> spread * 1_000_000_000_000_000_000 < 5_000_000_000_000_001 * (gross + spread)
  {
    if spread * ONE < (DEFAULT_MAX_SPREAD + 1) * (gross + spread) {
      DivAtMost(spread * ONE, gross + spread, DEFAULT_MAX_SPREAD);
    } else {
      DivAtLeast(spread * ONE, gross + spread, DEFAULT_MAX_SPREAD + 1);
    }
  }

  /** A pool takes a swap exactly when it is not waiting or paused, both reserves hold 1000 units and the
      asked side still does after paying, fee included, something is paid, and the spread is within half
      a percent of the ideal, to the eighteenth decimal. */
  lemma AcceptedExactly(n: PoolNumbers, first: bool, amount: Uint128)
    requires Formed(n)
    ensures SwapAccepted(n, first, amount) <==>
            && n[4] == 0 && n[0] >= 1000 && n[1] >= 1000
            && var s := Swapped(n, first, amount);
               && s.Some? && s.value.returned > 0
               && var gross, spread := s.value.returned + s.value.commission, s.value.spread;
                  && gross + spread <= U128_MAX
                  && spread * 1_000_000_000_000_000_000 < 5_000_000_000_000_001 * (gross + spread)
                  && (if first then n[1] else n[0]) - gross >= 1000
  {
    var s := Swapped(n, first, amount);
    if s.Some? && s.value.returned + s.value.commission + s.value.spread > 0 {
      SpreadWithin(s.value.returned + s.value.commission, s.value.spread);
    }
  }

  /** An accepted swap pays out of the reserve, and its output and spread fit 128 bits. */
  lemma AcceptedFits(p: Pool, offer: TokenType, amount: nat)
    requires Own(p) && Accepts(p, offer, amount) && QuoteOf(p, offer, amount).Some?
    ensures var q := QuoteOf(p, offer, amount).value;
      && q.returned > 0 && q.returned + q.spread <= U128_MAX && Own(p.(numbers := q.next))
  {
  }
}
