/** The read-only preview of a route, and how it relates to running it. */
module Simulation {
  import opened Base
  import opened Assets
  import opened RouterModel
  import opened RouterRuns

  datatype Preview = Preview(finalAmount: nat, intermediate: seq<nat>, priceImpact: nat)

  /** What survives of an ideal swap, as a decimal rounded down. */
  function Survival(returned: nat, spread: nat): nat {
    if returned + spread == 0 then ONE else returned * ONE / (returned + spread)
  }

  /** The outputs hop by hop, every pool asked in its present state. */
  function Outputs(w: World, ops: seq<SwapOperation>, amount: nat, n: nat): Result<seq<nat>, RouterError>
    requires n <= |ops|
  {
    if n == 0 then Ok([])
    else
      var earlier :- Outputs(w, ops, amount, n - 1);
      var input := if earlier == [] then amount else earlier[|earlier| - 1];
      var op := ops[n - 1];
      if op.pool !in w.pools then Err(QueryFailed(n - 1))
      else if !w.pools[op.pool].committed then Err(PoolInCommitPhase(n - 1))
      else
        var q := SimulationOf(w, op.pool, op.offer, input);
        if q.None? then Err(QueryFailed(n - 1))
        else if q.value.returned + q.value.spread > U128_MAX then Err(AmountOverflow)
        else Ok(earlier + [q.value.returned])
  }

  /** A failing prefix fails the whole in the same way. */
  lemma {:induction false} OutputsFail(w: World, ops: seq<SwapOperation>, amount: nat, n: nat, m: nat)
    requires n <= m <= |ops| && Outputs(w, ops, amount, n).Err?
    ensures Outputs(w, ops, amount, m) == Outputs(w, ops, amount, n)
    decreases m
  {
    if n < m {
      OutputsFail(w, ops, amount, n, m - 1);
    }
  }

  lemma SurvivalAtMostOne(returned: nat, spread: nat)
    ensures Survival(returned, spread) <= ONE
    ensures spread == 0 ==> Survival(returned, spread) == ONE
  {
    if returned + spread > 0 {
      MulMono(returned, returned + spread, ONE);
      DivWithin(returned * ONE, returned + spread, 0, ONE);
      if spread == 0 {
        ModUnique(returned * ONE, returned, ONE, 0);
      }
    }
  }

  /** `checked_mul` of two decimals not above one. */
  function DecimalMul(a: nat, b: nat): nat {
    a * b / ONE
  }

  lemma DecimalMulAtMost(a: nat, b: nat)
    requires a <= ONE && b <= ONE
    ensures DecimalMul(a, b) <= a
    ensures b == ONE ==> DecimalMul(a, b) == a
  {
    MulMono(b, ONE, a);
    DivWithin(a * b, ONE, 0, a);
    if b == ONE {
      ModUnique(a * ONE, ONE, a, 0);
    }
  }

  /** What hop `k` of a route is offered, given the outputs so far. */
  ghost function InputOf(outs: seq<nat>, amount: nat, k: nat): nat
    requires k <= |outs|
  {
    if k == 0 then amount else outs[k - 1]
  }

  /** The product, hop by hop and rounded down each time, of what survives of an ideal swap. */
  ghost function Surviving(w: World, ops: seq<SwapOperation>, amount: nat, outs: seq<nat>, n: nat): nat
    requires n <= |ops| && n <= |outs| + 1
  {
    if n == 0 then ONE
    else
      var earlier := Surviving(w, ops, amount, outs, n - 1);
      var op := ops[n - 1];
      if op.pool !in w.pools then earlier
      else
        match SimulationOf(w, op.pool, op.offer, InputOf(outs, amount, n - 1))
        case None => earlier
        case Some(q) => DecimalMul(earlier, Survival(q.returned, q.spread))
  }

  // ----- What a preview shows -----

  /** A pool's answer to the query of a hop: none from an unknown pool, or for an asset it does not
      trade. */
  ghost function AnswerTo(w: World, op: SwapOperation, input: nat): Option<Answer> {
    if op.pool !in w.pools then None
    else
      var p := w.pools[op.pool];
      if op.offer != p.asset0 && op.offer != p.asset1 then None
      else
        p.simulate(p.numbers, Held(w.bank, p.asset0, op.pool), Held(w.bank, p.asset1, op.pool), op.offer == p.asset0,
                   input)
  }

  /** Why a hop cannot be shown, if it cannot. */
  ghost function HopFault(w: World, op: SwapOperation, input: nat, k: nat): Option<RouterError> {
    if op.pool in w.pools && !w.pools[op.pool].committed then Some(PoolInCommitPhase(k))
    else if AnswerTo(w, op, input).None? then Some(QueryFailed(k))
    else
      var a := AnswerTo(w, op, input).value;
      if a.returned + a.spread > U128_MAX then Some(AmountOverflow) else None
  }

  /** The outputs shown are the pools' answers, each asked for the one before. */
  ghost predicate AllAnswered(w: World, ops: seq<SwapOperation>, amount: nat, outs: seq<nat>)
    requires |outs| <= |ops|
  {
    forall k {:trigger ops[k]} :: 0 <= k < |outs| ==>
      var input := InputOf(outs, amount, k);
      && HopFault(w, ops[k], input, k).None?
      && AnswerTo(w, ops[k], input).value.returned == outs[k]
  }

  lemma AnsweredMore(w: World, ops: seq<SwapOperation>, amount: nat, outs: seq<nat>, out: nat)
    requires |outs| < |ops| && AllAnswered(w, ops, amount, outs)
    requires var k := |outs|;
      HopFault(w, ops[k], InputOf(outs, amount, k), k).None?
      && AnswerTo(w, ops[k], InputOf(outs, amount, k)).value.returned == out
    ensures AllAnswered(w, ops, amount, outs + [out])
  {
    var more := outs + [out];
    forall k {:trigger ops[k]} | 0 <= k < |more|
      ensures var input := InputOf(more, amount, k);
        && HopFault(w, ops[k], input, k).None?
        && AnswerTo(w, ops[k], input).value.returned == more[k]
    {
      assert InputOf(more, amount, k) == InputOf(outs, amount, k);
    }
  }

  /** The first `n` outputs of a preview are what the pools answer in turn, or it fails with the fault of
      the first hop that has one. */
  lemma {:induction false} OutputsExact(w: World, ops: seq<SwapOperation>, amount: nat, n: nat)
    returns (outs: seq<nat>)
    requires n <= |ops|
    ensures |outs| <= n && AllAnswered(w, ops, amount, outs)
    ensures var r := Outputs(w, ops, amount, n);
      if |outs| == n then r == Ok(outs)
      else
        var k := |outs|;
        var fault := HopFault(w, ops[k], InputOf(outs, amount, k), k);
        fault.Some? && r == Err(fault.value)
  {
    if n == 0 {
      outs := [];
    } else {
      outs := OutputsExact(w, ops, amount, n - 1);
      if |outs| == n - 1 && HopFault(w, ops[n - 1], InputOf(outs, amount, n - 1), n - 1).None? {
        var out := AnswerTo(w, ops[n - 1], InputOf(outs, amount, n - 1)).value.returned;
        AnsweredMore(w, ops, amount, outs, out);
        outs := outs + [out];
      }
    }
  }

  // ----- The price impact against exact arithmetic -----

  /** What a hop pays out of what it could: its own numbers, or one for one where nothing is asked. */
  ghost function HopRatio(w: World, ops: seq<SwapOperation>, amount: nat, outs: seq<nat>, k: nat): (nat, nat)
    requires k < |ops| && k <= |outs|
  {
    if ops[k].pool !in w.pools then (1, 1)
    else
      match SimulationOf(w, ops[k].pool, ops[k].offer, InputOf(outs, amount, k))
      case None => (1, 1)
      case Some(q) => if q.returned + q.spread == 0 then (1, 1) else (q.returned, q.returned + q.spread)
  }

  /** The products over the first `n` hops of what was paid, and of what an ideal swap would have paid. */
  ghost function PaidAndIdeal(w: World, ops: seq<SwapOperation>, amount: nat, outs: seq<nat>, n: nat): (nat, nat)
    requires n <= |ops| && n <= |outs| + 1
  {
    if n == 0 then (1, 1)
    else
      var earlier := PaidAndIdeal(w, ops, amount, outs, n - 1);
      var hop := HopRatio(w, ops, amount, outs, n - 1);
      (Times(earlier.0, hop.0), Times(earlier.1, hop.1))
  }

  lemma SurvivalExact(returned: nat, spread: nat)
    ensures var s, ideal := Survival(returned, spread), returned + spread;
      if ideal == 0 then s == ONE else s * ideal <= returned * ONE < (s + 1) * ideal
  {
    if returned + spread > 0 {
      DivPins(returned * ONE, returned + spread);
      Distribute(returned + spread, Survival(returned, spread), 1);
    }
  }

  /** A hop multiplies the survival by what was paid over the ideal, losing two units at most. */
  lemma HopSurvives(s: nat, hop: nat, paid: nat, ideal: nat)
    requires s <= ONE && paid <= ideal && hop * ideal <= paid * ONE < (hop + 1) * ideal
    ensures var next := DecimalMul(s, hop); next * ideal <= s * paid <= (next + 2) * ideal
  {
    var next := DecimalMul(s, hop);
    DivPins(s * hop, ONE);
    calc {
      (next * ideal) * ONE;
    ==
      (next * ONE) * ideal;
    <=  { MulMono(next * ONE, s * hop, ideal); }
      (s * hop) * ideal;
    ==
      (hop * ideal) * s;
    <=  { MulMono(hop * ideal, paid * ONE, s); }
      (paid * ONE) * s;
    ==
      (s * paid) * ONE;
    }
    calc {
      (s * paid) * ONE;
    ==
      (paid * ONE) * s;
    <=  { MulMono(paid * ONE, (hop + 1) * ideal, s); }
      ((hop + 1) * ideal) * s;
    ==
      (s * hop) * ideal + s * ideal;
    <=  { MulMono(s * hop, (next + 1) * ONE, ideal); MulMono(s, ONE, ideal); }
      ((next + 1) * ONE) * ideal + ONE * ideal;
    ==
      ((next + 2) * ideal) * ONE;
    }
  }

  lemma Swap(a: int, b: int, c: int)
    ensures (a * b) * c == (a * c) * b && (a * b) * c == a * (b * c) && (a * b) * c == a * (c * b)
  {
  }

  lemma RatioBelow(s: nat, paid: nat, ideal: nat, next: nat, paidNow: nat, idealNow: nat)
    requires s * ideal <= paid * ONE && next * idealNow <= s * paidNow
    ensures next * (ideal * idealNow) <= (paid * paidNow) * ONE
  {
    MulMono(next * idealNow, s * paidNow, ideal);
    MulMono(s * ideal, paid * ONE, paidNow);
    Swap(next, idealNow, ideal);
    Swap(s, paidNow, ideal);
    Swap(paid, ONE, paidNow);
  }

  lemma RatioAbove(bound: nat, paid: nat, ideal: nat, next: nat, paidNow: nat, idealNow: nat)
    requires paid * ONE <= bound * ideal && bound * paidNow <= next * idealNow
    ensures (paid * paidNow) * ONE <= next * (ideal * idealNow)
  {
    MulMono(paid * ONE, bound * ideal, paidNow);
    MulMono(bound * paidNow, next * idealNow, ideal);
    Swap(paid, ONE, paidNow);
    Swap(bound, ideal, paidNow);
    Swap(next, idealNow, ideal);
  }

  lemma SlackGrows(s: nat, slack: nat, next: nat, paidNow: nat, idealNow: nat)
    requires s * paidNow <= (next + 2) * idealNow && paidNow <= idealNow
    ensures (s + slack) * paidNow <= (next + slack + 2) * idealNow
  {
    MulMono(paidNow, idealNow, slack);
    Distribute(paidNow, s, slack);
    Distribute(idealNow, next + 2, slack);
  }

  /** What the preview takes off one is the price impact of the whole route in exact arithmetic, too high
      by two units at most of the eighteenth decimal a hop. */
  lemma {:induction false} ImpactExact(w: World, ops: seq<SwapOperation>, amount: nat, outs: seq<nat>, n: nat)
    requires n <= |ops| && n <= |outs| + 1
    ensures var s, p := Surviving(w, ops, amount, outs, n), PaidAndIdeal(w, ops, amount, outs, n);
      s <= ONE && s * p.1 <= p.0 * ONE <= (s + 2 * n) * p.1
  {
    if n > 0 {
      ImpactExact(w, ops, amount, outs, n - 1);
      var s, p := Surviving(w, ops, amount, outs, n - 1), PaidAndIdeal(w, ops, amount, outs, n - 1);
      var hop := HopRatio(w, ops, amount, outs, n - 1);
      HopStep(w, ops, amount, outs, n);
      var next := Surviving(w, ops, amount, outs, n);
      RatioBelow(s, p.0, p.1, next, hop.0, hop.1);
      SlackGrows(s, 2 * (n - 1), next, hop.0, hop.1);
      RatioAbove(s + 2 * (n - 1), p.0, p.1, next + 2 * n, hop.0, hop.1);
    }
  }

  lemma {:induction false} HopStep(w: World, ops: seq<SwapOperation>, amount: nat, outs: seq<nat>, n: nat)
    requires 0 < n <= |ops| && n <= |outs| + 1 && Surviving(w, ops, amount, outs, n - 1) <= ONE
    ensures var s, next := Surviving(w, ops, amount, outs, n - 1), Surviving(w, ops, amount, outs, n);
      var hop := HopRatio(w, ops, amount, outs, n - 1);
      next <= ONE && hop.0 <= hop.1 && next * hop.1 <= s * hop.0 <= (next + 2) * hop.1
  {
    var s := Surviving(w, ops, amount, outs, n - 1);
    if ops[n - 1].pool in w.pools {
      var a := SimulationOf(w, ops[n - 1].pool, ops[n - 1].offer, InputOf(outs, amount, n - 1));
      if a.Some? {
        var q := a.value;
        SurvivalAtMostOne(q.returned, q.spread);
        DecimalMulAtMost(s, Survival(q.returned, q.spread));
        SurvivalExact(q.returned, q.spread);
        if q.returned + q.spread > 0 {
          HopSurvives(s, Survival(q.returned, q.spread), q.returned, q.returned + q.spread);
        }
      }
    }
  }

  lemma {:induction false} SurvivingSame(w: World, ops: seq<SwapOperation>, amount: nat, outs: seq<nat>,
        more: seq<nat>, n: nat)
    requires n <= |ops| && n <= |outs| + 1
    ensures Surviving(w, ops, amount, outs + more, n) == Surviving(w, ops, amount, outs, n)
  {
    if n > 0 {
      SurvivingSame(w, ops, amount, outs, more, n - 1);
    }
  }

  /** No hop so far reported any spread. */
  ghost predicate NoSpread(w: World, ops: seq<SwapOperation>, amount: nat, n: nat)
    requires n <= |ops|
  {
    n > 0 ==>
      && NoSpread(w, ops, amount, n - 1)
      && var earlier := Outputs(w, ops, amount, n - 1);
         (earlier.Ok? && ops[n - 1].pool in w.pools ==>
            var input := if earlier.value == [] then amount else earlier.value[|earlier.value| - 1];
            var q := SimulationOf(w, ops[n - 1].pool, ops[n - 1].offer, input);
            q.Some? ==> q.value.spread == 0)
  }

  /** One more pool asked: what the preview shows then, and that a failure is final. */
  lemma {:induction false} AskNext(w: World, ops: seq<SwapOperation>, amount: nat, idx: nat, shown: seq<nat>,
        input: nat)
    requires idx < |ops| && Outputs(w, ops, amount, idx) == Ok(shown) && |shown| == idx
               && input == InputOf(shown, amount, idx)
    ensures var op := ops[idx];
      Outputs(w, ops, amount, idx + 1)
      == if op.pool !in w.pools then Err(QueryFailed(idx))
         else if !w.pools[op.pool].committed then Err(PoolInCommitPhase(idx))
         else if SimulationOf(w, op.pool, op.offer, input).None? then Err(QueryFailed(idx))
         else
           var a := SimulationOf(w, op.pool, op.offer, input).value;
           if a.returned + a.spread > U128_MAX then Err(AmountOverflow) else Ok(shown + [a.returned])
    ensures Outputs(w, ops, amount, idx + 1).Err? ==> Outputs(w, ops, amount, |ops|) == Outputs(w, ops, amount, idx + 1)
  {
    if Outputs(w, ops, amount, idx + 1).Err? {
      OutputsFail(w, ops, amount, idx + 1, |ops|);
    }
  }

  /** How its answer changes what survives. */
  lemma {:induction false} SurviveNext(w: World, ops: seq<SwapOperation>, amount: nat, idx: nat, shown: seq<nat>,
        a: Answer)
    requires idx < |ops| && Outputs(w, ops, amount, idx) == Ok(shown) && |shown| == idx && ops[idx].pool in w.pools
    requires SimulationOf(w, ops[idx].pool, ops[idx].offer, InputOf(shown, amount, idx)) == Some(a)
    requires Surviving(w, ops, amount, shown, idx) <= ONE
    ensures var survival := Surviving(w, ops, amount, shown, idx);
      var next := DecimalMul(survival, Survival(a.returned, a.spread));
      && Surviving(w, ops, amount, shown + [a.returned], idx + 1) == next <= ONE
      && (NoSpread(w, ops, amount, idx + 1) && survival == ONE ==> next == ONE)
      && (NoSpread(w, ops, amount, idx + 1) ==> NoSpread(w, ops, amount, idx))
  {
    SurvivalAtMostOne(a.returned, a.spread);
    DecimalMulAtMost(Surviving(w, ops, amount, shown, idx), Survival(a.returned, a.spread));
    SurvivingSame(w, ops, amount, shown, [a.returned], idx);
  }

  lemma WholeSurvives(x: nat)
    requires x <= ONE
    ensures DecimalMul(x, ONE) == x
  {
    DecimalMulAtMost(x, ONE);
  }

  /** The preview: the outputs in order, the last of them as the final amount, and as price impact
      what the product of the hops' survivals lacks to one; it is between nothing and everything, and
      nothing when no hop had any spread. */
  method SimulateMultiHop(w: World, ops: seq<SwapOperation>, amount: nat)
    returns (r: Result<Preview, RouterError>)
    ensures r.Ok? ==>
              && amount > 0 && RouteFault(ops).None?
              && Outputs(w, ops, amount, |ops|) == Ok(r.value.intermediate)
              && |r.value.intermediate| == |ops| > 0 && r.value.finalAmount == r.value.intermediate[|ops| - 1]
              && r.value.priceImpact == ONE - Surviving(w, ops, amount, r.value.intermediate, |ops|)
              && 0 <= r.value.priceImpact <= ONE
              && (NoSpread(w, ops, amount, |ops|) ==> r.value.priceImpact == 0)
    ensures r.Err? ==>
              if amount == 0 then r.error == ZeroAmount
              else if RouteFault(ops).Some? then r.error == RouteFault(ops).value
              else Outputs(w, ops, amount, |ops|) == Err(r.error)
  {
    if amount == 0 {
      return Err(ZeroAmount);
    }
    var fault := ValidateRoute(ops);
    if fault.Some? {
      return Err(fault.value);
    }
    var currentInput := amount;
    var intermediate: seq<nat> := [];
    var survival: nat := ONE;
    for idx := 0 to |ops|
      invariant Outputs(w, ops, amount, idx) == Ok(intermediate) && |intermediate| == idx
      invariant currentInput == InputOf(intermediate, amount, idx)
      invariant survival == Surviving(w, ops, amount, intermediate, idx) <= ONE
      invariant NoSpread(w, ops, amount, idx) ==> survival == ONE
    {
      var op := ops[idx];
      AskNext(w, ops, amount, idx, intermediate, currentInput);
      if op.pool !in w.pools {
        return Err(QueryFailed(idx));
      }
      if !w.pools[op.pool].committed {
        return Err(PoolInCommitPhase(idx));
      }
      var sim := SimulationOf(w, op.pool, op.offer, currentInput);
      if sim.None? {
        return Err(QueryFailed(idx));
      }
      var ideal := sim.value.returned + sim.value.spread;
      if ideal > U128_MAX {
        return Err(AmountOverflow);
      }
      SurviveNext(w, ops, amount, idx, intermediate, sim.value);
      if ideal != 0 {
        var factor := sim.value.returned * ONE / ideal;
        survival := DecimalMul(survival, factor);
      } else {
        WholeSurvives(survival);
      }
      intermediate := intermediate + [sim.value.returned];
      currentInput := sim.value.returned;
    }
    return Ok(Preview(intermediate[|ops| - 1], intermediate, ONE - survival));
  }

  // ----- Preview and execution -----

  ghost predicate DistinctPools(ops: seq<SwapOperation>) {
    forall i, j :: 0 <= i < j < |ops| ==> ops[i].pool != ops[j].pool
  }

  /** The pools of the hops still to come are as they were before the route. */
  ghost predicate Untouched(now: map<Addr, Pool>, pools: map<Addr, Pool>, ops: seq<SwapOperation>, i: nat) {
    forall k :: i <= k < |ops| ==>
      (ops[k].pool in now <==> ops[k].pool in pools)
      && (ops[k].pool in pools ==> now[ops[k].pool] == pools[ops[k].pool])
  }

  lemma OthersUntouched(now: map<Addr, Pool>, pools: map<Addr, Pool>, ops: seq<SwapOperation>, i: nat, q: Quote)
    requires i < |ops| && DistinctPools(ops) && Untouched(now, pools, ops, i) && ops[i].pool in now
    ensures Untouched(Traded(now, ops[i].pool, q), pools, ops, i + 1)
  {
  }

  /** A hop that, on its pool as it is in `pools`, is accepted and pays `out`. */
  ghost predicate Served(pools: map<Addr, Pool>, op: SwapOperation, input: nat, out: nat) {
    && op.pool in pools && pools[op.pool].committed && Accepts(pools[op.pool], op.offer, input)
    && var q := QuoteOf(pools[op.pool], op.offer, input);
       q.Some? && q.value.returned == out
  }

  ghost predicate AllServed(pools: map<Addr, Pool>, ops: seq<SwapOperation>, amount: nat, outs: seq<nat>, i: nat)
    requires |outs| == |ops|
  {
    forall k {:trigger ops[k]} :: i <= k < |ops| ==> Served(pools, ops[k], InputOf(outs, amount, k), outs[k])
  }

  lemma {:induction false} ChainLength(pools: map<Addr, Pool>, ops: seq<SwapOperation>, amount: nat)
    requires Chain(pools, ops, amount).Some?
    ensures |Chain(pools, ops, amount).value| == |ops|
  {
    if ops != [] {
      var q := QuoteOf(pools[ops[0].pool], ops[0].offer, amount).value;
      ChainLength(Traded(pools, ops[0].pool, q), ops[1..], q.returned);
    }
  }

  /** The next hop of a route that execution completes. */
  lemma {:induction false} NextServed(now: map<Addr, Pool>, pools: map<Addr, Pool>, ops: seq<SwapOperation>, input: nat,
        i: nat, rest: seq<nat>) returns (q: Quote)
    requires i < |ops| && DistinctPools(ops) && Untouched(now, pools, ops, i) && rest != []
    requires Chain(now, ops[i..], input) == Some(rest)
    ensures ops[i].pool in now && Untouched(Traded(now, ops[i].pool, q), pools, ops, i + 1)
    ensures q.returned == rest[0] && Served(pools, ops[i], input, rest[0])
    ensures Chain(Traded(now, ops[i].pool, q), ops[i + 1..], rest[0]) == Some(rest[1..])
  {
    assert ops[i..][0] == ops[i];
    q := QuoteOf(now[ops[i].pool], ops[i].offer, input).value;
    ChainStep(now, ops, i, input);
    OthersUntouched(now, pools, ops, i, q);
  }

  lemma Regroup(outs: seq<nat>, rest: seq<nat>)
    requires rest != []
    ensures outs + [rest[0]] + rest[1..] == outs + rest
  {
  }

  /** Execution serves the hops of a route over pairwise distinct pools as their pools would serve
      them before the route. */
  lemma {:induction false} ChainServed(now: map<Addr, Pool>, pools: map<Addr, Pool>, ops: seq<SwapOperation>,
        amount: nat, i: nat, outs: seq<nat>, rest: seq<nat>)
    requires |outs| == i && i + |rest| == |ops| && DistinctPools(ops) && Untouched(now, pools, ops, i)
    requires Chain(now, ops[i..], InputOf(outs, amount, i)) == Some(rest)
    ensures AllServed(pools, ops, amount, outs + rest, i)
    decreases |ops| - i
  {
    if i < |ops| {
      var q := NextServed(now, pools, ops, InputOf(outs, amount, i), i, rest);
      Regroup(outs, rest);
      ChainServed(Traded(now, ops[i].pool, q), pools, ops, amount, i + 1, outs + [rest[0]], rest[1..]);
      assert InputOf(outs + rest, amount, i) == InputOf(outs, amount, i);
    }
  }

  /** Asked in `w` for the hop's input, the pool shows `out`, and output and spread together fit. */
  ghost predicate Foretold(w: World, op: SwapOperation, input: nat, out: nat) {
    && op.pool in w.pools
    && var a := SimulationOf(w, op.pool, op.offer, input);
       a.Some? && a.value.returned == out && a.value.returned + a.value.spread <= U128_MAX
  }

  ghost predicate AllForetold(w: World, ops: seq<SwapOperation>, amount: nat, outs: seq<nat>, n: nat)
    requires n <= |ops| == |outs|
  {
    forall k {:trigger ops[k]} :: 0 <= k < n ==> Foretold(w, ops[k], InputOf(outs, amount, k), outs[k])
  }

  /** The preview of the first `n` hops is right. */
  ghost predicate Shown(w: World, ops: seq<SwapOperation>, amount: nat, outs: seq<nat>, n: nat)
    requires n <= |ops| == |outs|
  {
    Outputs(w, ops, amount, n) == Ok(outs[..n])
  }

  /** A preview that was right so far stays right exactly when the next hop is foretold. */
  lemma {:induction false} OutputsStep(w: World, ops: seq<SwapOperation>, amount: nat, outs: seq<nat>, n: nat)
    requires 0 < n <= |ops| == |outs| && ops[n - 1].pool in w.pools && w.pools[ops[n - 1].pool].committed
    requires Shown(w, ops, amount, outs, n - 1)
    ensures Shown(w, ops, amount, outs, n)
            <==> Foretold(w, ops[n - 1], InputOf(outs, amount, n - 1), outs[n - 1])
  {
    assert outs[..n] == outs[..n - 1] + [outs[n - 1]];
    var a := SimulationOf(w, ops[n - 1].pool, ops[n - 1].offer, InputOf(outs, amount, n - 1));
    if a.Some? && a.value.returned + a.value.spread <= U128_MAX {
      assert Outputs(w, ops, amount, n) == Ok(outs[..n - 1] + [a.value.returned]);
      assert (outs[..n - 1] + [a.value.returned])[n - 1] == a.value.returned && outs[..n][n - 1] == outs[n - 1];
    }
  }

  lemma {:induction false} OutputsLength(w: World, ops: seq<SwapOperation>, amount: nat, n: nat)
    requires n <= |ops| && Outputs(w, ops, amount, n).Ok?
    ensures |Outputs(w, ops, amount, n).value| == n
  {
    if n > 0 {
      OutputsLength(w, ops, amount, n - 1);
    }
  }

  /** A preview that is right is right from the start. */
  lemma {:induction false} ShownSoFar(w: World, ops: seq<SwapOperation>, amount: nat, outs: seq<nat>, n: nat)
    requires 0 < n <= |ops| == |outs| && Shown(w, ops, amount, outs, n)
    ensures Shown(w, ops, amount, outs, n - 1)
  {
    OutputsLength(w, ops, amount, n - 1);
    var earlier := Outputs(w, ops, amount, n - 1).value;
    assert earlier == Outputs(w, ops, amount, n).value[..n - 1];
    assert outs[..n][..n - 1] == outs[..n - 1];
  }

  lemma ForetoldGrows(w: World, ops: seq<SwapOperation>, amount: nat, outs: seq<nat>, n: nat)
    requires 0 < n <= |ops| == |outs|
    ensures AllForetold(w, ops, amount, outs, n)
            <==> AllForetold(w, ops, amount, outs, n - 1)
                 && Foretold(w, ops[n - 1], InputOf(outs, amount, n - 1), outs[n - 1])
  {
  }

  lemma {:induction false} MatchGrows(w: World, ops: seq<SwapOperation>, amount: nat, outs: seq<nat>, n: nat)
    requires 0 < n <= |ops| == |outs| && ops[n - 1].pool in w.pools && w.pools[ops[n - 1].pool].committed
    requires Shown(w, ops, amount, outs, n - 1) <==> AllForetold(w, ops, amount, outs, n - 1)
    ensures Shown(w, ops, amount, outs, n) <==> AllForetold(w, ops, amount, outs, n)
  {
    ForetoldGrows(w, ops, amount, outs, n);
    if Shown(w, ops, amount, outs, n - 1) {
      OutputsStep(w, ops, amount, outs, n);
    } else if Shown(w, ops, amount, outs, n) {
      ShownSoFar(w, ops, amount, outs, n);
    }
  }

  lemma {:induction false} OutputsMatch(w: World, ops: seq<SwapOperation>, amount: nat, outs: seq<nat>, n: nat)
    requires n <= |ops| == |outs| && AllServed(w.pools, ops, amount, outs, 0)
    ensures Shown(w, ops, amount, outs, n) <==> AllForetold(w, ops, amount, outs, n)
  {
    if n > 0 {
      OutputsMatch(w, ops, amount, outs, n - 1);
      assert Served(w.pools, ops[n - 1], InputOf(outs, amount, n - 1), outs[n - 1]);
      MatchGrows(w, ops, amount, outs, n);
    }
  }

  /** When a route over pairwise distinct pools succeeds, every hop was accepted and paid as its pool
      would have before the route, and the preview taken then shows exactly the amounts delivered if
      and only if every pool, asked for its hop's true input, shows what it pays, output and spread
      together fitting 128 bits. */
  lemma {:induction false} PreviewAgrees(w: World, router: Addr, q: Request)
    requires Transact(w, router, q).Ok? && DistinctPools(q.ops)
    requires q.ops != [] ==> HoldsNone(w.bank, router, q.ops)
    requires Outsider(Recipient(q), router, q.ops)
    requires q.sender != router && forall i :: 0 <= i < |q.ops| ==> q.ops[i].pool != router
    ensures |Transact(w, router, q).value.outputs| == |q.ops|
    ensures var outputs := Transact(w, router, q).value.outputs;
      && AllServed(w.pools, q.ops, q.amount, outputs, 0)
      && (Outputs(w, q.ops, q.amount, |q.ops|) == Ok(outputs) <==> AllForetold(w, q.ops, q.amount, outputs, |q.ops|))
  {
    RouteSettles(w, router, q);
    var outputs := Transact(w, router, q).value.outputs;
    assert q.ops[0..] == q.ops && [] + outputs == outputs && outputs[..|q.ops|] == outputs;
    ChainServed(w.pools, w.pools, q.ops, q.amount, 0, [], outputs);
    OutputsMatch(w, q.ops, q.amount, outputs, |q.ops|);
  }
}
