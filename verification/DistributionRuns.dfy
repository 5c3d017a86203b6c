/** What holds of a creator pool over every run from its instantiation: any commits, batches,
    restarts, claims and deposits, in any order, whatever becomes of the mints they send. */
module DistributionRuns {
  import opened Base
  import opened MintIsolation
  import opened Distribution
  import opened CommitLedger

  ghost function After(p: Pool, e: Event): Pool {
    match Step(p, e)
    case Ok(s) => s.pool
    case Err(_) => p
  }

  ghost function Run(p: Pool, es: seq<Event>): Pool {
    if es == [] then p else After(Run(p, es[..|es| - 1]), es[|es| - 1])
  }

  /** The isolated mints of a transaction that was kept. */
  ghost function SentBy(p: Pool, e: Event): seq<MintMsg> {
    match Step(p, e)
    case Ok(s) => s.sent
    case Err(_) => []
  }

  ghost function Sent(p: Pool, es: seq<Event>): seq<MintMsg> {
    if es == [] then []
    else Sent(p, es[..|es| - 1]) + SentBy(Run(p, es[..|es| - 1]), es[|es| - 1])
  }

  /** Those among them that batches send, as opposed to claims of earlier failures. */
  ghost function Batched(p: Pool, es: seq<Event>): seq<MintMsg> {
    if es == [] then []
    else
      Batched(p, es[..|es| - 1])
      + if es[|es| - 1].ContinueCall? then SentBy(Run(p, es[..|es| - 1]), es[|es| - 1]) else []
  }

  ghost function SumFor(msgs: seq<MintMsg>, user: Addr): nat {
    if msgs == [] then 0
    else
      var last := msgs[|msgs| - 1];
      SumFor(msgs[..|msgs| - 1], user) + if last.user == user then last.amount else 0
  }

  lemma {:induction false} SumForConcat(a: seq<MintMsg>, b: seq<MintMsg>, user: Addr)
    ensures SumFor(a + b, user) == SumFor(a, user) + SumFor(b, user)
  {
    if b == [] {
      assert a + b == a;
    } else {
      SumForConcat(a, b[..|b| - 1], user);
      assert (a + b)[..|a + b| - 1] == a + b[..|b| - 1];
    }
  }

  // ----- Batches -----

  /** The messages are these payments, each to the one it is for. */
  ghost predicate Pays(msgs: seq<MintMsg>, payments: seq<Payment>) {
    && |msgs| == |payments|
    && forall i :: 0 <= i < |msgs| ==>
         msgs[i].recipient == msgs[i].user == payments[i].payee && msgs[i].amount == payments[i].amount
  }

  lemma {:induction false} PaysSum(msgs: seq<MintMsg>, payments: seq<Payment>, user: Addr)
    requires Pays(msgs, payments)
    ensures SumFor(msgs, user) == SumTo(payments, user)
  {
    if msgs != [] {
      PaysSum(msgs[..|msgs| - 1], payments[..|payments| - 1], user);
    }
  }

  lemma OneMorePaid(msgs: seq<MintMsg>, payments: seq<Payment>, msg: MintMsg, payment: Payment)
    requires Pays(msgs, payments) && msg.recipient == msg.user == payment.payee && msg.amount == payment.amount
    ensures Pays(msgs + [msg], payments + [payment])
  {
  }

  /** Messages carry consecutive ids from the counter, each with its own stash, and nothing else
      changes in the stashes. */
  ghost predicate Grows(m: Mints, m': Mints, sent: seq<MintMsg>) {
    && m'.counter == m.counter + |sent| && Issued(m') && m'.depositContext == m.depositContext
        && m'.notifyPending == m.notifyPending
    && (forall id :: id in m.pending ==> id in m'.pending && m'.pending[id] == m.pending[id])
    && (forall id :: id in m'.pending ==> id in m.pending || REPLY_ID_MINT_BASE + m.counter <= id)
    && forall i :: 0 <= i < |sent| ==>
         && sent[i].id == REPLY_ID_MINT_BASE + m.counter + i && sent[i].id in m'.pending
         && m'.pending[sent[i].id] == PendingMint(sent[i].user, sent[i].amount)
  }

  lemma DispatchGrows(m: Mints, recipient: Addr, user: Addr, amount: Uint128)
    requires Issued(m) && Dispatch(m, recipient, user, amount).Ok?
    ensures var (m', msg) := Dispatch(m, recipient, user, amount).value;
      Grows(m, m', [msg]) && msg.user == user && msg.amount == amount
  {
  }

  lemma GrowsTwice(m: Mints, m1: Mints, m2: Mints, a: seq<MintMsg>, b: seq<MintMsg>)
    requires Grows(m, m1, a) && Grows(m1, m2, b)
    ensures Grows(m, m2, a + b)
  {
  }

  /** A batch sends each share, in ledger order... */
  lemma {:induction false} PayBatchExact(m: Mints, batch: seq<Commit>, total: Uint128, committed: Uint128)
    requires PayBatch(m, batch, total, committed).Ok?
    ensures var paid := PayBatch(m, batch, total, committed).value;
      && Pays(paid.sent, Shares(batch, total, committed))
      && paid.amount == Sum(Shares(batch, total, committed))
  {
    if batch != [] {
      var front, last := batch[..|batch| - 1], batch[|batch| - 1];
      PayBatchExact(m, front, total, committed);
      SharesLast(batch, total, committed, "");
      var before := PayBatch(m, front, total, committed).value;
      var reward := Reward(last.usd, total, committed);
      if reward == 0 {
        assert Shares(batch, total, committed) == Shares(front, total, committed);
      } else {
        var msg := Dispatch(before.mints, last.payer, last.payer, reward).value.1;
        OneMorePaid(before.sent, Shares(front, total, committed), msg, Payment(last.payer, reward));
      }
    }
  }

  /** ... under fresh ids. */
  lemma {:induction false} PayBatchGrows(m: Mints, batch: seq<Commit>, total: Uint128, committed: Uint128)
    requires Issued(m) && PayBatch(m, batch, total, committed).Ok?
    ensures var paid := PayBatch(m, batch, total, committed).value; Grows(m, paid.mints, paid.sent)
  {
    if batch != [] {
      var front, last := batch[..|batch| - 1], batch[|batch| - 1];
      PayBatchGrows(m, front, total, committed);
      var before := PayBatch(m, front, total, committed).value;
      var reward := Reward(last.usd, total, committed);
      if reward != 0 {
        DispatchGrows(before.mints, last.payer, last.payer, reward);
        var (m', msg) := Dispatch(before.mints, last.payer, last.payer, reward).value;
        GrowsTwice(m, before.mints, m', before.sent, [msg]);
      }
    }
  }

  lemma {:induction false} PayBatchOwes(m: Mints, batch: seq<Commit>, total: Uint128, committed: Uint128, u: Addr)
    requires Issued(m) && PayBatch(m, batch, total, committed).Ok?
    ensures var paid := PayBatch(m, batch, total, committed).value;
      Issued(paid.mints) && Owed(paid.mints, u) == Owed(m, u) + SumFor(paid.sent, u)
  {
    if batch != [] {
      var front, last := batch[..|batch| - 1], batch[|batch| - 1];
      PayBatchOwes(m, front, total, committed, u);
      var before := PayBatch(m, front, total, committed).value;
      var reward := Reward(last.usd, total, committed);
      if reward != 0 {
        DispatchOwes(before.mints, last.payer, last.payer, reward, u);
        var msg := MintMsg(REPLY_ID_MINT_BASE + before.mints.counter, last.payer, last.payer, reward);
        SumForConcat(before.sent, [msg], u);
        assert SumFor([msg], u) == if last.payer == u then reward else 0 by {
          assert [msg][..0] == [];
        }
      }
    }
  }

  /** A batch call sends the batch's mints, and after the last batch perhaps one more. */
  lemma ContinueShape(p: Pool, now: Timestamp)
    requires Continue(p, now).Ok?
    ensures p.distribution.Some?
    ensures var s := p.distribution.value;
      var paid := PayBatch(p.mints, Batch(p, s), s.total, s.committed);
      var r := Continue(p, now).value;
      && paid.Ok? && s.distributed + paid.value.amount <= U128_MAX
      && (|| (r.sent == paid.value.sent && r.pool.mints == paid.value.mints)
          || (&& 0 < s.distributed + paid.value.amount < s.total
              && var d := Dispatch(paid.value.mints, p.creator, p.creator,
                               s.total - (s.distributed + paid.value.amount));
                 d.Ok? && r.pool.mints == d.value.0 && r.sent == paid.value.sent + [d.value.1]))
  {
  }

  lemma ContinueGrows(p: Pool, now: Timestamp)
    requires Issued(p.mints) && Continue(p, now).Ok?
    ensures Grows(p.mints, Continue(p, now).value.pool.mints, Continue(p, now).value.sent)
  {
    ContinueShape(p, now);
    var s := p.distribution.value;
    var paid := PayBatch(p.mints, Batch(p, s), s.total, s.committed).value;
    PayBatchGrows(p.mints, Batch(p, s), s.total, s.committed);
    if Continue(p, now).value.sent != paid.sent {
      var rest := s.total - (s.distributed + paid.amount);
      DispatchGrows(paid.mints, p.creator, p.creator, rest);
      var (m', msg) := Dispatch(paid.mints, p.creator, p.creator, rest).value;
      GrowsTwice(p.mints, paid.mints, m', paid.sent, [msg]);
    }
  }

  lemma ClaimGrows(m: Mints, sender: Addr, recipient: Option<Addr>, recipientValid: bool)
    requires Issued(m) && Claim(m, sender, recipient, recipientValid).Ok?
    ensures var (m', msg) := Claim(m, sender, recipient, recipientValid).value; Grows(m, m', [msg])
  {
    var cleared := m.(failed := m.failed - {sender});
    var to := if recipient.Some? then recipient.value else sender;
    DispatchGrows(cleared, to, sender, m.failed[sender]);
  }

  // ----- Transactions -----

  /** The calls that send isolated mints. */
  ghost predicate SendsMints(e: Event) {
    e.ContinueCall? || e.ClaimCall?
  }

  /** What the handler alone makes of such a call. */
  ghost function Handled(p: Pool, e: Event): Result<Stepped, Error>
    requires SendsMints(e)
  {
    match e
    case ContinueCall(now, _) => Continue(p, now)
    case ClaimCall(sender, recipient, recipientValid, _) => ClaimFailed(p, sender, recipient, recipientValid)
  }

  /** A handler sends its mints under fresh ids, one after the other, so their replies find them. */
  lemma HandledAwaits(p: Pool, e: Event)
    requires Quiet(p.mints) && SendsMints(e) && Handled(p, e).Ok?
    ensures Awaiting(Handled(p, e).value.pool.mints, p.mints.counter, Handled(p, e).value.sent)
    ensures Handled(p, e).value.pool.mints.notifyPending == p.mints.notifyPending
  {
    match e
    case ContinueCall(now, _) => ContinueGrows(p, now);
    case ClaimCall(sender, recipient, recipientValid, _) => ClaimGrows(p.mints, sender, recipient, recipientValid);
  }

  /** A batch or a claim is kept exactly when its handler goes through and all its mints get ids
      below that of the deposit verification; what became of the mints does not matter. */
  lemma KeptExactly(p: Pool, e: Event)
    requires Quiet(p.mints) && SendsMints(e)
    requires Handled(p, e).Ok? ==> OwedFits(Handled(p, e).value.pool.mints)
    ensures Step(p, e).Ok? <==> Handled(p, e).Ok? && p.mints.counter + |Handled(p, e).value.sent| <= MINT_IDS
    ensures Step(p, e).Ok? ==>
              var handled := Handled(p, e).value;
              Step(p, e).value == handled.(pool := handled.pool.(mints := Step(p, e).value.pool.mints))
  {
    if Handled(p, e).Ok? {
      HandledAwaits(p, e);
      RepliesExact(Handled(p, e).value.pool.mints, p.mints.counter, Handled(p, e).value.sent, e.outcomes);
    }
  }

  /** Every transaction leaves no mint without its reply. */
  lemma StepQuiet(p: Pool, e: Event)
    requires Quiet(p.mints)
    ensures var sent := SentBy(p, e);
      && Quiet(After(p, e).mints) && After(p, e).mints.counter == p.mints.counter + |sent|
      && forall i :: 0 <= i < |sent| ==> sent[i].id == REPLY_ID_MINT_BASE + p.mints.counter + i
  {
    if Step(p, e).Ok? && SendsMints(e) {
      HandledAwaits(p, e);
      RepliesQuiet(Handled(p, e).value.pool.mints, p.mints.counter, Handled(p, e).value.sent, e.outcomes, "");
    } else if Step(p, e).Ok? {
      OthersQuiet(p, e);
    }
  }

  /** The other transactions send no mints, and leave the mint slots alone but for the notice. */
  lemma OthersQuiet(p: Pool, e: Event)
    requires !SendsMints(e) && Step(p, e).Ok? && !p.mints.depositContext
    ensures SentBy(p, e) == [] && After(p, e).mints == p.mints.(notifyPending := After(p, e).mints.notifyPending)
  {
  }

  /** Over every run the kept mints have consecutive ids, none is used twice, none is the one of the
      deposit verification, and each was settled by its reply before its transaction ended. */
  lemma {:induction false} IdsNeverReused(p: Pool, es: seq<Event>)
    requires Quiet(p.mints)
    ensures var q, sent := Run(p, es).mints, Sent(p, es);
      && q.pending == map[] && !q.depositContext && q.counter == p.mints.counter + |sent| <= MINT_IDS
      && forall i :: 0 <= i < |sent| ==>
           sent[i].id == REPLY_ID_MINT_BASE + p.mints.counter + i && sent[i].id < DEPOSIT_VERIFY_REPLY_ID
  {
    if es != [] {
      var before, e := es[..|es| - 1], es[|es| - 1];
      IdsNeverReused(p, before);
      StepQuiet(Run(p, before), e);
    }
  }

  /** The mints of a pool's life are numbered from a million, in the order they were sent. */
  lemma {:induction false} IdsFromBase(creator: Addr, target: Uint128, es: seq<Event>, i: nat)
    requires i < |Sent(Instantiated(creator, target), es)|
    ensures Sent(Instantiated(creator, target), es)[i].id == 1_000_000 + i < 0xD550_0000
  {
    IdsNeverReused(Instantiated(creator, target), es);
  }

  /** Once the ids below that of the deposit verification are used up, no later transaction mints
      anything: every claim fails, every batch with a share to pay fails, and what failed before
      stays unclaimed. */
  lemma {:induction false} SpentIdsBlock(p: Pool, es: seq<Event>, e: Event, user: Addr)
    requires Quiet(p.mints) && p.mints.counter == MINT_IDS
    ensures Sent(p, es) == [] && SentBy(Run(p, es), e) == []
    ensures e.ClaimCall? ==> Step(Run(p, es), e).Err?
    ensures Failed(Run(p, es).mints, user) == Failed(p.mints, user)
  {
    IdsNeverReused(p, es);
    StepQuiet(Run(p, es), e);
    if es != [] {
      var before, last := es[..|es| - 1], es[|es| - 1];
      SpentIdsBlock(p, before, last, user);
      IdsNeverReused(p, before);
      StepConserves(Run(p, before), last, user);
    }
  }

  // ----- Conservation -----

  /** What a transaction mints for `user`: its mints that succeed. */
  ghost function MintedBy(p: Pool, e: Event, user: Addr): nat {
    if SendsMints(e) then Confirmed(SentBy(p, e), e.outcomes, user) else 0
  }

  ghost function MintedFor(p: Pool, es: seq<Event>, user: Addr): nat {
    if es == [] then 0
    else MintedFor(p, es[..|es| - 1], user) + MintedBy(Run(p, es[..|es| - 1]), es[|es| - 1], user)
  }

  lemma {:induction false} SumForOne(msg: MintMsg, user: Addr)
    ensures SumFor([msg], user) == if msg.user == user then msg.amount else 0
  {
    assert [msg][..0] == [];
  }

  lemma {:induction false} ContinueOwes(p: Pool, now: Timestamp, u: Addr)
    requires Issued(p.mints) && Continue(p, now).Ok?
    ensures Owed(Continue(p, now).value.pool.mints, u) == Owed(p.mints, u) + SumFor(Continue(p, now).value.sent, u)
  {
    ContinueShape(p, now);
    var s := p.distribution.value;
    var paid := PayBatch(p.mints, Batch(p, s), s.total, s.committed).value;
    PayBatchOwes(p.mints, Batch(p, s), s.total, s.committed, u);
    if Continue(p, now).value.sent != paid.sent {
      var rest := s.total - (s.distributed + paid.amount);
      DispatchOwes(paid.mints, p.creator, p.creator, rest, u);
      var (m', msg) := Dispatch(paid.mints, p.creator, p.creator, rest).value;
      SumForConcat(paid.sent, [msg], u);
      SumForOne(msg, u);
    }
  }

  /** What the handler of a batch or a claim does to a user's account: a batch adds what it sends
      for them, a claim moves their failed amount. */
  lemma {:induction false} HandledOwes(p: Pool, e: Event, u: Addr)
    requires Quiet(p.mints) && SendsMints(e) && Handled(p, e).Ok?
    ensures Owed(Handled(p, e).value.pool.mints, u)
            == Failed(p.mints, u) + if e.ContinueCall? then SumFor(Handled(p, e).value.sent, u) else 0
  {
    NothingInFlight(p.mints, u, p.mints.counter);
    match e
    case ContinueCall(now, _) => ContinueOwes(p, now, u);
    case ClaimCall(sender, recipient, recipientValid, _) =>
      ClaimKeepsOwed(p.mints, sender, recipient, recipientValid, u);
  }

  /** One transaction keeps everyone's account: what a batch sends is minted or failed. */
  lemma {:induction false} StepConserves(p: Pool, e: Event, u: Addr)
    requires Quiet(p.mints)
    ensures Failed(After(p, e).mints, u) + MintedBy(p, e, u)
            == Failed(p.mints, u) + if e.ContinueCall? then SumFor(SentBy(p, e), u) else 0
  {
    if Step(p, e).Ok? && SendsMints(e) {
      HandledAwaits(p, e);
      HandledOwes(p, e, u);
      RepliesQuiet(Handled(p, e).value.pool.mints, p.mints.counter, Handled(p, e).value.sent, e.outcomes, u);
    } else if Step(p, e).Ok? {
      OthersQuiet(p, e);
    }
  }

  /** Over every run, what batches sent for a user is what was minted for them plus what failed and
      can be claimed: nothing is lost and nothing is minted twice, whatever mints fail and to
      whichever recipients claims go. */
  lemma {:induction false} MintsConserved(p: Pool, es: seq<Event>, user: Addr)
    requires Quiet(p.mints)
    ensures Failed(p.mints, user) + SumFor(Batched(p, es), user)
            == MintedFor(p, es, user) + Failed(Run(p, es).mints, user)
  {
    if es != [] {
      var before, e := es[..|es| - 1], es[|es| - 1];
      MintsConserved(p, before, user);
      IdsNeverReused(p, before);
      StepConserves(Run(p, before), e, user);
      SumForConcat(Batched(p, before), SentBy(Run(p, before), e), user);
      assert Batched(p, before) + [] == Batched(p, before);
    }
  }
}
