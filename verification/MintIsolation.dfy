/** Isolated mints of a creator pool: every mint goes out under its own reply id with a stash that
    says whom it is for; the reply, which runs inside the transaction that sent the mint, clears the
    stash and books a failure for a later claim. A reply that fails undoes that transaction. */
module MintIsolation {
  import opened Base

  const REPLY_ID_FACTORY_NOTIFY_INITIAL := 1
  const REPLY_ID_FACTORY_NOTIFY_RETRY := 2
  const REPLY_ID_MINT_BASE := 1_000_000
  const DEPOSIT_VERIFY_REPLY_ID := 0xD550_0000

  /** How many mint ids lie below the one that deposit verification takes. */
  const MINT_IDS := DEPOSIT_VERIFY_REPLY_ID - REPLY_ID_MINT_BASE

  datatype PendingMint = PendingMint(user: Addr, amount: Uint128)

  /** `depositContext` is there while a deposit waits for its verification. */
  datatype Mints = Mints(
    counter: Uint64, pending: map<nat, PendingMint>, failed: map<Addr, Uint128>,
    notifyPending: bool, depositContext: bool)

  /** A mint message: `user` is whose entitlement it is, `recipient` who gets the tokens. */
  datatype MintMsg = MintMsg(id: nat, recipient: Addr, user: Addr, amount: Uint128)

  datatype MintError =
    | CounterOverflow | IdSpaceExhausted | UnknownReplyId | DepositVerification | FailedMintOverflow
    | NoFailedMintEntry | InvalidAddress | NoPendingFactoryNotify | TransferFailed

  /** `build_distribution_mint_submsg`. */
  function Dispatch(m: Mints, recipient: Addr, user: Addr, amount: Uint128): Result<(Mints, MintMsg), MintError> {
    if m.counter + 1 > U64_MAX then Err(CounterOverflow)
    else if REPLY_ID_MINT_BASE + m.counter > U64_MAX then Err(IdSpaceExhausted)
    else
      var id := REPLY_ID_MINT_BASE + m.counter;
      Ok((m.(counter := m.counter + 1, pending := m.pending[id := PendingMint(user, amount)]),
          MintMsg(id, recipient, user, amount)))
  }

  function Failed(m: Mints, user: Addr): nat {
    if user in m.failed then m.failed[user] else 0
  }

  /** The reply is about a mint: the id is in the mint range, its stash is there, and no earlier arm
      takes it. */
  predicate MintReply(m: Mints, id: nat) {
    id >= REPLY_ID_MINT_BASE && id != DEPOSIT_VERIFY_REPLY_ID && id in m.pending
  }

  /** `reply`. `balanced` is whether a deposit's balances came out as credited. */
  function Reply(m: Mints, id: nat, success: bool, balanced: bool): Result<Mints, MintError> {
    if id == REPLY_ID_FACTORY_NOTIFY_INITIAL then
      Ok(if success then m else m.(notifyPending := true))
    else if id == REPLY_ID_FACTORY_NOTIFY_RETRY then
      Ok(if success then m.(notifyPending := false) else m)
    else if id == DEPOSIT_VERIFY_REPLY_ID then
      if success && m.depositContext && balanced then Ok(m.(depositContext := false)) else Err(DepositVerification)
    else if MintReply(m, id) then
      var p := m.pending[id];
      var cleared := m.(pending := m.pending - {id});
      if success then Ok(cleared)
      else if Failed(m, p.user) + p.amount > U128_MAX then Err(FailedMintOverflow)
      else Ok(cleared.(failed := m.failed[p.user := Failed(m, p.user) + p.amount]))
    else Err(UnknownReplyId)
  }

  predicate Succeeded(outcomes: seq<bool>, i: nat) {
    i < |outcomes| && outcomes[i]
  }

  /** The replies to a call's mints, in the order they were sent; the first that fails undoes the
      call. `balanced` is left at its best, since no mint is a deposit. */
  function ReplyAll(m: Mints, sent: seq<MintMsg>, outcomes: seq<bool>): Result<Mints, MintError> {
    if sent == [] then Ok(m)
    else
      var last := |sent| - 1;
      var before :- ReplyAll(m, sent[..last], outcomes);
      Reply(before, sent[last].id, Succeeded(outcomes, last), true)
  }

  /** A deposit whose last message is followed by the verification of the balances. */
  function Deposit(m: Mints, transferred: bool, balanced: bool): Result<Mints, MintError> {
    if !transferred then Err(TransferFailed)
    else Reply(m.(depositContext := true), DEPOSIT_VERIFY_REPLY_ID, true, balanced)
  }

  /** `RetryFactoryNotify` with the reply to its notice. */
  function RetryNotify(m: Mints, delivered: bool): Result<Mints, MintError> {
    if !m.notifyPending then Err(NoPendingFactoryNotify)
    else Reply(m, REPLY_ID_FACTORY_NOTIFY_RETRY, delivered, true)
  }

  /** `ClaimFailedDistribution`: the whole of the sender's failed amount, to any recipient. */
  function Claim(m: Mints, sender: Addr, recipient: Option<Addr>,
        recipientValid: bool): Result<(Mints, MintMsg), MintError> {
    if sender !in m.failed || m.failed[sender] == 0 then Err(NoFailedMintEntry)
    else if !recipientValid then Err(InvalidAddress)
    else
      var to := if recipient.Some? then recipient.value else sender;
      Dispatch(m.(failed := m.failed - {sender}), to, sender, m.failed[sender])
  }

  // ----- Accounting -----

  /** What is in flight for `user`, over the first `n` ids. */
  ghost function InFlight(m: Mints, user: Addr, n: nat): nat {
    if n == 0 then 0
    else
      var id := REPLY_ID_MINT_BASE + n - 1;
      InFlight(m, user, n - 1)
      + if id in m.pending && m.pending[id].user == user then m.pending[id].amount else 0
  }

  /** Every stash sits under an id that was handed out. */
  ghost predicate Issued(m: Mints) {
    forall id :: id in m.pending ==> REPLY_ID_MINT_BASE <= id < REPLY_ID_MINT_BASE + m.counter
  }

  ghost function Owed(m: Mints, user: Addr): nat {
    Failed(m, user) + InFlight(m, user, m.counter)
  }

  lemma {:induction false} InFlightAgrees(m: Mints, m': Mints, user: Addr, n: nat)
    requires forall id :: REPLY_ID_MINT_BASE <= id < REPLY_ID_MINT_BASE + n ==>
               (id in m.pending <==> id in m'.pending) && (id in m.pending ==> m.pending[id] == m'.pending[id])
    ensures InFlight(m, user, n) == InFlight(m', user, n)
  {
    if n > 0 {
      InFlightAgrees(m, m', user, n - 1);
    }
  }

  /** A dispatch fails exactly where the ids end. */
  lemma DispatchFits(m: Mints, recipient: Addr, user: Addr, amount: Uint128)
    ensures Dispatch(m, recipient, user, amount).Ok? <==> 1_000_000 + m.counter <= U64_MAX
  {
  }

  /** A dispatch adds its amount to what its user is owed, under a fresh id. */
  lemma DispatchOwes(m: Mints, recipient: Addr, user: Addr, amount: Uint128, u: Addr)
    requires Issued(m) && Dispatch(m, recipient, user, amount).Ok?
    ensures var (m', msg) := Dispatch(m, recipient, user, amount).value;
      && Issued(m') && msg.id !in m.pending && msg == MintMsg(REPLY_ID_MINT_BASE + m.counter, recipient, user, amount)
      && m'.counter == m.counter + 1
      && Owed(m', u) == Owed(m, u) + if u == user then amount else 0
  {
    var (m', msg) := Dispatch(m, recipient, user, amount).value;
    InFlightAgrees(m, m', u, m.counter);
  }

  lemma {:induction false} InFlightWithout(m: Mints, m': Mints, id: nat, user: Addr, n: nat)
    requires id in m.pending && id >= REPLY_ID_MINT_BASE && m'.pending == m.pending - {id}
    ensures InFlight(m', user, n)
            == InFlight(m, user, n)
               - if id < REPLY_ID_MINT_BASE + n && m.pending[id].user == user then m.pending[id].amount else 0
  {
    if n > 0 {
      InFlightWithout(m, m', id, user, n - 1);
    }
  }

  /** A mint reply takes its amount off what the user is owed when the mint succeeded and moves it
      to the failed amounts when it did not. */
  lemma ReplySettles(m: Mints, id: nat, success: bool, balanced: bool, u: Addr)
    requires Issued(m) && Reply(m, id, success, balanced).Ok?
    ensures var m' := Reply(m, id, success, balanced).value;
      && Issued(m') && m'.counter == m.counter
      && Owed(m', u) + (if MintReply(m, id) && success && m.pending[id].user == u then m.pending[id].amount else 0)
         == Owed(m, u)
  {
    var m' := Reply(m, id, success, balanced).value;
    if MintReply(m, id) {
      InFlightWithout(m, m', id, u, m.counter);
    } else {
      InFlightAgrees(m, m', u, m.counter);
    }
  }

  /** A claim moves the failed amount back in flight; nobody's total changes. */
  lemma ClaimKeepsOwed(m: Mints, sender: Addr, recipient: Option<Addr>, recipientValid: bool, u: Addr)
    requires Issued(m) && Claim(m, sender, recipient, recipientValid).Ok?
    ensures var (m', msg) := Claim(m, sender, recipient, recipientValid).value;
      && Issued(m') && Owed(m', u) == Owed(m, u) && m'.counter == m.counter + 1
      && msg.id == REPLY_ID_MINT_BASE + m.counter && msg.user == sender && msg.amount == Failed(m, sender)
  {
    var cleared := m.(failed := m.failed - {sender});
    InFlightAgrees(m, cleared, u, m.counter);
    var to := if recipient.Some? then recipient.value else sender;
    DispatchOwes(cleared, to, sender, m.failed[sender], u);
  }

  /** Outside a deposit, the reply to a mint fails exactly when the mint has the id of the deposit
      verification, whether or not it succeeded, or when it failed and the failed amounts leave
      128 bits; otherwise it clears the mint's stash and no other. */
  lemma MintReplyOutcome(m: Mints, id: nat, success: bool, balanced: bool)
    requires Issued(m) && id in m.pending && !m.depositContext
    ensures var r := Reply(m, id, success, balanced);
      && (r.Ok? <==>
            && id != DEPOSIT_VERIFY_REPLY_ID
            && (success || Failed(m, m.pending[id].user) + m.pending[id].amount <= U128_MAX))
      && (r.Ok? ==> r.value == m.(pending := m.pending - {id}, failed := r.value.failed))
  {
  }

  /** What a stash holds is part of what its user is owed. */
  lemma {:induction false} StashWithin(m: Mints, id: nat, n: nat)
    requires id in m.pending && REPLY_ID_MINT_BASE <= id < REPLY_ID_MINT_BASE + n
    ensures m.pending[id].amount <= InFlight(m, m.pending[id].user, n)
  {
    if id < REPLY_ID_MINT_BASE + n - 1 {
      StashWithin(m, id, n - 1);
    }
  }

  lemma {:induction false} NothingInFlight(m: Mints, user: Addr, n: nat)
    requires m.pending == map[]
    ensures InFlight(m, user, n) == 0
  {
    if n > 0 {
      NothingInFlight(m, user, n - 1);
    }
  }

  // ----- A call and its replies -----

  /** The mint messages have consecutive ids from `first`, each with its own stash, and there are no
      other stashes. */
  ghost predicate Awaiting(m: Mints, first: nat, sent: seq<MintMsg>) {
    && Issued(m) && !m.depositContext && m.counter == first + |sent|
    && (forall i :: 0 <= i < |sent| ==>
          && sent[i].id == REPLY_ID_MINT_BASE + first + i && sent[i].id in m.pending
          && m.pending[sent[i].id] == PendingMint(sent[i].user, sent[i].amount))
    && forall id :: id in m.pending ==> REPLY_ID_MINT_BASE + first <= id
  }

  /** Between calls: no mint without its reply, no deposit without its verification, and the counter
      has not passed the id of the deposit verification. */
  ghost predicate Quiet(m: Mints) {
    m.pending == map[] && !m.depositContext && m.counter <= MINT_IDS
  }

  /** What the successful ones among these mints deliver for `user`. */
  ghost function Confirmed(sent: seq<MintMsg>, outcomes: seq<bool>, user: Addr): nat {
    if sent == [] then 0
    else
      var last := |sent| - 1;
      Confirmed(sent[..last], outcomes, user)
      + if Succeeded(outcomes, last) && sent[last].user == user then sent[last].amount else 0
  }

  /** The state after the first `n` replies. */
  ghost predicate Answered(m: Mints, m': Mints, first: nat, n: nat) {
    && Issued(m') && m' == m.(pending := m'.pending, failed := m'.failed)
    && (forall id :: id in m'.pending <==> id in m.pending && REPLY_ID_MINT_BASE + first + n <= id)
    && forall id :: id in m'.pending ==> m'.pending[id] == m.pending[id]
  }

  lemma OneMoreReply(m: Mints, m': Mints, first: nat, sent: seq<MintMsg>, n: nat, success: bool)
    requires Awaiting(m, first, sent) && n < |sent| && Answered(m, m', first, n)
    requires Reply(m', sent[n].id, success, true).Ok?
    ensures Answered(m, Reply(m', sent[n].id, success, true).value, first, n + 1)
    ensures MintReply(m', sent[n].id) && m'.pending[sent[n].id] == PendingMint(sent[n].user, sent[n].amount)
  {
    MintReplyOutcome(m', sent[n].id, success, true);
  }

  /** Replies that all go through settle exactly the first `n` mints: their amounts are delivered or
      booked as failed. */
  lemma {:induction false} RepliesSettle(m: Mints, first: nat, sent: seq<MintMsg>, outcomes: seq<bool>, n: nat, u: Addr)
    requires Awaiting(m, first, sent) && n <= |sent| && ReplyAll(m, sent[..n], outcomes).Ok?
    ensures var m' := ReplyAll(m, sent[..n], outcomes).value;
      && Answered(m, m', first, n)
      && Owed(m', u) + Confirmed(sent[..n], outcomes, u) == Owed(m, u)
  {
    if n > 0 {
      assert sent[..n][..n - 1] == sent[..n - 1];
      RepliesSettle(m, first, sent, outcomes, n - 1, u);
      var before := ReplyAll(m, sent[..n - 1], outcomes).value;
      OneMoreReply(m, before, first, sent, n - 1, Succeeded(outcomes, n - 1));
      ReplySettles(before, sent[n - 1].id, Succeeded(outcomes, n - 1), true, u);
    }
  }

  ghost predicate OwedFits(m: Mints) {
    forall u :: Owed(m, u) <= U128_MAX
  }

  /** While what everybody is owed fits 128 bits, no failure can overflow the failed amounts. */
  lemma FailureFits(m: Mints, id: nat)
    requires Issued(m) && OwedFits(m) && id in m.pending
    ensures Failed(m, m.pending[id].user) + m.pending[id].amount <= U128_MAX
  {
    StashWithin(m, id, m.counter);
    assert Owed(m, m.pending[id].user) <= U128_MAX;
  }

  /** Replies go through up to the one that has the id of the deposit verification. */
  lemma {:induction false} RepliesGoThrough(m: Mints, first: nat, sent: seq<MintMsg>, outcomes: seq<bool>, n: nat)
    requires Awaiting(m, first, sent) && n <= |sent| && OwedFits(m)
    requires first + n <= MINT_IDS || MINT_IDS < first
    ensures ReplyAll(m, sent[..n], outcomes).Ok?
  {
    if n > 0 {
      assert sent[..n][..n - 1] == sent[..n - 1];
      RepliesGoThrough(m, first, sent, outcomes, n - 1);
      var before := ReplyAll(m, sent[..n - 1], outcomes).value;
      forall u
        ensures Owed(before, u) <= U128_MAX
      {
        RepliesSettle(m, first, sent, outcomes, n - 1, u);
      }
      RepliesSettle(m, first, sent, outcomes, n - 1, "");
      FailureFits(before, sent[n - 1].id);
      MintReplyOutcome(before, sent[n - 1].id, Succeeded(outcomes, n - 1), true);
    }
  }

  lemma {:induction false} PrefixFails(m: Mints, sent: seq<MintMsg>, outcomes: seq<bool>, n: nat)
    requires n <= |sent| && ReplyAll(m, sent[..n], outcomes).Err?
    ensures ReplyAll(m, sent, outcomes) == ReplyAll(m, sent[..n], outcomes)
  {
    if n == |sent| {
      assert sent[..n] == sent;
    } else {
      assert sent[..|sent| - 1][..n] == sent[..n];
      PrefixFails(m, sent[..|sent| - 1], outcomes, n);
    }
  }

  /** The mint that gets the deposit-verification id is refused by its own reply, whatever became of
      it. */
  lemma {:induction false} DepositIdRefused(m: Mints, first: nat, sent: seq<MintMsg>, outcomes: seq<bool>)
    requires Awaiting(m, first, sent) && first <= MINT_IDS < first + |sent|
    ensures ReplyAll(m, sent, outcomes).Err?
  {
    var n := MINT_IDS - first;
    if ReplyAll(m, sent[..n], outcomes).Ok? {
      RepliesSettle(m, first, sent, outcomes, n, "");
      assert sent[..n + 1][..n] == sent[..n];
      MintReplyOutcome(ReplyAll(m, sent[..n], outcomes).value, sent[n].id, Succeeded(outcomes, n), true);
      PrefixFails(m, sent, outcomes, n + 1);
    } else {
      PrefixFails(m, sent, outcomes, n);
    }
  }

  /** A call that sends `n` mints from a quiet state is kept exactly when all their ids lie below
      that of the deposit verification. */
  lemma {:induction false} RepliesExact(m: Mints, first: nat, sent: seq<MintMsg>, outcomes: seq<bool>)
    requires Awaiting(m, first, sent) && first <= MINT_IDS && OwedFits(m)
    ensures ReplyAll(m, sent, outcomes).Ok? <==> first + |sent| <= MINT_IDS
  {
    if first + |sent| <= MINT_IDS {
      assert sent[..|sent|] == sent;
      RepliesGoThrough(m, first, sent, outcomes, |sent|);
    } else {
      DepositIdRefused(m, first, sent, outcomes);
    }
  }

  /** After the replies of a kept call nothing is in flight. */
  lemma {:induction false} RepliesQuiet(m: Mints, first: nat, sent: seq<MintMsg>, outcomes: seq<bool>, u: Addr)
    requires Awaiting(m, first, sent) && first <= MINT_IDS && ReplyAll(m, sent, outcomes).Ok?
    ensures var m' := ReplyAll(m, sent, outcomes).value;
      && Quiet(m') && m'.counter == first + |sent| <= MINT_IDS
      && Failed(m', u) + Confirmed(sent, outcomes, u) == Owed(m, u)
  {
    assert sent[..|sent|] == sent;
    RepliesSettle(m, first, sent, outcomes, |sent|, u);
    var m' := ReplyAll(m, sent, outcomes).value;
    assert m'.pending == map[];
    NothingInFlight(m', u, m'.counter);
    if MINT_IDS < first + |sent| {
      DepositIdRefused(m, first, sent, outcomes);
    }
  }
}
