/** Where the reservoir's coins went and who decided it, over every run. */
module ReservoirCustody {
  import opened Base
  import opened ReservoirModel
  import opened ReservoirRuns

  // ----- Conservation -----

  ghost function Deposited(r: Reservoir, calls: seq<Call>, denom: Denom): nat {
    if calls == [] then 0
    else
      var call := calls[|calls| - 1];
      Deposited(r, calls[..|calls| - 1], denom)
      + if call.msg.Deposit? && call.msg.denom == denom then call.msg.coins else 0
  }

  /** Coins that left the contract. */
  ghost function Outflow(r: Reservoir, call: Call, denom: Denom): nat {
    match Step(r, call)
    case Ok(Stepped(_, Some(t))) => if t.denom == denom && t.recipient != r.self then t.amount else 0
    case _ => 0
  }

  ghost function PaidOut(r: Reservoir, calls: seq<Call>, denom: Denom): nat {
    if calls == [] then 0
    else PaidOut(r, calls[..|calls| - 1], denom) + Outflow(Run(r, calls[..|calls| - 1]), calls[|calls| - 1], denom)
  }

  lemma StepConserves(r: Reservoir, call: Call, denom: Denom)
    ensures Balance(After(r, call, true), denom) + Outflow(r, call, denom)
            == Balance(r, denom) + if call.msg.Deposit? && call.msg.denom == denom then call.msg.coins else 0
  {
  }

  /** For every denomination, what is held plus what left equals what was there plus what came in. */
  lemma {:induction false} CoinsConserved(r: Reservoir, calls: seq<Call>, denom: Denom)
    ensures Balance(Run(r, calls), denom) + PaidOut(r, calls, denom)
            == Balance(r, denom) + Deposited(r, calls, denom)
  {
    if calls != [] {
      CoinsConserved(r, calls[..|calls| - 1], denom);
      StepConserves(Run(r, calls[..|calls| - 1]), calls[|calls| - 1], denom);
    }
  }

  // ----- Timelock provenance -----

  /** Call `i` proposed the withdrawal that is still staged after `n` calls, and ever since then it
      was staged unchanged and the contract belonged to the proposer. */
  ghost predicate StagedBy(r: Reservoir, calls: seq<Call>, i: nat, n: nat, w: PendingWithdrawal) {
    && i < n <= |calls|
    && calls[i].msg.ProposeWithdrawal? && Step(Run(r, calls[..i]), calls[i]).Ok?
    && w == Staged(calls[i])
    && forall k :: i < k <= n ==>
         Run(r, calls[..k]).pendingWithdrawal == Some(w) && Run(r, calls[..k]).config.owner == calls[i].sender
  }

  /** A call that leaves a withdrawal staged either left it, and the owner, alone, or proposed it. */
  lemma StagedStep(r: Reservoir, call: Call, w: PendingWithdrawal)
    requires After(r, call, true).pendingWithdrawal == Some(w)
    ensures After(r, call, true).config.owner == r.config.owner
    ensures r.pendingWithdrawal == Some(w)
            || (call.msg.ProposeWithdrawal? && Step(r, call).Ok? && w == Staged(call) && call.sender == r.config.owner)
  {
  }

  lemma {:induction false} StagedOrigin(r: Reservoir, calls: seq<Call>, n: nat, w: PendingWithdrawal) returns (i: nat)
    requires r.pendingWithdrawal.None? && n <= |calls|
    requires Run(r, calls[..n]).pendingWithdrawal == Some(w)
    ensures StagedBy(r, calls, i, n, w)
  {
    if n == 0 {
      assert false;
    } else {
      assert calls[..n][..n - 1] == calls[..n - 1];
      var before, call := Run(r, calls[..n - 1]), calls[n - 1];
      StagedStep(before, call, w);
      if before.pendingWithdrawal == Some(w) {
        i := StagedOrigin(r, calls, n - 1, w);
      } else {
        i := n - 1;
      }
    }
  }

  /** What executing a proposal to withdraw pays: the amount asked for or the balance, whichever is
      smaller, to the recipient named or else to the proposer. */
  ghost function Withdrawn(r: Reservoir, proposal: Call): Option<Transfer>
    requires proposal.msg.ProposeWithdrawal?
  {
    var m := proposal.msg;
    var amount := Min(m.amount, Balance(r, m.denom));
    if amount == 0 then None
    else Some(Transfer(if m.recipient.Some? then m.recipient.value else proposal.sender, m.denom, amount))
  }

  /** In every run, an executed withdrawal was proposed unchanged 48 hours before or more, by the
      address that owns the contract at execution and owned it all the while; nothing cancelled or
      replaced it in between. */
  lemma WithdrawalProvenance(r: Reservoir, calls: seq<Call>, call: Call) returns (i: nat)
    requires r.pendingWithdrawal.None?
    requires call.msg.ExecuteWithdrawal? && Step(Run(r, calls), call).Ok?
    ensures i < |calls| && calls[i].msg.ProposeWithdrawal?
    ensures StagedBy(r, calls, i, |calls|, Staged(calls[i]))
    ensures call.sender == calls[i].sender && calls[i].now + 48 * 3600 * NANOS <= call.now
    ensures Step(Run(r, calls), call).value.sent == Withdrawn(Run(r, calls), calls[i])
    ensures Step(Run(r, calls), call).value.reservoir.pendingWithdrawal.None?
  {
    assert calls[..|calls|] == calls;
    i := StagedOrigin(r, calls, |calls|, Run(r, calls).pendingWithdrawal.value);
  }

  /** And a withdrawal that stood so long can be executed: the owner's call goes through. */
  lemma WithdrawalReady(r: Reservoir, calls: seq<Call>, i: nat, call: Call)
    requires i < |calls| && calls[i].msg.ProposeWithdrawal? && StagedBy(r, calls, i, |calls|, Staged(calls[i]))
    requires call.msg.ExecuteWithdrawal? && call.sender == calls[i].sender
    requires calls[i].now + 48 * 3600 * NANOS <= call.now
    ensures Step(Run(r, calls), call).Ok? && Step(Run(r, calls), call).value.sent == Withdrawn(Run(r, calls), calls[i])
  {
    assert calls[..|calls|] == calls;
  }

  /** Call `i` proposed the configuration still pending after `n` calls, and nothing touched it or
      the owner since. */
  ghost predicate ProposedBy(r: Reservoir, calls: seq<Call>, i: nat, n: nat, p: PendingConfig) {
    && i < n <= |calls|
    && calls[i].msg.ProposeConfigUpdate? && Step(Run(r, calls[..i]), calls[i]).Ok?
    && p == Proposed(calls[i])
    && forall k :: i < k <= n ==>
         Run(r, calls[..k]).pendingConfig == Some(p) && Run(r, calls[..k]).config.owner == calls[i].sender
  }

  lemma ProposedStep(r: Reservoir, call: Call, p: PendingConfig)
    requires After(r, call, true).pendingConfig == Some(p)
    ensures After(r, call, true).config == r.config
    ensures r.pendingConfig == Some(p)
            || (call.msg.ProposeConfigUpdate? && Step(r, call).Ok? && call.sender == r.config.owner
                && p == Proposed(call))
  {
  }

  lemma {:induction false} ProposedOrigin(r: Reservoir, calls: seq<Call>, n: nat, p: PendingConfig) returns (i: nat)
    requires r.pendingConfig.None? && n <= |calls|
    requires Run(r, calls[..n]).pendingConfig == Some(p)
    ensures ProposedBy(r, calls, i, n, p)
  {
    if n == 0 {
      assert false;
    } else {
      assert calls[..n][..n - 1] == calls[..n - 1];
      var before, call := Run(r, calls[..n - 1]), calls[n - 1];
      ProposedStep(before, call, p);
      if before.pendingConfig == Some(p) {
        i := ProposedOrigin(r, calls, n - 1, p);
      } else {
        i := n - 1;
      }
    }
  }

  /** In every run the configuration changes only by applying a proposal that stood unchanged for
      at least 48 hours, made by the owner at application; each field is what was proposed or
      what it was, and a change of owner leaves no withdrawal of the old owner staged. */
  lemma ConfigProvenance(r: Reservoir, calls: seq<Call>, call: Call) returns (i: nat)
    requires r.pendingConfig.None?
    requires After(Run(r, calls), call, true).config != Run(r, calls).config
    ensures i < |calls| && calls[i].msg.ProposeConfigUpdate?
    ensures ProposedBy(r, calls, i, |calls|, Proposed(calls[i]))
    ensures call.sender == calls[i].sender && calls[i].now + 48 * 3600 * NANOS <= call.now
    ensures var m, before, after := calls[i].msg, Run(r, calls), After(Run(r, calls), call, true);
      && after.config.factory == (if m.factory.Some? then m.factory.value else before.config.factory)
      && after.config.owner == (if m.owner.Some? then m.owner.value else before.config.owner)
      && after.config.denom == (if m.newDenom.Some? then m.newDenom.value else before.config.denom)
      && (after.config.owner != before.config.owner ==> after.pendingWithdrawal.None?)
  {
    assert calls[..|calls|] == calls;
    OnlyApplyChangesConfig(Run(r, calls), call);
    i := ProposedOrigin(r, calls, |calls|, Run(r, calls).pendingConfig.value);
  }

  /** And a proposal that stood so long can be applied: the owner's call goes through and sets every
      field that was proposed. A withdrawal stays staged unless the owner changes. */
  lemma ConfigReady(r: Reservoir, calls: seq<Call>, i: nat, call: Call)
    requires i < |calls| && calls[i].msg.ProposeConfigUpdate? && ProposedBy(r, calls, i, |calls|, Proposed(calls[i]))
    requires call.msg.ExecuteConfigUpdate? && call.sender == calls[i].sender
    requires calls[i].now + 48 * 3600 * NANOS <= call.now
    ensures Step(Run(r, calls), call).Ok? && Step(Run(r, calls), call).value.sent.None?
    ensures var m, before, after := calls[i].msg, Run(r, calls), After(Run(r, calls), call, true);
      && (m.factory.Some? ==> after.config.factory == m.factory.value)
      && (m.owner.Some? ==> after.config.owner == m.owner.value)
      && (m.newDenom.Some? ==> after.config.denom == m.newDenom.value)
      && after.pendingConfig.None?
      && (after.config.owner == before.config.owner ==> after.pendingWithdrawal == before.pendingWithdrawal)
  {
    assert calls[..|calls|] == calls;
  }

  // ----- What the owner may propose -----

  ghost predicate AsciiLetter(c: char) {
    c in {'a', 'b', 'c', 'd', 'e', 'f', 'g', 'h', 'i', 'j', 'k', 'l', 'm', 'n', 'o', 'p', 'q', 'r', 's', 't', 'u', 'v',
          'w', 'x', 'y', 'z', 'A', 'B', 'C', 'D', 'E', 'F', 'G', 'H', 'I', 'J', 'K', 'L', 'M', 'N', 'O', 'P', 'Q', 'R',
          'S', 'T', 'U', 'V', 'W', 'X', 'Y', 'Z'}
  }

  ghost predicate DigitOrPunctuation(c: char) {
    c in {'0', '1', '2', '3', '4', '5', '6', '7', '8', '9', '/', ':', '.', '_', '-'}
  }

  /** What the bank module takes for a native denom: a letter, then two to 127 letters, digits and
      punctuation marks. */
  ghost predicate NativeDenom(d: Denom) {
    && 3 <= |d| <= 128 && AsciiLetter(d[0])
    && forall c :: c in d[1..] ==> AsciiLetter(c) || DigitOrPunctuation(c)
  }

  lemma DenomChars(c: char)
    ensures Letter(c) <==> AsciiLetter(c)
    ensures DenomChar(c) <==> AsciiLetter(c) || DigitOrPunctuation(c)
  {
  }

  lemma DenomsAgree(d: Denom)
    ensures ValidDenom(d) <==> NativeDenom(d)
  {
    forall i | 0 <= i < |d|
      ensures Letter(d[i]) <==> AsciiLetter(d[i])
      ensures DenomChar(d[i]) <==> AsciiLetter(d[i]) || DigitOrPunctuation(d[i])
    {
      DenomChars(d[i]);
    }
    forall i | 1 <= i < |d|
      ensures d[i] in d[1..]
    {
      assert d[i] == d[1..][i - 1];
    }
  }

  lemma CallAppended(r: Reservoir, calls: seq<Call>, call: Call)
    ensures Run(r, calls + [call]) == After(Run(r, calls), call, true)
    ensures (calls + [call])[..|calls|] == calls && (calls + [call])[..|calls| + 1] == calls + [call]
  {
    assert (calls + [call])[..|calls|] == calls;
  }

  /** In every run a withdrawal can be proposed by the owner alone, when none is staged, for a positive
      amount of a well-formed denom and a well-formed address; it then stands, under its proposer. */
  lemma {:induction false} WithdrawalsProposed(r: Reservoir, calls: seq<Call>, call: Call)
    requires call.msg.ProposeWithdrawal?
    ensures var before, m := Run(r, calls), call.msg;
      Step(before, call).Ok? <==>
        && call.sender == before.config.owner && before.pendingWithdrawal.None?
        && m.amount > 0 && m.recipientValid && NativeDenom(m.denom)
    ensures Step(Run(r, calls), call).Ok? ==>
              StagedBy(r, calls + [call], |calls|, |calls| + 1, Staged(call))
              && Run(r, calls + [call]).pendingConfig == Run(r, calls).pendingConfig
  {
    DenomsAgree(call.msg.denom);
    CallAppended(r, calls, call);
  }

  /** A change of configuration likewise; what is left out stays as it is. */
  lemma {:induction false} ConfigsProposed(r: Reservoir, calls: seq<Call>, call: Call)
    requires call.msg.ProposeConfigUpdate?
    ensures var before, m := Run(r, calls), call.msg;
      Step(before, call).Ok? <==>
        && call.sender == before.config.owner && before.pendingConfig.None?
        && m.addressesValid && (m.newDenom.Some? ==> NativeDenom(m.newDenom.value))
    ensures Step(Run(r, calls), call).Ok? ==>
              ProposedBy(r, calls + [call], |calls|, |calls| + 1, Proposed(call))
              && Run(r, calls + [call]).pendingWithdrawal == Run(r, calls).pendingWithdrawal
  {
    if call.msg.newDenom.Some? {
      DenomsAgree(call.msg.newDenom.value);
    }
    CallAppended(r, calls, call);
  }

  /** Only the owner cancels, and only what is there; the other proposal stays. */
  lemma CancelsExact(r: Reservoir, call: Call)
    ensures call.msg.CancelWithdrawal? ==>
              && (Step(r, call).Ok? <==> call.sender == r.config.owner && r.pendingWithdrawal.Some?)
              && (Step(r, call).Ok? ==>
                    After(r, call, true) == r.(pendingWithdrawal := None) && Step(r, call).value.sent.None?)
    ensures call.msg.CancelConfigUpdate? ==>
              && (Step(r, call).Ok? <==> call.sender == r.config.owner && r.pendingConfig.Some?)
              && (Step(r, call).Ok? ==>
                    After(r, call, true) == r.(pendingConfig := None) && Step(r, call).value.sent.None?)
  {
  }

  lemma OnlyApplyChangesConfig(r: Reservoir, call: Call)
    requires After(r, call, true).config != r.config
    ensures call.msg.ExecuteConfigUpdate? && Step(r, call).Ok?
  {
  }
}
