/** What holds of the reservoir over every run: the cap on its full payout history, the agreement
    of the pruned log with that history, where executed withdrawals and configurations come from,
    and where the coins went. */
module ReservoirRuns {
  import opened Base
  import opened SlidingWindow
  import opened ReservoirModel

  ghost function After(r: Reservoir, call: Call, prune: bool): Reservoir {
    match Execute(r, call, prune)
    case Ok(s) => s.reservoir
    case Err(_) => r
  }

  /** The state after a sequence of calls; a failed call changes nothing. */
  ghost function Execution(r: Reservoir, calls: seq<Call>, prune: bool): Reservoir {
    if calls == [] then r
    else After(Execution(r, calls[..|calls| - 1], prune), calls[|calls| - 1], prune)
  }

  ghost function Run(r: Reservoir, calls: seq<Call>): Reservoir {
    Execution(r, calls, true)
  }

  /** The log the run started from followed by every payout it made. */
  ghost function History(r: Reservoir, calls: seq<Call>): seq<Entry> {
    if calls == [] then Log(r)
    else
      var earlier, call := calls[..|calls| - 1], calls[|calls| - 1];
      History(r, earlier) + Paid(Run(r, earlier), call)
  }

  ghost function Paid(r: Reservoir, call: Call): seq<Entry> {
    if call.msg.RequestExpansion? && Step(r, call).Ok? && Step(r, call).value.sent.Some? then
      [Entry(call.now, call.msg.amount)]
    else []
  }

  /** Block times never go back, and the chain is past second zero. */
  ghost predicate Clocked(calls: seq<Call>, start: Timestamp) {
    && Seconds(start) >= 1
    && (forall i :: 0 <= i < |calls| ==> start <= calls[i].now)
    && (forall i, j :: 0 <= i < j < |calls| ==> calls[i].now <= calls[j].now)
  }

  function Latest(calls: seq<Call>, start: Timestamp): Timestamp {
    if calls == [] then start else calls[|calls| - 1].now
  }

  lemma SecondsMonotone(t: Timestamp, u: Timestamp)
    requires t <= u
    ensures Seconds(t) <= Seconds(u)
  {
  }

  // ----- The cap -----

  /** A new deployment, or one migrated from a bucket that respected the cap. */
  ghost predicate Seeded(r: Reservoir, start: Timestamp) {
    && Seconds(start) >= 1
    && r.legacy.None?
    && |Log(r)| <= 1
    && StampedUpTo(Log(r), Seconds(start))
    && Sum(Log(r)) <= DAILY_EXPANSION_CAP
  }

  /** The stored log is the history from the last payout's cutoff on. */
  ghost predicate LogTracks(r: Reservoir, history: seq<Entry>, now: Timestamp) {
    && r.legacy.None?
    && StampedUpTo(history, Seconds(now))
    && Capped(history)
    && Log(r) == Recent(history, if history == [] then 0 else Cutoff(history[|history| - 1].timestamp))
  }

  lemma StartTracks(r: Reservoir, start: Timestamp)
    requires Seeded(r, start)
    ensures LogTracks(r, Log(r), start)
  {
    var h := Log(r);
    if h != [] {
      assert h[..0] == [] && Recent(h[..0], Cutoff(h[0].timestamp)) == [];
      assert Sum(h) == Sum(h[..0]) + h[0].amount;
    }
    forall a
      ensures DaySum(h, a) <= DAILY_EXPANSION_CAP
    {
      if h != [] {
        assert h[..0] == [];
      }
    }
  }

  /** What the stored log still holds decides like the whole history. */
  lemma {:induction false} LogDecides(r: Reservoir, history: seq<Entry>, then_: Timestamp, now: Timestamp,
        amount: Uint128)
    requires LogTracks(r, history, then_) && then_ <= now
    ensures Recent(Log(r), Cutoff(now)) == Recent(history, Cutoff(now))
    ensures Decide(Log(r), now, amount) == Decide(history, now, amount)
  {
    if history != [] {
      SecondsMonotone(then_, now);
      RecentOfRecent(history, Cutoff(history[|history| - 1].timestamp), Cutoff(now));
    }
  }

  /** A payout was allowed by the log, and extends it. */
  lemma PayoutEffect(r: Reservoir, call: Call)
    requires Paid(r, call) != []
    ensures Decide(Log(r), call.now, call.msg.amount).Ok?
    ensures var r' := After(r, call, true);
      Log(r') == Recent(Log(r), Cutoff(call.now)) + [Entry(call.now, call.msg.amount)] && r'.legacy == r.legacy
  {
  }

  lemma OtherCallsKeepLog(r: Reservoir, call: Call, prune: bool)
    requires r.legacy.None?
    requires call.msg.RequestExpansion? ==> Execute(r, call, prune).Err? || Execute(r, call, prune).value.sent.None?
    ensures After(r, call, prune).log == r.log && After(r, call, prune).legacy.None?
  {
  }

  lemma StepTracks(r: Reservoir, history: seq<Entry>, then_: Timestamp, call: Call)
    requires LogTracks(r, history, then_) && then_ <= call.now && Seconds(then_) >= 1
    ensures LogTracks(After(r, call, true), history + Paid(r, call), call.now)
  {
    SecondsMonotone(then_, call.now);
    if Paid(r, call) != [] {
      var now, amount := call.now, call.msg.amount;
      PayoutEffect(r, call);
      LogDecides(r, history, then_, now, amount);
      AllowedKeepsCap(history, now, amount);
      var longer := history + [Entry(now, amount)];
      assert longer[..|history|] == history;
    } else {
      assert history + [] == history;
      OtherCallsKeepLog(r, call, true);
    }
  }

  lemma {:induction false} RunTracks(r: Reservoir, start: Timestamp, calls: seq<Call>)
    requires Seeded(r, start) && Clocked(calls, start)
    ensures LogTracks(Run(r, calls), History(r, calls), Latest(calls, start))
  {
    if calls == [] {
      StartTracks(r, start);
    } else {
      var earlier := calls[..|calls| - 1];
      RunTracks(r, start, earlier);
      StepTracks(Run(r, earlier), History(r, earlier), Latest(earlier, start), calls[|calls| - 1]);
    }
  }

  /** Whatever is called, however often, the payouts of any 24 hours of the whole history, starting
      at any second, never exceed the cap. */
  lemma {:induction false} SlidingCap(r: Reservoir, start: Timestamp, calls: seq<Call>, a: int)
    requires Seeded(r, start) && Clocked(calls, start)
    ensures DaySum(History(r, calls), a) <= 100_000_000_000
  {
    RunTracks(r, start, calls);
  }

  // ----- Every request's answer -----

  /** A request of the factory for its own denom, of a positive amount and to a well-formed address. */
  predicate InOrder(r: Reservoir, call: Call) {
    && call.msg.RequestExpansion? && call.sender == r.config.factory
    && call.msg.factoryDenom == Some(r.config.denom)
    && call.msg.amount > 0 && call.msg.recipient.Some?
  }

  /** The answer to such a request where the day up to it has seen `spent` paid out. */
  ghost predicate Answers(r: Reservoir, call: Call, spent: nat)
    requires InOrder(r, call)
  {
    var answer, asked, denom := Step(r, call), call.msg.amount, r.config.denom;
    if spent + asked > U128_MAX then answer == Err(Window(SumOverflow))
    else if spent + asked > 100_000_000_000 then answer == Err(Window(CapExceeded))
    else
      && answer.Ok?
      && answer.value.sent == if Balance(r, denom) >= asked
                              then Some(Transfer(call.msg.recipient.value, denom, asked)) else None
  }

  lemma AnswerFromLog(r: Reservoir, call: Call)
    requires InOrder(r, call)
    ensures Answers(r, call, Sum(Recent(Log(r), Cutoff(call.now))))
  {
  }

  lemma {:induction false} AnswerFromHistory(r: Reservoir, history: seq<Entry>, then_: Timestamp, call: Call)
    requires InOrder(r, call) && LogTracks(r, history, then_) && then_ <= call.now
    ensures Answers(r, call, DaySum(history, Seconds(call.now) - 86_400))
  {
    LogDecides(r, history, then_, call.now, call.msg.amount);
    SecondsMonotone(then_, call.now);
    RecentIsDay(history, call.now);
    AnswerFromLog(r, call);
  }

  /** A request that is not in order. */
  lemma OtherRequest(r: Reservoir, call: Call)
    requires call.msg.RequestExpansion? && !InOrder(r, call)
    ensures After(r, call, true) == r && (Step(r, call).Ok? ==> Step(r, call).value.sent.None?)
    ensures Step(r, call).Ok? <==>
            call.sender == r.config.factory && call.msg.factoryDenom == Some(r.config.denom) && call.msg.amount == 0
  {
  }

  /** In every run a request in order is refused exactly when it and what the history paid out in the 24
      hours up to it exceed the cap; otherwise it is paid in full if the balance covers it, and skipped
      if it does not. Any other request moves no coins. */
  lemma {:induction false} ExpansionExact(r: Reservoir, start: Timestamp, calls: seq<Call>, call: Call)
    requires Seeded(r, start) && Clocked(calls, start) && Latest(calls, start) <= call.now
    requires call.msg.RequestExpansion?
    ensures var r' := Run(r, calls);
      if InOrder(r', call)
      then Answers(r', call, DaySum(History(r, calls), Seconds(call.now) - 86_400))
      else
        && After(r', call, true) == r' && (Step(r', call).Ok? ==> Step(r', call).value.sent.None?)
        && (Step(r', call).Ok? <==>
              call.sender == r'.config.factory && call.msg.factoryDenom == Some(r'.config.denom)
                  && call.msg.amount == 0)
  {
    RunTracks(r, start, calls);
    if InOrder(Run(r, calls), call) {
      AnswerFromHistory(Run(r, calls), History(r, calls), Latest(calls, start), call);
    } else {
      OtherRequest(Run(r, calls), call);
    }
  }

  // ----- Pruning is invisible -----

  /** Two reservoirs that differ in nothing but how much of the log they keep. */
  ghost predicate SameButLog(p: Reservoir, q: Reservoir) {
    p.(log := None) == q.(log := None) && (p.log.None? <==> q.log.None?)
  }

  lemma {:induction false} UnprunedKeepsHistory(r: Reservoir, start: Timestamp, calls: seq<Call>)
    requires Seeded(r, start) && Clocked(calls, start)
    ensures SameButLog(Run(r, calls), Execution(r, calls, false))
    ensures Log(Execution(r, calls, false)) == History(r, calls)
  {
    if calls != [] {
      var earlier, call := calls[..|calls| - 1], calls[|calls| - 1];
      UnprunedKeepsHistory(r, start, earlier);
      RunTracks(r, start, earlier);
      SameCall(Run(r, earlier), Execution(r, earlier, false), Latest(earlier, start), call);
      assert History(r, earlier) + [] == History(r, earlier);
    }
  }

  /** Outcome and effect of one call agree. */
  lemma SameCall(p: Reservoir, q: Reservoir, then_: Timestamp, call: Call)
    requires SameButLog(p, q) && LogTracks(p, Log(q), then_) && then_ <= call.now
    ensures SameButLog(After(p, call, true), After(q, call, false))
    ensures SameOutcome(Execute(p, call, true), Execute(q, call, false))
    ensures Log(After(q, call, false)) == Log(q) + Paid(p, call)
  {
    if call.msg.RequestExpansion? {
      LogDecides(p, Log(q), then_, call.now, call.msg.amount);
      SameExpansion(p, q, call);
    } else {
      OtherCallsKeepLog(p, call, true);
      OtherCallsKeepLog(q, call, false);
      SameOtherCall(p, q, call);
    }
    assert Log(q) + [] == Log(q);
  }

  lemma SameExpansion(p: Reservoir, q: Reservoir, call: Call)
    requires SameButLog(p, q) && call.msg.RequestExpansion?
    requires Decide(Log(p), call.now, call.msg.amount) == Decide(Log(q), call.now, call.msg.amount)
    ensures SameButLog(After(p, call, true), After(q, call, false))
    ensures SameOutcome(Execute(p, call, true), Execute(q, call, false))
    ensures Log(After(q, call, false)) == Log(q) + Paid(p, call)
  {
    assert Log(q) + [] == Log(q);
  }

  /** The owner's configuration calls look at nothing the two differ in. */
  lemma SameConfigCall(p: Reservoir, q: Reservoir, call: Call)
    requires SameButLog(p, q)
    requires call.msg.ProposeConfigUpdate? || call.msg.ExecuteConfigUpdate? || call.msg.CancelConfigUpdate?
    ensures SameOutcome(Execute(p, call, true), Execute(q, call, false))
  {
  }

  lemma SameWithdrawalCall(p: Reservoir, q: Reservoir, call: Call)
    requires SameButLog(p, q)
    requires call.msg.ProposeWithdrawal? || call.msg.ExecuteWithdrawal? || call.msg.CancelWithdrawal?
    ensures SameOutcome(Execute(p, call, true), Execute(q, call, false))
  {
  }

  lemma SameOtherCall(p: Reservoir, q: Reservoir, call: Call)
    requires SameButLog(p, q) && !call.msg.RequestExpansion? && p.legacy.None?
    ensures SameButLog(After(p, call, true), After(q, call, false))
    ensures SameOutcome(Execute(p, call, true), Execute(q, call, false))
  {
    if call.msg.ProposeConfigUpdate? || call.msg.ExecuteConfigUpdate? || call.msg.CancelConfigUpdate? {
      SameConfigCall(p, q, call);
    } else if call.msg.ProposeWithdrawal? || call.msg.ExecuteWithdrawal? || call.msg.CancelWithdrawal? {
      SameWithdrawalCall(p, q, call);
    }
  }

  ghost predicate SameOutcome(x: Result<Stepped, Error>, y: Result<Stepped, Error>) {
    match (x, y)
    case (Ok(s), Ok(s')) => s.sent == s'.sent && SameButLog(s.reservoir, s'.reservoir)
    case (Err(e), Err(e')) => e == e'
    case _ => false
  }

  /** After any run, every further call gives the same result and sends the same coins as on a
      reservoir that never pruned its log, and the two states differ in the log alone. */
  lemma {:induction false} PruningInvisible(r: Reservoir, start: Timestamp, calls: seq<Call>, call: Call)
    requires Seeded(r, start) && Clocked(calls, start) && Latest(calls, start) <= call.now
    ensures var p, q := Run(r, calls), Execution(r, calls, false);
      && SameButLog(p, q) && Log(q) == History(r, calls)
      && SameOutcome(Execute(p, call, true), Execute(q, call, false))
  {
    UnprunedKeepsHistory(r, start, calls);
    RunTracks(r, start, calls);
    SameCall(Run(r, calls), Execution(r, calls, false), Latest(calls, start), call);
  }
}
