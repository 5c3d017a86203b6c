/** The reservoir's 24-hour spending cap: a log of payouts, the part of it that still counts, and
    the decision taken on that part. */
module SlidingWindow {
  import opened Base

  const DAILY_EXPANSION_CAP := 100_000_000_000
  const DAILY_WINDOW_SECONDS := 86_400

  datatype Entry = Entry(timestamp: Timestamp, amount: Uint128)

  datatype WindowError = SumOverflow | CapExceeded

  /** An entry exactly a day old no longer counts. */
  function Cutoff(now: Timestamp): nat {
    SatSub(Seconds(now), DAILY_WINDOW_SECONDS)
  }

  /** `retain(timestamp > cutoff)`. */
  function Recent(log: seq<Entry>, cutoff: nat): seq<Entry> {
    if log == [] then []
    else
      Recent(log[..|log| - 1], cutoff)
      + if Seconds(log[|log| - 1].timestamp) > cutoff then [log[|log| - 1]] else []
  }

  function Sum(log: seq<Entry>): nat {
    if log == [] then 0 else Sum(log[..|log| - 1]) + log[|log| - 1].amount
  }

  /** The decision on a request: the total with it included, or why it is refused. */
  function Decide(log: seq<Entry>, now: Timestamp, amount: Uint128): Result<nat, WindowError> {
    var spent := Sum(Recent(log, Cutoff(now)));
    if spent + amount > U128_MAX then Err(SumOverflow)
    else if spent + amount > DAILY_EXPANSION_CAP then Err(CapExceeded)
    else Ok(spent + amount)
  }

  method CheckAndComputeWindow(log: seq<Entry>, now: Timestamp, amount: Uint128)
    returns (r: Result<(seq<Entry>, nat), WindowError>)
    ensures match r
      case Ok((kept, total)) => kept == Recent(log, Cutoff(now)) && Decide(log, now, amount) == Ok(total)
      case Err(e) => Decide(log, now, amount) == Err(e)
  {
    var cutoff := Cutoff(now);
    var kept: seq<Entry> := [];
    for i := 0 to |log|
      invariant kept == Recent(log[..i], cutoff)
    {
      assert log[..i + 1][..i] == log[..i];
      if Seconds(log[i].timestamp) > cutoff {
        kept := kept + [log[i]];
      }
    }
    assert log[..|log|] == log;
    var spent: nat := 0;
    for i := 0 to |kept|
      invariant spent == Sum(kept[..i]) <= U128_MAX
    {
      assert kept[..i + 1][..i] == kept[..i];
      PrefixSum(kept, i + 1);
      if spent + kept[i].amount > U128_MAX {
        return Err(SumOverflow);
      }
      spent := spent + kept[i].amount;
    }
    assert kept[..|kept|] == kept;
    if spent + amount > U128_MAX {
      return Err(SumOverflow);
    }
    if spent + amount > DAILY_EXPANSION_CAP {
      return Err(CapExceeded);
    }
    return Ok((kept, spent + amount));
  }

  lemma {:induction false} PrefixSum(log: seq<Entry>, n: nat)
    requires n <= |log|
    ensures Sum(log[..n]) <= Sum(log)
    decreases |log| - n
  {
    if n < |log| {
      PrefixSum(log, n + 1);
      assert log[..n + 1][..n] == log[..n];
    } else {
      assert log[..n] == log;
    }
  }

  // ----- The promise -----

  /** What a history paid out in the day that starts after second `a`. */
  ghost function DaySum(history: seq<Entry>, a: int): nat {
    if history == [] then 0
    else
      var last := history[|history| - 1];
      DaySum(history[..|history| - 1], a)
      + if a < Seconds(last.timestamp) <= a + 86_400 then last.amount else 0
  }

  /** No day, wherever it starts, exceeds the cap. */
  ghost predicate Capped(history: seq<Entry>) {
    forall a :: DaySum(history, a) <= DAILY_EXPANSION_CAP
  }

  /** Every entry is stamped between second 1 and second `t`. */
  ghost predicate StampedUpTo(history: seq<Entry>, t: nat) {
    forall i :: 0 <= i < |history| ==> 1 <= Seconds(history[i].timestamp) <= t
  }

  /** Pruning twice is pruning once, at the later cutoff. */
  lemma {:induction false} RecentOfRecent(log: seq<Entry>, c: nat, d: nat)
    requires c <= d
    ensures Recent(Recent(log, c), d) == Recent(log, d)
  {
    if log != [] {
      var front, last := log[..|log| - 1], log[|log| - 1];
      RecentOfRecent(front, c, d);
      if Seconds(last.timestamp) > c {
        assert Recent(log, c)[..|Recent(log, c)| - 1] == Recent(front, c);
      } else {
        assert Recent(log, c) == Recent(front, c);
        assert Recent(log, d) == Recent(front, d);
      }
    }
  }

  /** Any day that reaches up to second `t` is covered by the entries that still count at `t`. */
  lemma {:induction false} DayWithinRecent(history: seq<Entry>, now: Timestamp, a: int)
    requires StampedUpTo(history, Seconds(now)) && Seconds(now) <= a + DAILY_WINDOW_SECONDS
    ensures DaySum(history, a) <= Sum(Recent(history, Cutoff(now)))
  {
    if history != [] {
      var front, last := history[..|history| - 1], history[|history| - 1];
      DayWithinRecent(front, now, a);
      if Seconds(last.timestamp) > Cutoff(now) {
        assert Recent(history, Cutoff(now))[..|Recent(history, Cutoff(now))| - 1] == Recent(front, Cutoff(now));
      } else {
        assert Recent(history, Cutoff(now)) == Recent(front, Cutoff(now));
      }
    }
  }

  /** What still counts at `now` is what the day up to `now` paid out. */
  lemma {:induction false} RecentIsDay(history: seq<Entry>, now: Timestamp)
    requires StampedUpTo(history, Seconds(now))
    ensures Sum(Recent(history, Cutoff(now))) == DaySum(history, Seconds(now) - 86_400)
  {
    if history != [] {
      var front, last := history[..|history| - 1], history[|history| - 1];
      RecentIsDay(front, now);
      if Seconds(last.timestamp) > Cutoff(now) {
        assert Recent(history, Cutoff(now))[..|Recent(history, Cutoff(now))| - 1] == Recent(front, Cutoff(now));
      } else {
        assert Recent(history, Cutoff(now)) == Recent(front, Cutoff(now));
      }
    }
  }

  /** The decision is taken on what the day up to `now` paid out and the amount asked for. */
  lemma {:induction false} DecidesOnDay(history: seq<Entry>, now: Timestamp, amount: Uint128)
    requires StampedUpTo(history, Seconds(now))
    ensures var total := DaySum(history, Seconds(now) - 86_400) + amount;
      Decide(history, now, amount)
      == if total > U128_MAX then Err(SumOverflow)
         else if total > 100_000_000_000 then Err(CapExceeded)
         else Ok(total)
  {
    RecentIsDay(history, now);
  }

  /** A payout the decision allows keeps every day under the cap. */
  lemma AllowedKeepsCap(history: seq<Entry>, now: Timestamp, amount: Uint128)
    requires Capped(history) && StampedUpTo(history, Seconds(now)) && Decide(history, now, amount).Ok?
    ensures Capped(history + [Entry(now, amount)])
  {
    var longer := history + [Entry(now, amount)];
    forall a
      ensures DaySum(longer, a) <= DAILY_EXPANSION_CAP
    {
      assert longer[..|history|] == history;
      if Seconds(now) <= a + DAILY_WINDOW_SECONDS {
        DayWithinRecent(history, now, a);
      }
    }
  }

  /** The blind spot of the saturated cutoff: payouts stamped second 0 never count, so while the
      clock stands there every request within the cap is allowed, whatever was paid before. */
  lemma {:induction false} SecondZeroForgotten(log: seq<Entry>, now: Timestamp, amount: Uint128)
    requires Seconds(now) == 0 && forall i :: 0 <= i < |log| ==> Seconds(log[i].timestamp) == 0
    ensures Recent(log, Cutoff(now)) == []
    ensures Decide(log, now, amount).Ok? <==> amount <= DAILY_EXPANSION_CAP
  {
    if log != [] {
      SecondZeroForgotten(log[..|log| - 1], now, amount);
    }
  }
}
