/** The migration books a whole bucket of earlier payouts at the second the bucket opened. The cap
    holds for the log that results; this module says exactly when it also holds for the payouts at
    the seconds they were really made. */
module ReservoirMigration {
  import opened Base
  import opened SlidingWindow
  import opened ReservoirModel
  import opened ReservoirRuns
  import opened ReservoirCustody

  /** The earlier payouts behind a bucket: made within a day of its start, no later than `now`, and
      together what it recorded, within the cap. */
  ghost predicate BucketOf(earlier: seq<Entry>, w: LegacyWindow, now: Timestamp) {
    && w.spent == Sum(earlier) && 0 < w.spent <= DAILY_EXPANSION_CAP
    && 1 <= Seconds(w.windowStart)
    && forall i :: 0 <= i < |earlier| ==>
         && earlier[i].amount > 0
         && Seconds(w.windowStart) <= Seconds(earlier[i].timestamp) <= Seconds(now)
         && Seconds(earlier[i].timestamp) < Seconds(w.windowStart) + DAILY_WINDOW_SECONDS
  }

  /** No earlier payout can share a day with a later one without the bucket's entry counting too. */
  ghost predicate Settled(earlier: seq<Entry>, w: LegacyWindow, now: Timestamp) {
    forall i :: 0 <= i < |earlier| ==>
      Seconds(earlier[i].timestamp) <= Max(Seconds(w.windowStart), Seconds(now) - DAILY_WINDOW_SECONDS)
  }

  /** The state the migration leaves. */
  ghost predicate Migrated(r: Reservoir, w: LegacyWindow) {
    exists before: Reservoir ::
      before.log.None? && before.legacy == Some(w) && r == MigrateLog(before)
  }

  /** What was really paid after the migration. */
  ghost function Later(r: Reservoir, calls: seq<Call>): seq<Entry> {
    if calls == [] then [] else Later(r, calls[..|calls| - 1]) + Paid(Run(r, calls[..|calls| - 1]), calls[|calls| - 1])
  }

  lemma {:induction false} HistorySplits(r: Reservoir, calls: seq<Call>, start: Timestamp)
    requires Clocked(calls, start)
    ensures History(r, calls) == Log(r) + Later(r, calls)
    ensures forall i :: 0 <= i < |Later(r, calls)| ==> Seconds(Later(r, calls)[i].timestamp) >= Seconds(start)
  {
    if calls != [] {
      HistorySplits(r, calls[..|calls| - 1], start);
      SecondsMonotone(start, calls[|calls| - 1].now);
    }
  }

  lemma {:induction false} DaySumAppend(p: seq<Entry>, q: seq<Entry>, a: int)
    ensures DaySum(p + q, a) == DaySum(p, a) + DaySum(q, a)
  {
    if q == [] {
      assert p + q == p;
    } else {
      assert (p + q)[..|p + q| - 1] == p + q[..|q| - 1];
      DaySumAppend(p, q[..|q| - 1], a);
    }
  }

  lemma {:induction false} DaySumWithinSum(p: seq<Entry>, a: int)
    ensures DaySum(p, a) <= Sum(p)
  {
    if p != [] {
      DaySumWithinSum(p[..|p| - 1], a);
    }
  }

  lemma {:induction false} EmptyDay(p: seq<Entry>, a: int)
    requires forall i :: 0 <= i < |p| ==> !(a < Seconds(p[i].timestamp) <= a + DAILY_WINDOW_SECONDS)
    ensures DaySum(p, a) == 0
  {
    if p != [] {
      EmptyDay(p[..|p| - 1], a);
    }
  }

  lemma {:induction false} DayIncludes(p: seq<Entry>, a: int, i: nat)
    requires i < |p| && a < Seconds(p[i].timestamp) <= a + DAILY_WINDOW_SECONDS
    ensures DaySum(p, a) >= p[i].amount
  {
    if i < |p| - 1 {
      DayIncludes(p[..|p| - 1], a, i);
    }
  }

  lemma {:induction false} SingleDay(e: Entry, a: int)
    ensures DaySum([e], a) == if a < Seconds(e.timestamp) <= a + DAILY_WINDOW_SECONDS then e.amount else 0
    ensures Sum([e]) == e.amount
  {
    assert [e][..0] == [] && DaySum([], a) == 0 && Sum([]) == 0;
  }

  /** The migration books what a bucket recorded where no log exists yet, drops the bucket, and changes
      nothing else; running it again changes nothing. */
  lemma MigratesOnce(r: Reservoir)
    ensures var r' := MigrateLog(r);
      && MigrateLog(r') == r' && r'.legacy.None? && r' == r.(legacy := None, log := r'.log)
      && (if r.log.None? && r.legacy.Some? && r.legacy.value.spent > 0
          then r'.log == Some([Entry(r.legacy.value.windowStart, r.legacy.value.spent)])
          else r'.log == r.log)
  {
  }

  lemma MigratedIsSeeded(r: Reservoir, w: LegacyWindow, earlier: seq<Entry>, now: Timestamp)
    requires Migrated(r, w) && BucketOf(earlier, w, now)
    ensures Log(r) == [Entry(w.windowStart, w.spent)] && r.legacy.None?
    ensures Seconds(w.windowStart) <= Seconds(now) && Seeded(r, now)
  {
    SingleDay(Entry(w.windowStart, w.spent), 0);
    assert earlier != [] ==> Seconds(w.windowStart) <= Seconds(earlier[0].timestamp);
  }

  lemma {:induction false} SettledDay(r: Reservoir, w: LegacyWindow, earlier: seq<Entry>, now: Timestamp,
        calls: seq<Call>, a: int)
    requires Migrated(r, w) && BucketOf(earlier, w, now) && Settled(earlier, w, now) && Clocked(calls, now)
    ensures DaySum(earlier + Later(r, calls), a) <= DAILY_EXPANSION_CAP
  {
    var seed, later := Entry(w.windowStart, w.spent), Later(r, calls);
    MigratedIsSeeded(r, w, earlier, now);
    HistorySplits(r, calls, now);
    SlidingCap(r, now, calls, a);
    DaySumAppend([seed], later, a);
    DaySumAppend(earlier, later, a);
    DaySumWithinSum(earlier, a);
    SingleDay(seed, a);
    if exists i :: 0 <= i < |earlier| && a < Seconds(earlier[i].timestamp) <= a + DAILY_WINDOW_SECONDS {
      if Seconds(now) - DAILY_WINDOW_SECONDS > Seconds(w.windowStart) {
        EmptyDay(later, a);
      }
    } else {
      EmptyDay(earlier, a);
    }
  }

  /** A deposit, and a request of the factory for somebody else. */
  function Overspend(r: Reservoir, to: Addr, now: Timestamp): seq<Call> {
    [Call(now, to, Deposit(r.config.denom, DAILY_EXPANSION_CAP)),
     Call(now, r.config.factory, RequestExpansion(Some(to), DAILY_EXPANSION_CAP, Some(r.config.denom)))]
  }

  /** The request is paid, and the coins leave the contract. */
  lemma {:induction false} OverspendPays(r: Reservoir, w: LegacyWindow, to: Addr, now: Timestamp)
    requires Log(r) == [Entry(w.windowStart, w.spent)] && Seconds(w.windowStart) <= Cutoff(now) && to != r.self
    ensures Later(r, Overspend(r, to, now)) == [Entry(now, DAILY_EXPANSION_CAP)]
    ensures PaidOut(r, Overspend(r, to, now), r.config.denom) == DAILY_EXPANSION_CAP
  {
    var calls := Overspend(r, to, now);
    assert calls[..1] == [calls[0]] && calls[..1][..0] == [] && calls[..0] == [];
    assert Run(r, calls[..0]) == r;
    var funded := Run(r, calls[..1]);
    assert Paid(r, calls[0]) == [] && Later(r, calls[..1]) == [];
    assert PaidOut(r, calls[..1], r.config.denom) == 0;
    assert Log(funded) == Log(r);
    assert Log(r)[..0] == [] && Recent(Log(r), Cutoff(now)) == [];
    assert Paid(funded, calls[1]) == [Entry(now, DAILY_EXPANSION_CAP)];
    assert Outflow(funded, calls[1], r.config.denom) == DAILY_EXPANSION_CAP;
  }

  /** The first moment, from `now` on, at which the bucket's entry has lapsed. */
  lemma DayAfter(w: LegacyWindow, now: Timestamp) returns (t: Timestamp)
    requires PlusSeconds(w.windowStart, DAILY_WINDOW_SECONDS) <= U64_MAX
    ensures now <= t && Seconds(t) == Max(Seconds(now), Seconds(w.windowStart) + DAILY_WINDOW_SECONDS)
  {
    var dayAfter: Timestamp := PlusSeconds(w.windowStart, DAILY_WINDOW_SECONDS);
    ModUnique(dayAfter, NANOS, Seconds(w.windowStart) + DAILY_WINDOW_SECONDS, w.windowStart % NANOS);
    t := Max(now, dayAfter);
    SecondsMonotone(dayAfter, t);
    SecondsMonotone(now, t);
  }

  lemma UnsettledBreaks(r: Reservoir, w: LegacyWindow, earlier: seq<Entry>, to: Addr,
        now: Timestamp) returns (calls: seq<Call>)
    requires to != r.self
    requires Migrated(r, w) && BucketOf(earlier, w, now) && !Settled(earlier, w, now)
    requires PlusSeconds(w.windowStart, DAILY_WINDOW_SECONDS) <= U64_MAX
    ensures Clocked(calls, now) && !Capped(earlier + Later(r, calls))
    ensures PaidOut(r, calls, r.config.denom) == DAILY_EXPANSION_CAP
  {
    MigratedIsSeeded(r, w, earlier, now);
    var t := DayAfter(w, now);
    calls := Overspend(r, to, t);
    OverspendPays(r, w, to, t);
    var i :| 0 <= i < |earlier|
             && Seconds(earlier[i].timestamp) > Max(Seconds(w.windowStart), Seconds(now) - DAILY_WINDOW_SECONDS);
    DayOverspent(earlier, i, t);
  }

  /** A full day's payout at `t` on top of an earlier one less than a day before. */
  lemma DayOverspent(earlier: seq<Entry>, i: nat, t: Timestamp)
    requires i < |earlier| && earlier[i].amount > 0
    requires Seconds(earlier[i].timestamp) <= Seconds(t) < Seconds(earlier[i].timestamp) + DAILY_WINDOW_SECONDS
    ensures !Capped(earlier + [Entry(t, DAILY_EXPANSION_CAP)])
  {
    var a := Seconds(t) - DAILY_WINDOW_SECONDS;
    DayIncludes(earlier, a, i);
    SingleDay(Entry(t, DAILY_EXPANSION_CAP), a);
    DaySumAppend(earlier, [Entry(t, DAILY_EXPANSION_CAP)], a);
    assert DaySum(earlier + [Entry(t, DAILY_EXPANSION_CAP)], a) > DAILY_EXPANSION_CAP;
  }

  /** After a migration at `now`, every later run keeps the true payouts of every day under the cap
      exactly when each payout in the bucket was made in the second the bucket opened, or at
      least a day before the migration. */
  lemma {:induction false} MigrationExact(r: Reservoir, w: LegacyWindow, earlier: seq<Entry>, now: Timestamp)
    requires Migrated(r, w) && BucketOf(earlier, w, now)
    requires PlusSeconds(w.windowStart, DAILY_WINDOW_SECONDS) <= U64_MAX
    ensures Settled(earlier, w, now) <==>
            forall calls :: Clocked(calls, now) ==> Capped(earlier + Later(r, calls))
  {
    if Settled(earlier, w, now) {
      forall calls, a | Clocked(calls, now)
        ensures DaySum(earlier + Later(r, calls), a) <= DAILY_EXPANSION_CAP
      {
        SettledDay(r, w, earlier, now, calls, a);
      }
    } else {
      assert |r.self + "x"| != |r.self|;
      var calls := UnsettledBreaks(r, w, earlier, r.self + "x", now);
    }
  }
}
