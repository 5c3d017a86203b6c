/** The per-address creation cooldown, its time-ordered index, and the pruning of both. */
module RateLimits {
  import opened Base
  import opened Ordering

  const CREATE_RATE_LIMIT_SECONDS := 3600
  const STALE_AFTER_SECONDS := 36_000
  const DEFAULT_BATCH := 100
  const MAX_BATCH := 500

  /** Each address's last creation, and the same facts keyed by time. */
  datatype Limits = Limits(primary: map<Addr, Timestamp>, index: seq<Key>)

  function KeyOf(primary: map<Addr, Timestamp>, a: Addr): Key
    requires a in primary
  {
    Key(Seconds(primary[a]), a)
  }

  /** One index entry per address, in time order, and no other. */
  ghost predicate Coupled(l: Limits) {
    && Ascending(l.index)
    && (forall k :: k in l.index ==> k.addr in l.primary && k == KeyOf(l.primary, k.addr))
    && (forall a :: a in l.primary ==> KeyOf(l.primary, a) in l.index)
  }

  /** The cooldown check and stamp at the head of a pool creation. */
  function Create(l: Limits, a: Addr, now: Timestamp): Option<Limits> {
    if a in l.primary && now < PlusSeconds(l.primary[a], CREATE_RATE_LIMIT_SECONDS) then None
    else
      var cleared := if a in l.primary then Remove(l.index, KeyOf(l.primary, a)) else l.index;
      Some(Limits(l.primary[a := now], Insert(cleared, Key(Seconds(now), a))))
  }

  predicate Stale(k: Key, nowSecs: nat) {
    SatSub(nowSecs, k.ts) >= STALE_AFTER_SECONDS
  }

  /** How many entries at the head of the index are stale, counting no further than `batch`. */
  function StaleHead(index: seq<Key>, nowSecs: nat, batch: nat): nat {
    if batch == 0 || index == [] || !Stale(index[0], nowSecs) then 0
    else 1 + StaleHead(index[1..], nowSecs, batch - 1)
  }

  function Addresses(keys: seq<Key>): set<Addr> {
    set k | k in keys :: k.addr
  }

  lemma {:induction false} StaleHeadWithin(index: seq<Key>, nowSecs: nat, batch: nat)
    ensures StaleHead(index, nowSecs, batch) <= Min(batch, |index|)
    ensures var m := StaleHead(index, nowSecs, batch);
      && (forall i :: 0 <= i < m ==> Stale(index[i], nowSecs))
      && (m < batch && m < |index| ==> !Stale(index[m], nowSecs))
  {
    if batch > 0 && index != [] && Stale(index[0], nowSecs) {
      StaleHeadWithin(index[1..], nowSecs, batch - 1);
      var m := StaleHead(index[1..], nowSecs, batch - 1);
      forall i | 0 <= i < m + 1
        ensures Stale(index[i], nowSecs)
      {
        if i > 0 {
          assert index[i] == index[1..][i - 1];
        }
      }
      assert m + 1 < |index| ==> index[m + 1] == index[1..][m];
    }
  }

  /** Pruning drops the head of the index and the addresses it names. */
  function Prune(l: Limits, nowSecs: nat, batch: nat): Limits {
    StaleHeadWithin(l.index, nowSecs, batch);
    var m := StaleHead(l.index, nowSecs, batch);
    Limits(l.primary - Addresses(l.index[..m]), l.index[m..])
  }

  function BatchSize(asked: Option<nat>): nat {
    Min(if asked.Some? then asked.value else DEFAULT_BATCH, MAX_BATCH)
  }

  class RateLimitMap {
    var primary: map<Addr, Timestamp>
    var tsIndex: seq<Key>

    function State(): Limits
      reads this
    {
      Limits(primary, tsIndex)
    }

    /** Checks the cooldown and stamps both maps. */
    method StampCreate(sender: Addr, now: Timestamp) returns (allowed: bool)
      modifies this
      ensures allowed <==> Create(old(State()), sender, now).Some?
      ensures State() == if allowed then Create(old(State()), sender, now).value else old(State())
      ensures allowed <==> sender !in old(primary) || old(primary)[sender] + 3_600_000_000_000 <= now
      ensures allowed ==> primary == old(primary)[sender := now]
    {
      if sender in primary {
        var last := primary[sender];
        if now < PlusSeconds(last, CREATE_RATE_LIMIT_SECONDS) {
          return false;
        }
        tsIndex := Remove(tsIndex, Key(Seconds(last), sender));
      }
      primary := primary[sender := now];
      tsIndex := Insert(tsIndex, Key(Seconds(now), sender));
      return true;
    }

    /** Walks the index from the oldest entry, stops at the first fresh one or when the batch is
        full, then deletes what it collected from both maps. */
    method PruneRateLimitMap(nowSecs: nat, batch: nat) returns (pruned: nat)
      modifies this
      ensures State() == Prune(old(State()), nowSecs, batch)
      ensures pruned == StaleHead(old(tsIndex), nowSecs, batch)
    {
      ghost var m := StaleHead(tsIndex, nowSecs, batch);
      StaleHeadWithin(tsIndex, nowSecs, batch);
      var toRemove: seq<Key> := [];
      var i := 0;
      while i < |tsIndex|
        invariant i <= m && toRemove == tsIndex[..i]
        invariant tsIndex == old(tsIndex) && primary == old(primary)
      {
        if |toRemove| >= batch {
          break;
        }
        if SatSub(nowSecs, tsIndex[i].ts) >= STALE_AFTER_SECONDS {
          toRemove := toRemove + [tsIndex[i]];
        } else {
          break;
        }
        i := i + 1;
      }
      pruned := DeleteAll(toRemove);
    }

    method DeleteAll(toRemove: seq<Key>) returns (pruned: nat)
      requires toRemove <= tsIndex
      modifies this
      ensures pruned == |toRemove|
      ensures tsIndex == old(tsIndex)[|toRemove|..] && primary == old(primary) - Addresses(toRemove)
    {
      pruned := 0;
      while pruned < |toRemove|
        invariant pruned <= |toRemove|
        invariant tsIndex == old(tsIndex)[pruned..]
        invariant primary == old(primary) - Addresses(toRemove[..pruned])
      {
        var k := toRemove[pruned];
        assert tsIndex[0] == k;
        primary := primary - {k.addr};
        tsIndex := Remove(tsIndex, k);
        AddressesGrow(toRemove, pruned + 1);
        pruned := pruned + 1;
      }
      assert toRemove[..|toRemove|] == toRemove;
    }
  }

  lemma AddressesGrow(keys: seq<Key>, n: nat)
    requires 0 < n <= |keys|
    ensures Addresses(keys[..n]) == Addresses(keys[..n - 1]) + {keys[n - 1].addr}
  {
    assert keys[..n] == keys[..n - 1] + [keys[n - 1]];
  }

  // ----- What pruning means -----

  /** An address has one entry, so a head of the index and the rest share none. */
  lemma HeadDisjoint(l: Limits, m: nat, j: nat)
    requires Coupled(l) && m <= j < |l.index|
    ensures l.index[j].addr !in Addresses(l.index[..m])
  {
    forall k | k in l.index[..m]
      ensures k.addr != l.index[j].addr
    {
      var i :| 0 <= i < m && l.index[i] == k;
      assert Before(l.index[i], l.index[j]);
      assert k in l.index && l.index[j] in l.index;
    }
  }

  lemma PruneKeepsCoupling(l: Limits, nowSecs: nat, batch: nat)
    requires Coupled(l)
    ensures Coupled(Prune(l, nowSecs, batch))
  {
    StaleHeadWithin(l.index, nowSecs, batch);
    DropHeadKeepsCoupling(l, StaleHead(l.index, nowSecs, batch));
  }

  lemma DropHeadKeepsCoupling(l: Limits, m: nat)
    requires Coupled(l) && m <= |l.index|
    ensures Coupled(Limits(l.primary - Addresses(l.index[..m]), l.index[m..]))
  {
    var p := Limits(l.primary - Addresses(l.index[..m]), l.index[m..]);
    forall k | k in p.index
      ensures k.addr in p.primary && k == KeyOf(l.primary, k.addr)
    {
      var j :| 0 <= j < |p.index| && p.index[j] == k;
      assert l.index[m + j] == k;
      HeadDisjoint(l, m, m + j);
    }
    forall a | a in p.primary
      ensures KeyOf(p.primary, a) in p.index
    {
      var j :| 0 <= j < |l.index| && l.index[j] == KeyOf(l.primary, a);
      if j >= m {
        assert p.index[j - m] == l.index[j];
      }
    }
  }

  /** The index without the entry of `a`. */
  lemma ClearedIndex(l: Limits, a: Addr)
    requires Coupled(l)
    ensures var cleared := if a in l.primary then Remove(l.index, KeyOf(l.primary, a)) else l.index;
      Ascending(cleared) && forall k :: k in cleared <==> k in l.index && k.addr != a
  {
    if a in l.primary {
      RemoveKeepsOrder(l.index, KeyOf(l.primary, a));
    }
  }

  lemma {:induction false} StampKeepsCoupling(l: Limits, cleared: seq<Key>, a: Addr, now: Timestamp)
    requires Coupled(l) && Ascending(cleared) && forall k :: k in cleared <==> k in l.index && k.addr != a
    ensures Coupled(Limits(l.primary[a := now], Insert(cleared, Key(Seconds(now), a))))
  {
    InsertKeepsOrder(cleared, Key(Seconds(now), a));
  }

  lemma CreateKeepsCoupling(l: Limits, a: Addr, now: Timestamp)
    requires Coupled(l) && Create(l, a, now).Some?
    ensures Coupled(Create(l, a, now).value)
  {
    ClearedIndex(l, a);
    StampKeepsCoupling(l, if a in l.primary then Remove(l.index, KeyOf(l.primary, a)) else l.index, a, now);
  }

  /** The addresses a scan of the whole primary map would find stale: ten cooldowns old. */
  ghost function StaleSet(l: Limits, nowSecs: nat): set<Addr> {
    set a | a in l.primary && Seconds(l.primary[a]) + 10 * 3600 <= nowSecs
  }

  lemma HeadIsStale(l: Limits, nowSecs: nat, m: nat)
    requires Coupled(l) && m <= |l.index|
    requires forall i :: 0 <= i < m ==> Stale(l.index[i], nowSecs)
    ensures Addresses(l.index[..m]) <= StaleSet(l, nowSecs)
  {
    forall k | k in l.index[..m]
      ensures k.addr in StaleSet(l, nowSecs)
    {
      assert k in l.index;
    }
  }

  lemma RestIsFresh(l: Limits, nowSecs: nat, m: nat)
    requires Coupled(l) && m <= |l.index|
    requires m < |l.index| ==> !Stale(l.index[m], nowSecs)
    ensures StaleSet(l, nowSecs) <= Addresses(l.index[..m])
  {
    forall b | b in StaleSet(l, nowSecs)
      ensures b in Addresses(l.index[..m])
    {
      var j :| 0 <= j < |l.index| && l.index[j] == KeyOf(l.primary, b);
      if m <= j {
        assert false;
      }
      assert l.index[j] in l.index[..m];
    }
  }

  /** Who is removed: the addresses of the head, each of them stale, and no stale address is left
      behind unless the batch is full. */
  lemma {:induction false} RemovedFromHead(l: Limits, nowSecs: nat, batch: nat)
    requires Coupled(l)
    ensures var m := StaleHead(l.index, nowSecs, batch);
      var removed := l.primary.Keys - Prune(l, nowSecs, batch).primary.Keys;
      && m <= batch && m <= |l.index| && removed == Addresses(l.index[..m]) && |removed| == m
      && removed <= StaleSet(l, nowSecs)
      && (m < batch ==> removed == StaleSet(l, nowSecs))
  {
    var m := StaleHead(l.index, nowSecs, batch);
    StaleHeadWithin(l.index, nowSecs, batch);
    CoupledEachNew(l);
    HeadSize(l.index, m);
    HeadIsStale(l, nowSecs, m);
    if m < batch {
      RestIsFresh(l, nowSecs, m);
    }
    var head := Addresses(l.index[..m]);
    assert l.primary.Keys - (l.primary - head).Keys == head;
  }

  /** Stopping at the first fresh entry loses nothing: pruning removes only addresses that a full
      scan finds stale, all of them when the batch has room, and otherwise a full batch of the
      oldest. */
  lemma PruneAgreesWithScan(l: Limits, nowSecs: nat, batch: nat)
    requires Coupled(l)
    ensures var removed := l.primary.Keys - Prune(l, nowSecs, batch).primary.Keys;
      && removed <= StaleSet(l, nowSecs)
      && |removed| == Min(batch, |StaleSet(l, nowSecs)|)
      && (forall a, b :: a in removed && b in l.primary.Keys - removed ==>
            Before(KeyOf(l.primary, a), KeyOf(l.primary, b)))
      && (forall a :: a in Prune(l, nowSecs, batch).primary ==>
            Prune(l, nowSecs, batch).primary[a] == l.primary[a])
  {
    var m := StaleHead(l.index, nowSecs, batch);
    var removed := l.primary.Keys - Prune(l, nowSecs, batch).primary.Keys;
    RemovedFromHead(l, nowSecs, batch);
    SubsetSize(removed, StaleSet(l, nowSecs));
    forall a, b | a in removed && b in l.primary.Keys - removed
      ensures Before(KeyOf(l.primary, a), KeyOf(l.primary, b))
    {
      HeadBeforeRest(l, m, a, b);
    }
  }

  lemma HeadBeforeRest(l: Limits, m: nat, a: Addr, b: Addr)
    requires Coupled(l) && m <= |l.index| && b in l.primary
    requires a in Addresses(l.index[..m]) && b !in Addresses(l.index[..m])
    ensures a in l.primary && Before(KeyOf(l.primary, a), KeyOf(l.primary, b))
  {
    var k :| k in l.index[..m] && k.addr == a;
    var i :| 0 <= i < m && l.index[i] == k;
    assert k in l.index;
    var j :| 0 <= j < |l.index| && l.index[j] == KeyOf(l.primary, b);
    if j < m {
      assert l.index[j] in l.index[..m];
    }
  }

  lemma OneMore(s: set<Addr>, a: Addr)
    requires a !in s
    ensures |s + {a}| == |s| + 1
  {
  }

  /** No address comes twice. */
  ghost predicate EachNew(keys: seq<Key>) {
    forall n :: 0 <= n < |keys| ==> keys[n].addr !in Addresses(keys[..n])
  }

  lemma CoupledEachNew(l: Limits)
    requires Coupled(l)
    ensures EachNew(l.index)
  {
    forall n | 0 <= n < |l.index|
      ensures l.index[n].addr !in Addresses(l.index[..n])
    {
      HeadDisjoint(l, n, n);
    }
  }

  lemma {:induction false} HeadSize(keys: seq<Key>, m: nat)
    requires EachNew(keys) && m <= |keys|
    ensures |Addresses(keys[..m])| == m
  {
    if m > 0 {
      HeadSize(keys, m - 1);
      AddressesGrow(keys, m);
      OneMore(Addresses(keys[..m - 1]), keys[m - 1].addr);
    }
  }

  lemma {:induction false} SubsetSize<T>(a: set<T>, b: set<T>)
    requires a <= b
    ensures |a| <= |b|
    ensures |a| == |b| ==> a == b
  {
    assert b == a + (b - a);
  }

  // ----- Pruning never changes a decision -----

  datatype Event = CreateCall(addr: Addr, now: Timestamp) | PruneCall(now: Timestamp, asked: Option<nat>)

  function After(l: Limits, e: Event, prune: bool): Limits {
    match e
    case CreateCall(a, now) => if Create(l, a, now).Some? then Create(l, a, now).value else l
    case PruneCall(now, asked) => if prune then Prune(l, Seconds(now), BatchSize(asked)) else l
  }

  ghost function Run(l: Limits, es: seq<Event>, prune: bool): Limits {
    if es == [] then l else After(Run(l, es[..|es| - 1], prune), es[|es| - 1], prune)
  }

  ghost predicate Clocked(es: seq<Event>) {
    forall i, j :: 0 <= i < j < |es| ==> es[i].now <= es[j].now
  }

  /** A prune call removes as many stale addresses as it is asked to, 500 at most and 100 unless it says,
      the oldest first, and keeps every other as it was. */
  lemma PruneCallExact(l: Limits, now: Timestamp, asked: Option<nat>)
    requires Coupled(l)
    ensures var l', stale := After(l, PruneCall(now, asked), true), StaleSet(l, Seconds(now));
      var removed := l.primary.Keys - l'.primary.Keys;
      && removed <= stale && |removed| == Min(if asked.None? then 100 else Min(asked.value, 500), |stale|)
      && (forall a, b :: a in removed && b in l.primary.Keys - removed ==>
            Before(KeyOf(l.primary, a), KeyOf(l.primary, b)))
      && (forall a :: a in l'.primary ==> l'.primary[a] == l.primary[a])
  {
    PruneAgreesWithScan(l, Seconds(now), BatchSize(asked));
  }

  /** `p` has lost only addresses whose cooldown was over by time `t`. */
  ghost predicate Lost(p: Limits, q: Limits, t: int) {
    && Coupled(p)
    && (forall a :: a in p.primary ==> a in q.primary && p.primary[a] == q.primary[a])
    && (forall a :: a in q.primary && a !in p.primary ==> PlusSeconds(q.primary[a], CREATE_RATE_LIMIT_SECONDS) <= t)
  }

  lemma StaleIsCooled(last: Timestamp, now: Timestamp)
    requires Seconds(last) + 10 * 3600 <= Seconds(now)
    ensures PlusSeconds(last, CREATE_RATE_LIMIT_SECONDS) <= now
  {
  }

  lemma CreateLoses(p: Limits, q: Limits, t: int, a: Addr, now: Timestamp)
    requires Lost(p, q, t) && t <= now
    ensures Create(p, a, now).Some? <==> Create(q, a, now).Some?
    ensures Create(p, a, now).Some? ==> Lost(Create(p, a, now).value, Create(q, a, now).value, now)
  {
    if Create(p, a, now).Some? {
      CreateKeepsCoupling(p, a, now);
    }
  }

  /** Pruning removes only addresses whose cooldown is over. */
  lemma PruneCooled(p: Limits, now: Timestamp, batch: nat, a: Addr)
    requires Coupled(p) && a in p.primary && a !in Prune(p, Seconds(now), batch).primary
    ensures PlusSeconds(p.primary[a], CREATE_RATE_LIMIT_SECONDS) <= now
  {
    PruneAgreesWithScan(p, Seconds(now), batch);
    assert a in StaleSet(p, Seconds(now));
    StaleIsCooled(p.primary[a], now);
  }

  lemma PruneLoses(p: Limits, q: Limits, t: int, now: Timestamp, batch: nat)
    requires Lost(p, q, t) && t <= now
    ensures Lost(Prune(p, Seconds(now), batch), q, now)
  {
    PruneKeepsCoupling(p, Seconds(now), batch);
    var p' := Prune(p, Seconds(now), batch);
    forall a | a in q.primary && a !in p'.primary
      ensures PlusSeconds(q.primary[a], CREATE_RATE_LIMIT_SECONDS) <= now
    {
      if a in p.primary {
        PruneCooled(p, now, batch, a);
      }
    }
  }

  lemma StepLoses(p: Limits, q: Limits, t: int, e: Event)
    requires Lost(p, q, t) && t <= e.now
    ensures Lost(After(p, e, true), After(q, e, false), e.now)
    ensures e.CreateCall? ==> (Create(p, e.addr, e.now).Some? <==> Create(q, e.addr, e.now).Some?)
  {
    match e
    case CreateCall(a, now) => CreateLoses(p, q, t, a, now);
    case PruneCall(now, asked) => PruneLoses(p, q, t, now, BatchSize(asked));
  }

  lemma {:induction false} RunLoses(l: Limits, es: seq<Event>)
    requires Coupled(l) && Clocked(es)
    ensures Lost(Run(l, es, true), Run(l, es, false), if es == [] then 0 else es[|es| - 1].now)
  {
    if es != [] {
      var earlier := es[..|es| - 1];
      RunLoses(l, earlier);
      StepLoses(Run(l, earlier, true), Run(l, earlier, false),
                if earlier == [] then 0 else earlier[|earlier| - 1].now, es[|es| - 1]);
    }
  }

  /** After any sequence of creations and prunings, in any order and with any batch sizes, a
      creation is allowed exactly when it would be had nothing ever been pruned, and the two maps
      still correspond entry by entry. */
  lemma {:induction false} PruningChangesNoDecision(l: Limits, es: seq<Event>, a: Addr, now: Timestamp)
    requires Coupled(l) && Clocked(es + [CreateCall(a, now)])
    ensures Create(Run(l, es, true), a, now).Some? <==> Create(Run(l, es, false), a, now).Some?
    ensures Coupled(Run(l, es, true))
  {
    var all := es + [CreateCall(a, now)];
    assert Clocked(es) by {
      assert forall i :: 0 <= i < |es| ==> es[i] == all[i];
    }
    RunLoses(l, es);
    assert es != [] ==> all[|es| - 1].now <= all[|es|].now;
    StepLoses(Run(l, es, true), Run(l, es, false), if es == [] then 0 else es[|es| - 1].now, CreateCall(a, now));
  }

  // ----- Which creations are allowed -----

  function Empty(): Limits {
    Limits(map[], [])
  }

  /** The `i`-th call of a run from empty maps is a creation by `a`, and it went through. */
  ghost predicate Created(es: seq<Event>, i: nat, a: Addr)
    requires i < |es|
  {
    es[i].CreateCall? && es[i].addr == a && Create(Run(Empty(), es[..i], true), a, es[i].now).Some?
  }

  /** The last of the first `n` calls in which `a` created a pool; -1 if there is none. */
  ghost function LastCreated(es: seq<Event>, n: nat, a: Addr): (i: int)
    requires n <= |es|
    ensures -1 <= i < n
  {
    if n == 0 then -1 else if Created(es, n - 1, a) then n - 1 else LastCreated(es, n - 1, a)
  }

  lemma {:induction false} LastCreatedIs(es: seq<Event>, n: nat, a: Addr)
    requires n <= |es|
    ensures var last := LastCreated(es, n, a);
      && (last >= 0 ==> Created(es, last, a))
      && forall i :: last < i < n ==> !Created(es, i, a)
  {
    if n > 0 {
      LastCreatedIs(es, n - 1, a);
    }
  }

  lemma ClockedPrefix(es: seq<Event>, n: nat)
    requires Clocked(es) && n <= |es|
    ensures Clocked(es[..n])
  {
  }

  /** Pruned or not, the maps allow the same next call. */
  lemma {:induction false} SameDecision(es: seq<Event>, i: nat)
    requires Clocked(es) && i < |es| && es[i].CreateCall?
    ensures Created(es, i, es[i].addr) <==> Create(Run(Empty(), es[..i], false), es[i].addr, es[i].now).Some?
  {
    ClockedPrefix(es, i);
    RunLoses(Empty(), es[..i]);
    StepLoses(Run(Empty(), es[..i], true), Run(Empty(), es[..i], false), if i == 0 then 0 else es[i - 1].now, es[i]);
  }

  /** With nothing pruned the map holds every address's last creation. */
  lemma {:induction false} MapHoldsLast(es: seq<Event>, n: nat, a: Addr)
    requires Clocked(es) && n <= |es|
    ensures var primary := Run(Empty(), es[..n], false).primary;
      var last := LastCreated(es, n, a);
      if a in primary then last >= 0 && es[last].now == primary[a] else last == -1
  {
    if n > 0 {
      MapHoldsLast(es, n - 1, a);
      assert es[..n][..n - 1] == es[..n - 1];
      if es[n - 1].CreateCall? {
        SameDecision(es, n - 1);
      }
    }
  }

  /** From empty maps, with prunings anywhere, a creation is refused exactly when the same address created
      a pool less than an hour, in nanoseconds, before. */
  lemma {:induction false} CreationsExact(es: seq<Event>, i: nat)
    requires Clocked(es) && i < |es| && es[i].CreateCall?
    ensures Created(es, i, es[i].addr) <==>
            forall j :: 0 <= j < i && Created(es, j, es[i].addr) ==> es[j].now + 3_600_000_000_000 <= es[i].now
  {
    MapHoldsLast(es, i, es[i].addr);
    LastCreatedIs(es, i, es[i].addr);
    SameDecision(es, i);
  }

  /** Two pools of one address are created at least an hour apart. */
  lemma HourApart(es: seq<Event>, i: nat, j: nat, a: Addr)
    requires Clocked(es) && j < i < |es| && Created(es, i, a) && Created(es, j, a)
    ensures es[j].now + 3_600_000_000_000 <= es[i].now
  {
    CreationsExact(es, i);
  }
}
