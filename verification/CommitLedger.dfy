/** The commit ledger as a whole: its order, what it adds up to, and the shares it entitles to. */
module CommitLedger {
  import opened Base
  import opened Ordering
  import opened Distribution

  /** In strict key order, as contract storage keeps it. */
  ghost predicate Sorted(ledger: seq<Commit>) {
    forall i, j :: 0 <= i < j < |ledger| ==>
      LexLeq(ledger[i].payer, ledger[j].payer) && ledger[i].payer != ledger[j].payer
  }

  ghost predicate AllPaid(ledger: seq<Commit>) {
    forall i :: 0 <= i < |ledger| ==> ledger[i].usd > 0
  }

  ghost function TotalUsd(ledger: seq<Commit>): nat {
    if ledger == [] then 0 else TotalUsd(ledger[..|ledger| - 1]) + ledger[|ledger| - 1].usd
  }

  lemma {:induction false} TotalConcat(a: seq<Commit>, b: seq<Commit>)
    ensures TotalUsd(a + b) == TotalUsd(a) + TotalUsd(b)
  {
    if b == [] {
      assert a + b == a;
    } else {
      TotalConcat(a, b[..|b| - 1]);
      assert (a + b)[..|a + b| - 1] == a + b[..|b| - 1];
    }
  }

  /** What a ledger holds for a committer. */
  ghost function Committed(ledger: seq<Commit>, payer: Addr): nat {
    if ledger == [] then 0
    else if ledger[0].payer == payer then ledger[0].usd
    else Committed(ledger[1..], payer)
  }

  /** A credit adds its amount to the total... */
  lemma {:induction false} CreditRaises(ledger: seq<Commit>, payer: Addr, usd: Uint128)
    requires Credit(ledger, payer, usd).Ok?
    ensures TotalUsd(Credit(ledger, payer, usd).value) == TotalUsd(ledger) + usd
  {
    if ledger != [] {
      var first, rest := ledger[0], ledger[1..];
      assert ledger == [first] + rest;
      TotalConcat([first], rest);
      if first.payer == payer {
        TotalConcat([Commit(payer, first.usd + usd)], rest);
      } else if LexLeq(payer, first.payer) {
        TotalConcat([Commit(payer, usd)], ledger);
      } else {
        CreditRaises(rest, payer, usd);
        TotalConcat([first], Credit(rest, payer, usd).value);
      }
    }
  }

  /** ... and to exactly one committer. */
  lemma {:induction false} CreditAdds(ledger: seq<Commit>, payer: Addr, usd: Uint128, u: Addr)
    requires Sorted(ledger) && Credit(ledger, payer, usd).Ok?
    ensures Committed(Credit(ledger, payer, usd).value, u) == Committed(ledger, u) + if u == payer then usd else 0
  {
    if ledger != [] && ledger[0].payer != payer {
      if LexLeq(payer, ledger[0].payer) {
        NewcomerFirst(ledger, payer);
        NobodyBefore(ledger, payer);
        assert ([Commit(payer, usd)] + ledger)[1..] == ledger;
      } else {
        CreditAdds(ledger[1..], payer, usd, u);
        var tail := Credit(ledger[1..], payer, usd).value;
        assert ([ledger[0]] + tail)[1..] == tail;
      }
    } else if ledger != [] {
      var first := Commit(payer, ledger[0].usd + usd);
      assert ([first] + ledger[1..])[1..] == ledger[1..];
    }
  }

  lemma {:induction false} NewcomerFirst(ledger: seq<Commit>, payer: Addr)
    requires Sorted(ledger) && ledger != [] && LexLeq(payer, ledger[0].payer) && payer != ledger[0].payer
    ensures forall i :: 0 <= i < |ledger| ==> LexLeq(payer, ledger[i].payer) && payer != ledger[i].payer
  {
    forall i | 0 < i < |ledger|
      ensures LexLeq(payer, ledger[i].payer) && payer != ledger[i].payer
    {
      LexTransitive(payer, ledger[0].payer, ledger[i].payer);
      if payer == ledger[i].payer {
        LexAntisymmetric(payer, ledger[0].payer);
      }
    }
  }

  /** A credit keeps the order and brings in no other address. */
  lemma {:induction false} CreditKeepsOrder(ledger: seq<Commit>, payer: Addr, usd: Uint128)
    requires Sorted(ledger) && AllPaid(ledger) && usd > 0 && Credit(ledger, payer, usd).Ok?
    ensures var r := Credit(ledger, payer, usd).value;
      Sorted(r) && AllPaid(r) && r != [] && forall c :: c in r ==> c.payer == payer || c in ledger
  {
    if ledger != [] {
      var first, rest := ledger[0], ledger[1..];
      if first.payer != payer && LexLeq(payer, first.payer) {
        NewcomerFirst(ledger, payer);
      } else if first.payer != payer {
        CreditKeepsOrder(rest, payer, usd);
        LexTotal(payer, first.payer);
        var tail := Credit(rest, payer, usd).value;
        forall j | 0 <= j < |tail|
          ensures LexLeq(first.payer, tail[j].payer) && first.payer != tail[j].payer
        {
          assert tail[j] in tail;
          if tail[j].payer != payer {
            var i :| 0 <= i < |rest| && rest[i] == tail[j];
            assert ledger[i + 1] == tail[j];
          }
        }
      }
    }
  }

  lemma {:induction false} NobodyBefore(ledger: seq<Commit>, payer: Addr)
    requires forall i :: 0 <= i < |ledger| ==> ledger[i].payer != payer
    ensures Committed(ledger, payer) == 0
  {
    if ledger != [] {
      NobodyBefore(ledger[1..], payer);
    }
  }

  /** A credit fails only where 128 bits run out, which a ledger within its bound rules out. */
  lemma {:induction false} CreditFits(ledger: seq<Commit>, payer: Addr, usd: Uint128)
    requires TotalUsd(ledger) + usd <= U128_MAX
    ensures Credit(ledger, payer, usd).Ok?
  {
    if ledger != [] {
      assert ledger == [ledger[0]] + ledger[1..];
      TotalConcat([ledger[0]], ledger[1..]);
      if ledger[0].payer != payer && !LexLeq(payer, ledger[0].payer) {
        CreditFits(ledger[1..], payer, usd);
      }
    }
  }

  // ----- Cursor and batches -----

  lemma FirstBefore(ledger: seq<Commit>, c: Commit)
    requires Sorted(ledger) && ledger != [] && c in ledger[1..]
    ensures LexLeq(ledger[0].payer, c.payer) && ledger[0].payer != c.payer
  {
    var i :| 0 <= i < |ledger[1..]| && ledger[1..][i] == c;
    assert ledger[i + 1] == c;
  }

  lemma {:induction false} RemovesOne(ledger: seq<Commit>, payer: Addr)
    requires Sorted(ledger)
    ensures forall c :: c in RemoveCommit(ledger, payer) <==> c in ledger && c.payer != payer
  {
    if ledger != [] {
      var first, rest := ledger[0], ledger[1..];
      assert ledger == [first] + rest;
      if first.payer != payer {
        RemovesOne(rest, payer);
      } else {
        forall c | c in rest
          ensures c.payer != payer
        {
          FirstBefore(ledger, c);
        }
      }
    }
  }

  lemma SortedFrom(first: Commit, tail: seq<Commit>)
    requires Sorted(tail) && forall c :: c in tail ==> LexLeq(first.payer, c.payer) && first.payer != c.payer
    ensures Sorted([first] + tail)
  {
  }

  /** Removing a committer takes out their entry, and leaves the others in order. */
  lemma {:induction false} RemoveExact(ledger: seq<Commit>, payer: Addr)
    requires Sorted(ledger)
    ensures Sorted(RemoveCommit(ledger, payer))
    ensures forall c :: c in RemoveCommit(ledger, payer) <==> c in ledger && c.payer != payer
  {
    RemovesOne(ledger, payer);
    if ledger != [] && ledger[0].payer != payer {
      var tail := RemoveCommit(ledger[1..], payer);
      RemoveExact(ledger[1..], payer);
      forall c | c in tail
        ensures LexLeq(ledger[0].payer, c.payer) && ledger[0].payer != c.payer
      {
        FirstBefore(ledger, c);
      }
      SortedFrom(ledger[0], tail);
    }
  }

  /** The scan finds exactly the entries whose key lies after the cursor. */
  lemma {:induction false} BeyondExact(ledger: seq<Commit>, cursor: Option<Addr>)
    ensures forall c :: c in Beyond(ledger, cursor) <==>
                         c in ledger && (cursor.None? || !LexLeq(c.payer, cursor.value))
  {
    if ledger != [] {
      BeyondExact(ledger[..|ledger| - 1], cursor);
      assert ledger == ledger[..|ledger| - 1] + [ledger[|ledger| - 1]];
    }
  }

  /** As many mints as the gas allows, 40 at most and one at least. */
  lemma BatchSizeExact(s: State)
    ensures var n := EffectiveBatchSize(s);
      && 1 <= n <= 40
      && (n > 1 ==> s.gasPerMint > 0 && n * s.gasPerMint <= s.maxGas)
      && (n < 40 ==> s.gasPerMint == 0 || s.maxGas < (n + 1) * s.gasPerMint)
  {
    if s.gasPerMint > 0 {
      var q := s.maxGas / s.gasPerMint;
      DivPins(s.maxGas, s.gasPerMint);
      Distribute(s.gasPerMint, q, 1);
      if q >= 40 {
        MulMono(40, q, s.gasPerMint);
      }
    }
  }

  /** Nothing is hidden behind a cursor that sorts before every entry. */
  lemma {:induction false} BeyondAll(ledger: seq<Commit>, cursor: Option<Addr>)
    requires forall i :: 0 <= i < |ledger| ==> cursor.None? || !LexLeq(ledger[i].payer, cursor.value)
    ensures Beyond(ledger, cursor) == ledger
  {
    if ledger != [] {
      BeyondAll(ledger[..|ledger| - 1], cursor);
    }
  }

  /** Entries after a batch all sort after the cursor it leaves. */
  lemma AfterCursor(ledger: seq<Commit>, n: nat)
    requires Sorted(ledger) && 0 < n <= |ledger|
    ensures forall i :: n <= i < |ledger| ==> !LexLeq(ledger[i].payer, ledger[n - 1].payer)
  {
    forall i | n <= i < |ledger|
      ensures !LexLeq(ledger[i].payer, ledger[n - 1].payer)
    {
      if LexLeq(ledger[i].payer, ledger[n - 1].payer) {
        LexAntisymmetric(ledger[i].payer, ledger[n - 1].payer);
      }
    }
  }

  /** Removing a leading batch one entry at a time leaves the rest. */
  lemma {:induction false} RemoveLeading(ledger: seq<Commit>, n: nat)
    requires n <= |ledger|
    ensures RemoveCommits(ledger, ledger[..n]) == ledger[n..]
  {
    if n > 0 {
      RemoveLeading(ledger, n - 1);
      assert ledger[..n][..n - 1] == ledger[..n - 1];
      assert ledger[n - 1..][1..] == ledger[n..];
    }
  }

  // ----- Shares -----

  datatype Payment = Payment(payee: Addr, amount: nat)

  /** The payments a ledger entitles to: a floor share each, none where it rounds to nothing. */
  ghost function Shares(ledger: seq<Commit>, total: Uint128, committed: Uint128): seq<Payment> {
    if ledger == [] then []
    else
      var last := ledger[|ledger| - 1];
      var share := Reward(last.usd, total, committed);
      Shares(ledger[..|ledger| - 1], total, committed) + if share == 0 then [] else [Payment(last.payer, share)]
  }

  lemma {:induction false} LastShare(ledger: seq<Commit>, front: seq<Commit>, total: Uint128, committed: Uint128)
    requires ledger != [] && front == ledger[..|ledger| - 1]
    ensures Shares(ledger, total, committed)
            == Shares(front, total, committed) + Shares([ledger[|ledger| - 1]], total, committed)
  {
    assert [ledger[|ledger| - 1]][..0] == [];
  }

  lemma {:induction false} SharesConcat(a: seq<Commit>, b: seq<Commit>, total: Uint128, committed: Uint128)
    ensures Shares(a + b, total, committed) == Shares(a, total, committed) + Shares(b, total, committed)
  {
    if b == [] {
      assert a + b == a;
    } else {
      var front, last := b[..|b| - 1], Shares([b[|b| - 1]], total, committed);
      SharesConcat(a, front, total, committed);
      LastShare(a + b, a + front, total, committed);
      LastShare(b, front, total, committed);
      assert Shares(a, total, committed) + Shares(front, total, committed) + last
          == Shares(a, total, committed) + (Shares(front, total, committed) + last);
    }
  }

  ghost function Sum(payments: seq<Payment>): nat {
    if payments == [] then 0 else Sum(payments[..|payments| - 1]) + payments[|payments| - 1].amount
  }

  ghost function SumTo(payments: seq<Payment>, payee: Addr): nat {
    if payments == [] then 0
    else
      var last := payments[|payments| - 1];
      SumTo(payments[..|payments| - 1], payee) + if last.payee == payee then last.amount else 0
  }

  lemma {:induction false} SumConcat(a: seq<Payment>, b: seq<Payment>, payee: Addr)
    ensures Sum(a + b) == Sum(a) + Sum(b)
    ensures SumTo(a + b, payee) == SumTo(a, payee) + SumTo(b, payee)
  {
    if b == [] {
      assert a + b == a;
    } else {
      SumConcat(a, b[..|b| - 1], payee);
      assert (a + b)[..|a + b| - 1] == a + b[..|b| - 1];
    }
  }

  lemma SharesLast(ledger: seq<Commit>, total: Uint128, committed: Uint128, payee: Addr)
    requires ledger != []
    ensures var front, last := ledger[..|ledger| - 1], ledger[|ledger| - 1];
      var share := Reward(last.usd, total, committed);
      && Sum(Shares(ledger, total, committed)) == Sum(Shares(front, total, committed)) + share
      && SumTo(Shares(ledger, total, committed), payee)
         == SumTo(Shares(front, total, committed), payee) + if last.payer == payee then share else 0
  {
    var front, last := ledger[..|ledger| - 1], ledger[|ledger| - 1];
    var share := Reward(last.usd, total, committed);
    if share == 0 {
      assert Shares(ledger, total, committed) == Shares(front, total, committed);
    } else {
      assert Shares(ledger, total, committed) == Shares(front, total, committed) + [Payment(last.payer, share)];
      SumConcat(Shares(front, total, committed), [Payment(last.payer, share)], payee);
    }
  }

  lemma OneMoreShare(sum: nat, front: nat, share: nat, usd: nat, frontUsd: nat, more: nat, total: nat, committed: nat)
    requires sum == front + share && usd == frontUsd + more
    requires front * committed <= frontUsd * total && share * committed <= more * total
    ensures sum * committed <= usd * total
  {
    Distribute(committed, front, share);
    Distribute(total, frontUsd, more);
  }

  lemma RewardPins(usd: Uint128, total: Uint128, committed: Uint128)
    requires committed > 0
    ensures Reward(usd, total, committed) * committed <= usd * total
  {
    DivPins(usd * total, committed);
  }

  /** The shares of two pieces, and what they come to. */
  lemma {:induction false} SharesJoin(a: seq<Commit>, b: seq<Commit>, total: Uint128, committed: Uint128)
    ensures Shares(a + b, total, committed) == Shares(a, total, committed) + Shares(b, total, committed)
    ensures Sum(Shares(a + b, total, committed)) == Sum(Shares(a, total, committed)) + Sum(Shares(b, total, committed))
  {
    SharesConcat(a, b, total, committed);
    SumConcat(Shares(a, total, committed), Shares(b, total, committed), "");
  }

  /** The shares of a ledger never add up to more than its part of the total. */
  lemma {:induction false} SharesWithin(ledger: seq<Commit>, total: Uint128, committed: Uint128)
    requires committed > 0
    ensures Sum(Shares(ledger, total, committed)) * committed <= TotalUsd(ledger) * total
  {
    if ledger != [] {
      var front, more := ledger[..|ledger| - 1], ledger[|ledger| - 1].usd;
      SharesWithin(front, total, committed);
      SharesLast(ledger, total, committed, "");
      RewardPins(more, total, committed);
      OneMoreShare(Sum(Shares(ledger, total, committed)), Sum(Shares(front, total, committed)),
                   Reward(more, total, committed), TotalUsd(ledger), TotalUsd(front), more, total, committed);
    }
  }

  /** Every committer's share rounds to nothing. */
  ghost predicate NoShares(ledger: seq<Commit>, total: Uint128, committed: Uint128) {
    forall i :: 0 <= i < |ledger| ==> Reward(ledger[i].usd, total, committed) == 0
  }

  lemma {:induction false} SharesNone(ledger: seq<Commit>, total: Uint128, committed: Uint128)
    ensures Sum(Shares(ledger, total, committed)) == 0 <==> NoShares(ledger, total, committed)
  {
    if ledger != [] {
      var front := ledger[..|ledger| - 1];
      SharesNone(front, total, committed);
      SharesLast(ledger, total, committed, "");
      assert NoShares(ledger, total, committed)
          <==> NoShares(front, total, committed) && Reward(ledger[|ledger| - 1].usd, total, committed) == 0;
    }
  }

  lemma OneMoreNothing(usd: nat, frontUsd: nat, more: nat, n: nat, total: nat, rest: nat)
    requires usd == frontUsd + more && frontUsd * total <= n * rest && more * total <= rest
    ensures usd * total <= (n + 1) * rest
  {
    Distribute(total, frontUsd, more);
    Distribute(rest, n, 1);
  }

  lemma {:induction false} NothingEach(ledger: seq<Commit>, total: Uint128, committed: Uint128)
    requires committed > 0 && NoShares(ledger, total, committed)
    ensures TotalUsd(ledger) * total <= |ledger| * (committed - 1)
  {
    if ledger != [] {
      var front, more := ledger[..|ledger| - 1], ledger[|ledger| - 1].usd;
      NothingEach(front, total, committed);
      assert Reward(more, total, committed) == 0;
      DivPins(more * total, committed);
      OneMoreNothing(TotalUsd(ledger), TotalUsd(front), more, |front|, total, committed - 1);
    }
  }

  /** For every share to round to nothing it takes more committers than there are units to share. */
  lemma {:induction false} NothingTakesMany(ledger: seq<Commit>, total: Uint128, committed: Uint128)
    requires TotalUsd(ledger) == committed > 0 && NoShares(ledger, total, committed)
    ensures |ledger| > total
  {
    NothingEach(ledger, total, committed);
    if |ledger| <= total {
      MulMono(|ledger|, total, committed - 1);
      Distribute(total, committed, -1);
    }
  }

  /** The whole ledger's shares fit in the total, and so does every part's. */
  lemma {:induction false} SharesFit(ledger: seq<Commit>, k: nat, total: Uint128, committed: Uint128)
    requires TotalUsd(ledger) == committed > 0 && k <= |ledger|
    ensures Sum(Shares(ledger[..k], total, committed)) <= Sum(Shares(ledger, total, committed)) <= total
  {
    SharesWithin(ledger, total, committed);
    Cancel(Sum(Shares(ledger, total, committed)), total, committed);
    assert ledger == ledger[..k] + ledger[k..];
    SharesConcat(ledger[..k], ledger[k..], total, committed);
    SumConcat(Shares(ledger[..k], total, committed), Shares(ledger[k..], total, committed), "");
  }

  lemma Cancel(a: nat, b: nat, c: nat)
    requires c > 0 && a * c <= c * b
    ensures a <= b
  {
    if a > b {
      MulMono(b + 1, a, c);
    }
  }

  /** A single share is within the total. */
  lemma ShareFits(usd: Uint128, total: Uint128, committed: Uint128)
    requires usd <= committed
    ensures Reward(usd, total, committed) <= total
  {
    if committed > 0 {
      MulMono(usd, committed, total);
      Distribute(committed, total, 1);
      DivAtMost(usd * total, committed, total);
    }
  }

  lemma NothingForNothing(total: Uint128, committed: Uint128)
    ensures Reward(0, total, committed) == 0
  {
    if committed > 0 {
      DivWithin(0 * total, committed, 0, 0);
    }
  }

  /** A committer's payments come to the floor share of what the ledger holds for them. */
  lemma {:induction false} ShareOf(ledger: seq<Commit>, total: Uint128, committed: Uint128, payer: Addr)
    requires Sorted(ledger)
    ensures Committed(ledger, payer) <= U128_MAX
    ensures SumTo(Shares(ledger, total, committed), payer) == Reward(Committed(ledger, payer), total, committed)
  {
    NothingForNothing(total, committed);
    if ledger != [] {
      var n := |ledger| - 1;
      ShareOf(ledger[..n], total, committed, payer);
      CommittedSplit(ledger, payer);
      SharesLast(ledger, total, committed, payer);
      if ledger[n].payer == payer {
        NobodyBefore(ledger[..n], payer);
      }
    }
  }

  lemma {:induction false} CommittedSplit(ledger: seq<Commit>, payer: Addr)
    requires Sorted(ledger) && ledger != []
    ensures var last := ledger[|ledger| - 1];
      Committed(ledger, payer)
      == Committed(ledger[..|ledger| - 1], payer) + if last.payer == payer then last.usd else 0
  {
    if |ledger| > 1 {
      CommittedSplit(ledger[1..], payer);
      assert ledger[1..][..|ledger| - 2] == ledger[..|ledger| - 1][1..];
      if ledger[0].payer == payer {
        assert ledger[|ledger| - 1].payer != payer;
      }
    } else {
      assert ledger[..0] == [];
    }
  }
}
