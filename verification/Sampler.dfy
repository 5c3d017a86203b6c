/** The pool sampler: the anchor plus a hash-driven choice of distinct eligible pools, with
    linear probing over indices already taken. */
module Sampler {
  import opened Base

  type Byte = b: int | 0 <= b < 256

  /** The contract runs on a 32-bit machine, so a seed loses its upper half when it becomes an
      index. */
  const USIZE := 0x1_0000_0000

  type Digest = h: seq<Byte> | |h| == 32 witness seq(32, _ => 0)

  /** Eight digest bytes from position `i` on, wrapping around, most significant first. */
  function Seed(hash: Digest, i: nat, bytes: nat): nat {
    if bytes == 0 then 0 else Seed(hash, i, bytes - 1) * 256 + hash[(i + bytes - 1) % 32]
  }

  /** Where the probe for the `i`-th choice starts. */
  function Start(hash: Digest, i: nat, n: nat): nat
    requires n > 0
  {
    Seed(hash, i, 8) % USIZE % n
  }

  /** The first index at or after `start + d`, cyclically, that is not in `used`; the last one
      looked at when all are. */
  function Probe(start: nat, d: nat, n: nat, used: set<nat>): nat
    requires d < n
    decreases n - d
  {
    if (start + d) % n !in used || d + 1 == n then (start + d) % n else Probe(start, d + 1, n, used)
  }

  /** A digit to the base 256, the least significant first. */
  function Digit(v: nat, k: nat): nat {
    if k == 0 then v % 256 else Digit(v / 256, k - 1)
  }

  /** A seed's digits are the eight bytes of the digest from `i` on, wrapping around, and it has no
      others. */
  lemma {:induction false} SeedDigits(hash: Digest, i: nat, bytes: nat, j: nat)
    requires j < bytes
    ensures Digit(Seed(hash, i, bytes), bytes - 1 - j) == hash[(i + j) % 32]
    ensures Seed(hash, i, bytes) < Pow(256, bytes)
  {
    var rest, byte := Seed(hash, i, bytes - 1), hash[(i + bytes - 1) % 32];
    ModUnique(Seed(hash, i, bytes), 256, rest, byte);
    if bytes > 1 {
      SeedDigits(hash, i, bytes - 1, Min(j, bytes - 2));
    }
  }

  function Indices(choices: seq<nat>): set<nat> {
    set i | 0 <= i < |choices| :: choices[i]
  }

  /** The indices chosen, in order. */
  function Sample(hash: Digest, n: nat, count: nat): (choices: seq<nat>)
    requires n > 0
    ensures |choices| == count
  {
    if count == 0 then []
    else
      var earlier := Sample(hash, n, count - 1);
      earlier + [Probe(Start(hash, count - 1, n), 0, n, Indices(earlier))]
  }

  function Pick(eligible: seq<Addr>, choices: seq<nat>): seq<Addr>
    requires forall i :: 0 <= i < |choices| ==> choices[i] < |eligible|
  {
    seq(|choices|, i requires 0 <= i < |choices| => eligible[choices[i]])
  }

  lemma IndicesGrow(choices: seq<nat>, next: nat)
    ensures Indices(choices + [next]) == Indices(choices) + {next}
  {
    var longer := choices + [next];
    assert longer[|choices|] == next;
    forall k | k in Indices(choices)
      ensures k in Indices(longer)
    {
      var i :| 0 <= i < |choices| && choices[i] == k;
      assert longer[i] == k;
    }
  }

  ghost predicate Below(used: set<nat>, n: nat) {
    forall k :: k in used ==> k < n
  }

  lemma {:induction false} BelowSize(used: set<nat>, n: nat)
    requires Below(used, n)
    ensures |used| <= n
    ensures |used| < n ==> exists k: nat :: k < n && k !in used
    decreases n
  {
    if n == 0 {
      assert used == {};
    } else {
      BelowSize(used - {n - 1}, n - 1);
      if n - 1 in used {
        assert |used - {n - 1}| == |used| - 1;
      } else {
        assert used - {n - 1} == used;
      }
    }
  }

  /** Some index within one turn of any start is free, so probing ends. */
  lemma FreeAhead(start: nat, n: nat, used: set<nat>) returns (d: nat)
    requires start < n && Below(used, n) && |used| < n
    ensures d < n && (start + d) % n !in used
  {
    BelowSize(used, n);
    var k: nat :| k < n && k !in used;
    d := if start <= k then k - start else k + n - start;
    Wrap(start + d, n);
  }

  lemma {:induction false} ProbeFindsFree(start: nat, d: nat, n: nat, used: set<nat>, free: nat)
    requires d <= free < n && (start + free) % n !in used
    ensures Probe(start, d, n, used) < n && Probe(start, d, n, used) !in used
    decreases n - d
  {
    if (start + d) % n in used {
      ProbeFindsFree(start, d + 1, n, used, free);
    }
  }

  /** For every digest, `count` choices out of at least as many indices are distinct and in
      range. */
  lemma {:induction false} SampleDistinct(hash: Digest, n: nat, count: nat)
    requires 0 < n && count <= n
    ensures forall i :: 0 <= i < count ==> Sample(hash, n, count)[i] < n
    ensures forall i, j :: 0 <= i < j < count ==> Sample(hash, n, count)[i] != Sample(hash, n, count)[j]
    ensures |Indices(Sample(hash, n, count))| == count
  {
    if count > 0 {
      SampleDistinct(hash, n, count - 1);
      var earlier := Sample(hash, n, count - 1);
      var start, used := Start(hash, count - 1, n), Indices(earlier);
      var d := FreeAhead(start, n, used);
      ProbeFindsFree(start, 0, n, used, d);
      var next := Probe(start, 0, n, used);
      var choices := Sample(hash, n, count);
      assert choices == earlier + [next];
      IndicesGrow(earlier, next);
      forall i | 0 <= i < count - 1
        ensures choices[i] != next
      {
        assert earlier[i] in used;
      }
    }
  }

  lemma {:induction false} SampleFits(hash: Digest, n: nat, count: nat)
    requires 0 < n && count <= n
    ensures |Indices(Sample(hash, n, count))| == count && Below(Indices(Sample(hash, n, count)), n)
  {
    SampleDistinct(hash, n, count);
  }

  /** The index `e` steps after `start`, cyclically. */
  function Ahead(start: nat, e: nat, n: nat): nat
    requires n > 0
  {
    (start + e) % n
  }

  lemma {:induction false} FirstFree(start: nat, d: nat, n: nat, used: set<nat>, free: nat) returns (e: nat)
    requires d <= free < n && Ahead(start, free, n) !in used
    ensures d <= e < n && Probe(start, d, n, used) == Ahead(start, e, n) && Ahead(start, e, n) !in used
    ensures forall k :: d <= k < e ==> Ahead(start, k, n) in used
    decreases n - d
  {
    if Ahead(start, d, n) in used {
      e := FirstFree(start, d + 1, n, used, free);
    } else {
      e := d;
    }
  }

  lemma {:induction false} SampleStep(hash: Digest, n: nat, count: nat, k: nat)
    requires 0 < n && k < count
    ensures Sample(hash, n, count)[..k] == Sample(hash, n, k)
    ensures Sample(hash, n, count)[k] == Probe(Start(hash, k, n), 0, n, Indices(Sample(hash, n, k)))
    decreases count
  {
    if k < count - 1 {
      SampleStep(hash, n, count - 1, k);
    }
  }

  lemma InSequence(choices: seq<nat>, x: nat)
    ensures x in Indices(choices) <==> x in choices
  {
    if x in choices {
      var i :| 0 <= i < |choices| && choices[i] == x;
    }
  }

  /** The `k`-th choice is the first index not chosen before, counting cyclically from the seed at byte
      `k` of the digest, cut to 32 bits. */
  lemma {:induction false} ChoiceIsFirstFree(hash: Digest, n: nat, count: nat, k: nat) returns (d: nat)
    requires 0 < n && k < count <= n
    ensures var choices, start := Sample(hash, n, count), Seed(hash, k, 8) % 0x1_0000_0000 % n;
      && d < n && choices[k] == Ahead(start, d, n) && choices[k] !in choices[..k]
      && (forall e :: 0 <= e < d ==> Ahead(start, e, n) in choices[..k])
  {
    var earlier, start := Sample(hash, n, k), Start(hash, k, n);
    SampleFits(hash, n, k);
    var free := FreeAhead(start, n, Indices(earlier));
    d := FirstFree(start, 0, n, Indices(earlier), free);
    SampleStep(hash, n, count, k);
    InSequence(earlier, Ahead(start, d, n));
    forall e | 0 <= e < d
      ensures Ahead(start, e, n) in earlier
    {
      InSequence(earlier, Ahead(start, e, n));
    }
  }

  /** The selection the oracle uses. With the basket off it is the anchor alone. */
  function Selection(basket: bool, anchor: Addr, eligible: seq<Addr>, numPools: nat, hash: Digest): seq<Addr> {
    var needed := SatSub(numPools, 1);
    if !basket then [anchor]
    else if |eligible| <= needed then eligible + [anchor]
    else
      SampleDistinct(hash, |eligible|, needed);
      [anchor] + Pick(eligible, Sample(hash, |eligible|, needed))
  }

  /** The probing loop, with the distance to the next free index as its measure. */
  method NextFree(start: nat, n: nat, usedIndices: set<nat>) returns (index: nat)
    requires start < n && Below(usedIndices, n) && |usedIndices| < n
    ensures index == Probe(start, 0, n, usedIndices)
    ensures index < n && index !in usedIndices
  {
    index := start;
    ghost var d: nat := 0;
    ghost var free := FreeAhead(start, n, usedIndices);
    Wrap(start, n);
    while index in usedIndices
      invariant d <= free && index == (start + d) % n
      invariant Probe(start, 0, n, usedIndices) == Probe(start, d, n, usedIndices)
      decreases free - d
    {
      Wrap(start + d, n);
      Wrap(start + d + 1, n);
      Wrap(index + 1, n);
      index := (index + 1) % n;
      d := d + 1;
    }
  }

  lemma PickGrows(eligible: seq<Addr>, choices: seq<nat>, next: nat)
    requires next < |eligible| && forall k :: 0 <= k < |choices| ==> choices[k] < |eligible|
    ensures Pick(eligible, choices + [next]) == Pick(eligible, choices) + [eligible[next]]
  {
  }

  method SelectRandomPoolsWithAtom(basket: bool, anchor: Addr, eligible: seq<Addr>, numPools: nat, hash: Digest)
    returns (selected: seq<Addr>)
    ensures selected == Selection(basket, anchor, eligible, numPools, hash)
  {
    if !basket {
      return [anchor];
    }
    var randomPoolsNeeded := SatSub(numPools, 1);
    if |eligible| <= randomPoolsNeeded {
      return eligible + [anchor];
    }
    var n := |eligible|;
    var usedIndices: set<nat> := {};
    selected := [anchor];
    for i := 0 to randomPoolsNeeded
      invariant usedIndices == Indices(Sample(hash, n, i))
      invariant forall k :: 0 <= k < i ==> Sample(hash, n, i)[k] < n
      invariant selected == [anchor] + Pick(eligible, Sample(hash, n, i))
    {
      ghost var earlier := Sample(hash, n, i);
      SampleFits(hash, n, i);
      var index := NextFree(Start(hash, i, n), n, usedIndices);
      assert Sample(hash, n, i + 1) == earlier + [index];
      IndicesGrow(earlier, index);
      PickGrows(eligible, earlier, index);
      usedIndices := usedIndices + {index};
      selected := selected + [eligible[index]];
    }
  }

  ghost predicate Distinct(pools: seq<Addr>) {
    forall i, j :: 0 <= i < j < |pools| ==> pools[i] != pools[j]
  }

  /** When more pools are eligible than fit, those the sample chooses follow the anchor in its order; with
      the basket off the anchor is alone. */
  lemma {:induction false} SelectionFollows(anchor: Addr, eligible: seq<Addr>, numPools: nat, hash: Digest)
    ensures 0 < numPools <= |eligible| ==>
              var s, choices := Selection(true, anchor, eligible, numPools, hash),
                    Sample(hash, |eligible|, numPools - 1);
              && |s| == numPools && s[0] == anchor
              && forall i :: 1 <= i < numPools ==> choices[i - 1] < |eligible| && s[i] == eligible[choices[i - 1]]
    ensures Selection(false, anchor, eligible, numPools, hash) == [anchor]
  {
    if 0 < numPools <= |eligible| {
      SampleDistinct(hash, |eligible|, numPools - 1);
    }
  }

  /** For every digest the selection holds the anchor exactly once and otherwise only eligible
      pools, each at most once: all of them when at most `numPools - 1` are eligible, exactly
      `numPools - 1` of them when more are. */
  lemma {:induction false} SelectionShape(anchor: Addr, eligible: seq<Addr>, numPools: nat, hash: Digest)
    requires Distinct(eligible) && anchor !in eligible
    ensures var s := Selection(true, anchor, eligible, numPools, hash);
      && Distinct(s) && anchor in s
      && |s| == 1 + Min(SatSub(numPools, 1), |eligible|)
      && (forall i :: 0 <= i < |s| ==> s[i] == anchor || s[i] in eligible)
      && (|eligible| < numPools ==> forall p :: p in eligible ==> p in s)
  {
    var needed := SatSub(numPools, 1);
    var s := Selection(true, anchor, eligible, numPools, hash);
    if |eligible| <= needed {
      assert s[|eligible|] == anchor;
    } else {
      var choices := Sample(hash, |eligible|, needed);
      SampleDistinct(hash, |eligible|, needed);
      assert s[0] == anchor;
      forall i, j | 0 <= i < j < |s|
        ensures s[i] != s[j]
      {
        assert s[j] == eligible[choices[j - 1]];
        if i > 0 {
          assert s[i] == eligible[choices[i - 1]];
        }
      }
    }
  }
}
