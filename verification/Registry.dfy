/** The factory's pool registry: four coupled maps, the registration that writes them together and
    the migration that fills the two newer ones from the older. */
module Registry {
  import opened Base
  import opened Assets
  import opened Ordering

  datatype PoolDetails = PoolDetails(token0: TokenType, token1: TokenType, poolAddr: Addr)

  type PairKey = (string, string)

  /** The kind tag keeps denoms and contract addresses apart. */
  function Fingerprint(t: TokenType): string {
    match t
    case Native(denom) => "n:" + denom
    case CreatorToken(contract) => "c:" + contract
  }

  function CanonicalPairKey(d: PoolDetails): PairKey {
    var a, b := Fingerprint(d.token0), Fingerprint(d.token1);
    if LexLeq(a, b) then (a, b) else (b, a)
  }

  ghost predicate SamePair(d: PoolDetails, e: PoolDetails) {
    (d.token0 == e.token0 && d.token1 == e.token1) || (d.token0 == e.token1 && d.token1 == e.token0)
  }

  lemma FingerprintInjective(t: TokenType, u: TokenType)
    requires Fingerprint(t) == Fingerprint(u)
    ensures t == u
  {
    assert Fingerprint(t)[0] == Fingerprint(u)[0];
    assert Fingerprint(t)[2..] == Fingerprint(u)[2..];
    match t {
      case Native(denom) => assert Fingerprint(t)[2..] == denom;
      case CreatorToken(contract) => assert Fingerprint(t)[2..] == contract;
    }
    match u {
      case Native(denom) => assert Fingerprint(u)[2..] == denom;
      case CreatorToken(contract) => assert Fingerprint(u)[2..] == contract;
    }
  }

  /** Two pools have the same key exactly when they trade the same unordered pair. */
  lemma PairKeyExact(d: PoolDetails, e: PoolDetails)
    ensures CanonicalPairKey(d) == CanonicalPairKey(e) <==> SamePair(d, e)
  {
    var a, b := Fingerprint(d.token0), Fingerprint(d.token1);
    var x, y := Fingerprint(e.token0), Fingerprint(e.token1);
    if CanonicalPairKey(d) == CanonicalPairKey(e) {
      if a == x && b == y {
        FingerprintInjective(d.token0, e.token0);
        FingerprintInjective(d.token1, e.token1);
      } else {
        FingerprintInjective(d.token0, e.token1);
        FingerprintInjective(d.token1, e.token0);
      }
    }
    if SamePair(d, e) && a == y && b == x {
      LexTotal(a, b);
      if LexLeq(a, b) && LexLeq(b, a) {
        LexAntisymmetric(a, b);
      }
    }
  }

  datatype Registry = Registry(
    byId: map<nat, PoolDetails>, byContract: map<Addr, (string, string)>,
    pairs: map<PairKey, nat>, idByAddress: map<Addr, nat>)

  function AssetName(t: TokenType): string {
    match t
    case Native(denom) => denom
    case CreatorToken(contract) => contract
  }

  /** `register_pool`. */
  function Register(r: Registry, id: nat, poolAddr: Addr, d: PoolDetails): Option<Registry> {
    var key := CanonicalPairKey(d);
    if key in r.pairs then None
    else
      Some(Registry(r.byId[id := d], r.byContract[poolAddr := (AssetName(d.token0), AssetName(d.token1))],
                    r.pairs[key := id], r.idByAddress[poolAddr := id]))
  }

  /** The back-fill after the first `n` ids, `keys[i]` being the slot of `ids[i]`: the first id seen
      takes the slot, a taken slot stays. */
  function Fill<K(==)>(slots: map<K, nat>, keys: seq<K>, ids: seq<nat>, n: nat): map<K, nat>
    requires n <= |ids| == |keys|
  {
    if n == 0 then slots
    else
      var filled := Fill(slots, keys, ids, n - 1);
      if keys[n - 1] in filled then filled else filled[keys[n - 1] := ids[n - 1]]
  }

  function PairKeys(byId: map<nat, PoolDetails>, ids: seq<nat>): seq<PairKey>
    requires forall i :: 0 <= i < |ids| ==> ids[i] in byId
  {
    seq(|ids|, i requires 0 <= i < |ids| => CanonicalPairKey(byId[ids[i]]))
  }

  function PoolAddresses(byId: map<nat, PoolDetails>, ids: seq<nat>): seq<Addr>
    requires forall i :: 0 <= i < |ids| ==> ids[i] in byId
  {
    seq(|ids|, i requires 0 <= i < |ids| => byId[ids[i]].poolAddr)
  }

  /** The ids of a map in ascending order, as a key range delivers them. */
  ghost predicate IdsOf(ids: seq<nat>, byId: map<nat, PoolDetails>) {
    && (forall i, j :: 0 <= i < j < |ids| ==> ids[i] < ids[j])
    && (forall i :: 0 <= i < |ids| ==> ids[i] in byId)
    && (forall id :: id in byId ==> id in ids)
  }

  function Migrate(r: Registry, ids: seq<nat>): Registry
    requires forall i :: 0 <= i < |ids| ==> ids[i] in r.byId
  {
    MigrateTo(r, ids, |ids|)
  }

  /** The migration after its first `n` ids. */
  function MigrateTo(r: Registry, ids: seq<nat>, n: nat): Registry
    requires n <= |ids| && forall i :: 0 <= i < |ids| ==> ids[i] in r.byId
  {
    r.(pairs := Fill(r.pairs, PairKeys(r.byId, ids), ids, n),
       idByAddress := Fill(r.idByAddress, PoolAddresses(r.byId, ids), ids, n))
  }

  class PoolRegistry {
    var poolsById: map<nat, PoolDetails>
    var poolsByContractAddress: map<Addr, (string, string)>
    var pairs: map<PairKey, nat>
    var poolIdByAddress: map<Addr, nat>

    function State(): Registry
      reads this
    {
      Registry(poolsById, poolsByContractAddress, pairs, poolIdByAddress)
    }

    method RegisterPool(poolId: nat, poolAddress: Addr, details: PoolDetails) returns (registered: bool)
      modifies this
      ensures registered <==> Register(old(State()), poolId, poolAddress, details).Some?
      ensures State() == if registered then Register(old(State()), poolId, poolAddress, details).value else old(State())
    {
      var pairKey := CanonicalPairKey(details);
      if pairKey in pairs {
        return false;
      }
      pairs := pairs[pairKey := poolId];
      poolsById := poolsById[poolId := details];
      poolIdByAddress := poolIdByAddress[poolAddress := poolId];
      var names := (AssetName(details.token0), AssetName(details.token1));
      poolsByContractAddress := poolsByContractAddress[poolAddress := names];
      return true;
    }

    /** The next pool's pair slot, filled only if it is empty. */
    method FillPair(poolIds: seq<nat>, i: nat, ghost slots: map<PairKey, nat>) returns (newPair: bool)
      requires i < |poolIds| && forall j :: 0 <= j < |poolIds| ==> poolIds[j] in poolsById
      requires pairs == Fill(slots, PairKeys(poolsById, poolIds), poolIds, i)
      modifies this`pairs
      ensures pairs == Fill(slots, PairKeys(poolsById, poolIds), poolIds, i + 1)
      ensures |pairs| == |old(pairs)| + if newPair then 1 else 0
    {
      var key := CanonicalPairKey(poolsById[poolIds[i]]);
      assert PairKeys(poolsById, poolIds)[i] == key;
      newPair := key !in pairs;
      if newPair {
        pairs := pairs[key := poolIds[i]];
      }
    }

    /** Its address slot. */
    method FillAddress(poolIds: seq<nat>, i: nat, ghost slots: map<Addr, nat>) returns (newAddress: bool)
      requires i < |poolIds| && forall j :: 0 <= j < |poolIds| ==> poolIds[j] in poolsById
      requires poolIdByAddress == Fill(slots, PoolAddresses(poolsById, poolIds), poolIds, i)
      modifies this`poolIdByAddress
      ensures poolIdByAddress == Fill(slots, PoolAddresses(poolsById, poolIds), poolIds, i + 1)
      ensures |poolIdByAddress| == |old(poolIdByAddress)| + if newAddress then 1 else 0
    {
      var address := poolsById[poolIds[i]].poolAddr;
      assert PoolAddresses(poolsById, poolIds)[i] == address;
      newAddress := address !in poolIdByAddress;
      if newAddress {
        poolIdByAddress := poolIdByAddress[address := poolIds[i]];
      }
    }

    /** Both slots of the pool `poolIds[i]`. */
    method FillSlots(poolIds: seq<nat>, i: nat, ghost before: Registry) returns (newPair: bool, newAddress: bool)
      requires i < |poolIds| && forall j :: 0 <= j < |poolIds| ==> poolIds[j] in before.byId
      requires State() == MigrateTo(before, poolIds, i)
      modifies this`pairs, this`poolIdByAddress
      ensures State() == MigrateTo(before, poolIds, i + 1)
      ensures |pairs| == |old(pairs)| + if newPair then 1 else 0
      ensures |poolIdByAddress| == |old(poolIdByAddress)| + if newAddress then 1 else 0
    {
      newPair := FillPair(poolIds, i, before.pairs);
      newAddress := FillAddress(poolIds, i, before.idByAddress);
    }

    /** The back-fill loop of the factory migration; `poolIds` is the ascending key range. */
    method BackFill(poolIds: seq<nat>) returns (backfilled: nat, legacyDuplicates: nat, addressesBackfilled: nat)
      requires forall i :: 0 <= i < |poolIds| ==> poolIds[i] in poolsById
      modifies this`pairs, this`poolIdByAddress
      ensures State() == Migrate(old(State()), poolIds)
      ensures backfilled + legacyDuplicates == |poolIds|
      ensures backfilled == |pairs| - |old(pairs)| && addressesBackfilled == |poolIdByAddress| - |old(poolIdByAddress)|
    {
      backfilled, legacyDuplicates, addressesBackfilled := 0, 0, 0;
      ghost var before := State();
      for i := 0 to |poolIds|
        invariant State() == MigrateTo(before, poolIds, i)
        invariant |pairs| == |before.pairs| + backfilled && backfilled + legacyDuplicates == i
        invariant |poolIdByAddress| == |before.idByAddress| + addressesBackfilled
      {
        var newPair, newAddress := FillSlots(poolIds, i, before);
        if newPair {
          backfilled := backfilled + 1;
        } else {
          legacyDuplicates := legacyDuplicates + 1;
        }
        if newAddress {
          addressesBackfilled := addressesBackfilled + 1;
        }
      }
    }
  }

  // ----- Consistency -----

  /** Each pair names the oldest pool that trades it, and each address its pool. */
  ghost predicate Consistent(r: Registry) {
    PairsSound(r.byId, r.pairs) && AddressesSound(r.byId, r.idByAddress)
  }

  ghost predicate PairsSound(byId: map<nat, PoolDetails>, pairs: map<PairKey, nat>) {
    && (forall id :: id in byId ==> CanonicalPairKey(byId[id]) in pairs && pairs[CanonicalPairKey(byId[id])] <= id)
    && (forall k :: k in pairs ==> pairs[k] in byId && CanonicalPairKey(byId[pairs[k]]) == k)
  }

  ghost predicate AddressesSound(byId: map<nat, PoolDetails>, index: map<Addr, nat>) {
    && (forall id :: id in byId ==> byId[id].poolAddr in index && index[byId[id].poolAddr] == id)
    && AddressesCorrect(byId, index)
  }

  ghost predicate DistinctAddresses(byId: map<nat, PoolDetails>) {
    forall i, j :: i in byId && j in byId && i != j ==> byId[i].poolAddr != byId[j].poolAddr
  }

  /** What is in the slots names pools that want them, for a pair the oldest of them. */
  ghost predicate AlreadyCorrect(r: Registry) {
    PairsCorrect(r.byId, r.pairs) && AddressesCorrect(r.byId, r.idByAddress)
  }

  ghost predicate PairsCorrect(byId: map<nat, PoolDetails>, pairs: map<PairKey, nat>) {
    && (forall k :: k in pairs ==> pairs[k] in byId && CanonicalPairKey(byId[pairs[k]]) == k)
    && forall k, id :: k in pairs && id in byId && CanonicalPairKey(byId[id]) == k ==> pairs[k] <= id
  }

  ghost predicate AddressesCorrect(byId: map<nat, PoolDetails>, index: map<Addr, nat>) {
    forall a :: a in index ==> index[a] in byId && byId[index[a]].poolAddr == a
  }

  /** A taken slot stays as it is... */
  lemma {:induction false} FillKeeps<K>(slots: map<K, nat>, keys: seq<K>, ids: seq<nat>, n: nat, k: K)
    requires n <= |ids| == |keys| && k in slots
    ensures k in Fill(slots, keys, ids, n) && Fill(slots, keys, ids, n)[k] == slots[k]
  {
    if n > 0 {
      FillKeeps(slots, keys, ids, n - 1, k);
    }
  }

  /** ... an empty one is filled, in ascending order by the smallest id that wants it... */
  lemma {:induction false} FillCovers<K>(slots: map<K, nat>, keys: seq<K>, ids: seq<nat>, i: nat, n: nat)
    requires i < n <= |ids| == |keys| && forall j, k :: 0 <= j < k < |ids| ==> ids[j] < ids[k]
    ensures var filled := Fill(slots, keys, ids, n);
      keys[i] in filled && (keys[i] in slots || filled[keys[i]] <= ids[i])
  {
    if i < n - 1 {
      FillCovers(slots, keys, ids, i, n - 1);
    } else if keys[i] in Fill(slots, keys, ids, i) && keys[i] !in slots {
      var j := FillNames(slots, keys, ids, i, keys[i]);
    }
  }

  /** ... and by nobody else. */
  lemma {:induction false} FillNames<K>(slots: map<K, nat>, keys: seq<K>, ids: seq<nat>, n: nat, k: K) returns (i: nat)
    requires n <= |ids| == |keys| && k in Fill(slots, keys, ids, n) && k !in slots
    ensures i < n && ids[i] == Fill(slots, keys, ids, n)[k] && keys[i] == k
  {
    if k in Fill(slots, keys, ids, n - 1) {
      i := FillNames(slots, keys, ids, n - 1, k);
    } else {
      i := n - 1;
    }
  }

  lemma {:induction false} FillNothing<K>(slots: map<K, nat>, keys: seq<K>, ids: seq<nat>, n: nat)
    requires n <= |ids| == |keys| && forall i :: 0 <= i < |keys| ==> keys[i] in slots
    ensures Fill(slots, keys, ids, n) == slots
  {
    if n > 0 {
      FillNothing(slots, keys, ids, n - 1);
    }
  }

  /** Slot `k` names an id that wants it, none smaller wanting it too. */
  ghost predicate SlotCorrect<K>(wanted: map<nat, K>, slots: map<K, nat>, k: K)
    requires k in slots
  {
    slots[k] in wanted && wanted[slots[k]] == k && forall id :: id in wanted && wanted[id] == k ==> slots[k] <= id
  }

  ghost predicate SlotsCorrect<K(!new)>(wanted: map<nat, K>, slots: map<K, nat>) {
    forall k :: k in slots ==> SlotCorrect(wanted, slots, k)
  }

  ghost predicate Covers<K>(wanted: map<nat, K>, slots: map<K, nat>) {
    forall id :: id in wanted ==> wanted[id] in slots
  }

  /** `keys` are the slots wanted by `ids`, all the ids there are, in ascending order. */
  ghost predicate Lists<K>(wanted: map<nat, K>, keys: seq<K>, ids: seq<nat>) {
    && |keys| == |ids| && (forall i, j :: 0 <= i < j < |ids| ==> ids[i] < ids[j])
    && (forall i :: 0 <= i < |ids| ==> ids[i] in wanted && keys[i] == wanted[ids[i]])
    && forall id :: id in wanted ==> id in ids
  }

  lemma {:induction false} FilledCovers<K>(wanted: map<nat, K>, slots: map<K, nat>, keys: seq<K>, ids: seq<nat>,
        id: nat)
    requires Lists(wanted, keys, ids) && id in wanted
    ensures var filled := Fill(slots, keys, ids, |ids|);
      wanted[id] in filled && (wanted[id] in slots || filled[wanted[id]] <= id)
  {
    var i :| 0 <= i < |ids| && ids[i] == id;
    FillCovers(slots, keys, ids, i, |ids|);
  }

  /** A slot that was empty before is correct after; one that was taken is correct if it was. */
  lemma {:induction false} FilledSlot<K>(wanted: map<nat, K>, slots: map<K, nat>, keys: seq<K>, ids: seq<nat>, k: K)
    requires Lists(wanted, keys, ids) && k in Fill(slots, keys, ids, |ids|)
    ensures var filled := Fill(slots, keys, ids, |ids|);
      if k in slots then SlotCorrect(wanted, filled, k) <==> SlotCorrect(wanted, slots, k)
      else SlotCorrect(wanted, filled, k)
  {
    if k in slots {
      FillKeeps(slots, keys, ids, |ids|, k);
    } else {
      var i := FillNames(slots, keys, ids, |ids|, k);
      forall id | id in wanted && wanted[id] == k
        ensures Fill(slots, keys, ids, |ids|)[k] <= id
      {
        FilledCovers(wanted, slots, keys, ids, id);
      }
    }
  }

  /** Every wanted slot ends up filled, and the slots are correct afterwards exactly when they were
      before. */
  lemma {:induction false} SlotsExact<K(!new)>(wanted: map<nat, K>, slots: map<K, nat>, keys: seq<K>, ids: seq<nat>)
    requires Lists(wanted, keys, ids)
    ensures var filled := Fill(slots, keys, ids, |ids|);
      Covers(wanted, filled) && (SlotsCorrect(wanted, filled) <==> SlotsCorrect(wanted, slots))
  {
    var filled := Fill(slots, keys, ids, |ids|);
    forall id | id in wanted
      ensures wanted[id] in filled
    {
      FilledCovers(wanted, slots, keys, ids, id);
    }
    forall k | k in filled
      ensures if k in slots then SlotCorrect(wanted, filled, k) <==> SlotCorrect(wanted, slots, k)
              else SlotCorrect(wanted, filled, k)
    {
      FilledSlot(wanted, slots, keys, ids, k);
    }
    forall k | k in slots
      ensures k in filled
    {
      FillKeeps(slots, keys, ids, |ids|, k);
    }
  }

  function WantedPairs(byId: map<nat, PoolDetails>): map<nat, PairKey> {
    map id | id in byId :: CanonicalPairKey(byId[id])
  }

  function WantedAddresses(byId: map<nat, PoolDetails>): map<nat, Addr> {
    map id | id in byId :: byId[id].poolAddr
  }

  lemma PairSlots(r: Registry, ids: seq<nat>)
    requires IdsOf(ids, r.byId)
    ensures Covers(WantedPairs(r.byId), Migrate(r, ids).pairs)
    ensures SlotsCorrect(WantedPairs(r.byId), Migrate(r, ids).pairs) <==> SlotsCorrect(WantedPairs(r.byId), r.pairs)
  {
    SlotsExact(WantedPairs(r.byId), r.pairs, PairKeys(r.byId, ids), ids);
  }

  lemma AddressSlots(r: Registry, ids: seq<nat>)
    requires IdsOf(ids, r.byId)
    ensures Covers(WantedAddresses(r.byId), Migrate(r, ids).idByAddress)
    ensures SlotsCorrect(WantedAddresses(r.byId), Migrate(r, ids).idByAddress)
            <==> SlotsCorrect(WantedAddresses(r.byId), r.idByAddress)
  {
    SlotsExact(WantedAddresses(r.byId), r.idByAddress, PoolAddresses(r.byId, ids), ids);
  }

  /** The pair half of consistency. */
  lemma PairsConsistent(byId: map<nat, PoolDetails>, pairs: map<PairKey, nat>)
    ensures Covers(WantedPairs(byId), pairs) && SlotsCorrect(WantedPairs(byId), pairs) <==> PairsSound(byId, pairs)
  {
    var wanted := WantedPairs(byId);
    if Covers(wanted, pairs) && SlotsCorrect(wanted, pairs) {
      forall id | id in byId
        ensures CanonicalPairKey(byId[id]) in pairs && pairs[CanonicalPairKey(byId[id])] <= id
      {
        assert wanted[id] in pairs && SlotCorrect(wanted, pairs, wanted[id]);
      }
      forall k | k in pairs
        ensures pairs[k] in byId && CanonicalPairKey(byId[pairs[k]]) == k
      {
        assert SlotCorrect(wanted, pairs, k);
      }
    }
  }

  /** The address half. */
  lemma AddressesConsistent(byId: map<nat, PoolDetails>, index: map<Addr, nat>)
    ensures DistinctAddresses(byId) && Covers(WantedAddresses(byId), index)
              && SlotsCorrect(WantedAddresses(byId), index)
            <==> AddressesSound(byId, index)
  {
    var wanted := WantedAddresses(byId);
    if DistinctAddresses(byId) && Covers(wanted, index) && SlotsCorrect(wanted, index) {
      forall a | a in index
        ensures index[a] in byId && byId[index[a]].poolAddr == a
      {
        assert SlotCorrect(wanted, index, a);
      }
      forall id | id in byId
        ensures byId[id].poolAddr in index && index[byId[id].poolAddr] == id
      {
        assert wanted[id] in index && SlotCorrect(wanted, index, wanted[id]);
      }
    }
  }

  lemma CorrectPairs(r: Registry)
    ensures SlotsCorrect(WantedPairs(r.byId), r.pairs) <==> PairsCorrect(r.byId, r.pairs)
  {
    var wanted := WantedPairs(r.byId);
    if SlotsCorrect(wanted, r.pairs) {
      forall k | k in r.pairs
        ensures r.pairs[k] in r.byId && CanonicalPairKey(r.byId[r.pairs[k]]) == k
      {
        assert SlotCorrect(wanted, r.pairs, k);
      }
      forall k, id | k in r.pairs && id in r.byId && CanonicalPairKey(r.byId[id]) == k
        ensures r.pairs[k] <= id
      {
        assert SlotCorrect(wanted, r.pairs, k) && wanted[id] == k;
      }
    }
  }

  lemma CorrectAddresses(r: Registry)
    requires DistinctAddresses(r.byId)
    ensures SlotsCorrect(WantedAddresses(r.byId), r.idByAddress) <==> AddressesCorrect(r.byId, r.idByAddress)
  {
    var wanted := WantedAddresses(r.byId);
    if SlotsCorrect(wanted, r.idByAddress) {
      forall a | a in r.idByAddress
        ensures r.idByAddress[a] in r.byId && r.byId[r.idByAddress[a]].poolAddr == a
      {
        assert SlotCorrect(wanted, r.idByAddress, a);
      }
    }
  }

  /** From any registry, whatever is filled of it and whatever duplicates it holds, the migration
      leaves each pair with its smallest pool id and an exact inverse of the addresses if and only
      if no two pools share an address and what was filled before is correct. */
  lemma MigrationConsistent(r: Registry, ids: seq<nat>)
    requires IdsOf(ids, r.byId)
    ensures Consistent(Migrate(r, ids)) <==> DistinctAddresses(r.byId) && AlreadyCorrect(r)
  {
    PairsMigrated(r, ids);
    AddressesMigrated(r, ids);
  }

  lemma PairsMigrated(r: Registry, ids: seq<nat>)
    requires IdsOf(ids, r.byId)
    ensures PairsSound(r.byId, Migrate(r, ids).pairs) <==> PairsCorrect(r.byId, r.pairs)
  {
    PairSlots(r, ids);
    PairsConsistent(r.byId, Migrate(r, ids).pairs);
    CorrectPairs(r);
  }

  lemma AddressesMigrated(r: Registry, ids: seq<nat>)
    requires IdsOf(ids, r.byId)
    ensures AddressesSound(r.byId, Migrate(r, ids).idByAddress)
            <==> DistinctAddresses(r.byId) && AddressesCorrect(r.byId, r.idByAddress)
  {
    AddressSlots(r, ids);
    AddressesConsistent(r.byId, Migrate(r, ids).idByAddress);
    if DistinctAddresses(r.byId) {
      CorrectAddresses(r);
    }
  }

  /** Migrating again changes nothing. */
  lemma MigrationIdempotent(r: Registry, ids: seq<nat>)
    requires Consistent(r) && forall i :: 0 <= i < |ids| ==> ids[i] in r.byId
    ensures Migrate(r, ids) == r
  {
    FillNothing(r.pairs, PairKeys(r.byId, ids), ids, |ids|);
    FillNothing(r.idByAddress, PoolAddresses(r.byId, ids), ids, |ids|);
  }

  /** A consistent registry refuses a pool exactly when one for the same unordered pair exists. */
  lemma RefusesExactlyDuplicates(r: Registry, id: nat, poolAddr: Addr, d: PoolDetails)
    requires Consistent(r)
    ensures Register(r, id, poolAddr, d).None? <==> exists i :: i in r.byId && SamePair(r.byId[i], d)
  {
    var key := CanonicalPairKey(d);
    if key in r.pairs {
      PairKeyExact(r.byId[r.pairs[key]], d);
    }
    forall i | i in r.byId && SamePair(r.byId[i], d)
      ensures key in r.pairs
    {
      PairKeyExact(r.byId[i], d);
    }
  }

  datatype Event = RegisterCall(id: nat, details: PoolDetails) | MigrateCall(ids: seq<nat>)

  /** Pool ids come from a counter and addresses from instantiation: both are new. */
  ghost predicate Fresh(r: Registry, e: Event) {
    match e
    case RegisterCall(id, d) => id !in r.byId && d.poolAddr !in r.idByAddress
    case MigrateCall(ids) => IdsOf(ids, r.byId)
  }

  ghost function After(r: Registry, e: Event): Registry
    requires Fresh(r, e)
  {
    match e
    case RegisterCall(id, d) => if Register(r, id, d.poolAddr, d).Some? then Register(r, id, d.poolAddr, d).value else r
    case MigrateCall(ids) => Migrate(r, ids)
  }

  /** The registries a run passes through, from the first to the last. */
  ghost predicate IsRun(rs: seq<Registry>, es: seq<Event>) {
    && |rs| == |es| + 1
    && forall i {:trigger es[i]} :: 0 <= i < |es| ==> Fresh(rs[i], es[i]) && rs[i + 1] == After(rs[i], es[i])
  }

  lemma {:induction false} RunConsistent(rs: seq<Registry>, es: seq<Event>, n: nat)
    requires IsRun(rs, es) && n < |rs| && Consistent(rs[0])
    ensures Consistent(rs[n])
  {
    if n > 0 {
      RunConsistent(rs, es, n - 1);
      match es[n - 1]
      case RegisterCall(id, d) => RegisterKeeps(rs[n - 1], id, d);
      case MigrateCall(ids) => MigrationIdempotent(rs[n - 1], ids);
    }
  }

  lemma NewPairSound(byId: map<nat, PoolDetails>, pairs: map<PairKey, nat>, id: nat, d: PoolDetails)
    requires PairsSound(byId, pairs) && id !in byId && CanonicalPairKey(d) !in pairs
    ensures PairsSound(byId[id := d], pairs[CanonicalPairKey(d) := id])
  {
  }

  lemma NewAddressSound(byId: map<nat, PoolDetails>, index: map<Addr, nat>, id: nat, d: PoolDetails)
    requires AddressesSound(byId, index) && id !in byId && d.poolAddr !in index
    ensures AddressesSound(byId[id := d], index[d.poolAddr := id])
  {
  }

  lemma RegisterKeeps(r: Registry, id: nat, d: PoolDetails)
    requires Consistent(r) && id !in r.byId && d.poolAddr !in r.idByAddress
    ensures var r' := Register(r, id, d.poolAddr, d);
      r'.Some? ==> Consistent(r'.value)
  {
    if Register(r, id, d.poolAddr, d).Some? {
      NewPairSound(r.byId, r.pairs, id, d);
      NewAddressSound(r.byId, r.idByAddress, id, d);
    }
  }

  /** In every run from a migrated registry, of registrations and further migrations in any order,
      the maps stay consistent, and two pools trade the same pair only if both were there before
      the migration. */
  lemma {:induction false} RegistrationsStayUnique(rs: seq<Registry>, es: seq<Event>, n: nat, i: nat, j: nat)
    requires IsRun(rs, es) && n < |rs| && Consistent(rs[0])
    requires i in rs[n].byId && j in rs[n].byId && i != j && SamePair(rs[n].byId[i], rs[n].byId[j])
    ensures i in rs[0].byId && j in rs[0].byId
  {
    if n > 0 {
      UniqueStep(rs, es, n, i, j);
      RegistrationsStayUnique(rs, es, n - 1, i, j);
    }
  }

  lemma UniqueStep(rs: seq<Registry>, es: seq<Event>, n: nat, i: nat, j: nat)
    requires IsRun(rs, es) && 0 < n < |rs| && Consistent(rs[0])
    requires i in rs[n].byId && j in rs[n].byId && i != j && SamePair(rs[n].byId[i], rs[n].byId[j])
    ensures i in rs[n - 1].byId && j in rs[n - 1].byId && SamePair(rs[n - 1].byId[i], rs[n - 1].byId[j])
  {
    RunConsistent(rs, es, n - 1);
    NoNewDuplicate(rs[n - 1], es[n - 1], i, j);
  }

  lemma NoNewDuplicate(r: Registry, e: Event, i: nat, j: nat)
    requires Consistent(r) && Fresh(r, e)
    requires var r' := After(r, e);
      i in r'.byId && j in r'.byId && i != j && SamePair(r'.byId[i], r'.byId[j])
    ensures i in r.byId && j in r.byId && SamePair(r.byId[i], r.byId[j])
  {
    if e.RegisterCall? {
      RefusesExactlyDuplicates(r, e.id, e.details.poolAddr, e.details);
    }
  }

  // ----- What a run has registered -----

  function Nothing(): Registry {
    Registry(map[], map[], map[], map[])
  }

  /** Call `i` of a run is a registration that went through. */
  ghost predicate Registered(rs: seq<Registry>, es: seq<Event>, i: nat)
    requires |rs| == |es| + 1 && i < |es|
  {
    es[i].RegisterCall? && Register(rs[i], es[i].id, es[i].details.poolAddr, es[i].details).Some?
  }

  function TokenName(t: TokenType): string {
    if t.Native? then t.denom else t.contract
  }

  /** Every lookup finds the pool: by id, by address, and by its pair in either order. */
  ghost predicate Found(r: Registry, id: nat, d: PoolDetails) {
    && id in r.byId && r.byId[id] == d
    && d.poolAddr in r.byContract && r.byContract[d.poolAddr] == (TokenName(d.token0), TokenName(d.token1))
    && d.poolAddr in r.idByAddress && r.idByAddress[d.poolAddr] == id
    && CanonicalPairKey(d) in r.pairs && r.pairs[CanonicalPairKey(d)] == id
  }

  /** What has been registered is what the registry finds. */
  ghost predicate Tracks(rs: seq<Registry>, es: seq<Event>, n: nat)
    requires |rs| == |es| + 1 && n < |rs|
  {
    && (forall i {:trigger es[i]} :: 0 <= i < n && Registered(rs, es, i) ==> Found(rs[n], es[i].id, es[i].details))
    && forall id :: id in rs[n].byId ==> exists i :: 0 <= i < n && Registered(rs, es, i) && es[i].id == id
  }

  ghost predicate Registers(r: Registry, e: Event) {
    e.RegisterCall? && Register(r, e.id, e.details.poolAddr, e.details).Some?
  }

  /** A call keeps what was found; a registration that goes through is found itself. */
  lemma CallFinds(r: Registry, e: Event, id: nat, d: PoolDetails)
    requires Consistent(r) && Fresh(r, e)
    requires Found(r, id, d) || (Registers(r, e) && e == RegisterCall(id, d))
    ensures Found(After(r, e), id, d)
  {
    if e.MigrateCall? {
      MigrationIdempotent(r, e.ids);
    }
  }

  lemma CallIds(r: Registry, e: Event)
    requires Consistent(r) && Fresh(r, e)
    ensures After(r, e).byId.Keys == r.byId.Keys + if Registers(r, e) then {e.id} else {}
  {
  }

  lemma FoundStays(rs: seq<Registry>, es: seq<Event>, n: nat, i: nat)
    requires IsRun(rs, es) && i < n < |rs| && Consistent(rs[n - 1]) && Registered(rs, es, i)
    requires i < n - 1 ==> Found(rs[n - 1], es[i].id, es[i].details)
    ensures Found(rs[n], es[i].id, es[i].details)
  {
    CallFinds(rs[n - 1], es[n - 1], es[i].id, es[i].details);
  }

  lemma IdStays(rs: seq<Registry>, es: seq<Event>, n: nat, id: nat)
    requires IsRun(rs, es) && 0 < n < |rs| && Consistent(rs[n - 1]) && id in rs[n].byId
    requires id in rs[n - 1].byId ==> exists i :: 0 <= i < n - 1 && Registered(rs, es, i) && es[i].id == id
    ensures exists i :: 0 <= i < n && Registered(rs, es, i) && es[i].id == id
  {
    CallIds(rs[n - 1], es[n - 1]);
    if id !in rs[n - 1].byId {
      assert Registered(rs, es, n - 1);
    }
  }

  lemma StepTracks(rs: seq<Registry>, es: seq<Event>, n: nat)
    requires IsRun(rs, es) && 0 < n < |rs| && Consistent(rs[n - 1]) && Tracks(rs, es, n - 1)
    ensures Tracks(rs, es, n)
  {
    forall i {:trigger es[i]} | 0 <= i < n && Registered(rs, es, i)
      ensures Found(rs[n], es[i].id, es[i].details)
    {
      FoundStays(rs, es, n, i);
    }
    forall id | id in rs[n].byId
      ensures exists i :: 0 <= i < n && Registered(rs, es, i) && es[i].id == id
    {
      IdStays(rs, es, n, id);
    }
  }

  lemma {:induction false} RunTracks(rs: seq<Registry>, es: seq<Event>, n: nat)
    requires IsRun(rs, es) && n < |rs| && rs[0] == Nothing()
    ensures Tracks(rs, es, n)
  {
    if n > 0 {
      RunTracks(rs, es, n - 1);
      RunConsistent(rs, es, n - 1);
      StepTracks(rs, es, n);
    }
  }

  /** From an empty registry, over any registrations and migrations: a registration goes through exactly
      when no earlier one that did trades the same pair, and from then on every lookup finds it. */
  lemma {:induction false} RegistrationsExact(rs: seq<Registry>, es: seq<Event>, i: nat, n: nat)
    requires IsRun(rs, es) && rs[0] == Nothing() && i < n < |rs| && es[i].RegisterCall?
    ensures Registered(rs, es, i) <==>
            forall j {:trigger es[j]} :: 0 <= j < i && Registered(rs, es, j) ==> !SamePair(es[j].details, es[i].details)
    ensures Registered(rs, es, i) ==> Found(rs[n], es[i].id, es[i].details)
  {
    RunTracks(rs, es, n);
    RunTracks(rs, es, i);
    RunConsistent(rs, es, i);
    RefusesExactlyDuplicates(rs[i], es[i].id, es[i].details.poolAddr, es[i].details);
    if !Registered(rs, es, i) {
      var id :| id in rs[i].byId && SamePair(rs[i].byId[id], es[i].details);
      var j :| 0 <= j < i && Registered(rs, es, j) && es[j].id == id;
    }
  }
}
