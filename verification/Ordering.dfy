/** The byte order of keys in contract storage. */
module Ordering {
  import opened Base

  /** Lexicographic order of strings. */
  predicate LexLeq(a: string, b: string) {
    a == [] || (b != [] && (a[0] < b[0] || (a[0] == b[0] && LexLeq(a[1..], b[1..]))))
  }

  lemma {:induction false} LexTotal(a: string, b: string)
    ensures LexLeq(a, b) || LexLeq(b, a)
  {
    if a != [] && b != [] && a[0] == b[0] {
      LexTotal(a[1..], b[1..]);
    }
  }

  lemma {:induction false} LexAntisymmetric(a: string, b: string)
    requires LexLeq(a, b) && LexLeq(b, a)
    ensures a == b
  {
    if a != [] {
      LexAntisymmetric(a[1..], b[1..]);
      assert a == [a[0]] + a[1..] && b == [b[0]] + b[1..];
    }
  }

  lemma {:induction false} LexTransitive(a: string, b: string, c: string)
    requires LexLeq(a, b) && LexLeq(b, c)
    ensures LexLeq(a, c)
  {
    if a != [] && a[0] == b[0] && b[0] == c[0] {
      LexTransitive(a[1..], b[1..], c[1..]);
    }
  }

  /** A composite key: big-endian seconds, then the address. */
  datatype Key = Key(ts: nat, addr: Addr)

  predicate Before(a: Key, b: Key) {
    a.ts < b.ts || (a.ts == b.ts && a.addr != b.addr && LexLeq(a.addr, b.addr))
  }

  lemma BeforeTransitive(a: Key, b: Key, c: Key)
    requires Before(a, b) && Before(b, c)
    ensures Before(a, c)
  {
    if a.ts == b.ts == c.ts {
      LexTransitive(a.addr, b.addr, c.addr);
      if a.addr == c.addr {
        LexAntisymmetric(a.addr, b.addr);
      }
    }
  }

  /** The keys of an ordered map, as a range scan delivers them. */
  ghost predicate Ascending(keys: seq<Key>) {
    forall i, j :: 0 <= i < j < |keys| ==> Before(keys[i], keys[j])
  }

  function Insert(keys: seq<Key>, k: Key): seq<Key> {
    if keys == [] then [k]
    else if keys[0] == k then keys
    else if Before(k, keys[0]) then [k] + keys
    else [keys[0]] + Insert(keys[1..], k)
  }

  function Remove(keys: seq<Key>, k: Key): seq<Key> {
    if keys == [] then []
    else if keys[0] == k then keys[1..]
    else [keys[0]] + Remove(keys[1..], k)
  }

  lemma {:induction false} InsertKeepsOrder(keys: seq<Key>, k: Key)
    requires Ascending(keys)
    ensures Ascending(Insert(keys, k))
    ensures forall x :: x in Insert(keys, k) <==> x in keys || x == k
  {
    if keys != [] {
      var first, rest := keys[0], keys[1..];
      assert keys == [first] + rest;
      if first != k && Before(k, first) {
        forall j | 0 <= j < |rest|
          ensures Before(k, rest[j])
        {
          assert Before(keys[0], keys[j + 1]);
          BeforeTransitive(k, first, rest[j]);
        }
      } else if first != k {
        InsertKeepsOrder(rest, k);
        LexTotal(first.addr, k.addr);
        assert Before(first, k);
        forall j | 0 <= j < |Insert(rest, k)|
          ensures Before(first, Insert(rest, k)[j])
        {
          assert Insert(rest, k)[j] in Insert(rest, k);
          if Insert(rest, k)[j] in rest {
            var i :| 0 <= i < |rest| && rest[i] == Insert(rest, k)[j];
            assert Before(keys[0], keys[i + 1]);
          }
        }
      }
    }
  }

  lemma {:induction false} RemoveKeepsOrder(keys: seq<Key>, k: Key)
    requires Ascending(keys)
    ensures Ascending(Remove(keys, k))
    ensures forall x :: x in Remove(keys, k) <==> x in keys && x != k
  {
    if keys != [] {
      var first, rest := keys[0], keys[1..];
      assert keys == [first] + rest;
      if first == k {
        forall j | 0 <= j < |rest|
          ensures rest[j] != k
        {
          assert Before(keys[0], keys[j + 1]);
        }
      } else {
        RemoveKeepsOrder(rest, k);
        forall j | 0 <= j < |Remove(rest, k)|
          ensures Before(first, Remove(rest, k)[j])
        {
          assert Remove(rest, k)[j] in Remove(rest, k);
          var i :| 0 <= i < |rest| && rest[i] == Remove(rest, k)[j];
          assert Before(keys[0], keys[i + 1]);
        }
      }
    }
  }
}
