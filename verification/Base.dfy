/** Integer widths, saturating arithmetic, block time and the result types shared by
    every contract of the protocol. */
module Base {

  const U32_MAX := 0xFFFF_FFFF
  const U64_MAX := 0xFFFF_FFFF_FFFF_FFFF
  const U128_MAX := 0xFFFF_FFFF_FFFF_FFFF_FFFF_FFFF_FFFF_FFFF
  const U256_MAX := 0xFFFF_FFFF_FFFF_FFFF_FFFF_FFFF_FFFF_FFFF_FFFF_FFFF_FFFF_FFFF_FFFF_FFFF_FFFF_FFFF

  type Uint32 = x: int | 0 <= x <= U32_MAX
  type Uint64 = x: int | 0 <= x <= U64_MAX
  type Uint128 = x: int | 0 <= x <= U128_MAX

  type Addr = string

  /** Fixed-point scale of every price: six decimals. */
  const PRICE_PRECISION := 1_000_000

  /** Decimals have eighteen places. */
  const ONE := 1_000_000_000_000_000_000

  datatype Option<+T> = None | Some(value: T)

  datatype Result<+T, +E> = Ok(value: T) | Err(error: E) {
    predicate IsFailure() {
      Err?
    }

    function PropagateFailure<U>(): Result<U, E>
      requires Err?
    {
      Err(error)
    }

    function Extract(): T
      requires Ok?
    {
      value
    }
  }

  function Min(a: int, b: int): int {
    if a <= b then a else b
  }

  function Max(a: int, b: int): int {
    if a <= b then b else a
  }

  /** `saturating_sub`: never below zero. */
  function SatSub(a: nat, b: nat): nat {
    if a <= b then 0 else a - b
  }

  /** `saturating_add` on 64 bits. */
  function SatAdd64(a: Uint64, b: Uint64): Uint64 {
    Min(a + b, U64_MAX)
  }

  /** Block time in nanoseconds, as the chain hands it to a contract. */
  type Timestamp = t: int | 0 <= t <= U64_MAX

  const NANOS := 1_000_000_000

  function Seconds(t: Timestamp): Uint64 {
    t / NANOS
  }

  /** `plus_seconds`. The sum is left unbounded: a block time within a delay of the end of
      the 64-bit range lies in the year 2554. */
  function PlusSeconds(t: Timestamp, seconds: nat): nat {
    t + seconds * NANOS
  }

  /** A delay measured in nanoseconds is at least as long when read in whole seconds. */
  lemma SecondsAfterDelay(t: Timestamp, u: Timestamp, delay: nat)
    requires PlusSeconds(t, delay) <= u
    ensures Seconds(t) + delay <= Seconds(u)
  {
    assert (t + delay * NANOS) / NANOS == t / NANOS + delay;
  }

  lemma MulMono(a: int, b: int, c: int)
    requires a <= b && 0 <= c
    ensures a * c <= b * c
  {
  }

  /** Floor division pins its quotient. */
  lemma DivPins(n: int, d: int)
    requires d > 0
    ensures n / d * d <= n < n / d * d + d
  {
  }

  lemma DivAtLeast(n: int, d: int, lo: int)
    requires d > 0 && lo * d <= n
    ensures lo <= n / d
  {
    DivPins(n, d);
    var q := n / d;
    if q + 1 <= lo {
      MulMono(q + 1, lo, d);
    }
  }

  lemma DivAtMost(n: int, d: int, hi: int)
    requires d > 0 && n < (hi + 1) * d
    ensures n / d <= hi
  {
    DivPins(n, d);
    var q := n / d;
    if hi + 1 <= q {
      MulMono(hi + 1, q, d);
    }
  }

  /** A quotient of naturals: no larger than what is divided. */
  function FloorDiv(n: nat, d: nat): (q: nat)
    requires d > 0
    ensures q <= n
  {
    MulMono(1, d, n);
    DivAtLeast(n, d, 0);
    Distribute(d, n, 1);
    DivAtMost(n, d, n);
    n / d
  }

  function Times(a: nat, b: nat): nat {
    MulMono(0, a, b);
    a * b
  }

  function Pow(b: nat, k: nat): nat {
    if k == 0 then 1 else b * Pow(b, k - 1)
  }

  lemma Distribute(x: int, a: int, b: int)
    ensures x * (a + b) == x * a + x * b
  {
  }

  lemma DivWithin(n: int, d: int, lo: int, hi: int)
    requires d > 0 && lo * d <= n <= hi * d
    ensures lo <= n / d <= hi
  {
    DivAtLeast(n, d, lo);
    Distribute(d, hi, 1);
    DivAtMost(n, d, hi);
  }

  lemma ModUnique(x: int, n: int, q: int, r: int)
    requires 0 <= r < n && x == q * n + r
    ensures x / n == q && x % n == r
  {
    DivPins(x, n);
    var p := x / n;
    if p < q {
      MulMono(p + 1, q, n);
    }
    if q < p {
      MulMono(q + 1, p, n);
    }
  }

  /** An index at most one turn ahead wraps by a single subtraction. */
  lemma Wrap(x: nat, n: nat)
    requires x < 2 * n
    ensures x % n == if x < n then x else x - n
  {
    if x < n {
      ModUnique(x, n, 0, x);
    } else {
      ModUnique(x, n, 1, x - n);
    }
  }
}
