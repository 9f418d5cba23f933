/** The engine's time stamps: seconds and microseconds in 32-bit unsigned fields. */
module IperfTime {
  const MILLION := 1_000_000
  const TWO_32 := 0x1_0000_0000
  const TWO_64 := 0x1_0000_0000_0000_0000

  /** The first instant a time stamp can no longer hold, in microseconds. */
  const LIMIT := 4_294_967_296_000_000

  type uint32 = n: int | 0 <= n < 0x1_0000_0000
  type uint64 = n: int | 0 <= n < 0x1_0000_0000_0000_0000

  /** An int64_t that is not negative. */
  type Interval = n: int | 0 <= n < 0x8000_0000_0000_0000

  datatype Time = Time(secs: uint32, usecs: uint32)

  /** What every clock reading and every sum satisfies. */
  predicate Normal(t: Time) {
    t.usecs < MILLION
  }

  /** iperf_time_in_usecs. */
  function Micros(t: Time): nat {
    t.secs * MILLION + t.usecs
  }

  /** iperf_time_add_usecs, wrap-around of both fields included. */
  function AddUsecs(t: Time, usecs: uint64): (r: Time)
    ensures Normal(r)
  {
    var total: int := (t.usecs + usecs) % TWO_64;
    Time((t.secs + total / MILLION) % TWO_32, total % MILLION)
  }

  /** An instant as a time stamp holds it. */
  function Wrapped(n: nat): (r: nat)
    ensures r < 4_294_967_296_000_000 && (n < 4_294_967_296_000_000 ==> r == n)
  {
    n % LIMIT
  }

  /** What is lost is a whole number of times the range. */
  lemma WholeRanges(n: nat)
    ensures exists q: nat :: n == Wrapped(n) + q * 4_294_967_296_000_000
  {
    var q := n / LIMIT;
    assert n == Wrapped(n) + q * 4_294_967_296_000_000;
  }

  /** The sum is exact as long as neither field wraps; the first wrap loses the whole 2^32 seconds. */
  lemma AddIsExact(t: Time, usecs: uint64)
    requires t.usecs + usecs < TWO_64
    ensures Micros(AddUsecs(t, usecs)) == Micros(t) + usecs <==> Micros(t) + usecs < LIMIT
    ensures Micros(AddUsecs(t, usecs)) == Wrapped(Micros(t) + usecs)
  {
    hide Wrapped;
    var total: int := t.usecs + usecs;
    Carry(t.secs, total);
    Remainder(Micros(t) + usecs);
  }

  lemma Remainder(n: nat)
    ensures Wrapped(n) == n % 4_294_967_296_000_000
  {
  }

  /** Carrying whole seconds, then dropping whole multiples of 2^32 of them, is one remainder. */
  lemma Carry(secs: nat, total: nat)
    ensures var r := (secs + total / 1_000_000) % 0x1_0000_0000 * 1_000_000 + total % 1_000_000;
            && r == (secs * 1_000_000 + total) % 4_294_967_296_000_000
            && (r == secs * 1_000_000 + total <==> secs * 1_000_000 + total < 4_294_967_296_000_000)
  {
    var s: int := secs + total / 1_000_000;
    var low: int := total % 1_000_000;
    var n: int := secs * 1_000_000 + total;
    assert n == s * 1_000_000 + low;
    var q: int := s / 0x1_0000_0000;
    var r: int := s % 0x1_0000_0000 * 1_000_000 + low;
    assert n == q * 4_294_967_296_000_000 + r && 0 <= r < 4_294_967_296_000_000;
    WholeParts(n, q, r);
  }

  lemma WholeParts(n: int, q: int, r: int)
    requires n == q * 4_294_967_296_000_000 + r && 0 <= r < 4_294_967_296_000_000 && n >= 0
    ensures n % 4_294_967_296_000_000 == r && (n < 4_294_967_296_000_000 <==> q == 0)
  {
    var d := n / 4_294_967_296_000_000 - q;
    assert d * 4_294_967_296_000_000 == r - n % 4_294_967_296_000_000;
    assert d == 0;
  }

  /** iperf_time_compare. */
  function Compare(a: Time, b: Time): int {
    if a.secs < b.secs then -1
    else if a.secs > b.secs then 1
    else if a.usecs < b.usecs then -1
    else if a.usecs > b.usecs then 1
    else 0
  }

  /** On clock readings the comparison is that of the instants. */
  lemma CompareIsOrder(a: Time, b: Time)
    requires Normal(a) && Normal(b)
    ensures Compare(a, b) < 0 <==> Micros(a) < Micros(b)
    ensures Compare(a, b) > 0 <==> Micros(a) > Micros(b)
    ensures Compare(a, b) == 0 <==> a == b
  {
  }

  /** iperf_time_diff: the distance, and whether the first time is not after the second. */
  function Diff(a: Time, b: Time): (Time, bool)
    requires Normal(a) && Normal(b)
  {
    var cmp := Compare(a, b);
    if cmp == 0 then (Time(0, 0), true)
    else if cmp == 1 then (Distance(a, b), false)
    else (Distance(b, a), true)
  }

  /** The subtraction with its borrow. */
  function Distance(a: Time, b: Time): (r: Time)
    requires Normal(a) && Normal(b) && Compare(a, b) == 1
  {
    if a.usecs < b.usecs then Time(a.secs - b.secs - 1, a.usecs + MILLION - b.usecs)
    else Time(a.secs - b.secs, a.usecs - b.usecs)
  }

  lemma DiffIsDistance(a: Time, b: Time)
    requires Normal(a) && Normal(b)
    ensures Normal(Diff(a, b).0)
    ensures Micros(Diff(a, b).0) == if Micros(a) > Micros(b) then Micros(a) - Micros(b) else Micros(b) - Micros(a)
    ensures Diff(a, b).1 <==> Micros(a) <= Micros(b)
  {
  }
}
