/**
 * The 64-bit microsecond boot clock (time_us_64, to_us_since_boot) and the two
 * unsigned operations the controller applies to it.
 */
module Clock {

  const U64_LIMIT := 0x1_0000_0000_0000_0000

  /** A uint64_t value. */
  type u64 = x: int | 0 <= x < U64_LIMIT

  /** uint64_t addition, which wraps modulo 2^64. */
  function AddU64(a: u64, b: u64): (r: u64)
    ensures a + b < U64_LIMIT ==> r == a + b
    ensures a + b >= U64_LIMIT ==> r == a + b - U64_LIMIT
  {
    (a + b) % U64_LIMIT
  }

  /** `now - since` on uint64_t: the time elapsed since a stamp, wrapping when the stamp is later. */
  function Elapsed(now: u64, since: u64): (r: u64)
    ensures since <= now ==> r == now - since
    ensures now < since ==> r == now - since + U64_LIMIT
  {
    (now - since) % U64_LIMIT
  }
}
