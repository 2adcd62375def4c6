/** Go's 64-bit integers and points in time. */
module GoTypes {
  const MIN_INT64: int := -0x8000_0000_0000_0000
  const MAX_INT64: int := 0x7FFF_FFFF_FFFF_FFFF
  const TWO_64: int := 0x1_0000_0000_0000_0000

  type int64 = n: int | MIN_INT64 <= n <= MAX_INT64

  /** The result of int64 arithmetic that may wrap around. */
  function Wrap(n: int): (r: int64)
    ensures MIN_INT64 <= n <= MAX_INT64 ==> r == n
    ensures (r - n) % TWO_64 == 0
  {
    (n - MIN_INT64) % TWO_64 + MIN_INT64
  }

  lemma WrapUnique(n: int, r: int64)
    requires (r - n) % TWO_64 == 0
    ensures Wrap(n) == r
  {}

  /** A point in time, in nanoseconds from the Unix epoch; durations are nanoseconds too. */
  type Time = int

  const SECOND: int := 1_000_000_000
  const MILLISECOND: int := 1_000_000
  const HOUR: int := 3600 * SECOND
  const DAY: int := 24 * HOUR

  /** The zero time.Time, midnight of 1 January of year 1. */
  const ZERO_TIME: Time := -62_135_596_800 * SECOND

  /** The last instant of the year 9999, beyond which a key's year would have five digits. */
  const LAST_TIME: Time := 253_402_300_800 * SECOND - 1

  function Unix(t: Time): int {
    t / SECOND
  }

  /** Truncation to a whole unit; the zero time lies on a unit boundary for hours and days. */
  function Truncate(t: Time, unit: int): Time
    requires unit > 0
  {
    t - t % unit
  }

  // ---- Guards by division ----

  lemma MoreTimes(many: int, few: int, each: int)
    requires many >= few && each >= 0
    ensures many * each >= few * each
  {}

  /** Comparing with a quotient is comparing with the product, without computing it. */
  lemma QuotientGuard(count: int, each: int, limit: int)
    requires each >= 1 && count >= 1 && limit >= 1
    ensures count > limit / each <==> count * each > limit
    ensures each > limit ==> count * each > limit
  {
    var q := limit / each;
    assert limit == q * each + limit % each;
    if count > q {
      MoreTimes(count, q + 1, each);
      assert (q + 1) * each == q * each + each;
    } else {
      MoreTimes(q, count, each);
    }
    MoreTimes(count, 1, each);
  }
}
