/**
 The one lossy step of the Lua scripts. A Lua number is an IEEE 754 double, and
 `redis.call("INCRBY", ...)` hands its integer reply to Lua as such a number; returning it
 from the script converts it back. The stored counter is not affected, only the reply is.
 */
module LuaNumber {
  import opened Wrappers

  const TWO_53: nat := 0x20_0000_0000_0000
  const TWO_63: nat := 0x8000_0000_0000_0000

  /** The distance between the doubles around n. */
  function Spacing(n: nat): (p: nat)
    ensures p >= 1
  {
    if n < TWO_53 then 1 else 2 * Spacing(n / 2)
  }

  /** The double nearest to n, ties going to the even mantissa. */
  function RoundToDouble(n: nat): nat {
    var p := Spacing(n);
    var q, r := n / p, n % p;
    if 2 * r > p || (2 * r == p && q % 2 == 1) then (q + 1) * p else q * p
  }

  /** A stored counter as the script's caller sees it; None where the conversion back is undefined. */
  function IntegerReply(stored: nat): Option<nat> {
    if RoundToDouble(stored) < TWO_63 then Some(RoundToDouble(stored)) else None
  }

  /** The mantissa has 53 bits: the spacing is the least that leaves it that short. */
  lemma {:induction false} SpacingFitsMantissa(n: nat)
    ensures n / Spacing(n) < TWO_53
    ensures n >= TWO_53 ==> n / Spacing(n) >= TWO_53 / 2
  {
    if n >= TWO_53 {
      SpacingFitsMantissa(n / 2);
      DivideTwice(n, Spacing(n / 2));
      if n / 2 < TWO_53 {
        assert Spacing(n / 2) == 1;
      }
    }
  }

  lemma DivideTwice(n: nat, p: nat)
    requires p >= 1
    ensures n / (2 * p) == n / 2 / p
  {
    var q := n / 2 / p;
    assert n / 2 == q * p + n / 2 % p;
    assert n == 2 * (n / 2) + n % 2;
    var r := 2 * (n / 2 % p) + n % 2;
    assert n == q * (2 * p) + r && 0 <= r < 2 * p;
    QuotientUnique(n, 2 * p, q, r);
  }

  lemma QuotientUnique(n: nat, d: nat, q: nat, r: nat)
    requires d >= 1 && r < d && n == q * d + r
    ensures n / d == q && n % d == r
  {
    var q', r' := n / d, n % d;
    assert n == q' * d + r';
    assert q + 1 <= q' ==> (q + 1) * d <= q' * d;
    assert q' + 1 <= q ==> (q' + 1) * d <= q * d;
  }

  /** Rounding picks a nearest multiple of the spacing. */
  lemma RoundToDoubleIsNearest(n: nat) returns (m: nat)
    ensures m <= TWO_53 && RoundToDouble(n) == m * Spacing(n)
    ensures 2 * RoundToDouble(n) <= 2 * n + Spacing(n)
    ensures 2 * n <= 2 * RoundToDouble(n) + Spacing(n)
  {
    var p := Spacing(n);
    var q, r := n / p, n % p;
    assert n == q * p + r;
    SpacingFitsMantissa(n);
    assert (q + 1) * p == q * p + p;
    m := if 2 * r > p || (2 * r == p && q % 2 == 1) then q + 1 else q;
  }

  /** The reply equals the stored counter exactly for values of at most 53 significant bits. */
  lemma IntegerReplyExact(n: nat)
    requires n < TWO_63
    ensures IntegerReply(n) == Some(n) <==> n % Spacing(n) == 0
  {
    var p := Spacing(n);
    var q, r := n / p, n % p;
    assert n == q * p + r;
    assert (q + 1) * p == q * p + p;
  }

  lemma SmallRepliesAreExact(n: nat)
    requires n <= TWO_53
    ensures IntegerReply(n) == Some(n)
  {
    if n == TWO_53 {
      assert Spacing(n / 2) == 1 && Spacing(n) == 2;
    }
    IntegerReplyExact(n);
  }

  /** The first counter whose reply is wrong: it is reported one too low. */
  lemma FirstInexactReply()
    ensures IntegerReply(TWO_53 + 1) == Some(TWO_53)
  {
    var n := TWO_53 + 1;
    assert Spacing(n / 2) == 1 && Spacing(n) == 2;
    assert n / 2 == TWO_53 / 2 && n % 2 == 1;
  }
}
