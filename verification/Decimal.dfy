/**
 Decimal counters as Redis stores them: strings of digits, added and compared digit by
 digit inside Lua, because a Lua number cannot hold every int64.
 */
module Decimal {
  import opened Wrappers
  import opened Text

  const MAX_INT64: int := 0x7FFF_FFFF_FFFF_FFFF
  const MAX_TEXT: string := "9223372036854775807"

  predicate IsDigit(c: char) {
    '0' <= c <= '9'
  }

  predicate AllDigits(s: string) {
    forall i :: 0 <= i < |s| ==> IsDigit(s[i])
  }

  function DigitValue(c: char): nat
    requires IsDigit(c)
  {
    c as int - '0' as int
  }

  function DigitChar(d: nat): (c: char)
    requires d < 10
    ensures IsDigit(c) && DigitValue(c) == d
  {
    (d + '0' as int) as char
  }

  /** The number a digit string denotes; the empty string denotes zero. */
  function Value(s: string): nat
    requires AllDigits(s)
  {
    if s == "" then 0 else 10 * Value(s[..|s| - 1]) + DigitValue(s[|s| - 1])
  }

  /** The canonical decimal of a number: what strconv and INCRBY write. */
  function Render(n: nat): string {
    if n < 10 then [DigitChar(n)] else Render(n / 10) + [DigitChar(n % 10)]
  }

  /** The Lua patterns of `valid_uint`: exactly "0", or digits with no leading zero. */
  predicate Canonical(s: string) {
    s == "0" || (|s| > 0 && '1' <= s[0] <= '9' && AllDigits(s))
  }

  /** `valid_uint` of the counter and budget scripts. */
  predicate ValidUint(s: string) {
    if s == "0" then true
    else if !Canonical(s) then false
    else if |s| < |MAX_TEXT| then true
    else if |s| > |MAX_TEXT| then false
    else LessEq(s, MAX_TEXT)
  }

  /** `less_or_equal` of the budget script. */
  predicate LessOrEqual(left: string, right: string) {
    if |left| != |right| then |left| < |right| else LessEq(left, right)
  }

  function Pow10(n: nat): (p: nat)
    ensures p >= 1
  {
    if n == 0 then 1 else 10 * Pow10(n - 1)
  }

  lemma Pow10Monotone(m: nat, n: nat)
    requires m <= n
    ensures Pow10(m) <= Pow10(n)
  {}

  lemma {:induction false} RenderIsCanonical(n: nat)
    ensures Canonical(Render(n)) && AllDigits(Render(n)) && Value(Render(n)) == n
    ensures n > 0 ==> Render(n)[0] != '0'
  {
    if n >= 10 {
      RenderIsCanonical(n / 10);
      assert Render(n)[..|Render(n)| - 1] == Render(n / 10);
    } else {
      assert Render(n)[..0] == "";
    }
  }

  lemma {:induction false} ValueBounds(s: string)
    requires AllDigits(s)
    ensures Value(s) < Pow10(|s|)
    ensures |s| > 0 && s[0] != '0' ==> Pow10(|s| - 1) <= Value(s)
  {
    if |s| > 0 {
      ValueBounds(s[..|s| - 1]);
    }
  }

  /** Canonical strings and numbers correspond one to one. */
  lemma {:induction false} RenderOfValue(s: string)
    requires Canonical(s)
    ensures AllDigits(s) && Render(Value(s)) == s
  {
    assert AllDigits(s);
    if |s| == 1 {
      assert s[..0] == "";
      assert s == [s[0]];
    } else {
      var front := s[..|s| - 1];
      RenderOfValue(front);
      ValueBounds(s);
      Pow10Monotone(1, |s| - 1);
      assert s == front + [s[|s| - 1]];
    }
  }

  lemma RenderInjective(m: nat, n: nat)
    requires Render(m) == Render(n)
    ensures m == n
  {
    RenderIsCanonical(m);
    RenderIsCanonical(n);
  }

  lemma ShiftDigits(v: nat, p: nat, w: nat, d: nat)
    ensures 10 * (v * p + w) + d == v * (10 * p) + (10 * w + d)
  {}

  /** Value splits off the leading digit. */
  lemma {:induction false} ValueOfHead(s: string)
    requires AllDigits(s) && |s| > 0
    ensures Value(s) == DigitValue(s[0]) * Pow10(|s| - 1) + Value(s[1..])
  {
    if |s| > 1 {
      var front := s[..|s| - 1];
      ValueOfHead(front);
      assert s[1..][..|s| - 2] == front[1..];
      ShiftDigits(DigitValue(s[0]), Pow10(|front| - 1), Value(front[1..]), DigitValue(s[|s| - 1]));
    } else {
      assert s[1..] == "" && s[..0] == "";
    }
  }

  /** A larger leading digit outweighs everything behind it. */
  lemma HeadDecides(x: nat, y: nat, p: nat, u: nat, v: nat)
    requires u < p && v < p
    ensures x < y ==> x * p + u < y * p + v
    ensures y < x ==> y * p + v < x * p + u
  {
    if x < y {
      assert (x + 1) * p <= y * p;
    } else if y < x {
      assert (y + 1) * p <= x * p;
    }
  }

  /** On strings of one length the byte order is the numeric order. */
  lemma {:induction false} SameLengthOrder(a: string, b: string)
    requires AllDigits(a) && AllDigits(b) && |a| == |b|
    ensures LessEq(a, b) <==> Value(a) <= Value(b)
    ensures a == b <==> Value(a) == Value(b)
  {
    if |a| > 0 {
      ValueOfHead(a);
      ValueOfHead(b);
      ValueBounds(a[1..]);
      ValueBounds(b[1..]);
      SameLengthOrder(a[1..], b[1..]);
      assert a == [a[0]] + a[1..] && b == [b[0]] + b[1..];
      HeadDecides(DigitValue(a[0]), DigitValue(b[0]), Pow10(|a| - 1), Value(a[1..]), Value(b[1..]));
    }
  }

  /** `less_or_equal` is numeric comparison on canonical strings of any lengths. */
  lemma LessOrEqualIsNumeric(left: string, right: string)
    requires Canonical(left) && Canonical(right)
    ensures AllDigits(left) && AllDigits(right)
    ensures LessOrEqual(left, right) <==> Value(left) <= Value(right)
  {
    if |left| == |right| {
      SameLengthOrder(left, right);
    } else {
      ValueBounds(left);
      ValueBounds(right);
      if |left| < |right| {
        Pow10Monotone(|left|, |right| - 1);
      } else {
        Pow10Monotone(|right|, |left| - 1);
      }
    }
  }

  lemma {:induction false} ValueConcat(a: string, b: string)
    requires AllDigits(a) && AllDigits(b)
    ensures AllDigits(a + b) && Value(a + b) == Value(a) * Pow10(|b|) + Value(b)
  {
    if b == "" {
      assert a + b == a;
    } else {
      var front := b[..|b| - 1];
      ValueConcat(a, front);
      ShiftDigits(Value(a), Pow10(|front|), Value(front), DigitValue(b[|b| - 1]));
      var ab := a + b;
      assert ab[..|ab| - 1] == a + front && ab[|ab| - 1] == b[|b| - 1];
    }
  }

  lemma ValueOfDigits(a: char, b: char, c: char, d: char)
    requires IsDigit(a) && IsDigit(b) && IsDigit(c) && IsDigit(d)
    ensures Value([a, b, c, d]) == 1000 * DigitValue(a) + 100 * DigitValue(b) + 10 * DigitValue(c) + DigitValue(d)
  {
    assert [a, b, c, d][..3] == [a, b, c] && [a, b, c][..2] == [a, b] && [a, b][..1] == [a] && [a][..0] == [];
    assert Value([a]) == DigitValue(a);
    assert Value([a, b]) == 10 * Value([a]) + DigitValue(b);
    assert Value([a, b, c]) == 10 * Value([a, b]) + DigitValue(c);
  }

  lemma ValueOfFour(s: string, n: nat, t: string, d: nat, m: nat)
    requires AllDigits(s) && Value(s) == n && AllDigits(t) && |t| == 4 && Value(t) == d
    requires m == 10000 * n + d
    ensures AllDigits(s + t) && Value(s + t) == m
  {
    ValueConcat(s, t);
    assert Pow10(4) == 10000;
  }

  lemma MaxTextIsMaxInt64()
    ensures AllDigits(MAX_TEXT) && Canonical(MAX_TEXT) && Value(MAX_TEXT) == MAX_INT64
  {
    var p0, p1, p2, p3, p4 := "922", "3372", "0368", "5477", "5807";
    ValueOfDigits('0', '9', '2', '2');
    ValueOfDigits('3', '3', '7', '2');
    ValueOfDigits('0', '3', '6', '8');
    ValueOfDigits('5', '4', '7', '7');
    ValueOfDigits('5', '8', '0', '7');
    ValueOfHead("0922");
    assert "0922"[1..] == p0;
    ValueOfFour(p0, 922, p1, 3372, 9223372);
    ValueOfFour(p0 + p1, 9223372, p2, 368, 92233720368);
    ValueOfFour(p0 + p1 + p2, 92233720368, p3, 5477, 922337203685477);
    ValueOfFour(p0 + p1 + p2 + p3, 922337203685477, p4, 5807, MAX_INT64);
    assert MAX_TEXT == p0 + p1 + p2 + p3 + p4;
  }

  /** `valid_uint` accepts exactly the canonical decimals of 0 to 2^63 - 1. */
  lemma ValidUintExact(s: string)
    ensures ValidUint(s) <==> Canonical(s) && AllDigits(s) && Value(s) <= MAX_INT64
    ensures ValidUint(s) <==> exists n: nat :: n <= MAX_INT64 && s == Render(n)
  {
    MaxTextIsMaxInt64();
    if Canonical(s) {
      LessOrEqualIsNumeric(s, MAX_TEXT);
      RenderOfValue(s);
    }
    if n: nat :| n <= MAX_INT64 && s == Render(n) {
      RenderIsCanonical(n);
    }
  }

  lemma ValidUintOfRender(n: nat)
    ensures ValidUint(Render(n)) <==> n <= MAX_INT64
  {
    RenderIsCanonical(n);
    ValidUintExact(Render(n));
  }

  /** A result digit goes in front of the digits already produced. */
  lemma ValuePrepend(d: nat, s: string)
    requires d < 10 && AllDigits(s)
    ensures AllDigits([DigitChar(d)] + s)
    ensures Value([DigitChar(d)] + s) == d * Pow10(|s|) + Value(s)
  {
    ValueOfHead([DigitChar(d)] + s);
    assert ([DigitChar(d)] + s)[1..] == s;
  }

  /** Before and after each turn of the carry loop the digits still stand for the same total. */
  ghost predicate Accounted(total: nat, result: string, left: string, right: string, carry: nat) {
    && AllDigits(result) && AllDigits(left) && AllDigits(right)
    && total == Value(result) + Pow10(|result|) * (Value(left) + Value(right) + carry)
  }

  /** The operand without its last digit, or the exhausted operand. */
  function Shorter(s: string): string {
    if s == "" then "" else s[..|s| - 1]
  }

  function LastDigit(s: string): nat
    requires AllDigits(s)
  {
    if s == "" then 0 else DigitValue(s[|s| - 1])
  }

  lemma CarryArithmetic(p: nat, rest: nat, left: nat, right: nat, sum: nat)
    ensures rest + p * (10 * left + 10 * right + sum) == sum % 10 * p + rest + 10 * p * (left + right + sum / 10)
  {
    calc {
      p * (10 * left + 10 * right + sum);
      p * (10 * (left + right + sum / 10) + sum % 10);
      10 * p * (left + right + sum / 10) + sum % 10 * p;
    }
  }

  lemma CarryStep(total: nat, result: string, left: string, right: string, carry: nat)
    requires Accounted(total, result, left, right, carry)
    ensures AllDigits(Shorter(left)) && AllDigits(Shorter(right))
    ensures var sum := LastDigit(left) + LastDigit(right) + carry;
            Accounted(total, [DigitChar(sum % 10)] + result, Shorter(left), Shorter(right), sum / 10)
  {
    var sum := LastDigit(left) + LastDigit(right) + carry;
    assert Value(left) == 10 * Value(Shorter(left)) + LastDigit(left);
    assert Value(right) == 10 * Value(Shorter(right)) + LastDigit(right);
    ValuePrepend(sum % 10, result);
    CarryArithmetic(Pow10(|result|), Value(result), Value(Shorter(left)), Value(Shorter(right)), sum);
  }

  /** The lengths tie the position in each operand to the digits produced so far. */
  ghost predicate Aligned(result: string, full: string, i: nat) {
    i <= |full| && |result| >= |full| - i && (i > 0 ==> |result| == |full| - i)
  }

  /** The last digit written leads the result, and is zero only when the whole sum is. */
  lemma LeadingDigit(left: string, right: string, i: nat, j: nat, carry: nat, result: string)
    requires Canonical(left) && Canonical(right) && AllDigits(left) && AllDigits(right) && AllDigits(result)
    requires Aligned(result, left, i) && Aligned(result, right, j) && i <= 1 && j <= 1
    requires i > 0 || j > 0 || carry > 0
    ensures var sum := LastDigit(left[..i]) + LastDigit(right[..j]) + carry;
            sum < 10 ==> Canonical([DigitChar(sum)] + result)
  {}

  ghost predicate Adding(left: string, right: string, i: nat, j: nat, carry: nat, result: string) {
    && AllDigits(left) && AllDigits(right)
    && Aligned(result, left, i) && Aligned(result, right, j)
    && Accounted(Value(left) + Value(right), result, left[..i], right[..j], carry)
    && carry <= 1
    && (i == 0 && j == 0 && carry == 0 ==> Canonical(result))
  }

  lemma AddingTurn(left: string, right: string, i: nat, j: nat, carry: nat, result: string)
    returns (i': nat, j': nat, carry': nat, result': string)
    requires Canonical(left) && Canonical(right) && Adding(left, right, i, j, carry, result)
    requires i > 0 || j > 0 || carry > 0
    ensures i' == if i > 0 then i - 1 else 0
    ensures j' == if j > 0 then j - 1 else 0
    ensures var sum := LastDigit(left[..i]) + LastDigit(right[..j]) + carry;
            carry' == sum / 10 && result' == [DigitChar(sum % 10)] + result
    ensures Adding(left, right, i', j', carry', result')
  {
    hide Value, Canonical;
    var sum := LastDigit(left[..i]) + LastDigit(right[..j]) + carry;
    i', j' := if i > 0 then i - 1 else 0, if j > 0 then j - 1 else 0;
    carry', result' := sum / 10, [DigitChar(sum % 10)] + result;
    CarryStep(Value(left) + Value(right), result, left[..i], right[..j], carry);
    if i <= 1 && j <= 1 {
      LeadingDigit(left, right, i, j, carry, result);
    }
    assert Shorter(left[..i]) == left[..i'];
    assert Shorter(right[..j]) == right[..j'];
  }

  lemma AddingDone(left: string, right: string, result: string)
    requires Canonical(left) && Canonical(right) && Adding(left, right, 0, 0, 0, result)
    ensures result == Render(Value(left) + Value(right))
  {
    hide Canonical, AllDigits, Render, Aligned, Pow10;
    assert left[..0] == "" && right[..0] == "";
    assert Value("") == 0;
    RenderOfValue(result);
  }

  lemma LastDigitAt(s: string, i: nat)
    requires AllDigits(s) && i <= |s|
    ensures LastDigit(s[..i]) == if i > 0 then DigitValue(s[i - 1]) else 0
  {}

  /** What the carry loop still has to do from a given turn on. */
  function AddLoop(left: string, right: string, i: nat, j: nat, carry: nat, result: string): string
    requires i <= |left| && j <= |right| && AllDigits(left) && AllDigits(right)
    decreases i + j + carry
  {
    if i == 0 && j == 0 && carry == 0 then result
    else
      var a := if i > 0 then DigitValue(left[i - 1]) else 0;
      var b := if j > 0 then DigitValue(right[j - 1]) else 0;
      var sum := a + b + carry;
      AddLoop(left, right, if i > 0 then i - 1 else 0, if j > 0 then j - 1 else 0,
              sum / 10, [DigitChar(sum % 10)] + result)
  }

  lemma AddLoopTurn(left: string, right: string, i: nat, j: nat, carry: nat, result: string,
                    i': nat, j': nat, carry': nat, result': string)
    requires i <= |left| && j <= |right| && AllDigits(left) && AllDigits(right)
    requires i > 0 || j > 0 || carry > 0
    requires i' == if i > 0 then i - 1 else 0
    requires j' == if j > 0 then j - 1 else 0
    requires var sum := (if i > 0 then DigitValue(left[i - 1]) else 0)
                        + (if j > 0 then DigitValue(right[j - 1]) else 0) + carry;
             carry' == sum / 10 && result' == [DigitChar(sum % 10)] + result
    ensures AddLoop(left, right, i, j, carry, result) == AddLoop(left, right, i', j', carry', result')
  {}

  lemma {:induction false} AddLoopIsSum(left: string, right: string, i: nat, j: nat, carry: nat, result: string)
    requires Canonical(left) && Canonical(right) && i <= |left| && j <= |right|
    requires AllDigits(left) && AllDigits(right) && Adding(left, right, i, j, carry, result)
    ensures AddLoop(left, right, i, j, carry, result) == Render(Value(left) + Value(right))
    decreases i + j + carry
  {
    if i == 0 && j == 0 && carry == 0 {
      AddingDone(left, right, result);
    } else {
      LastDigitAt(left, i);
      LastDigitAt(right, j);
      var i', j', carry', result' := AddingTurn(left, right, i, j, carry, result);
      AddLoopIsSum(left, right, i', j', carry', result');
      AddLoopTurn(left, right, i, j, carry, result, i', j', carry', result');
    }
  }

  lemma AddLoopFromStart(left: string, right: string)
    requires ValidUint(left) && ValidUint(right)
    ensures AllDigits(left) && AllDigits(right)
    ensures AddLoop(left, right, |left|, |right|, 0, "") == Render(Value(left) + Value(right))
    ensures ValidUint(Render(Value(left) + Value(right))) <==> Value(left) + Value(right) <= MAX_INT64
  {
    hide ValidUint, AddLoop, Canonical;
    ValidUintExact(left);
    ValidUintExact(right);
    assert left[..|left|] == left && right[..|right|] == right;
    assert Adding(left, right, |left|, |right|, 0, "");
    AddLoopIsSum(left, right, |left|, |right|, 0, "");
    ValidUintOfRender(Value(left) + Value(right));
  }

  /** The carry loop: schoolbook addition from the last digit. */
  method AddDigits(left: string, right: string) returns (result: string)
    requires AllDigits(left) && AllDigits(right)
    ensures result == AddLoop(left, right, |left|, |right|, 0, "")
  {
    var i, j, carry := |left|, |right|, 0;
    result := "";
    while i > 0 || j > 0 || carry > 0
      invariant 0 <= i <= |left| && 0 <= j <= |right| && carry >= 0
      invariant AddLoop(left, right, i, j, carry, result) == AddLoop(left, right, |left|, |right|, 0, "")
      decreases i + j + carry
    {
      var a, b := 0, 0;
      if i > 0 {
        a := DigitValue(left[i - 1]);
        i := i - 1;
      }
      if j > 0 {
        b := DigitValue(right[j - 1]);
        j := j - 1;
      }
      var sum := a + b + carry;
      result := [DigitChar(sum % 10)] + result;
      carry := sum / 10;
    }
  }

  /** `add_uint`: the exact sum in decimal, or nil when it does not fit an int64. */
  method AddUint(left: string, right: string) returns (r: Option<string>)
    requires ValidUint(left) && ValidUint(right)
    ensures AllDigits(left) && AllDigits(right)
    ensures r == if Value(left) + Value(right) <= MAX_INT64
                 then Some(Render(Value(left) + Value(right))) else None
  {
    AddLoopFromStart(left, right);
    var result := AddDigits(left, right);
    r := if ValidUint(result) then Some(result) else None;
  }
}
