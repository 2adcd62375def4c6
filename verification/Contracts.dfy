/** The naming and timing contracts both programs share: keys, hour windows, retention. */
module Contracts {
  import opened Wrappers
  import opened GoTypes
  import opened Text
  import opened Base64Url
  import opened Calendar
  import D = Decimal

  const NAMESPACE: string := "cwm-minio-tierer:v1"

  datatype Access = Access(bucket: Name, name: Name)

  predicate InstanceChar(c: char) {
    'A' <= c <= 'Z' || 'a' <= c <= 'z' || '0' <= c <= '9' || c == '.' || c == '_' || c == '-'
  }

  predicate ValidInstanceID(instance: string) {
    instance != "" && forall i :: 0 <= i < |instance| ==> InstanceChar(instance[i])
  }

  datatype KeyError = InvalidInstance | EmptyBucket | EmptyObject

  /** Format("2006") and the like: at least `width` digits. */
  function Padded(n: nat, width: nat): string {
    Zeros(width - |D.Render(n)|) + D.Render(n)
  }

  function Zeros(n: int): string {
    if n <= 0 then "" else "0" + Zeros(n - 1)
  }

  /** Fields separated by colons. */
  function Join(parts: seq<string>): string {
    if parts == [] then "" else if |parts| == 1 then parts[0] else parts[0] + ":" + Join(parts[1..])
  }

  function Qualified(parts: seq<string>): string {
    NAMESPACE + ":" + Join(parts)
  }

  function AccessParts(instance: string, bucket: Name, name: Name, hour: nat): seq<string> {
    var h := Civil(hour);
    [instance, "access", Padded(h.year, 4), Padded(h.month, 2), Padded(h.day, 2), Padded(h.hour, 2), Encode(bucket), Encode(name)]
  }

  function AccessKey(instance: string, bucket: Name, name: Name, hour: nat): Result<string, KeyError> {
    if !ValidInstanceID(instance) then Err(InvalidInstance)
    else if bucket == [] then Err(EmptyBucket)
    else if name == [] then Err(EmptyObject)
    else Ok(Qualified(AccessParts(instance, bucket, name, hour)))
  }

  function CursorKey(instance: string, scope: string): string {
    Qualified([instance, "cursor", scope])
  }

  function BudgetKey(instance: string, year: nat, month: nat, day: nat, suffix: string): string {
    Qualified([instance, "budget", Padded(year, 4), Padded(month, 2), Padded(day, 2), suffix])
  }

  predicate ColonFree(s: string) {
    ':' !in s
  }

  ghost predicate AllColonFree(parts: seq<string>) {
    forall i :: 0 <= i < |parts| ==> ColonFree(parts[i])
  }

  /** The first colon decides where the first field ends. */
  lemma {:induction false} FirstFieldUnique(a: string, b: string, x: string, y: string)
    requires ColonFree(a) && ColonFree(b) && a + ":" + x == b + ":" + y
    ensures a == b && x == y
  {
    var s, t := a + ":" + x, b + ":" + y;
    assert s[0] == (if a == "" then ':' else a[0]) && t[0] == (if b == "" then ':' else b[0]);
    assert (a != "" ==> a[0] != ':') && (b != "" ==> b[0] != ':');
    if a != "" {
      assert s[1..] == a[1..] + ":" + x && t[1..] == b[1..] + ":" + y;
      FirstFieldUnique(a[1..], b[1..], x, y);
      assert a == [a[0]] + a[1..] && b == [b[0]] + b[1..];
    } else {
      assert x == s[1..] && y == t[1..];
    }
  }

  lemma JoinHasColon(parts: seq<string>)
    requires |parts| > 1
    ensures ':' in Join(parts)
  {
    assert Join(parts)[|parts[0]|] == ':';
  }

  lemma {:induction false} JoinInjective(a: seq<string>, b: seq<string>)
    requires a != [] && b != [] && AllColonFree(a) && AllColonFree(b) && Join(a) == Join(b)
    ensures a == b
  {
    if |a| > 1 {
      JoinHasColon(a);
    }
    if |b| > 1 {
      JoinHasColon(b);
    }
    assert ColonFree(a[0]) && ColonFree(b[0]);
    if |a| > 1 {
      FirstFieldUnique(a[0], b[0], Join(a[1..]), Join(b[1..]));
      JoinInjective(a[1..], b[1..]);
      assert a == [a[0]] + a[1..] && b == [b[0]] + b[1..];
    }
  }

  lemma QualifiedInjective(a: seq<string>, b: seq<string>)
    requires a != [] && b != [] && AllColonFree(a) && AllColonFree(b) && Qualified(a) == Qualified(b)
    ensures a == b
  {
    var n := |NAMESPACE| + 1;
    assert Qualified(a)[n..] == Join(a) && Qualified(b)[n..] == Join(b);
    JoinInjective(a, b);
  }

  lemma DigitsHaveNoColon(s: string)
    requires D.AllDigits(s)
    ensures ColonFree(s)
  {}

  lemma {:induction false} ValueOfZeros(n: int, s: string)
    requires D.AllDigits(s)
    ensures D.AllDigits(Zeros(n) + s) && D.Value(Zeros(n) + s) == D.Value(s)
  {
    if n <= 0 {
      assert Zeros(n) + s == s;
    } else {
      ValueOfZeros(n - 1, s);
      D.ValuePrepend(0, Zeros(n - 1) + s);
      assert [D.DigitChar(0)] + (Zeros(n - 1) + s) == Zeros(n) + s;
    }
  }

  lemma PaddedIsFaithful(n: nat, width: nat)
    ensures D.AllDigits(Padded(n, width)) && D.Value(Padded(n, width)) == n && ColonFree(Padded(n, width))
  {
    D.RenderIsCanonical(n);
    ValueOfZeros(width - |D.Render(n)|, D.Render(n));
    DigitsHaveNoColon(Padded(n, width));
  }

  lemma InstanceHasNoColon(instance: string)
    requires ValidInstanceID(instance)
    ensures ColonFree(instance)
  {}

  lemma AccessPartsColonFree(instance: string, bucket: Name, name: Name, hour: nat)
    requires ValidInstanceID(instance)
    ensures AllColonFree(AccessParts(instance, bucket, name, hour))
  {
    hide Padded, Encode, Civil;
    var h := Civil(hour);
    InstanceHasNoColon(instance);
    PaddedIsFaithful(h.year, 4);
    PaddedIsFaithful(h.month, 2);
    PaddedIsFaithful(h.day, 2);
    PaddedIsFaithful(h.hour, 2);
    EncodeHasNoColon(bucket);
    EncodeHasNoColon(name);
  }

  /** An access key determines the instance, the bucket, the object and the UTC hour. */
  lemma AccessKeyInjective(i1: string, b1: Name, o1: Name, h1: nat, i2: string, b2: Name, o2: Name, h2: nat)
    requires AccessKey(i1, b1, o1, h1).Ok? && AccessKey(i1, b1, o1, h1) == AccessKey(i2, b2, o2, h2)
    ensures i1 == i2 && b1 == b2 && o1 == o2 && h1 == h2
  {
    hide Padded, Encode, Civil, Join, Qualified;
    var p, q := AccessParts(i1, b1, o1, h1), AccessParts(i2, b2, o2, h2);
    AccessPartsColonFree(i1, b1, o1, h1);
    AccessPartsColonFree(i2, b2, o2, h2);
    QualifiedInjective(p, q);
    assert p[0] == q[0] && p[2] == q[2] && p[3] == q[3] && p[4] == q[4] && p[5] == q[5] && p[6] == q[6] && p[7] == q[7];
    EncodeInjective(b1, b2);
    EncodeInjective(o1, o2);
    var x, y := Civil(h1), Civil(h2);
    PaddedIsFaithful(x.year, 4);
    PaddedIsFaithful(x.month, 2);
    PaddedIsFaithful(x.day, 2);
    PaddedIsFaithful(x.hour, 2);
    PaddedIsFaithful(y.year, 4);
    PaddedIsFaithful(y.month, 2);
    PaddedIsFaithful(y.day, 2);
    PaddedIsFaithful(y.hour, 2);
    CivilInjective(h1, h2);
  }

  /** Access keys never collide with a cursor key or a budget key, of this or another instance. */
  lemma AccessKeyIsNoOtherKey(i1: string, bucket: Name, name: Name, hour: nat,
                              i2: string, scope: string, year: nat, month: nat, day: nat, suffix: string)
    requires AccessKey(i1, bucket, name, hour).Ok? && ValidInstanceID(i2) && ColonFree(scope) && ColonFree(suffix)
    ensures AccessKey(i1, bucket, name, hour).value != CursorKey(i2, scope)
    ensures AccessKey(i1, bucket, name, hour).value != BudgetKey(i2, year, month, day, suffix)
  {
    hide Padded, Encode, Civil, Join, Qualified;
    var p := AccessParts(i1, bucket, name, hour);
    AccessPartsColonFree(i1, bucket, name, hour);
    InstanceHasNoColon(i2);
    PaddedIsFaithful(year, 4);
    PaddedIsFaithful(month, 2);
    PaddedIsFaithful(day, 2);
    var c, b := [i2, "cursor", scope], [i2, "budget", Padded(year, 4), Padded(month, 2), Padded(day, 2), suffix];
    assert p[1] == "access" && c[1] == "cursor" && b[1] == "budget";
    assert "access"[0] != "cursor"[0] && "access"[0] != "budget"[0];
    if Qualified(p) == Qualified(c) {
      QualifiedInjective(p, c);
    }
    if Qualified(p) == Qualified(b) {
      QualifiedInjective(p, b);
    }
  }

  // ---- The documented form of the keys ----

  lemma SmallRenders()
    ensures Padded(2026, 4) == "2026" && Padded(8, 2) == "08" && Padded(25, 2) == "25" && Padded(14, 2) == "14"
  {
    assert D.Render(2) == "2" && D.Render(20) == "20" && D.Render(202) == "202" && D.Render(2026) == "2026";
    assert D.Render(8) == "8" && Zeros(0) == "" && Zeros(1) == "0";
    assert D.Render(25) == "25" && D.Render(1) == "1" && D.Render(14) == "14";
  }

  lemma JoinOne(part: string, rest: seq<string>)
    requires rest != []
    ensures Join([part] + rest) == part + ":" + Join(rest)
  {
    assert ([part] + rest)[1..] == rest;
  }

  /** An access of an object "a/b" in bucket "b", in the fifteenth hour of 25 August 2026. */
  lemma AccessKeyAsDocumented()
    ensures AccessKey("site-a", "b", "a/b", HourNumber(UtcHour(2026, 8, 25, 14)))
            == Ok("cwm-minio-tierer:v1:" + "site-a:access:2026:08:25:14:Yg:YS9i")
  {
    hide Join, Padded, Civil;
    GregorianIsCivil(UtcHour(2026, 8, 25, 14));
    SmallRenders();
    NamesAsEncoded();
    hide Encode, HourNumber;
    AccessText();
  }

  lemma AccessText()
    ensures Qualified(["site-a", "access", "2026", "08", "25", "14", "Yg", "YS9i"])
            == "cwm-minio-tierer:v1:" + "site-a:access:2026:08:25:14:Yg:YS9i"
  {
    JoinEight("site-a", "access", "2026", "08", "25", "14", "Yg", "YS9i");
    hide Join;
    TimeAndNames();
    AfterNamespace("site-a:access:2026:08:25:14:Yg:YS9i");
    assert "site-a" + ":" + ("access" + ":" + "2026:08:25:14:Yg:YS9i") == "site-a:access:2026:08:25:14:Yg:YS9i";
  }

  lemma TimeAndNames()
    ensures "2026" + ":" + ("08" + ":" + ("25" + ":" + ("14" + ":" + ("Yg" + ":" + "YS9i")))) == "2026:08:25:14:Yg:YS9i"
  {
    assert "25" + ":" + ("14" + ":" + ("Yg" + ":" + "YS9i")) == "25:14:Yg:YS9i";
  }

  lemma AfterNamespace(text: string)
    ensures NAMESPACE + ":" + text == "cwm-minio-tierer:v1:" + text
  {
    assert NAMESPACE + ":" == "cwm-minio-tierer:v1:";
  }

  lemma JoinEight(a: string, b: string, c: string, d: string, e: string, f: string, g: string, h: string)
    ensures Join([a, b, c, d, e, f, g, h]) == a + ":" + (b + ":" + (c + ":" + (d + ":" + (e + ":" + (f + ":" + (g + ":" + h))))))
  {
    JoinSix(c, d, e, f, g, h);
    JoinOne(b, [c, d, e, f, g, h]);
    JoinOne(a, [b, c, d, e, f, g, h]);
    assert [b] + [c, d, e, f, g, h] == [b, c, d, e, f, g, h] && [a] + [b, c, d, e, f, g, h] == [a, b, c, d, e, f, g, h];
  }

  lemma JoinSix(c: string, d: string, e: string, f: string, g: string, h: string)
    ensures Join([c, d, e, f, g, h]) == c + ":" + (d + ":" + (e + ":" + (f + ":" + (g + ":" + h))))
  {
    JoinOne(g, [h]);
    JoinOne(f, [g, h]);
    JoinOne(e, [f, g, h]);
    JoinOne(d, [e, f, g, h]);
    JoinOne(c, [d, e, f, g, h]);
    assert [g] + [h] == [g, h] && [f] + [g, h] == [f, g, h] && [e] + [f, g, h] == [e, f, g, h];
    assert [d] + [e, f, g, h] == [d, e, f, g, h] && [c] + [d, e, f, g, h] == [c, d, e, f, g, h];
  }

  /** A budget of 25 August 2026, of any kind. */
  lemma BudgetKeyAsDocumented(kind: string)
    ensures BudgetKey("site-a", 2026, 8, 25, kind) == "cwm-minio-tierer:v1:" + ("site-a:budget:" + ("2026:08:25:" + kind))
  {
    hide Padded, Join;
    SmallRenders();
    BudgetText(kind);
  }

  lemma BudgetText(kind: string)
    ensures Qualified(["site-a", "budget", "2026", "08", "25", kind]) == "cwm-minio-tierer:v1:" + ("site-a:budget:" + ("2026:08:25:" + kind))
  {
    JoinSix("site-a", "budget", "2026", "08", "25", kind);
    hide Join;
    DateBefore(kind);
    OwnerBefore("2026:08:25:" + kind);
    AfterNamespace("site-a:budget:" + ("2026:08:25:" + kind));
  }

  lemma DateBefore(text: string)
    ensures "2026" + ":" + ("08" + ":" + ("25" + ":" + text)) == "2026:08:25:" + text
  {}

  lemma OwnerBefore(text: string)
    ensures "site-a" + ":" + ("budget" + ":" + text) == "site-a:budget:" + text
  {}

  datatype WindowError = NonPositiveHours

  /** The instants of a window of `hours` whole hours that ends before `end`. */
  ghost predicate IsWindow(window: seq<Time>, hours: nat, end: Time) {
    |window| == hours && forall i :: 0 <= i < hours ==> window[i] == end - (hours - i) * HOUR
  }

  /** Longest window whose length in nanoseconds is an int64. */
  const MAX_WINDOW: int := MAX_INT64 / HOUR

  method HourWindow(evaluation: Time, hours: int64, includeCurrent: bool) returns (r: Result<seq<Time>, WindowError>)
    ensures r.Err? <==> hours <= 0
    ensures r.Ok? ==> |r.value| == hours
    ensures r.Ok? && hours <= MAX_WINDOW ==>
              IsWindow(r.value, hours, Truncate(evaluation, HOUR) + if includeCurrent then HOUR else 0)
  {
    if hours <= 0 {
      return Err(NonPositiveHours);
    }
    var end := Truncate(evaluation, HOUR);
    if includeCurrent {
      end := end + HOUR;
    }
    var start := end + Wrap(Wrap(-hours) * HOUR);
    var result := new Time[hours];
    for i := 0 to hours
      invariant hours <= MAX_WINDOW ==> forall j :: 0 <= j < i ==> result[j] == end - (hours - j) * HOUR
    {
      result[i] := start + Wrap(i * HOUR);
    }
    r := Ok(result[..]);
  }

  function CounterExpiry(eventHour: Time, retention: int): Time {
    Truncate(eventHour, HOUR) + HOUR + retention
  }

  predicate ValidateCounterRetention(retention: int64) {
    retention > 0 && retention % SECOND == 0
  }

  /** As written, with the int64 sum of the longest window and one hour. */
  predicate ValidateRetention(retention: int64, lowWindow: int64, highWindow: int64) {
    var longest := if lowWindow >= highWindow then lowWindow else highWindow;
    retention > 0 && lowWindow > 0 && highWindow > 0 && retention > Wrap(longest + HOUR)
  }

  /**
   The check means what it says exactly when the longest window leaves room for one more hour
   in an int64; beyond that the sum wraps and every positive retention is let through.
   */
  lemma ValidateRetentionExact(retention: int64, lowWindow: int64, highWindow: int64)
    requires retention > 0 && lowWindow > 0 && highWindow > 0
    ensures var meant := retention > lowWindow + HOUR && retention > highWindow + HOUR;
            ValidateRetention(retention, lowWindow, highWindow) == meant
            <==> (lowWindow + HOUR <= MAX_INT64 && highWindow + HOUR <= MAX_INT64)
  {
    var longest := if lowWindow >= highWindow then lowWindow else highWindow;
    if longest + HOUR > MAX_INT64 {
      WrapUnique(longest + HOUR, longest + HOUR - TWO_64);
    }
  }

  /**
   Retention outlasts every window: up to the end of the hour after the evaluation hour the
   counters of all hours of a window the retention was checked against are live.
   */
  lemma WindowCountersAreLive(hour: nat, evaluationHour: nat, now: Time, window: nat, retention: int64)
    requires evaluationHour - window <= hour <= evaluationHour
    requires now < StartOf(evaluationHour + 2)
    requires retention > window * HOUR + HOUR && ValidateCounterRetention(retention)
    ensures Unix(CounterExpiry(StartOf(hour), retention)) * SECOND == CounterExpiry(StartOf(hour), retention)
    ensures now < CounterExpiry(StartOf(hour), retention)
  {
    hide StartOf;
    StartOfIsWhole(hour);
    WholeSum(StartOf(hour), retention);
    WholeSeconds(StartOf(hour) + HOUR + retention);
    StartOfShifts(hour, evaluationHour - hour);
    StartOfShifts(evaluationHour, 2);
    Outlasts(StartOf(hour), StartOf(evaluationHour), now, evaluationHour - hour, window, retention);
  }

  lemma Outlasts(start: Time, evaluation: Time, now: Time, age: nat, window: nat, retention: int)
    requires evaluation == start + age * HOUR && age <= window
    requires now < evaluation + 2 * HOUR && retention > window * HOUR + HOUR
    ensures now < start + HOUR + retention
  {}

  lemma StartOfShifts(hour: nat, more: nat)
    ensures StartOf(hour + more) == StartOf(hour) + more * HOUR
  {}

  lemma WholeSum(start: Time, retention: int)
    requires start % SECOND == 0 && retention % SECOND == 0
    ensures (start + HOUR + retention) % SECOND == 0
  {}

  lemma WholeSeconds(t: Time)
    requires t % SECOND == 0
    ensures Unix(t) * SECOND == t
  {}

  lemma StartOfIsWhole(hour: nat)
    ensures Truncate(StartOf(hour), HOUR) == StartOf(hour)
    ensures StartOf(hour) % SECOND == 0
  {
    var k := hour - 17_259_888;
    assert StartOf(hour) == k * HOUR == k * 3600 * SECOND;
  }
}
