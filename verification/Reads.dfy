/** The tierer's reads: the counter script, one window of one object, and a whole chunk at once. */
module Reads {
  import opened Wrappers
  import opened GoTypes
  import opened Text
  import opened Redis
  import opened Calendar
  import opened Contracts
  import D = Decimal

  // ---- The read script ----

  datatype ReadFault = WrongCounterType | MalformedCounter | CounterTooLarge

  function ReadString(db: Db, now: int, key: string): Result<string, ReadFault> {
    match Lookup(db, now, key)
    case None => Ok("0")
    case Some(Container) => Err(WrongCounterType)
    case Some(Str(text)) =>
      if !D.Canonical(text) then Err(MalformedCounter)
      else if |text| > |D.MAX_TEXT| || (|text| == |D.MAX_TEXT| && Less(D.MAX_TEXT, text)) then Err(CounterTooLarge)
      else Ok(text)
  }

  /** Reading succeeds exactly on counters, and yields their canonical text. */
  lemma ReadStringExact(db: Db, now: int, key: string)
    ensures ReadString(db, now, key).Ok? <==> Counter(db, now, key).Some?
    ensures ReadString(db, now, key).Ok? ==>
              var text := ReadString(db, now, key).value;
              D.ValidUint(text) && ValidUintValue(text).value == Counter(db, now, key).value
  {
    match Lookup(db, now, key)
    case None =>
      assert D.Render(0) == "0";
      D.RenderIsCanonical(0);
    case Some(Container) =>
    case Some(Str(text)) =>
      LessTotal(text, D.MAX_TEXT);
      if Less(D.MAX_TEXT, text) {
        LessAsymmetric(D.MAX_TEXT, text);
      }
      if text == D.MAX_TEXT {
        LessIrreflexive(text);
      }
  }

  ghost predicate AllRead(db: Db, now: int, keys: seq<string>) {
    forall i :: 0 <= i < |keys| ==> Counter(db, now, keys[i]).Some?
  }

  /** The texts the script returns: one canonical decimal per key, in order. */
  ghost predicate Texts(values: seq<string>, db: Db, now: int, keys: seq<string>) {
    && |values| == |keys|
    && forall i :: 0 <= i < |keys| ==>
         && Counter(db, now, keys[i]).Some?
         && D.ValidUint(values[i]) && ValidUintValue(values[i]).value == Counter(db, now, keys[i]).value
  }

  method ReadUnsignedStrings(db: Db, now: int, keys: seq<string>) returns (r: Result<seq<string>, ReadFault>)
    ensures r.Ok? <==> AllRead(db, now, keys)
    ensures r.Ok? ==> Texts(r.value, db, now, keys)
  {
    hide D.ValidUint, ReadString, Counter;
    var out := [];
    for i := 0 to |keys|
      invariant Texts(out, db, now, keys[..i])
    {
      ReadStringExact(db, now, keys[i]);
      var text := ReadString(db, now, keys[i]);
      if text.Err? {
        return Err(text.error);
      }
      out := out + [text.value];
    }
    assert keys[..|keys|] == keys;
    r := Ok(out);
  }

  // ---- Decoding ----

  /** strconv.ParseInt in base 10: an optional sign, then digits. */
  function ParseInt(s: string): Option<int64> {
    var digits := if s != "" && (s[0] == '+' || s[0] == '-') then s[1..] else s;
    if digits == "" || !D.AllDigits(digits) then None
    else
      var magnitude: int := D.Value(digits);
      if s[0] == '-' then (if magnitude <= MAX_INT64 + 1 then Some(-magnitude) else None)
      else if magnitude <= MAX_INT64 then Some(magnitude) else None
  }

  function DecodeCount(text: string): Option<int64> {
    match ParseInt(text)
    case None => None
    case Some(n) => if n < 0 || (|text| > 1 && text[0] == '0') then None else Some(n)
  }

  /** What the script writes the decoder reads back, as the same number. */
  lemma DecodeOfScript(text: string)
    requires D.ValidUint(text)
    ensures DecodeCount(text) == Some(ValidUintValue(text).value)
  {
    D.ValidUintExact(text);
    assert text != "" && D.IsDigit(text[0]);
  }

  ghost predicate Decodable(values: seq<string>) {
    forall i :: 0 <= i < |values| ==> DecodeCount(values[i]).Some?
  }

  ghost predicate Decodes(values: seq<string>, counts: seq<int>) {
    |counts| == |values| && forall i :: 0 <= i < |values| ==> DecodeCount(values[i]) == Some(counts[i])
  }

  method DecodeCounts(values: seq<string>) returns (r: Option<seq<int64>>)
    ensures r.Some? <==> Decodable(values)
    ensures r.Some? ==> Decodes(values, r.value)
  {
    hide DecodeCount;
    var counts: seq<int64> := [];
    for i := 0 to |values|
      invariant |counts| == i && forall j :: 0 <= j < i ==> DecodeCount(values[j]) == Some(counts[j])
    {
      var count := DecodeCount(values[i]);
      if count.None? {
        return None;
      }
      counts := counts + [count.value];
    }
    r := Some(counts);
  }

  /** A reply decodes in one way only. */
  lemma DecodesOneWay(values: seq<string>, a: seq<int>, b: seq<int>)
    requires Decodes(values, a) && Decodes(values, b)
    ensures a == b
  {
    hide DecodeCount;
    forall i | 0 <= i < |a| ensures a[i] == b[i] {
      assert DecodeCount(values[i]) == Some(a[i]) && DecodeCount(values[i]) == Some(b[i]);
    }
  }

  // ---- One window of one object ----

  predicate Keyable(instance: string, object_: Access) {
    ValidInstanceID(instance) && object_.bucket != [] && object_.name != []
  }

  /** The counter key of an object at an hour; empty where the key cannot be built. */
  function KeyText(instance: string, object_: Access, hour: Time): string
    requires hour >= ZERO_TIME
  {
    var key := AccessKey(instance, object_.bucket, object_.name, HourOf(hour));
    if key.Ok? then key.value else ""
  }

  ghost predicate Hours(hours: seq<Time>) {
    forall i :: 0 <= i < |hours| ==> hours[i] >= ZERO_TIME
  }

  function WindowKeys(instance: string, object_: Access, hours: seq<Time>): (keys: seq<string>)
    requires Hours(hours)
    ensures |keys| == |hours| && forall i :: 0 <= i < |keys| ==> keys[i] == KeyText(instance, object_, hours[i])
  {
    seq(|hours|, i requires 0 <= i < |hours| => KeyText(instance, object_, hours[i]))
  }

  /** Every hour of the window has a readable counter. */
  ghost predicate Countable(db: Db, now: int, instance: string, object_: Access, hours: seq<Time>)
    requires Hours(hours)
  {
    Keyable(instance, object_) && AllRead(db, now, WindowKeys(instance, object_, hours))
  }

  /** The counters of a window, oldest first; a missing counter is zero. */
  ghost function CountsOf(db: Db, now: int, instance: string, object_: Access, hours: seq<Time>): (counts: seq<int>)
    requires Hours(hours) && Countable(db, now, instance, object_, hours)
    ensures |counts| == |hours|
  {
    seq(|hours|, i requires 0 <= i < |hours| =>
      var k := WindowKeys(instance, object_, hours)[i];
      assert Counter(db, now, k).Some?;
      Counter(db, now, k).value)
  }

  /** How one EVAL ends: no reply, a reply that is not the script's, or the script's. */
  datatype Transport = Lost | Garbled(values: seq<string>) | Faithful

  /** Redis at the instant an EVAL runs. */
  datatype Snapshot = Snapshot(db: Db, now: int, transport: Transport)

  datatype ReadError =
    | EmptyWindow
    | BadKey(why: KeyError)
    | EvalFailed
    | ScriptFailed(fault: ReadFault)
    | UnexpectedReply
    | AggregateLimit
    | WrongCoverageType

  method EvalRead(at: Snapshot, keys: seq<string>) returns (r: Result<seq<string>, ReadError>)
    ensures at.transport.Faithful? ==> (r.Ok? <==> AllRead(at.db, at.now, keys))
    ensures at.transport.Faithful? && r.Ok? ==> Texts(r.value, at.db, at.now, keys)
    ensures at.transport.Lost? ==> r.Err?
  {
    match at.transport {
      case Lost => return Err(EvalFailed);
      case Garbled(values) => return Ok(values);
      case Faithful =>
        var reply := ReadUnsignedStrings(at.db, at.now, keys);
        if reply.Err? {
          return Err(ScriptFailed(reply.error));
        }
        return Ok(reply.value);
    }
  }

  lemma DecodedTexts(values: seq<string>, db: Db, now: int, keys: seq<string>)
    requires Texts(values, db, now, keys)
    ensures forall i :: 0 <= i < |values| ==> DecodeCount(values[i]) == Some(Counter(db, now, keys[i]).value)
  {
    hide D.ValidUint, DecodeCount, Counter;
    forall i | 0 <= i < |values|
      ensures DecodeCount(values[i]) == Some(Counter(db, now, keys[i]).value)
    {
      DecodeOfScript(values[i]);
    }
  }

  method ReadCounts(at: Snapshot, instance: string, object_: Access, hours: seq<Time>) returns (r: Result<seq<int64>, ReadError>)
    requires Hours(hours)
    ensures at.transport.Faithful? ==>
              (r.Ok? <==> hours != [] && Countable(at.db, at.now, instance, object_, hours))
    ensures at.transport.Faithful? && r.Ok? ==> r.value == CountsOf(at.db, at.now, instance, object_, hours)
    ensures at.transport.Lost? ==> r.Err?
  {
    hide D.ValidUint, Counter, AccessKey, HourOf, DecodeCount;
    if |hours| == 0 {
      return Err(EmptyWindow);
    }
    var keys := [];
    for i := 0 to |hours|
      invariant i > 0 ==> Keyable(instance, object_)
      invariant keys == WindowKeys(instance, object_, hours)[..i]
    {
      KeyableExact(instance, object_, HourOf(hours[i]));
      var key := AccessKey(instance, object_.bucket, object_.name, HourOf(hours[i]));
      if key.Err? {
        return Err(BadKey(key.error));
      }
      keys := keys + [key.value];
    }
    assert keys == WindowKeys(instance, object_, hours);
    var values := EvalRead(at, keys);
    if values.Err? {
      return Err(values.error);
    }
    if |values.value| != |keys| {
      return Err(UnexpectedReply);
    }
    var counts := DecodeCounts(values.value);
    if at.transport.Faithful? {
      DecodedTexts(values.value, at.db, at.now, keys);
    }
    if counts.None? {
      return Err(UnexpectedReply);
    }
    if at.transport.Faithful? {
      DecodesOneWay(values.value, CountsOf(at.db, at.now, instance, object_, hours), counts.value);
    }
    r := Ok(counts.value);
  }

  lemma KeyableExact(instance: string, object_: Access, hour: nat)
    ensures AccessKey(instance, object_.bucket, object_.name, hour).Ok? <==> Keyable(instance, object_)
  {}

  // ---- Coverage ----

  /** Where coverage is published; the template renders one key per hour. */
  datatype Coverage = Coverage(enabled: bool, template: Time -> string, value: string)

  predicate IsCovered(at: Snapshot, c: Coverage, hour: Time) {
    !c.enabled || Lookup(at.db, at.now, c.template(hour)) == Some(Str(c.value))
  }

  ghost predicate CoverageReadable(at: Snapshot, c: Coverage, hours: seq<Time>) {
    hours != [] && (c.enabled ==>
      at.transport.Faithful? && forall i :: 0 <= i < |hours| ==> Lookup(at.db, at.now, c.template(hours[i])) != Some(Container))
  }

  /** The reply, if there is one, is the script's. */
  predicate Honest(at: Snapshot, c: Coverage) {
    !c.enabled || !at.transport.Garbled?
  }

  method ReadCoverage(at: Snapshot, c: Coverage, hours: seq<Time>) returns (r: Result<seq<bool>, ReadError>)
    ensures Honest(at, c) ==> (r.Ok? <==> CoverageReadable(at, c, hours))
    ensures r.Ok? ==> |r.value| == |hours| > 0
    ensures r.Ok? && !c.enabled ==> forall i :: 0 <= i < |hours| ==> r.value[i]
    ensures r.Ok? && c.enabled && Honest(at, c) ==>
              forall i :: 0 <= i < |hours| ==> (r.value[i] <==> Lookup(at.db, at.now, c.template(hours[i])) == Some(Str(c.value)))
    ensures c.enabled && at.transport.Garbled? && |at.transport.values| != |hours| ==> r.Err?
  {
    if |hours| == 0 {
      return Err(EmptyWindow);
    }
    if !c.enabled {
      return Ok(seq(|hours|, _ => true));
    }
    match at.transport {
      case Lost => return Err(EvalFailed);
      case Garbled(values) =>
        var texts: bool := *;
        if |values| != |hours| || !texts {
          return Err(UnexpectedReply);
        }
        return Ok(seq(|hours|, i requires 0 <= i < |hours| => values[i] == c.value));
      case Faithful =>
        r := ReadOptionalStrings(at, c, hours);
    }
  }

  /** The coverage script and the comparison of its reply. */
  method ReadOptionalStrings(at: Snapshot, c: Coverage, hours: seq<Time>) returns (r: Result<seq<bool>, ReadError>)
    requires c.enabled && hours != []
    ensures r.Ok? <==> forall i :: 0 <= i < |hours| ==> Lookup(at.db, at.now, c.template(hours[i])) != Some(Container)
    ensures r.Ok? ==>
              && |r.value| == |hours|
              && forall i :: 0 <= i < |hours| ==> (r.value[i] <==> Lookup(at.db, at.now, c.template(hours[i])) == Some(Str(c.value)))
  {
    var covered := [];
    for i := 0 to |hours|
      invariant |covered| == i
      invariant forall j :: 0 <= j < i ==>
        && Lookup(at.db, at.now, c.template(hours[j])) != Some(Container)
        && (covered[j] <==> Lookup(at.db, at.now, c.template(hours[j])) == Some(Str(c.value)))
    {
      match Lookup(at.db, at.now, c.template(hours[i])) {
        case None => covered := covered + [false];
        case Some(Container) => return Err(WrongCoverageType);
        case Some(Str(text)) => covered := covered + [text == c.value];
      }
    }
    r := Ok(covered);
  }

  // ---- A chunk ----

  const MAX_ACCESS_KEYS_PER_CHUNK: int64 := 10_000

  /** The guard is exact in unbounded integers, whatever would overflow on the way. */
  method ValidateAggregateAccessKeys(objects: int64, lowHours: int64, highHours: int64, limit: int64) returns (ok: bool)
    ensures ok <==> objects > 0 && lowHours > 0 && highHours > 0 && limit > 0 && objects * (lowHours + highHours) <= limit
  {
    if objects <= 0 || lowHours <= 0 || highHours <= 0 || limit <= 0 {
      return false;
    }
    QuotientGuard(objects, lowHours + highHours, limit);
    if lowHours > MAX_INT64 - highHours {
      return false;
    }
    var totalHours: int64 := lowHours + highHours;
    return objects <= limit / totalHours;
  }

  datatype Usage = Usage(low: seq<int64>, high: seq<int64>)

  /** All keys of a chunk, object by object, low hours before high hours. */
  function ChunkKeys(instance: string, objects: seq<Access>, low: seq<Time>, high: seq<Time>): seq<string>
    requires Hours(low) && Hours(high)
  {
    if objects == [] then []
    else
      var last := objects[|objects| - 1];
      ChunkKeys(instance, objects[..|objects| - 1], low, high)
      + (WindowKeys(instance, last, low) + WindowKeys(instance, last, high))
  }

  lemma ChunkKeysExtend(instance: string, objects: seq<Access>, low: seq<Time>, high: seq<Time>, i: nat)
    requires Hours(low) && Hours(high) && i < |objects|
    ensures ChunkKeys(instance, objects[..i + 1], low, high) ==
            ChunkKeys(instance, objects[..i], low, high)
            + (WindowKeys(instance, objects[i], low) + WindowKeys(instance, objects[i], high))
  {
    assert objects[..i + 1][..i] == objects[..i];
  }

  /** The keys of the first objects start the keys of the chunk. */
  lemma {:induction false} ChunkKeysPrefix(instance: string, objects: seq<Access>, low: seq<Time>, high: seq<Time>, i: nat)
    requires Hours(low) && Hours(high) && i <= |objects|
    ensures ChunkKeys(instance, objects[..i], low, high) <= ChunkKeys(instance, objects, low, high)
    decreases |objects|
  {
    if i == |objects| {
      assert objects[..i] == objects;
    } else {
      var front := objects[..|objects| - 1];
      ChunkKeysPrefix(instance, front, low, high, i);
      assert front[..i] == objects[..i];
    }
  }

  /** The simple form: every object's two windows read one after the other at the same instant. */
  ghost predicate AllCountable(at: Snapshot, instance: string, objects: seq<Access>, low: seq<Time>, high: seq<Time>)
    requires Hours(low) && Hours(high)
  {
    forall i :: 0 <= i < |objects| ==>
      Countable(at.db, at.now, instance, objects[i], low) && Countable(at.db, at.now, instance, objects[i], high)
  }

  lemma AllReadConcat(db: Db, now: int, a: seq<string>, b: seq<string>)
    ensures AllRead(db, now, a + b) <==> AllRead(db, now, a) && AllRead(db, now, b)
  {
    hide Counter;
    if AllRead(db, now, a + b) {
      forall i | 0 <= i < |a| ensures Counter(db, now, a[i]).Some? {
        assert (a + b)[i] == a[i];
      }
      forall i | 0 <= i < |b| ensures Counter(db, now, b[i]).Some? {
        assert (a + b)[|a| + i] == b[i];
      }
    }
  }

  lemma {:induction false} AllReadChunk(at: Snapshot, instance: string, objects: seq<Access>, low: seq<Time>, high: seq<Time>)
    requires Hours(low) && Hours(high) && AllKeyable(instance, objects)
    ensures AllRead(at.db, at.now, ChunkKeys(instance, objects, low, high)) <==> AllCountable(at, instance, objects, low, high)
  {
    hide Counter, WindowKeys, AllRead, Keyable, Hours;
    if objects != [] {
      var front, last := objects[..|objects| - 1], objects[|objects| - 1];
      AllReadChunk(at, instance, front, low, high);
      var l, h := WindowKeys(instance, last, low), WindowKeys(instance, last, high);
      AllReadConcat(at.db, at.now, ChunkKeys(instance, front, low, high), l + h);
      AllReadConcat(at.db, at.now, l, h);
      assert AllCountable(at, instance, objects, low, high) <==>
             AllCountable(at, instance, front, low, high)
             && Countable(at.db, at.now, instance, last, low) && Countable(at.db, at.now, instance, last, high);
    } else {
      NothingToRead(at.db, at.now);
    }
  }

  lemma NothingToRead(db: Db, now: int)
    ensures AllRead(db, now, [])
  {}

  /** The keys of one window, appended in order. */
  method AppendWindow(keys: seq<string>, instance: string, object_: Access, hours: seq<Time>) returns (r: Result<seq<string>, KeyError>)
    requires Hours(hours) && hours != []
    ensures r.Ok? <==> Keyable(instance, object_)
    ensures r.Ok? ==> r.value == keys + WindowKeys(instance, object_, hours)
  {
    hide AccessKey, HourOf;
    var out := keys;
    for i := 0 to |hours|
      invariant i > 0 ==> Keyable(instance, object_)
      invariant out == keys + WindowKeys(instance, object_, hours)[..i]
    {
      KeyableExact(instance, object_, HourOf(hours[i]));
      var key := AccessKey(instance, object_.bucket, object_.name, HourOf(hours[i]));
      if key.Err? {
        return Err(key.error);
      }
      out := out + [key.value];
    }
    assert WindowKeys(instance, object_, hours)[..|hours|] == WindowKeys(instance, object_, hours);
    r := Ok(out);
  }

  function Part<T>(s: seq<T>, offset: nat, count: nat): (part: seq<T>)
    requires offset + count <= |s|
    ensures |part| == count
  {
    s[offset..offset + count]
  }

  /** One object's keys, low hours before high hours. */
  method AppendObject(keys: seq<string>, instance: string, object_: Access, low: seq<Time>, high: seq<Time>) returns (r: Result<seq<string>, KeyError>)
    requires Hours(low) && Hours(high) && low != [] && high != []
    ensures r.Ok? <==> Keyable(instance, object_)
    ensures r.Ok? ==> r.value == keys + (WindowKeys(instance, object_, low) + WindowKeys(instance, object_, high))
  {
    hide Keyable, Hours, WindowKeys;
    var out := keys;
    ghost var l, h := WindowKeys(instance, object_, low), WindowKeys(instance, object_, high);
    for w := 0 to 2
      invariant w > 0 ==> Keyable(instance, object_)
      invariant out == (if w == 0 then keys else if w == 1 then keys + l else (keys + l) + h)
    {
      var grown := AppendWindow(out, instance, object_, if w == 0 then low else high);
      if grown.Err? {
        return Err(grown.error);
      }
      out := grown.value;
    }
    assert (keys + l) + h == keys + (l + h);
    r := Ok(out);
  }

  ghost predicate AllKeyable(instance: string, objects: seq<Access>) {
    forall i :: 0 <= i < |objects| ==> Keyable(instance, objects[i])
  }

  lemma AllKeyableExtends(instance: string, objects: seq<Access>, i: nat)
    requires i < |objects|
    ensures AllKeyable(instance, objects[..i + 1]) <==> AllKeyable(instance, objects[..i]) && Keyable(instance, objects[i])
    ensures AllKeyable(instance, objects) ==> Keyable(instance, objects[i])
  {
    hide Keyable;
    assert objects[..i + 1] == objects[..i] + [objects[i]];
  }

  lemma NoObjects(at: Snapshot, instance: string, objects: seq<Access>, low: seq<Time>, high: seq<Time>)
    requires Hours(low) && Hours(high)
    ensures ChunkKeys(instance, objects[..0], low, high) == [] && AllKeyable(instance, objects[..0])
    ensures ReadsAs([], at, instance, objects[..0], low, high)
  {}

  lemma TextsLength(values: seq<string>, at: Snapshot, keys: seq<string>)
    requires Texts(values, at.db, at.now, keys)
    ensures |values| == |keys|
  {}

  method FlattenKeys(instance: string, objects: seq<Access>, low: seq<Time>, high: seq<Time>) returns (r: Result<seq<string>, KeyError>)
    requires Hours(low) && Hours(high) && low != [] && high != []
    ensures r.Ok? <==> AllKeyable(instance, objects)
    ensures r.Ok? ==> r.value == ChunkKeys(instance, objects, low, high)
  {
    hide *;
    NoObjects(Snapshot(map[], 0, Lost), instance, objects, low, high);
    var keys := [];
    for i := 0 to |objects|
      invariant AllKeyable(instance, objects[..i])
      invariant keys == ChunkKeys(instance, objects[..i], low, high)
    {
      ChunkKeysExtend(instance, objects, low, high, i);
      AllKeyableExtends(instance, objects, i);
      var grown := AppendObject(keys, instance, objects[i], low, high);
      if grown.Err? {
        return Err(grown.error);
      }
      keys := grown.value;
    }
    assert objects[..|objects|] == objects;
    r := Ok(keys);
  }

  /** The part of a reply from an offset on holds one window's counters. */
  ghost predicate PartReads(values: seq<string>, offset: nat, at: Snapshot, instance: string, object_: Access, hours: seq<Time>)
    requires Hours(hours)
  {
    && offset + |hours| <= |values|
    && Countable(at.db, at.now, instance, object_, hours)
    && Decodable(Part(values, offset, |hours|))
    && Decodes(Part(values, offset, |hours|), CountsOf(at.db, at.now, instance, object_, hours))
  }

  /** A slice of the reply belongs to the slice of the keys at the same place. */
  lemma SliceOfReply(values: seq<string>, at: Snapshot, keys: seq<string>, offset: nat, instance: string, object_: Access, hours: seq<Time>)
    requires Texts(values, at.db, at.now, keys) && Hours(hours) && Keyable(instance, object_)
    requires offset + |hours| <= |keys| && Part(keys, offset, |hours|) == WindowKeys(instance, object_, hours)
    ensures PartReads(values, offset, at, instance, object_, hours)
  {
    hide D.ValidUint, Counter, KeyText, DecodeCount;
    var slice := Part(values, offset, |hours|);
    var window := WindowKeys(instance, object_, hours);
    forall i | 0 <= i < |hours|
      ensures Counter(at.db, at.now, window[i]).Some? && D.ValidUint(slice[i])
      ensures ValidUintValue(slice[i]).value == Counter(at.db, at.now, window[i]).value
    {
      assert window[i] == Part(keys, offset, |hours|)[i] == keys[offset + i];
      assert slice[i] == values[offset + i];
    }
    DecodedTexts(slice, at.db, at.now, window);
  }

  /** Where an object's two windows lie among the keys of the chunk. */
  lemma OffsetOfObject(instance: string, objects: seq<Access>, low: seq<Time>, high: seq<Time>, i: nat)
    requires Hours(low) && Hours(high) && i < |objects|
    ensures var all, offset := ChunkKeys(instance, objects, low, high), |ChunkKeys(instance, objects[..i], low, high)|;
            && offset + |low| + |high| == |ChunkKeys(instance, objects[..i + 1], low, high)| <= |all|
            && Part(all, offset, |low|) == WindowKeys(instance, objects[i], low)
            && Part(all, offset + |low|, |high|) == WindowKeys(instance, objects[i], high)
  {
    hide *;
    ChunkKeysExtend(instance, objects, low, high, i);
    ChunkKeysPrefix(instance, objects, low, high, i + 1);
    SlicesOfPrefix(ChunkKeys(instance, objects, low, high), ChunkKeys(instance, objects[..i], low, high),
                   WindowKeys(instance, objects[i], low), WindowKeys(instance, objects[i], high));
  }

  lemma SlicesOfPrefix<T>(all: seq<T>, before: seq<T>, a: seq<T>, b: seq<T>)
    requires before + (a + b) <= all
    ensures Part(all, |before|, |a|) == a
    ensures Part(all, |before| + |a|, |b|) == b
  {
    var start := before + (a + b);
    assert forall i :: 0 <= i < |start| ==> all[i] == start[i];
  }

  /** One object's part of the reply, from the running offset on. */
  method DecodeObject(values: seq<string>, offset: nat, low: nat, high: nat) returns (r: Option<Usage>)
    requires offset + low + high <= |values|
    ensures r.Some? <==> Decodable(Part(values, offset, low)) && Decodable(Part(values, offset + low, high))
    ensures r.Some? ==> Decodes(Part(values, offset, low), r.value.low)
    ensures r.Some? ==> Decodes(Part(values, offset + low, high), r.value.high)
  {
    hide Decodes, Decodable;
    var lowCounts := DecodeCounts(Part(values, offset, low));
    if lowCounts.None? {
      return None;
    }
    var highCounts := DecodeCounts(Part(values, offset + low, high));
    if highCounts.None? {
      return None;
    }
    r := Some(Usage(lowCounts.value, highCounts.value));
  }

  /** The parts of the reply at an object's offset hold that object's counters. */
  lemma ObjectDecodable(values: seq<string>, at: Snapshot, instance: string, objects: seq<Access>, low: seq<Time>, high: seq<Time>, i: nat)
    requires Hours(low) && Hours(high) && i < |objects| && AllKeyable(instance, objects)
    requires Texts(values, at.db, at.now, ChunkKeys(instance, objects, low, high))
    ensures var offset := |ChunkKeys(instance, objects[..i], low, high)|;
            && PartReads(values, offset, at, instance, objects[i], low)
            && PartReads(values, offset + |low|, at, instance, objects[i], high)
  {
    hide *;
    AllKeyableExtends(instance, objects, i);
    TextsLength(values, at, ChunkKeys(instance, objects, low, high));
    OffsetOfObject(instance, objects, low, high, i);
    var keys, offset := ChunkKeys(instance, objects, low, high), |ChunkKeys(instance, objects[..i], low, high)|;
    SliceOfReply(values, at, keys, offset, instance, objects[i], low);
    SliceOfReply(values, at, keys, offset + |low|, instance, objects[i], high);
  }

  lemma OneMoreRead(values: seq<string>, offset: nat, at: Snapshot, instance: string, objects: seq<Access>, low: seq<Time>, high: seq<Time>,
                    usage: seq<Usage>, i: nat, one: Usage)
    requires Hours(low) && Hours(high) && i < |objects|
    requires PartReads(values, offset, at, instance, objects[i], low) && PartReads(values, offset + |low|, at, instance, objects[i], high)
    requires ReadsAs(usage, at, instance, objects[..i], low, high)
    requires Decodes(Part(values, offset, |low|), one.low) && Decodes(Part(values, offset + |low|, |high|), one.high)
    ensures ReadsAs(usage + [one], at, instance, objects[..i + 1], low, high)
  {
    hide Hours, Decodes, Decodable, Countable, CountsOf, Part;
    DecodesOneWay(Part(values, offset, |low|), one.low, CountsOf(at.db, at.now, instance, objects[i], low));
    DecodesOneWay(Part(values, offset + |low|, |high|), one.high, CountsOf(at.db, at.now, instance, objects[i], high));
  }

  lemma PartsDecodable(values: seq<string>, offset: nat, at: Snapshot, instance: string, object_: Access, hours: seq<Time>)
    requires Hours(hours) && PartReads(values, offset, at, instance, object_, hours)
    ensures offset + |hours| <= |values| && Decodable(Part(values, offset, |hours|))
  {}

  method SplitReply(values: seq<string>, at: Snapshot, instance: string, objects: seq<Access>, low: seq<Time>, high: seq<Time>)
    returns (r: Option<seq<Usage>>)
    requires Hours(low) && Hours(high) && |values| == |ChunkKeys(instance, objects, low, high)|
    requires AllKeyable(instance, objects)
    requires at.transport.Faithful? ==> Texts(values, at.db, at.now, ChunkKeys(instance, objects, low, high))
    ensures at.transport.Faithful? ==> r.Some? && ReadsAs(r.value, at, instance, objects, low, high)
    ensures r.Some? ==> |r.value| == |objects|
  {
    hide *;
    NoObjects(at, instance, objects, low, high);
    var usage: seq<Usage>, offset := [], 0;
    for i := 0 to |objects|
      invariant offset == |ChunkKeys(instance, objects[..i], low, high)| && |usage| == i
      invariant at.transport.Faithful? ==> ReadsAs(usage, at, instance, objects[..i], low, high)
    {
      OffsetOfObject(instance, objects, low, high, i);
      if at.transport.Faithful? {
        ObjectDecodable(values, at, instance, objects, low, high, i);
        PartsDecodable(values, offset, at, instance, objects[i], low);
        PartsDecodable(values, offset + |low|, at, instance, objects[i], high);
      }
      var one := DecodeObject(values, offset, |low|, |high|);
      if one.None? {
        return None;
      }
      if at.transport.Faithful? {
        OneMoreRead(values, offset, at, instance, objects, low, high, usage, i, one.value);
      }
      offset := offset + |low| + |high|;
      usage := usage + [one.value];
    }
    assert objects[..|objects|] == objects;
    r := Some(usage);
  }

  /** The result of the simple form. */
  ghost predicate ReadsAs(usage: seq<Usage>, at: Snapshot, instance: string, objects: seq<Access>, low: seq<Time>, high: seq<Time>)
    requires Hours(low) && Hours(high)
  {
    && |usage| == |objects|
    && forall i :: 0 <= i < |objects| ==>
         && Countable(at.db, at.now, instance, objects[i], low) && Countable(at.db, at.now, instance, objects[i], high)
         && usage[i].low == CountsOf(at.db, at.now, instance, objects[i], low)
         && usage[i].high == CountsOf(at.db, at.now, instance, objects[i], high)
  }

  /**
   One EVAL for the whole chunk gives what ReadCounts would give object by object and window by
   window, and succeeds exactly when all of those would, the chunk is within the aggregate limit
   and the coverage can be read.
   */
  method ReadChunk(at: Snapshot, later: Snapshot, c: Coverage, instance: string, objects: seq<Access>, low: seq<Time>, high: seq<Time>)
    returns (r: Result<(seq<Usage>, seq<bool>), ReadError>)
    requires Hours(low) && Hours(high)
    requires |objects| <= MAX_INT64 && |low| <= MAX_INT64 && |high| <= MAX_INT64
    ensures at.transport.Faithful? && Honest(later, c) ==>
              (r.Ok? <==>
                && objects != [] && low != [] && high != []
                && |objects| * (|low| + |high|) <= MAX_ACCESS_KEYS_PER_CHUNK
                && AllCountable(at, instance, objects, low, high)
                && CoverageReadable(later, c, low))
    ensures at.transport.Faithful? && r.Ok? ==> ReadsAs(r.value.0, at, instance, objects, low, high)
    ensures at.transport.Lost? ==> r.Err?
    ensures r.Ok? ==> |r.value.0| == |objects|
    ensures r.Ok? ==> |r.value.1| == |low|
    ensures r.Ok? && Honest(later, c) ==> forall i :: 0 <= i < |low| ==> r.value.1[i] == IsCovered(later, c, low[i])
  {
    hide Hours, Texts, Countable, CountsOf, AllRead, CoverageReadable;
    if |objects| == 0 || |low| == 0 || |high| == 0 {
      return Err(EmptyWindow);
    }
    var allowed := ValidateAggregateAccessKeys(|objects|, |low|, |high|, MAX_ACCESS_KEYS_PER_CHUNK);
    if !allowed {
      return Err(AggregateLimit);
    }
    KeyableIfCountable(at, instance, objects, low, high);
    var keys := FlattenKeys(instance, objects, low, high);
    if keys.Err? {
      return Err(BadKey(keys.error));
    }
    AllReadChunk(at, instance, objects, low, high);
    var values := EvalRead(at, keys.value);
    if values.Err? {
      return Err(values.error);
    }
    if |values.value| != |keys.value| {
      return Err(UnexpectedReply);
    }
    var usage := SplitReply(values.value, at, instance, objects, low, high);
    if usage.None? {
      return Err(UnexpectedReply);
    }
    var coverage := ReadCoverage(later, c, low);
    if coverage.Err? {
      return Err(coverage.error);
    }
    r := Ok((usage.value, coverage.value));
  }

  lemma KeyableIfCountable(at: Snapshot, instance: string, objects: seq<Access>, low: seq<Time>, high: seq<Time>)
    requires Hours(low) && Hours(high)
    ensures AllCountable(at, instance, objects, low, high) ==> AllKeyable(instance, objects)
  {}
}
