/**
 The Lua counter script: every key is validated before the first write, then every key is
 incremented and given its expiry.
 */
module CounterScript {
  import opened Wrappers
  import opened Text
  import opened Decimal
  import opened Redis

  datatype Rejection = InvalidDelta | InvalidExpiry | WrongKeyType | MalformedCounter | CounterOverflow

  /** Done: `return #KEYS`; Rejected: a CWM_VALIDATION error; Raised: a command failed in mid-script. */
  datatype Reply = Done(count: nat) | Rejected(why: Rejection) | Raised(fault: Fault)

  datatype Written = Written(db: Db, fault: Option<Fault>)

  /** The validation of one key. */
  function CheckKey(db: Db, now: int, key: string, delta: string, expiry: string): Option<Rejection> {
    if !ValidUint(delta) || delta == "0" then Some(InvalidDelta)
    else if !ValidUint(expiry) then Some(InvalidExpiry)
    else match Lookup(db, now, key)
      case Some(Container) => Some(WrongKeyType)
      case Some(Str(text)) =>
        if !ValidUint(text) then Some(MalformedCounter)
        else if ValidUintValue(text).value + ValidUintValue(delta).value > MAX_INT64 then Some(CounterOverflow)
        else None
      case None =>
        if ValidUintValue(delta).value > MAX_INT64 then Some(CounterOverflow) else None
  }

  /** The error of the first key, from position i on, that fails validation. */
  function FirstRejection(db: Db, now: int, keys: seq<string>, argv: seq<string>, i: nat): Option<Rejection>
    requires |argv| == 2 * |keys| && i <= |keys|
    decreases |keys| - i
  {
    if i == |keys| then None
    else
      var first := CheckKey(db, now, keys[i], argv[2 * i], argv[2 * i + 1]);
      if first.Some? then first else FirstRejection(db, now, keys, argv, i + 1)
  }

  function WriteKey(db: Db, now: int, key: string, delta: string, expiry: string): Written {
    match IncrBy(db, now, key, delta)
    case Err(fault) => Written(db, Some(fault))
    case Ok(grown) =>
      match ExpireAt(grown, now, key, expiry)
      case Err(fault) => Written(grown, Some(fault))
      case Ok(dated) => Written(dated, None)
  }

  /** The write phase from position i on; a raised error leaves the earlier writes in place. */
  function WriteFrom(db: Db, now: int, keys: seq<string>, argv: seq<string>, i: nat): Written
    requires |argv| == 2 * |keys| && i <= |keys|
    decreases |keys| - i
  {
    if i == |keys| then Written(db, None)
    else
      var first := WriteKey(db, now, keys[i], argv[2 * i], argv[2 * i + 1]);
      if first.fault.Some? then first else WriteFrom(first.db, now, keys, argv, i + 1)
  }

  function Run(db: Db, now: int, keys: seq<string>, argv: seq<string>): (Reply, Db)
    requires |argv| == 2 * |keys|
  {
    match FirstRejection(db, now, keys, argv, 0)
    case Some(why) => (Rejected(why), db)
    case None =>
      match WriteFrom(db, now, keys, argv, 0)
      case Written(db', None) => (Done(|keys|), db')
      case Written(db', Some(fault)) => (Raised(fault), db')
  }

  function EntryAt(db: Db, key: string): Option<Entry> {
    if key in db then Some(db[key]) else None
  }

  /** What the writes of one key should leave: the exact sum and the new expiry, or nothing if that is past. */
  function Grown(db: Db, now: int, key: string, delta: nat, expiry: nat): Option<Entry>
    requires Counter(db, now, key).Some?
  {
    if expiry * 1000 <= now then None
    else Some(Entry(Str(Render(Counter(db, now, key).value + delta)), Some(expiry * 1000)))
  }

  ghost predicate Checked(db: Db, now: int, keys: seq<string>, argv: seq<string>, i: nat)
    requires |argv| == 2 * |keys|
  {
    forall j :: i <= j < |keys| ==> CheckKey(db, now, keys[j], argv[2 * j], argv[2 * j + 1]).None?
  }

  ghost predicate ExpiriesInRange(argv: seq<string>) {
    forall j :: 0 <= j < |argv| && j % 2 == 1 && ValidUint(argv[j]) ==>
      ValidUintValue(argv[j]).value <= MAX_EXPIRE_SECONDS
  }

  lemma {:induction false} NoRejectionMeansChecked(db: Db, now: int, keys: seq<string>, argv: seq<string>, i: nat)
    requires |argv| == 2 * |keys| && i <= |keys|
    ensures FirstRejection(db, now, keys, argv, i).None? <==> Checked(db, now, keys, argv, i)
    decreases |keys| - i
  {
    if i < |keys| {
      NoRejectionMeansChecked(db, now, keys, argv, i + 1);
    }
  }

  lemma CheckedKey(db: Db, now: int, key: string, delta: string, expiry: string)
    requires CheckKey(db, now, key, delta, expiry).None?
    ensures ValidUint(delta) && ValidUint(expiry) && Counter(db, now, key).Some?
    ensures ValidUintValue(delta).value > 0
    ensures Counter(db, now, key).value + ValidUintValue(delta).value <= MAX_INT64
  {
    ValidUintExact(delta);
    RenderOfValue(delta);
    assert Render(0) == "0";
  }

  ghost predicate KeyGrown(db: Db, db': Db, now: int, key: string, delta: string, expiry: string)
    requires CheckKey(db, now, key, delta, expiry).None?
  {
    CheckedKey(db, now, key, delta, expiry);
    EntryAt(db', key) == Grown(db, now, key, ValidUintValue(delta).value, ValidUintValue(expiry).value)
  }

  /** The two writes of one validated key, when its expiry is one EXPIREAT accepts. */
  lemma WriteKeyExact(db: Db, now: int, key: string, delta: string, expiry: string)
    requires CheckKey(db, now, key, delta, expiry).None?
    requires ValidUintValue(expiry).value <= MAX_EXPIRE_SECONDS
    ensures var w := WriteKey(db, now, key, delta, expiry);
            && w.fault.None?
            && KeyGrown(db, w.db, now, key, delta, expiry)
            && (forall k :: k != key ==> EntryAt(w.db, k) == EntryAt(db, k))
  {
    CheckedKey(db, now, key, delta, expiry);
    IncrByGrows(db, now, key, delta);
    ParseOfValidUint(expiry);
  }

  /** Otherwise the key is incremented, keeps its old expiry, and the script stops. */
  lemma WriteKeyRaises(db: Db, now: int, key: string, delta: string, expiry: string)
    requires CheckKey(db, now, key, delta, expiry).None?
    requires ValidUintValue(expiry).value > MAX_EXPIRE_SECONDS
    ensures WriteKey(db, now, key, delta, expiry) ==
            Written(db[key := Entry(Str(Render(Counter(db, now, key).value + ValidUintValue(delta).value)),
                                    Deadline(db, now, key))], Some(InvalidExpireTime))
  {
    CheckedKey(db, now, key, delta, expiry);
    IncrByGrows(db, now, key, delta);
    ParseOfValidUint(expiry);
  }

  lemma CheckKeyDependsOnEntry(db: Db, db': Db, now: int, key: string, delta: string, expiry: string)
    requires EntryAt(db, key) == EntryAt(db', key)
    ensures CheckKey(db, now, key, delta, expiry) == CheckKey(db', now, key, delta, expiry)
    ensures Counter(db, now, key) == Counter(db', now, key)
    ensures Lookup(db, now, key) == Lookup(db', now, key) && Deadline(db, now, key) == Deadline(db', now, key)
  {}

  /** From position i on, exactly the listed keys changed, each as Grown says. */
  ghost predicate AllGrown(db: Db, db': Db, now: int, keys: seq<string>, argv: seq<string>, i: nat)
    requires |argv| == 2 * |keys| && i <= |keys| && Checked(db, now, keys, argv, i)
  {
    && (forall j :: i <= j < |keys| ==>
          CheckKey(db, now, keys[j], argv[2 * j], argv[2 * j + 1]).None? && KeyGrown(db, db', now, keys[j], argv[2 * j], argv[2 * j + 1]))
    && (forall k :: k !in keys[i..] ==> EntryAt(db', k) == EntryAt(db, k))
  }

  lemma OneMoreGrown(db: Db, mid: Db, end: Db, now: int, keys: seq<string>, argv: seq<string>, i: nat)
    requires |argv| == 2 * |keys| && i < |keys| && Distinct(keys)
    requires Checked(db, now, keys, argv, i) && Checked(mid, now, keys, argv, i + 1)
    requires CheckKey(db, now, keys[i], argv[2 * i], argv[2 * i + 1]).None?
    requires KeyGrown(db, mid, now, keys[i], argv[2 * i], argv[2 * i + 1])
    requires forall k :: k != keys[i] ==> EntryAt(mid, k) == EntryAt(db, k)
    requires AllGrown(mid, end, now, keys, argv, i + 1)
    ensures AllGrown(db, end, now, keys, argv, i)
  {
    hide ValidUint, Lookup, Deadline;
    assert keys[i..] == [keys[i]] + keys[i + 1..];
    assert keys[i] !in keys[i + 1..];
    forall j | i <= j < |keys|
      ensures CheckKey(db, now, keys[j], argv[2 * j], argv[2 * j + 1]).None?
      ensures KeyGrown(db, end, now, keys[j], argv[2 * j], argv[2 * j + 1])
    {
      if j > i {
        CheckKeyDependsOnEntry(db, mid, now, keys[j], argv[2 * j], argv[2 * j + 1]);
        assert KeyGrown(mid, end, now, keys[j], argv[2 * j], argv[2 * j + 1]);
      }
    }
  }

  /** With distinct keys no write disturbs a later key, so no INCRBY can meet a wrong type or overflow. */
  lemma {:induction false} WritePhaseExact(db: Db, now: int, keys: seq<string>, argv: seq<string>, i: nat)
    requires |argv| == 2 * |keys| && i <= |keys| && Distinct(keys)
    requires Checked(db, now, keys, argv, i) && ExpiriesInRange(argv)
    ensures var w := WriteFrom(db, now, keys, argv, i);
            w.fault.None? && AllGrown(db, w.db, now, keys, argv, i)
    decreases |keys| - i
  {
    hide ValidUint, WriteKey, CheckKey, KeyGrown;
    if i < |keys| {
      var key, delta, expiry := keys[i], argv[2 * i], argv[2 * i + 1];
      assert CheckKey(db, now, key, delta, expiry).None?;
      CheckedKey(db, now, key, delta, expiry);
      assert argv[2 * i + 1] == expiry && (2 * i + 1) % 2 == 1;
      WriteKeyExact(db, now, key, delta, expiry);
      CheckedAfterWrite(db, now, keys, argv, i);
      var mid := WriteKey(db, now, key, delta, expiry).db;
      WritePhaseExact(mid, now, keys, argv, i + 1);
      OneMoreGrown(db, mid, WriteFrom(mid, now, keys, argv, i + 1).db, now, keys, argv, i);
    }
  }

  /** Redis holds expiry times as int64 milliseconds. */
  ghost predicate Storable(db: Db) {
    forall k :: k in db && db[k].expireAt.Some? ==> db[k].expireAt.value <= MAX_INT64
  }

  predicate TooLate(expiry: string) {
    ValidUint(expiry) && ValidUintValue(expiry).value > MAX_EXPIRE_SECONDS
  }

  /** The key was changed, but not into what the batch asks for. */
  ghost predicate Torn(db: Db, db': Db, now: int, key: string, delta: string, expiry: string) {
    && CheckKey(db, now, key, delta, expiry).None?
    && EntryAt(db', key) != EntryAt(db, key)
    && !KeyGrown(db, db', now, key, delta, expiry)
  }

  lemma GrownTextDiffers(text: string, delta: nat)
    requires ValidUint(text) && delta > 0
    ensures Render(ValidUintValue(text).value + delta) != text
  {
    hide ValidUint;
    ValidUintExact(text);
    RenderOfValue(text);
    if Render(Value(text) + delta) == text {
      RenderInjective(Value(text) + delta, Value(text));
    }
  }

  /** A half-written key: incremented, but with neither its old entry nor the intended one. */
  lemma HalfWritten(db: Db, now: int, key: string, delta: string, expiry: string)
    requires Storable(db) && CheckKey(db, now, key, delta, expiry).None?
    requires ValidUintValue(expiry).value > MAX_EXPIRE_SECONDS
    ensures var w := WriteKey(db, now, key, delta, expiry);
            && w.fault == Some(InvalidExpireTime)
            && Torn(db, w.db, now, key, delta, expiry)
  {
    hide ValidUint, Render, Value;
    WriteKeyRaises(db, now, key, delta, expiry);
    CheckedKey(db, now, key, delta, expiry);
    match Lookup(db, now, key)
    case None =>
    case Some(Str(text)) =>
      GrownTextDiffers(text, ValidUintValue(delta).value);
  }

  lemma TornDependsOnEntry(db: Db, mid: Db, db': Db, now: int, key: string, delta: string, expiry: string)
    requires EntryAt(db, key) == EntryAt(mid, key) && Torn(mid, db', now, key, delta, expiry)
    ensures Torn(db, db', now, key, delta, expiry)
  {
    CheckKeyDependsOnEntry(db, mid, now, key, delta, expiry);
  }

  lemma CheckedAfterWrite(db: Db, now: int, keys: seq<string>, argv: seq<string>, i: nat)
    requires |argv| == 2 * |keys| && i < |keys| && Distinct(keys) && Checked(db, now, keys, argv, i)
    requires !TooLate(argv[2 * i + 1])
    ensures var w := WriteKey(db, now, keys[i], argv[2 * i], argv[2 * i + 1]);
            && w.fault.None? && Checked(w.db, now, keys, argv, i + 1)
            && (forall k :: k != keys[i] ==> EntryAt(w.db, k) == EntryAt(db, k))
  {
    var key, delta, expiry := keys[i], argv[2 * i], argv[2 * i + 1];
    assert CheckKey(db, now, key, delta, expiry).None?;
    CheckedKey(db, now, key, delta, expiry);
    WriteKeyExact(db, now, key, delta, expiry);
    var mid := WriteKey(db, now, key, delta, expiry).db;
    forall k | i + 1 <= k < |keys|
      ensures CheckKey(mid, now, keys[k], argv[2 * k], argv[2 * k + 1]).None?
    {
      CheckKeyDependsOnEntry(db, mid, now, keys[k], argv[2 * k], argv[2 * k + 1]);
    }
  }

  /** An expiry beyond EXPIREAT's range stops the script after its key was incremented. */
  lemma {:induction false} WritePhaseRaises(db: Db, now: int, keys: seq<string>, argv: seq<string>, i: nat, bad: nat)
    returns (j: nat)
    requires |argv| == 2 * |keys| && i <= bad < |keys| && Distinct(keys) && Storable(db)
    requires Checked(db, now, keys, argv, i) && TooLate(argv[2 * bad + 1])
    ensures i <= j < |keys|
    ensures WriteFrom(db, now, keys, argv, i).fault == Some(InvalidExpireTime)
    ensures Torn(db, WriteFrom(db, now, keys, argv, i).db, now, keys[j], argv[2 * j], argv[2 * j + 1])
    decreases |keys| - i
  {
    hide ValidUint, WriteKey, CheckKey, Torn;
    var key, delta, expiry := keys[i], argv[2 * i], argv[2 * i + 1];
    assert CheckKey(db, now, key, delta, expiry).None?;
    CheckedKey(db, now, key, delta, expiry);
    if TooLate(expiry) {
      HalfWritten(db, now, key, delta, expiry);
      j := i;
    } else {
      CheckedAfterWrite(db, now, keys, argv, i);
      StorableAfterWrite(db, now, key, delta, expiry);
      var mid := WriteKey(db, now, key, delta, expiry).db;
      j := WritePhaseRaises(mid, now, keys, argv, i + 1, bad);
      TornDependsOnEntry(db, mid, WriteFrom(mid, now, keys, argv, i + 1).db, now, keys[j], argv[2 * j], argv[2 * j + 1]);
    }
  }

  lemma StorableAfterWrite(db: Db, now: int, key: string, delta: string, expiry: string)
    requires Storable(db) && CheckKey(db, now, key, delta, expiry).None?
    requires ValidUintValue(expiry).value <= MAX_EXPIRE_SECONDS
    ensures Storable(WriteKey(db, now, key, delta, expiry).db)
  {
    WriteKeyExact(db, now, key, delta, expiry);
    var db' := WriteKey(db, now, key, delta, expiry).db;
    forall k | k in db' && db'[k].expireAt.Some?
      ensures db'[k].expireAt.value <= MAX_INT64
    {
      assert EntryAt(db', k) == Some(db'[k]);
    }
  }

  /**
   The script is all-or-nothing exactly when validation rejects the batch or every expiry is
   one EXPIREAT accepts: `valid_uint` admits expiries a thousand times beyond that.
   */
  lemma AllOrNothing(db: Db, now: int, keys: seq<string>, argv: seq<string>)
    requires |argv| == 2 * |keys| && Distinct(keys) && Storable(db)
    ensures var (reply, db') := Run(db, now, keys, argv);
            && (db' == db || (reply.Done? && Checked(db, now, keys, argv, 0) && AllGrown(db, db', now, keys, argv, 0))
                <==> FirstRejection(db, now, keys, argv, 0).Some? || ExpiriesInRange(argv))
            && (reply.Rejected? <==> FirstRejection(db, now, keys, argv, 0).Some?)
            && (reply.Done? <==> FirstRejection(db, now, keys, argv, 0).None? && ExpiriesInRange(argv))
            && (Checked(db, now, keys, argv, 0) && AllGrown(db, db', now, keys, argv, 0) ==> reply.Done?)
  {
    hide ValidUint, CheckKey, WriteFrom, KeyGrown;
    NoRejectionMeansChecked(db, now, keys, argv, 0);
    if FirstRejection(db, now, keys, argv, 0).None? {
      if ExpiriesInRange(argv) {
        WritePhaseExact(db, now, keys, argv, 0);
      } else {
        var k :| 0 <= k < |argv| && k % 2 == 1 && ValidUint(argv[k]) && ValidUintValue(argv[k]).value > MAX_EXPIRE_SECONDS;
        assert argv[2 * (k / 2) + 1] == argv[k] && TooLate(argv[k]);
        var j := WritePhaseRaises(db, now, keys, argv, 0, k / 2);
      }
    }
  }
}
