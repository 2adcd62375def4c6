/**
 The part of a Redis server the scripts touch: string counters with absolute expiry, and
 INCRBY and EXPIREAT with the errors they raise. Clock and expiry are in milliseconds.
 */
module Redis {
  import opened Wrappers
  import opened Decimal

  datatype Content = Str(text: string) | Container

  datatype Entry = Entry(value: Content, expireAt: Option<int>)

  type Db = map<string, Entry>

  /** Errors raised by a write command inside a script; the script stops there. */
  datatype Fault = WrongType | NotAnInteger | IncrementOverflow | InvalidExpireTime

  /** EXPIREAT takes seconds and refuses those whose milliseconds do not fit an int64. */
  const MAX_EXPIRE_SECONDS: int := MAX_INT64 / 1000

  /** What GET and TYPE see: an entry past its expiry is gone. */
  function Lookup(db: Db, now: int, key: string): Option<Content> {
    if key in db && (db[key].expireAt.None? || now <= db[key].expireAt.value) then Some(db[key].value) else None
  }

  function Deadline(db: Db, now: int, key: string): Option<int> {
    if Lookup(db, now, key).Some? then db[key].expireAt else None
  }

  /** Redis' own strict integer parser. */
  function ParseInt64(s: string): Option<int> {
    if Canonical(s) && Value(s) <= MAX_INT64 then Some(Value(s))
    else if |s| > 1 && s[0] == '-' && Canonical(s[1..]) && s[1..] != "0" && Value(s[1..]) <= MAX_INT64 + 1
    then var magnitude: int := Value(s[1..]); Some(-magnitude)
    else None
  }

  function RenderInt(n: int): string {
    if n < 0 then "-" + Render(-n) else Render(n)
  }

  function IncrBy(db: Db, now: int, key: string, delta: string): Result<Db, Fault> {
    if ParseInt64(delta).None? then Err(NotAnInteger)
    else
      var current := match Lookup(db, now, key)
        case None => Ok(0)
        case Some(Container) => Err(WrongType)
        case Some(Str(text)) => (match ParseInt64(text) case None => Err(NotAnInteger) case Some(n) => Ok(n));
      match current
      case Err(fault) => Err(fault)
      case Ok(n) =>
        var sum := n + ParseInt64(delta).value;
        if sum > MAX_INT64 || sum < -MAX_INT64 - 1 then Err(IncrementOverflow)
        else Ok(db[key := Entry(Str(RenderInt(sum)), Deadline(db, now, key))])
  }

  /** A deadline that has already passed deletes the key; a missing key stays missing. */
  function ExpireAt(db: Db, now: int, key: string, seconds: string): Result<Db, Fault> {
    match ParseInt64(seconds)
    case None => Err(NotAnInteger)
    case Some(at) =>
      if at > MAX_EXPIRE_SECONDS || at < -MAX_EXPIRE_SECONDS then Err(InvalidExpireTime)
      else if Lookup(db, now, key).None? then Ok(db)
      else if at * 1000 <= now then Ok(db - {key})
      else Ok(db[key := db[key].(expireAt := Some(at * 1000))])
  }

  /** A counter as the scripts read it: a missing key is zero, anything malformed is None. */
  function Counter(db: Db, now: int, key: string): Option<nat> {
    match Lookup(db, now, key)
    case None => Some(0)
    case Some(Container) => None
    case Some(Str(text)) => if ValidUint(text) then ValidUintValue(text) else None
  }

  function ValidUintValue(text: string): (r: Option<nat>)
    requires ValidUint(text)
    ensures AllDigits(text) && r == Some(Value(text)) && Value(text) <= MAX_INT64
  {
    ValidUintExact(text);
    Some(Value(text))
  }

  lemma ParseOfValidUint(text: string)
    requires ValidUint(text)
    ensures AllDigits(text) && Value(text) <= MAX_INT64 && ParseInt64(text) == Some(Value(text))
  {
    ValidUintExact(text);
  }

  lemma ParseOfRender(n: nat)
    requires n <= MAX_INT64
    ensures ValidUint(Render(n)) && ParseInt64(Render(n)) == Some(n)
  {
    RenderIsCanonical(n);
    ValidUintExact(Render(n));
  }

  /** The state of a key after a successful increment by a decimal argument. */
  lemma IncrByGrows(db: Db, now: int, key: string, delta: string)
    requires ValidUint(delta)
    ensures AllDigits(delta)
    ensures var c := Counter(db, now, key);
            c.Some? && c.value + Value(delta) <= MAX_INT64 ==>
              IncrBy(db, now, key, delta) ==
                Ok(db[key := Entry(Str(Render(c.value + Value(delta))), Deadline(db, now, key))])
  {
    ParseOfValidUint(delta);
    var c := Counter(db, now, key);
    if c.Some? && c.value + Value(delta) <= MAX_INT64 {
      match Lookup(db, now, key)
      case None =>
      case Some(Str(text)) => ParseOfValidUint(text);
    }
  }
}
