/** Daily mutation budgets: the reservation script on the server and the call that runs it. */
module Budget {
  import opened Contexts
  import opened Wrappers
  import opened GoTypes
  import opened Redis
  import opened Calendar
  import opened Contracts
  import opened LuaNumber
  import C = CounterScript
  import D = Decimal
  import opened RedisStore

  // ---- The script ----

  datatype Refusal = MalformedBudget | InvalidBudgetArguments

  /** Usage after a grant is a Lua number on its way back, after a denial the stored text. */
  datatype ReserveReply =
    | Granted(attempts: Option<nat>, bytes: Option<nat>)
    | Denied(usedAttempts: nat, usedBytes: nat)
    | Refused(why: Refusal)
    | Raised(fault: Fault)

  datatype Quota = Quota(attemptLimit: string, byteLimit: string, byteDelta: string)

  predicate ValidQuota(q: Quota) {
    && D.ValidUint(q.attemptLimit) && q.attemptLimit != "0"
    && D.ValidUint(q.byteLimit) && q.byteLimit != "0"
    && D.ValidUint(q.byteDelta)
  }

  /** Both budgets can be read and the arguments are numbers. */
  predicate Decidable(db: Db, now: int, attemptKey: string, byteKey: string, q: Quota) {
    Counter(db, now, attemptKey).Some? && Counter(db, now, byteKey).Some? && ValidQuota(q)
  }

  /** One more attempt and the bytes stay within both limits, in unbounded integers. */
  predicate Within(db: Db, now: int, attemptKey: string, byteKey: string, q: Quota) {
    && Decidable(db, now, attemptKey, byteKey, q)
    && Counter(db, now, attemptKey).value + 1 <= ValidUintValue(q.attemptLimit).value
    && Counter(db, now, byteKey).value + ValidUintValue(q.byteDelta).value <= ValidUintValue(q.byteLimit).value
  }

  function ExpirySecond(expiry: string): Option<int> {
    match ParseInt64(expiry)
    case None => None
    case Some(at) => if -MAX_EXPIRE_SECONDS <= at <= MAX_EXPIRE_SECONDS then Some(at) else None
  }

  /** A counter increased and dated; nothing if the date has passed. */
  function Raise(db: Db, now: int, key: string, delta: nat, at: int): Option<Entry>
    requires Counter(db, now, key).Some?
  {
    if at * 1000 <= now then None
    else Some(Entry(Str(D.Render(Counter(db, now, key).value + delta)), Some(at * 1000)))
  }

  /** Exactly the reservation was written: one attempt, the bytes if any, nothing else. */
  ghost predicate Charged(db: Db, db': Db, now: int, attemptKey: string, byteKey: string, bytes: nat, at: int) {
    && Counter(db, now, attemptKey).Some? && Counter(db, now, byteKey).Some?
    && C.EntryAt(db', attemptKey) == Raise(db, now, attemptKey, 1, at)
    && C.EntryAt(db', byteKey) == (if bytes == 0 then C.EntryAt(db, byteKey) else Raise(db, now, byteKey, bytes, at))
    && forall k :: k != attemptKey && k != byteKey ==> C.EntryAt(db', k) == C.EntryAt(db, k)
  }

  /** INCRBY and EXPIREAT of one key, where neither can fail. */
  lemma RaiseExact(db: Db, now: int, key: string, delta: string, expiry: string)
    requires Counter(db, now, key).Some? && D.ValidUint(delta) && ExpirySecond(expiry).Some?
    requires Counter(db, now, key).value + ValidUintValue(delta).value <= D.MAX_INT64
    ensures var grown := IncrBy(db, now, key, delta);
            && grown.Ok? && ExpireAt(grown.value, now, key, expiry).Ok?
            && Counter(grown.value, now, key) == Some(Counter(db, now, key).value + ValidUintValue(delta).value)
            && var db' := ExpireAt(grown.value, now, key, expiry).value;
               && C.EntryAt(db', key) == Raise(db, now, key, ValidUintValue(delta).value, ExpirySecond(expiry).value)
               && (forall k :: k != key ==> C.EntryAt(db', k) == C.EntryAt(db, k))
  {
    hide D.ValidUint, D.Render;
    IncrByGrows(db, now, key, delta);
    var n := Counter(db, now, key).value + ValidUintValue(delta).value;
    D.ValidUintOfRender(n);
    D.RenderIsCanonical(n);
  }

  /** Where the date is refused the increment has already happened. */
  lemma RaiseFails(db: Db, now: int, key: string, delta: string, expiry: string)
    requires Counter(db, now, key).Some? && D.ValidUint(delta) && ExpirySecond(expiry).None?
    requires Counter(db, now, key).value + ValidUintValue(delta).value <= D.MAX_INT64
    ensures var grown := IncrBy(db, now, key, delta);
            && grown.Ok? && ExpireAt(grown.value, now, key, expiry).Err?
            && Counter(grown.value, now, key) == Some(Counter(db, now, key).value + ValidUintValue(delta).value)
  {
    hide D.ValidUint, D.Render;
    IncrByGrows(db, now, key, delta);
    var n := Counter(db, now, key).value + ValidUintValue(delta).value;
    D.ValidUintOfRender(n);
    D.RenderIsCanonical(n);
  }

  lemma OneIsValid()
    ensures D.ValidUint("1") && ValidUintValue("1").value == 1
  {
    assert D.Render(1) == "1";
    D.RenderIsCanonical(1);
    D.ValidUintExact("1");
  }

  /** The counter a raise leaves, while its date has not passed. */
  lemma RaisedCounter(db: Db, db': Db, now: int, key: string, delta: nat, at: int)
    requires Counter(db, now, key).Some? && Counter(db, now, key).value + delta <= D.MAX_INT64 && now < at * 1000
    requires C.EntryAt(db', key) == Raise(db, now, key, delta, at)
    ensures Counter(db', now, key) == Some(Counter(db, now, key).value + delta)
    ensures key in db' && db'[key].expireAt == Some(at * 1000)
  {
    hide D.ValidUint, D.Render;
    var n := Counter(db, now, key).value + delta;
    D.ValidUintOfRender(n);
    D.RenderIsCanonical(n);
  }

  /** The times the keys' four-digit years allow for, on Redis' millisecond clock. */
  predicate InEra(now: int) {
    0 <= now * MILLISECOND <= LAST_TIME
  }

  /** What Redis held at one moment. */
  datatype Instant = Instant(db: Db, now: int)

  /** Redis as the tierer sees it. */
  class Keyspace {
    var db: Db
    var now: int
    ghost var replies: seq<Ask>    // every reservation asked for, and its answer
    ghost var asked: set<Instant>  // when counters or coverage were read

    constructor (db: Db, now: int)
      requires InEra(now)
      ensures this.db == db && this.now == now && replies == [] && asked == {}
    {
      this.db, this.now, replies, asked := db, now, [], {};
    }

    ghost method Observe()
      modifies this`asked
      ensures asked == old(asked) + {Instant(db, now)}
    {
      asked := asked + {Instant(db, now)};
    }

    /** Up to `most` milliseconds pass. */
    method Wait(most: nat)
      requires InEra(now)
      modifies this`now
      ensures InEra(now) && old(now) <= now <= old(now) + most
    {
      var delay: int := *;
      if 0 < delay <= most && InEra(now + delay) {
        now := now + delay;
      }
    }

    /** `current` of the script: a missing key reads "0", anything malformed is nil. */
    method LuaCurrent(key: string) returns (text: Option<string>)
      ensures text.Some? <==> Counter(db, now, key).Some?
      ensures text.Some? ==> D.ValidUint(text.value) && ValidUintValue(text.value) == Counter(db, now, key)
    {
      match Lookup(db, now, key) {
        case None =>
          ZeroIsValid();
          text := Some("0");
        case Some(Container) => text := None;
        case Some(Str(raw)) => text := if D.ValidUint(raw) then Some(raw) else None;
      }
    }

    /** The new value of a budget and whether it stays within its limit. */
    method LuaFits(current: string, delta: string, limit: string) returns (fits: bool)
      requires D.ValidUint(current) && D.ValidUint(delta) && D.ValidUint(limit)
      ensures fits <==> ValidUintValue(current).value + ValidUintValue(delta).value <= ValidUintValue(limit).value
    {
      var sum := D.AddUint(current, delta);
      if sum.None? {
        return false;
      }
      D.RenderIsCanonical(D.Value(current) + D.Value(delta));
      D.ValidUintExact(limit);
      D.LessOrEqualIsNumeric(sum.value, limit);
      fits := D.LessOrEqual(sum.value, limit);
    }

    /** The reservation script, run without interleaving at one instant of the server's clock. */
    method RunReserveScript(attemptKey: string, byteKey: string, q: Quota, expiry: string) returns (reply: ReserveReply)
      requires attemptKey != byteKey
      modifies this`db
      ensures reply.Refused? <==> !Decidable(old(db), now, attemptKey, byteKey, q)
      ensures reply.Denied? <==>
                Decidable(old(db), now, attemptKey, byteKey, q) && !Within(old(db), now, attemptKey, byteKey, q)
      ensures reply.Granted? <==> Within(old(db), now, attemptKey, byteKey, q) && ExpirySecond(expiry).Some?
      ensures reply.Refused? || reply.Denied? ==> db == old(db)
      ensures reply.Denied? ==>
                Some(reply.usedAttempts) == Counter(db, now, attemptKey) && Some(reply.usedBytes) == Counter(db, now, byteKey)
      ensures reply.Granted? ==>
                var bytes := ValidUintValue(q.byteDelta).value;
                && Charged(old(db), db, now, attemptKey, byteKey, bytes, ExpirySecond(expiry).value)
                && reply.attempts == IntegerReply(Counter(old(db), now, attemptKey).value + 1)
                && reply.bytes == (if bytes == 0 then Counter(old(db), now, byteKey)
                                   else IntegerReply(Counter(old(db), now, byteKey).value + bytes))
    {
      hide D.ValidUint, D.Render, D.Value, IntegerReply, IncrBy, ExpireAt, Counter, ExpirySecond, Lookup;
      var attempts := LuaCurrent(attemptKey);
      var bytes := LuaCurrent(byteKey);
      if attempts.None? || bytes.None? {
        return Refused(MalformedBudget);
      }
      if !D.ValidUint(q.attemptLimit) || q.attemptLimit == "0" || !D.ValidUint(q.byteLimit) || q.byteLimit == "0" || !D.ValidUint(q.byteDelta) {
        return Refused(InvalidBudgetArguments);
      }
      OneIsValid();
      var attemptFits := LuaFits(attempts.value, "1", q.attemptLimit);
      var byteFits := LuaFits(bytes.value, q.byteDelta, q.byteLimit);
      if !attemptFits || !byteFits {
        return Denied(ValidUintValue(attempts.value).value, ValidUintValue(bytes.value).value);
      }
      var grown := IncrBy(db, now, attemptKey, "1");
      LimitIsSmall(q.attemptLimit);
      LimitIsSmall(q.byteLimit);
      if ExpirySecond(expiry).Some? {
        RaiseExact(db, now, attemptKey, "1", expiry);
      } else {
        RaiseFails(db, now, attemptKey, "1", expiry);
      }
      db := grown.value;
      var newAttempts := IntegerReply(Counter(db, now, attemptKey).value);
      var dated := ExpireAt(db, now, attemptKey, expiry);
      if dated.Err? {
        return Raised(dated.error);
      }
      db := dated.value;
      DeltaIsZero(q.byteDelta);
      if q.byteDelta == "0" {
        return Granted(newAttempts, ValidUintValue(bytes.value));
      }
      CounterOfEntry(old(db), db, now, byteKey);
      RaiseExact(db, now, byteKey, q.byteDelta, expiry);
      db := IncrBy(db, now, byteKey, q.byteDelta).value;
      var newBytes := IntegerReply(Counter(db, now, byteKey).value);
      db := ExpireAt(db, now, byteKey, expiry).value;
      reply := Granted(newAttempts, newBytes);
    }

    /**
     Reserve: a budget is charged at most once, exactly when there is room. Unless the call was
     lost or a stored budget cannot be read, it is answered, and then truly.
     */
    method Reserve(ctx: Context, instance: string, clock: Time, kind: string, limit: BudgetLimit, bytes: int64, timeout: nat) returns (r: Result<Reservation, ReserveError>)
      requires 0 <= clock <= LAST_TIME && ValidInstanceID(instance) && InEra(now)
      modifies ctx, this`db, this`now, this`replies
      ensures InEra(now) && old(now) <= now <= old(now) + timeout && (old(ctx.cancelled) ==> ctx.cancelled) && (old(ctx.failed) ==> ctx.failed)
      ensures var ask := Ask(DayOf(clock), kind, limit, bytes, Instant(db, now), r);
              replies == old(replies) + [ask] && DeniedRightly(instance, ask)
      ensures r == Err(InvalidKind) <==> !ValidKind(kind)
      ensures r == Err(InvalidReservation) <==> ValidKind(kind) && (limit.attempts < 0 || limit.bytes < 0 || bytes < 0)
      ensures db == old(db) ||
              (ValidKind(kind) && bytes >= 0 && Reserved(old(db), db, now, instance, DayOf(clock), kind, limit, bytes))
      ensures ValidKind(kind) && bytes >= 0 && limit.attempts == 0 && limit.bytes == 0 ==>
                r.Ok? && r.value.allowed && db == old(db) && now == old(now)
      ensures old(ctx.cancelled) ==> db == old(db) && (r.Ok? ==> Unlimited(limit))
      ensures r == Err(EvalFailed) && !ctx.failed ==>
                Counter(db, now, BudgetKeyOf(instance, DayOf(clock), kind, ATTEMPTS)).None? ||
                Counter(db, now, BudgetKeyOf(instance, DayOf(clock), kind, BYTES)).None?
      ensures r.Ok? && r.value.allowed && !Unlimited(limit) ==>
                && Reserved(old(db), db, now, instance, DayOf(clock), kind, limit, bytes)
                && Reported(r.value, old(db), now, BudgetKeyOf(instance, DayOf(clock), kind, ATTEMPTS), BudgetKeyOf(instance, DayOf(clock), kind, BYTES), bytes)
      ensures r.Ok? && !r.value.allowed ==> db == old(db)
    {
      hide Civil, D.Render, D.ValidUint, Counter, IntegerReply, Charged, BudgetKeyOf;
      if kind != TRANSITION && kind != RESTORE {
        r := Err(InvalidKind);
      } else if limit.attempts < 0 || limit.bytes < 0 || bytes < 0 {
        r := Err(InvalidReservation);
      } else if limit.attempts == 0 && limit.bytes == 0 {
        r := Ok(Reservation(true, 0, 0));
      } else {
        r := AskRedis(ctx, instance, clock, kind, limit, bytes, timeout);
      }
      replies := replies + [Ask(DayOf(clock), kind, limit, bytes, Instant(db, now), r)];
    }

    /** The EVAL of a reservation, with the limits as arguments. */
    method AskRedis(ctx: Context, instance: string, clock: Time, kind: string, limit: BudgetLimit, bytes: int64, timeout: nat) returns (r: Result<Reservation, ReserveError>)
      requires 0 <= clock <= LAST_TIME && ValidInstanceID(instance) && InEra(now)
      requires ValidKind(kind) && limit.attempts >= 0 && limit.bytes >= 0 && bytes >= 0
      modifies ctx, this`db, this`now
      ensures InEra(now) && old(now) <= now <= old(now) + timeout && (old(ctx.cancelled) ==> ctx.cancelled) && (old(ctx.failed) ==> ctx.failed)
      ensures r.Err? ==> r.error.EvalFailed?
      ensures db == old(db) || Reserved(old(db), db, now, instance, DayOf(clock), kind, limit, bytes)
      ensures old(ctx.cancelled) ==> db == old(db) && r.Err?
      ensures var a, b := BudgetKeyOf(instance, DayOf(clock), kind, ATTEMPTS), BudgetKeyOf(instance, DayOf(clock), kind, BYTES);
              && (r.Err? && !ctx.failed ==> db == old(db) && (Counter(db, now, a).None? || Counter(db, now, b).None?))
              && (r.Ok? && r.value.allowed ==>
                    Reserved(old(db), db, now, instance, DayOf(clock), kind, limit, bytes) && Reported(r.value, old(db), now, a, b, bytes))
              && (r.Ok? && !r.value.allowed ==>
                    && db == old(db) && !Room(db, now, a, b, limit, bytes)
                    && Counter(db, now, a) == Some(r.value.usedAttempts) && Counter(db, now, b) == Some(r.value.usedBytes))
    {
      hide Civil, D.Render, D.ValidUint, Counter, IntegerReply, Charged, BudgetKeyOf;
      var attemptKey := KeyOfTime(instance, clock, kind, ATTEMPTS);
      var byteKey := KeyOfTime(instance, clock, kind, BYTES);
      KeyOfTimeIsOfDay(instance, clock, kind, ATTEMPTS);
      KeyOfTimeIsOfDay(instance, clock, kind, BYTES);
      BudgetKeysDiffer(instance, DayOf(clock), kind, ATTEMPTS, DayOf(clock), kind, BYTES);
      ExpiryOfDay(clock);
      var expires := Unix(Truncate(clock, DAY) + 72 * HOUR);
      var q := Quota(D.Render(Cap(limit.attempts)), D.Render(Cap(limit.bytes)), D.Render(bytes));
      Wait(timeout);
      RenderedQuota(db, now, attemptKey, byteKey, limit, bytes);
      var fate := ctx.Call();
      if fate == RequestLost {
        return Err(EvalFailed);
      }
      var reply := RunReserveScript(attemptKey, byteKey, q, D.Render(expires));
      if fate == AnswerLost {
        return Err(EvalFailed);
      }
      match reply {
        case Refused(_) => return Err(EvalFailed);
        case Denied(usedAttempts, usedBytes) => return Ok(Reservation(false, usedAttempts, usedBytes));
        case Granted(attempts, used) =>
          var undefined: int := *;
          return Ok(Reservation(true, if attempts.Some? then attempts.value else undefined, if used.Some? then used.value else undefined));
      }
    }
  }

  // ---- The call ----

  const TRANSITION: string := "transition"
  const RESTORE: string := "restore"
  const ATTEMPTS: string := "-attempts"
  const BYTES: string := "-bytes"

  datatype BudgetLimit = BudgetLimit(attempts: int64, bytes: int64)

  datatype Reservation = Reservation(allowed: bool, usedAttempts: int, usedBytes: int)

  /** One reservation asked for: the day it was for, the limits given, and Redis when it had been answered. */
  datatype Ask = Ask(
    day: nat, kind: string, limit: BudgetLimit, bytes: int64, at: Instant, result: Result<Reservation, ReserveError>)

  /** A denial reports the stored usage of that day, and one more mutation would exceed a limit that is set, or an int64. */
  ghost predicate DeniedRightly(instance: string, ask: Ask) {
    ask.result.Ok? && !ask.result.value.allowed ==>
      var attempts, used := ask.result.value.usedAttempts, ask.result.value.usedBytes;
      && Counter(ask.at.db, ask.at.now, BudgetKeyOf(instance, ask.day, ask.kind, ATTEMPTS)) == Some(attempts)
      && Counter(ask.at.db, ask.at.now, BudgetKeyOf(instance, ask.day, ask.kind, BYTES)) == Some(used)
      && (attempts + 1 > (if ask.limit.attempts > 0 then ask.limit.attempts else MAX_INT64) ||
          used + ask.bytes > (if ask.limit.bytes > 0 then ask.limit.bytes else MAX_INT64))
  }

  /** The usage a grant reports: the counters it leaves, as far as a Lua number can tell. */
  ghost predicate Reported(r: Reservation, db: Db, now: int, attemptKey: string, byteKey: string, bytes: nat) {
    && Counter(db, now, attemptKey).Some? && Counter(db, now, byteKey).Some?
    && Tells(r.usedAttempts, Counter(db, now, attemptKey).value + 1)
    && if bytes == 0 then r.usedBytes == Counter(db, now, byteKey).value else Tells(r.usedBytes, Counter(db, now, byteKey).value + bytes)
  }

  /** Rounded to a double, and left open only where that is no int64. */
  ghost predicate Tells(told: int, stored: nat) {
    IntegerReply(stored).Some? ==> told == IntegerReply(stored).value
  }

  datatype ReserveError = InvalidKind | InvalidReservation | EvalFailed

  predicate ValidKind(kind: string) {
    kind == TRANSITION || kind == RESTORE
  }

  predicate Unlimited(limit: BudgetLimit) {
    limit.attempts == 0 && limit.bytes == 0
  }

  /** A limit of zero stands for none. */
  function Cap(limit: int64): int64 {
    if limit == 0 then MAX_INT64 else limit
  }

  function KeyOfTime(instance: string, clock: Time, kind: string, what: string): string
    requires clock >= ZERO_TIME
  {
    var h := Civil(HourOf(clock));
    BudgetKey(instance, h.year, h.month, h.day, kind + what)
  }

  function BudgetKeyOf(instance: string, day: nat, kind: string, what: string): string {
    var h := Civil(24 * day);
    BudgetKey(instance, h.year, h.month, h.day, kind + what)
  }

  /** The second at which a day's budget expires, three days after it begins. */
  function DayDeadline(day: nat): int {
    Unix(StartOf(24 * day) + 72 * HOUR)
  }

  predicate Room(db: Db, now: int, attemptKey: string, byteKey: string, limit: BudgetLimit, bytes: int) {
    && Counter(db, now, attemptKey).Some? && Counter(db, now, byteKey).Some?
    && Counter(db, now, attemptKey).value + 1 <= Cap(limit.attempts)
    && Counter(db, now, byteKey).value + bytes <= Cap(limit.bytes)
  }

  /** There was room, and exactly this reservation was charged to its day. */
  ghost predicate Reserved(db: Db, db': Db, now: int, instance: string, day: nat, kind: string, limit: BudgetLimit, bytes: nat) {
    var a, b := BudgetKeyOf(instance, day, kind, ATTEMPTS), BudgetKeyOf(instance, day, kind, BYTES);
    Room(db, now, a, b, limit, bytes) && Charged(db, db', now, a, b, bytes, DayDeadline(day))
  }

  /**
   The usage a grant reports is the usage stored after it, as a Lua number tells it; up to 2^53
   that is the stored usage itself.
   */
  lemma GrantReportsWhatItLeaves(r: Reservation, db: Db, db': Db, now: int, instance: string, day: nat, kind: string, limit: BudgetLimit, bytes: nat)
    requires Reserved(db, db', now, instance, day, kind, limit, bytes) && now < DayDeadline(day) * 1000
    requires Reported(r, db, now, BudgetKeyOf(instance, day, kind, ATTEMPTS), BudgetKeyOf(instance, day, kind, BYTES), bytes)
    ensures var a, b := Counter(db', now, BudgetKeyOf(instance, day, kind, ATTEMPTS)), Counter(db', now, BudgetKeyOf(instance, day, kind, BYTES));
            && a.Some? && b.Some? && Tells(r.usedAttempts, a.value) && (Tells(r.usedBytes, b.value) || (bytes == 0 && r.usedBytes == b.value))
            && (a.value <= TWO_53 ==> r.usedAttempts == a.value) && (b.value <= TWO_53 ==> r.usedBytes == b.value)
  {
    hide Counter, IntegerReply, DayDeadline, BudgetKeyOf, Raise, C.EntryAt;
    var x, y := BudgetKeyOf(instance, day, kind, ATTEMPTS), BudgetKeyOf(instance, day, kind, BYTES);
    RaisedCounter(db, db', now, x, 1, DayDeadline(day));
    if bytes > 0 {
      RaisedCounter(db, db', now, y, bytes, DayDeadline(day));
    } else {
      CounterOfEntry(db, db', now, y);
    }
    var a, b := Counter(db', now, x).value, Counter(db', now, y).value;
    if a <= TWO_53 {
      SmallRepliesAreExact(a);
    }
    if b <= TWO_53 {
      SmallRepliesAreExact(b);
    }
  }

  lemma KeyOfTimeIsOfDay(instance: string, clock: Time, kind: string, what: string)
    requires clock >= ZERO_TIME
    ensures KeyOfTime(instance, clock, kind, what) == BudgetKeyOf(instance, DayOf(clock), kind, what)
  {
    hide Civil, BudgetKey;
    DayOfBounds(clock);
  }

  lemma SuffixesDiffer(k1: string, w1: string, k2: string, w2: string)
    requires ValidKind(k1) && ValidKind(k2) && w1 in [ATTEMPTS, BYTES] && w2 in [ATTEMPTS, BYTES]
    ensures k1 + w1 == k2 + w2 ==> k1 == k2 && w1 == w2
    ensures ColonFree(k1 + w1)
  {
    assert |TRANSITION| == 10 && |RESTORE| == 7 && |ATTEMPTS| == 9 && |BYTES| == 6;
    assert (k1 + w1)[0] == k1[0] && (k2 + w2)[0] == k2[0];
    assert TRANSITION[0] == 't' && RESTORE[0] == 'r';
  }

  /** No two days, kinds or quantities share a budget key. */
  lemma BudgetKeysDiffer(instance: string, d1: nat, k1: string, w1: string, d2: nat, k2: string, w2: string)
    requires ValidInstanceID(instance)
    requires ValidKind(k1) && ValidKind(k2) && w1 in [ATTEMPTS, BYTES] && w2 in [ATTEMPTS, BYTES]
    ensures BudgetKeyOf(instance, d1, k1, w1) == BudgetKeyOf(instance, d2, k2, w2) ==> d1 == d2 && k1 == k2 && w1 == w2
  {
    hide Civil, Padded, Join, Qualified, ValidKind, ValidInstanceID;
    if BudgetKeyOf(instance, d1, k1, w1) == BudgetKeyOf(instance, d2, k2, w2) {
      var x, y := Civil(24 * d1), Civil(24 * d2);
      var p := [instance, "budget", Padded(x.year, 4), Padded(x.month, 2), Padded(x.day, 2), k1 + w1];
      var q := [instance, "budget", Padded(y.year, 4), Padded(y.month, 2), Padded(y.day, 2), k2 + w2];
      BudgetPartsColonFree(instance, d1, k1, w1);
      BudgetPartsColonFree(instance, d2, k2, w2);
      QualifiedInjective(p, q);
      assert p[2] == q[2] && p[3] == q[3] && p[4] == q[4] && p[5] == q[5];
      SameDate(d1, d2);
      SuffixesDiffer(k1, w1, k2, w2);
    }
  }

  lemma BudgetPartsColonFree(instance: string, day: nat, kind: string, what: string)
    requires ValidInstanceID(instance) && ValidKind(kind) && what in [ATTEMPTS, BYTES]
    ensures var h := Civil(24 * day);
            AllColonFree([instance, "budget", Padded(h.year, 4), Padded(h.month, 2), Padded(h.day, 2), kind + what])
  {
    hide Civil, Padded, ValidKind, ValidInstanceID;
    var h := Civil(24 * day);
    InstanceHasNoColon(instance);
    PaddedIsFaithful(h.year, 4);
    PaddedIsFaithful(h.month, 2);
    PaddedIsFaithful(h.day, 2);
    SuffixesDiffer(kind, what, kind, what);
  }

  lemma SameDate(d1: nat, d2: nat)
    requires var x, y := Civil(24 * d1), Civil(24 * d2);
             Padded(x.year, 4) == Padded(y.year, 4) && Padded(x.month, 2) == Padded(y.month, 2) && Padded(x.day, 2) == Padded(y.day, 2)
    ensures d1 == d2
  {
    hide Civil, Padded;
    var x, y := Civil(24 * d1), Civil(24 * d2);
    PaddedIsFaithful(x.year, 4);
    PaddedIsFaithful(x.month, 2);
    PaddedIsFaithful(x.day, 2);
    PaddedIsFaithful(y.year, 4);
    PaddedIsFaithful(y.month, 2);
    PaddedIsFaithful(y.day, 2);
    DateInjective(d1, d2);
  }

  /** The text of the arguments says what the numbers say. */
  lemma RenderedQuota(db: Db, now: int, attemptKey: string, byteKey: string, limit: BudgetLimit, bytes: int64)
    requires limit.attempts >= 0 && limit.bytes >= 0 && bytes >= 0
    ensures var q := Quota(D.Render(Cap(limit.attempts)), D.Render(Cap(limit.bytes)), D.Render(bytes));
            && Within(db, now, attemptKey, byteKey, q) == Room(db, now, attemptKey, byteKey, limit, bytes)
            && ValidQuota(q) && ValidUintValue(q.byteDelta).value == bytes
  {
    hide Counter, D.ValidUint, D.Render;
    RenderedUint(Cap(limit.attempts));
    RenderedUint(Cap(limit.bytes));
    RenderedUint(bytes);
  }

  lemma RenderedUint(n: nat)
    requires n <= MAX_INT64
    ensures D.ValidUint(D.Render(n)) && ValidUintValue(D.Render(n)).value == n
    ensures D.Render(n) == "0" <==> n == 0
  {
    hide D.ValidUint;
    D.ValidUintOfRender(n);
    D.RenderIsCanonical(n);
    assert D.Render(0) == "0";
    if D.Render(n) == "0" {
      D.RenderInjective(n, 0);
    }
  }

  /** A day's budget outlives the day by two more, and its date is one EXPIREAT takes. */
  lemma ExpiryOfDay(clock: Time)
    requires 0 <= clock <= LAST_TIME
    ensures Unix(Truncate(clock, DAY) + 72 * HOUR) == DayDeadline(DayOf(clock))
    ensures ExpirySecond(D.Render(DayDeadline(DayOf(clock)))) == Some(DayDeadline(DayOf(clock)))
    ensures clock + 2 * DAY < DayDeadline(DayOf(clock)) * SECOND
  {
    hide Civil, D.Render, StartOf, DayOf, Truncate, Unix;
    DayOfBounds(clock);
    StartOfIsWhole(24 * DayOf(clock));
    DeadlineSecond(StartOf(24 * DayOf(clock)), clock);
    ParseOfRender(DayDeadline(DayOf(clock)));
  }

  lemma DeadlineSecond(start: Time, clock: Time)
    requires start % SECOND == 0 && start <= clock < start + DAY && 0 <= clock <= LAST_TIME
    ensures 0 <= Unix(start + 72 * HOUR) <= MAX_EXPIRE_SECONDS
    ensures clock + 2 * DAY < Unix(start + 72 * HOUR) * SECOND
  {
    WholeSeconds(start + 72 * HOUR);
  }

  lemma LimitIsSmall(limit: string)
    requires D.ValidUint(limit)
    ensures ValidUintValue(limit).value <= D.MAX_INT64
  {}

  lemma DeltaIsZero(delta: string)
    requires D.ValidUint(delta)
    ensures delta == "0" <==> ValidUintValue(delta).value == 0
  {
    D.ValidUintExact(delta);
    D.RenderOfValue(delta);
    assert D.Render(0) == "0";
    D.RenderIsCanonical(0);
  }

  lemma CounterOfEntry(db: Db, db': Db, now: int, key: string)
    requires C.EntryAt(db, key) == C.EntryAt(db', key)
    ensures Counter(db, now, key) == Counter(db', now, key)
    ensures forall delta, at :: Counter(db, now, key).Some? ==> Raise(db, now, key, delta, at) == Raise(db', now, key, delta, at)
  {}

  /**
   The usage a grant reports is the usage it stored exactly when that number has at most 53
   significant bits; the stored budget itself is exact in every case.
   */
  lemma ReportedUsageExact(stored: nat)
    requires stored <= D.MAX_INT64
    ensures IntegerReply(stored) == Some(stored) <==> stored % Spacing(stored) == 0
    ensures stored <= TWO_53 ==> IntegerReply(stored) == Some(stored)
  {
    IntegerReplyExact(stored);
    if stored <= TWO_53 {
      SmallRepliesAreExact(stored);
    }
  }
}
