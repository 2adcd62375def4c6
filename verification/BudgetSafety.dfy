/**
 Mutations against budgets over whole runs: what was charged to a day never exceeds what is
 stored for it, and what is stored never exceeds the limit.
 */
module BudgetSafety {
  import opened Wrappers
  import opened GoTypes
  import opened Text
  import opened Redis
  import opened Calendar
  import opened Contracts
  import opened Budget
  import C = CounterScript
  import D = Decimal

  /** One mutation call, charged to the day its reservation was made on. */
  datatype Charge = Charge(day: nat, kind: string, bytes: nat)

  function Attempts(charges: seq<Charge>, day: nat, kind: string): nat {
    if charges == [] then 0
    else
      var last := charges[|charges| - 1];
      Attempts(charges[..|charges| - 1], day, kind) + if last.day == day && last.kind == kind then 1 else 0
  }

  function BytesCharged(charges: seq<Charge>, day: nat, kind: string): nat {
    if charges == [] then 0
    else
      var last := charges[|charges| - 1];
      BytesCharged(charges[..|charges| - 1], day, kind) + if last.day == day && last.kind == kind then last.bytes else 0
  }

  datatype Budgets = Budgets(instance: string, transition: BudgetLimit, restore: BudgetLimit)

  function LimitOf(b: Budgets, kind: string): BudgetLimit {
    if kind == TRANSITION then b.transition else b.restore
  }

  predicate ValidBudgets(b: Budgets) {
    && ValidInstanceID(b.instance)
    && b.transition.attempts >= 0 && b.transition.bytes >= 0 && b.restore.attempts >= 0 && b.restore.bytes >= 0
  }

  /** The stored counter lives until the deadline of its day and lies between the charges and the limit. */
  ghost predicate Covers(db: Db, now: int, key: string, charged: nat, cap: int, day: nat) {
    && key in db && db[key].expireAt == Some(DayDeadline(day) * 1000)
    && Counter(db, now, key).Some? && charged <= Counter(db, now, key).value <= cap
  }

  ghost predicate WithinBudget(b: Budgets, charges: seq<Charge>, day: nat, kind: string) {
    var limit := LimitOf(b, kind);
    Unlimited(limit) ||
    (Attempts(charges, day, kind) <= Cap(limit.attempts) && BytesCharged(charges, day, kind) <= Cap(limit.bytes))
  }

  /** Until its deadline a day's stored budget covers everything charged to it. */
  ghost predicate Stored(b: Budgets, db: Db, now: int, charges: seq<Charge>, day: nat, kind: string) {
    var limit := LimitOf(b, kind);
    !Unlimited(limit) && now < DayDeadline(day) * 1000 ==>
    && (Attempts(charges, day, kind) > 0 ==>
          Covers(db, now, BudgetKeyOf(b.instance, day, kind, ATTEMPTS), Attempts(charges, day, kind), Cap(limit.attempts), day))
    && (BytesCharged(charges, day, kind) > 0 ==>
          Covers(db, now, BudgetKeyOf(b.instance, day, kind, BYTES), BytesCharged(charges, day, kind), Cap(limit.bytes), day))
  }

  ghost predicate BudgetInv(b: Budgets, db: Db, now: int, charges: seq<Charge>) {
    && ValidBudgets(b)
    && forall day: nat, kind: string :: ValidKind(kind) ==>
         WithinBudget(b, charges, day, kind) && Stored(b, db, now, charges, day, kind)
  }

  lemma NothingCharged(b: Budgets, db: Db, now: int)
    requires ValidBudgets(b)
    ensures BudgetInv(b, db, now, [])
  {}

  lemma ChargeAppends(charges: seq<Charge>, c: Charge, day: nat, kind: string)
    ensures Attempts(charges + [c], day, kind) == Attempts(charges, day, kind) + if c.day == day && c.kind == kind then 1 else 0
    ensures BytesCharged(charges + [c], day, kind) == BytesCharged(charges, day, kind) + if c.day == day && c.kind == kind then c.bytes else 0
  {
    assert (charges + [c])[..|charges|] == charges;
  }

  // ---- Time and other writers ----

  lemma CoversLater(db: Db, now: int, later: int, key: string, charged: nat, cap: int, day: nat)
    requires Covers(db, now, key, charged, cap, day) && now <= later < DayDeadline(day) * 1000
    ensures Covers(db, later, key, charged, cap, day)
  {
    hide D.ValidUint, DayDeadline;
  }

  /** A day's budget cannot expire before its deadline, which lies two days after the day. */
  lemma TimeKeepsBudgets(b: Budgets, db: Db, now: int, later: int, charges: seq<Charge>)
    requires BudgetInv(b, db, now, charges) && now <= later
    ensures BudgetInv(b, db, later, charges)
  {
    hide Covers, DayDeadline, BudgetKeyOf, ValidKind, Unlimited;
    forall day: nat, kind: string | ValidKind(kind)
      ensures Stored(b, db, later, charges, day, kind)
    {
      assert Stored(b, db, now, charges, day, kind);
      if later < DayDeadline(day) * 1000 && !Unlimited(LimitOf(b, kind)) {
        if Attempts(charges, day, kind) > 0 {
          CoversLater(db, now, later, BudgetKeyOf(b.instance, day, kind, ATTEMPTS), Attempts(charges, day, kind), Cap(LimitOf(b, kind).attempts), day);
        }
        if BytesCharged(charges, day, kind) > 0 {
          CoversLater(db, now, later, BudgetKeyOf(b.instance, day, kind, BYTES), BytesCharged(charges, day, kind), Cap(LimitOf(b, kind).bytes), day);
        }
      }
    }
  }

  lemma CoversDependsOnEntry(db: Db, db': Db, now: int, key: string, charged: nat, cap: int, day: nat)
    requires Covers(db, now, key, charged, cap, day) && C.EntryAt(db', key) == C.EntryAt(db, key)
    ensures Covers(db', now, key, charged, cap, day)
  {
    hide D.ValidUint, DayDeadline;
  }

  ghost predicate SameBudgets(instance: string, db: Db, db': Db) {
    forall day: nat, kind: string, what: string :: ValidKind(kind) && what in [ATTEMPTS, BYTES] ==>
      C.EntryAt(db', BudgetKeyOf(instance, day, kind, what)) == C.EntryAt(db, BudgetKeyOf(instance, day, kind, what))
  }

  lemma OthersKeepBudgets(b: Budgets, db: Db, db': Db, now: int, charges: seq<Charge>)
    requires BudgetInv(b, db, now, charges) && SameBudgets(b.instance, db, db')
    ensures BudgetInv(b, db', now, charges)
  {
    hide Covers, DayDeadline, BudgetKeyOf, ValidKind, Unlimited, C.EntryAt;
    forall day: nat, kind: string | ValidKind(kind)
      ensures Stored(b, db', now, charges, day, kind)
    {
      assert Stored(b, db, now, charges, day, kind);
      assert ATTEMPTS in [ATTEMPTS, BYTES] && BYTES in [ATTEMPTS, BYTES];
      SameStored(b, db, db', now, charges, day, kind);
    }
  }

  lemma SameStored(b: Budgets, db: Db, db': Db, now: int, charges: seq<Charge>, day: nat, kind: string)
    requires Stored(b, db, now, charges, day, kind)
    requires C.EntryAt(db', BudgetKeyOf(b.instance, day, kind, ATTEMPTS)) == C.EntryAt(db, BudgetKeyOf(b.instance, day, kind, ATTEMPTS))
    requires C.EntryAt(db', BudgetKeyOf(b.instance, day, kind, BYTES)) == C.EntryAt(db, BudgetKeyOf(b.instance, day, kind, BYTES))
    ensures Stored(b, db', now, charges, day, kind)
  {
    hide Covers, DayDeadline, BudgetKeyOf, Unlimited, C.EntryAt;
    if !Unlimited(LimitOf(b, kind)) && now < DayDeadline(day) * 1000 {
      if Attempts(charges, day, kind) > 0 {
        CoversDependsOnEntry(db, db', now, BudgetKeyOf(b.instance, day, kind, ATTEMPTS), Attempts(charges, day, kind), Cap(LimitOf(b, kind).attempts), day);
      }
      if BytesCharged(charges, day, kind) > 0 {
        CoversDependsOnEntry(db, db', now, BudgetKeyOf(b.instance, day, kind, BYTES), BytesCharged(charges, day, kind), Cap(LimitOf(b, kind).bytes), day);
      }
    }
  }

  /** The updaters' counters are no budget keys, so counting accesses leaves the budgets alone. */
  lemma AccessWritesKeepBudgets(b: Budgets, writer: string, bucket: Name, name: Name, hour: nat, db: Db, entry: Entry)
    requires ValidInstanceID(b.instance) && AccessKey(writer, bucket, name, hour).Ok?
    ensures SameBudgets(b.instance, db, db[AccessKey(writer, bucket, name, hour).value := entry])
  {
    hide AccessKey, BudgetKey, Civil, ValidInstanceID, ValidKind;
    forall day: nat, kind: string, what: string | ValidKind(kind) && what in [ATTEMPTS, BYTES]
      ensures BudgetKeyOf(b.instance, day, kind, what) != AccessKey(writer, bucket, name, hour).value
    {
      var h := Civil(24 * day);
      SuffixesDiffer(kind, what, kind, what);
      AccessKeyIsNoOtherKey(writer, bucket, name, hour, b.instance, "", h.year, h.month, h.day, kind + what);
    }
  }

  // ---- Reservations ----

  lemma RaiseCovers(db: Db, db': Db, now: int, key: string, charged: nat, delta: nat, cap: int, day: nat)
    requires Counter(db, now, key).Some? && charged <= Counter(db, now, key).value
    requires Counter(db, now, key).value + delta <= cap <= MAX_INT64 && now < DayDeadline(day) * 1000
    requires C.EntryAt(db', key) == Raise(db, now, key, delta, DayDeadline(day))
    ensures Covers(db', now, key, charged, cap, day) && Covers(db', now, key, charged + delta, cap, day)
  {
    hide D.ValidUint, D.Render, DayDeadline, Counter;
    RaisedCounter(db, db', now, key, delta, DayDeadline(day));
  }

  /** What was charged so far is at most what is stored. */
  lemma ChargedSoFar(b: Budgets, db: Db, now: int, charges: seq<Charge>, day: nat, kind: string)
    requires BudgetInv(b, db, now, charges) && ValidKind(kind) && !Unlimited(LimitOf(b, kind)) && now < DayDeadline(day) * 1000
    ensures var k := BudgetKeyOf(b.instance, day, kind, ATTEMPTS);
            Counter(db, now, k).Some? ==> Attempts(charges, day, kind) <= Counter(db, now, k).value
    ensures var k := BudgetKeyOf(b.instance, day, kind, BYTES);
            Counter(db, now, k).Some? ==> BytesCharged(charges, day, kind) <= Counter(db, now, k).value
  {
    hide D.ValidUint, DayDeadline, BudgetKeyOf, Counter, ValidKind, Unlimited;
    assert Stored(b, db, now, charges, day, kind);
  }

  /** The day and kind a reservation was made for: stored before and after the mutation call. */
  lemma ReservedDay(b: Budgets, db: Db, db': Db, now: int, charges: seq<Charge>, day: nat, kind: string, bytes: nat)
    requires BudgetInv(b, db, now, charges) && ValidKind(kind) && !Unlimited(LimitOf(b, kind)) && now < DayDeadline(day) * 1000
    requires Reserved(db, db', now, b.instance, day, kind, LimitOf(b, kind), bytes)
    ensures Stored(b, db', now, charges, day, kind)
    ensures var after := charges + [Charge(day, kind, bytes)];
            Stored(b, db', now, after, day, kind) && WithinBudget(b, after, day, kind)
  {
    hide D.ValidUint, DayDeadline, BudgetKeyOf, Counter, ValidKind, Unlimited, C.EntryAt, Raise, Covers;
    var limit, a, y := LimitOf(b, kind), BudgetKeyOf(b.instance, day, kind, ATTEMPTS), BudgetKeyOf(b.instance, day, kind, BYTES);
    ChargedSoFar(b, db, now, charges, day, kind);
    ChargeAppends(charges, Charge(day, kind, bytes), day, kind);
    RaiseCovers(db, db', now, a, Attempts(charges, day, kind), 1, Cap(limit.attempts), day);
    if bytes > 0 {
      RaiseCovers(db, db', now, y, BytesCharged(charges, day, kind), bytes, Cap(limit.bytes), day);
    } else if BytesCharged(charges, day, kind) > 0 {
      assert Stored(b, db, now, charges, day, kind);
      CoversDependsOnEntry(db, db', now, y, BytesCharged(charges, day, kind), Cap(limit.bytes), day);
    }
  }

  lemma OtherDay(b: Budgets, db: Db, db': Db, now: int, charges: seq<Charge>, day: nat, kind: string, bytes: nat, d: nat, k: string)
    requires BudgetInv(b, db, now, charges) && ValidKind(kind) && ValidKind(k) && (d != day || k != kind)
    requires Reserved(db, db', now, b.instance, day, kind, LimitOf(b, kind), bytes)
    ensures Stored(b, db', now, charges, d, k) && Stored(b, db', now, charges + [Charge(day, kind, bytes)], d, k)
    ensures WithinBudget(b, charges + [Charge(day, kind, bytes)], d, k)
  {
    hide D.ValidUint, DayDeadline, BudgetKeyOf, Counter, ValidKind, Unlimited, C.EntryAt, Raise, Covers, Attempts, BytesCharged;
    BudgetKeysDiffer(b.instance, d, k, ATTEMPTS, day, kind, ATTEMPTS);
    BudgetKeysDiffer(b.instance, d, k, ATTEMPTS, day, kind, BYTES);
    BudgetKeysDiffer(b.instance, d, k, BYTES, day, kind, ATTEMPTS);
    BudgetKeysDiffer(b.instance, d, k, BYTES, day, kind, BYTES);
    assert Stored(b, db, now, charges, d, k) && WithinBudget(b, charges, d, k);
    SameStored(b, db, db', now, charges, d, k);
    ChargeAppends(charges, Charge(day, kind, bytes), d, k);
  }

  /**
   A granted reservation pays for one mutation: the books stay in order whether the mutation is
   then called or, after a crash or an ambiguous reply, never is.
   */
  lemma ReservationPaysForOne(b: Budgets, db: Db, db': Db, now: int, charges: seq<Charge>, day: nat, kind: string, bytes: nat)
    requires BudgetInv(b, db, now, charges) && ValidKind(kind) && !Unlimited(LimitOf(b, kind)) && now < DayDeadline(day) * 1000
    requires Reserved(db, db', now, b.instance, day, kind, LimitOf(b, kind), bytes)
    ensures BudgetInv(b, db', now, charges)
    ensures BudgetInv(b, db', now, charges + [Charge(day, kind, bytes)])
  {
    hide Stored, WithinBudget, Reserved, ValidKind, Unlimited, DayDeadline;
    ReservedDay(b, db, db', now, charges, day, kind, bytes);
    forall d: nat, k: string | ValidKind(k) && (d != day || k != kind)
      ensures Stored(b, db', now, charges, d, k) && Stored(b, db', now, charges + [Charge(day, kind, bytes)], d, k)
      ensures WithinBudget(b, charges + [Charge(day, kind, bytes)], d, k)
    {
      OtherDay(b, db, db', now, charges, day, kind, bytes, d, k);
    }
  }

  /** A kind without limits is neither counted nor bounded. */
  lemma UnlimitedChargesAreFree(b: Budgets, db: Db, now: int, charges: seq<Charge>, day: nat, kind: string, bytes: nat)
    requires BudgetInv(b, db, now, charges) && ValidKind(kind) && Unlimited(LimitOf(b, kind))
    ensures BudgetInv(b, db, now, charges + [Charge(day, kind, bytes)])
  {
    hide Covers, DayDeadline, ValidKind, Unlimited, Attempts, BytesCharged;
    forall d: nat, k: string | ValidKind(k)
      ensures Stored(b, db, now, charges + [Charge(day, kind, bytes)], d, k)
      ensures WithinBudget(b, charges + [Charge(day, kind, bytes)], d, k)
    {
      assert Stored(b, db, now, charges, d, k) && WithinBudget(b, charges, d, k);
      ChargeAppends(charges, Charge(day, kind, bytes), d, k);
    }
  }

  // ---- Whole runs ----

  /** Redis, the mutations called so far, and a grant whose mutation has not been called yet. */
  datatype Books = Books(db: Db, now: int, charges: seq<Charge>, granted: Option<Charge>)

  /**
   Reserves: the script granted; its reply may be on its way or lost. Mutates: the call a grant
   pays for. Forgets: a crash, a lost reply or any other way not to use a grant.
   */
  datatype Deed =
    | Waits(delay: nat)
    | Counts(writer: string, bucket: Name, name: Name, hour: nat, entry: Entry)
    | Reserves(clock: Time, kind: string, bytes: nat, db': Db)
    | NeedsNone(clock: Time, kind: string, bytes: nat)
    | Mutates
    | Forgets

  /** The two clocks are less than two days apart, so a day's budget is not yet due. */
  ghost predicate InTime(now: int, clock: Time) {
    clock >= ZERO_TIME && now < DayDeadline(DayOf(clock)) * 1000
  }

  ghost function Do(b: Budgets, s: Books, d: Deed): Option<Books> {
    match d
    case Waits(delay) => Some(s.(now := s.now + delay))
    case Counts(writer, bucket, name, hour, entry) =>
      (match AccessKey(writer, bucket, name, hour)
       case Err(_) => None
       case Ok(key) => Some(s.(db := s.db[key := entry])))
    case Reserves(clock, kind, bytes, db') =>
      if ValidKind(kind) && !Unlimited(LimitOf(b, kind)) && InTime(s.now, clock)
         && Reserved(s.db, db', s.now, b.instance, DayOf(clock), kind, LimitOf(b, kind), bytes)
      then Some(s.(db := db', granted := Some(Charge(DayOf(clock), kind, bytes)))) else None
    case NeedsNone(clock, kind, bytes) =>
      if ValidKind(kind) && Unlimited(LimitOf(b, kind)) && InTime(s.now, clock)
      then Some(s.(granted := Some(Charge(DayOf(clock), kind, bytes)))) else None
    case Mutates =>
      if s.granted.Some? then Some(s.(charges := s.charges + [s.granted.value], granted := None)) else None
    case Forgets => Some(s.(granted := None))
  }

  ghost function DoAll(b: Budgets, db: Db, now: int, deeds: seq<Deed>): Option<Books> {
    if deeds == [] then Some(Books(db, now, [], None))
    else
      match DoAll(b, db, now, deeds[..|deeds| - 1])
      case None => None
      case Some(s) => Do(b, s, deeds[|deeds| - 1])
  }

  ghost predicate BooksInOrder(b: Budgets, s: Books) {
    && BudgetInv(b, s.db, s.now, s.charges)
    && (s.granted.Some? ==> BudgetInv(b, s.db, s.now, s.charges + [s.granted.value]))
  }

  lemma DeedKeepsOrder(b: Budgets, s: Books, d: Deed)
    requires BooksInOrder(b, s) && Do(b, s, d).Some?
    ensures BooksInOrder(b, Do(b, s, d).value)
  {
    hide BudgetInv, AccessKey, Reserved, ValidKind, Unlimited, InTime, DayDeadline, SameBudgets;
    BudgetsAreValid(b, s);
    var s' := Do(b, s, d).value;
    match d
    case Waits(delay) =>
      TimeKeepsBudgets(b, s.db, s.now, s'.now, s.charges);
      if s.granted.Some? {
        TimeKeepsBudgets(b, s.db, s.now, s'.now, s.charges + [s.granted.value]);
      }
    case Counts(writer, bucket, name, hour, entry) =>
      AccessWritesKeepBudgets(b, writer, bucket, name, hour, s.db, entry);
      OthersKeepBudgets(b, s.db, s'.db, s.now, s.charges);
      if s.granted.Some? {
        OthersKeepBudgets(b, s.db, s'.db, s.now, s.charges + [s.granted.value]);
      }
    case Reserves(clock, kind, bytes, db') =>
      OnTimeMeans(s.now, clock);
      ReservationPaysForOne(b, s.db, db', s.now, s.charges, DayOf(clock), kind, bytes);
    case NeedsNone(clock, kind, bytes) =>
      OnTimeMeans(s.now, clock);
      UnlimitedChargesAreFree(b, s.db, s.now, s.charges, DayOf(clock), kind, bytes);
    case Mutates =>
    case Forgets =>
  }

  lemma OnTimeMeans(now: int, clock: Time)
    requires InTime(now, clock)
    ensures clock >= ZERO_TIME && now < DayDeadline(DayOf(clock)) * 1000
  {}

  lemma BudgetsAreValid(b: Budgets, s: Books)
    requires BooksInOrder(b, s)
    ensures ValidBudgets(b)
  {}

  lemma {:induction false} RunKeepsOrder(b: Budgets, db: Db, now: int, deeds: seq<Deed>)
    requires ValidBudgets(b) && DoAll(b, db, now, deeds).Some?
    ensures BooksInOrder(b, DoAll(b, db, now, deeds).value)
  {
    hide Do, BooksInOrder;
    if deeds == [] {
      NothingInOrder(b, db, now);
    } else {
      RunKeepsOrder(b, db, now, deeds[..|deeds| - 1]);
      DeedKeepsOrder(b, DoAll(b, db, now, deeds[..|deeds| - 1]).value, deeds[|deeds| - 1]);
    }
  }

  lemma NothingInOrder(b: Budgets, db: Db, now: int)
    requires ValidBudgets(b)
    ensures BooksInOrder(b, Books(db, now, [], None))
  {
    NothingCharged(b, db, now);
  }

  /** The mutations of a day and kind stay within a limit, and so does what is stored for them. */
  ghost predicate Kept(limit: BudgetLimit, instance: string, db: Db, now: int, charges: seq<Charge>, day: nat, kind: string) {
    && (limit.attempts > 0 ==>
          && Attempts(charges, day, kind) <= limit.attempts
          && (Attempts(charges, day, kind) > 0 && now < DayDeadline(day) * 1000 ==>
                Covers(db, now, BudgetKeyOf(instance, day, kind, ATTEMPTS), Attempts(charges, day, kind), limit.attempts, day)))
    && (limit.bytes > 0 ==>
          && BytesCharged(charges, day, kind) <= limit.bytes
          && (BytesCharged(charges, day, kind) > 0 && now < DayDeadline(day) * 1000 ==>
                Covers(db, now, BudgetKeyOf(instance, day, kind, BYTES), BytesCharged(charges, day, kind), limit.bytes, day)))
  }

  /** Marks are held to the transition limits and restores to the restore limits of the configuration. */
  lemma LimitsAreKept(b: Budgets, db: Db, now: int, charges: seq<Charge>, day: nat)
    requires BudgetInv(b, db, now, charges)
    ensures Kept(b.transition, b.instance, db, now, charges, day, TRANSITION)
    ensures Kept(b.restore, b.instance, db, now, charges, day, RESTORE)
  {
    hide Covers, DayDeadline, BudgetKeyOf, Attempts, BytesCharged;
    assert TRANSITION[0] != RESTORE[0];
    assert WithinBudget(b, charges, day, TRANSITION) && Stored(b, db, now, charges, day, TRANSITION);
    assert WithinBudget(b, charges, day, RESTORE) && Stored(b, db, now, charges, day, RESTORE);
  }

  /**
   Over any run, with crashes, lost replies, other writers and whatever was stored before: the
   mutations charged to a day stay within the limits of their kind, and until two days after the
   day they are covered by what is stored, which stays within the limits too.
   */
  lemma BudgetsHoldOverRuns(b: Budgets, db: Db, now: int, deeds: seq<Deed>, day: nat)
    requires ValidBudgets(b) && DoAll(b, db, now, deeds).Some?
    ensures var s := DoAll(b, db, now, deeds).value;
            && (b.transition.attempts > 0 ==> Attempts(s.charges, day, TRANSITION) <= b.transition.attempts)
            && (b.transition.bytes > 0 ==> BytesCharged(s.charges, day, TRANSITION) <= b.transition.bytes)
            && (b.restore.attempts > 0 ==> Attempts(s.charges, day, RESTORE) <= b.restore.attempts)
            && (b.restore.bytes > 0 ==> BytesCharged(s.charges, day, RESTORE) <= b.restore.bytes)
            && Kept(b.transition, b.instance, s.db, s.now, s.charges, day, TRANSITION)
            && Kept(b.restore, b.instance, s.db, s.now, s.charges, day, RESTORE)
  {
    hide DoAll, Covers, DayDeadline, BudgetKeyOf, BudgetInv, Attempts, BytesCharged;
    RunKeepsOrder(b, db, now, deeds);
    var s := DoAll(b, db, now, deeds).value;
    LimitsAreKept(b, s.db, s.now, s.charges, day);
  }

  /** While its day lasts on a clock less than two days off, a budget key with charges is there. */
  lemma DayOutlived(now: int, clock: Time)
    requires 0 <= clock <= LAST_TIME && now * MILLISECOND < clock + 2 * DAY
    ensures InTime(now, clock)
  {
    ExpiryOfDay(clock);
    hide DayDeadline;
    assert DayDeadline(DayOf(clock)) * SECOND == DayDeadline(DayOf(clock)) * 1000 * MILLISECOND;
  }
}
