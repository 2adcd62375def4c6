/**
 From the updaters' runs to the tierer's verdict: the counts a verdict rests on are exactly the
 accesses that were applied, and those include all that were acknowledged.
 */
module LowDecision {
  import opened Wrappers
  import opened GoTypes
  import opened Text
  import opened Redis
  import opened RedisStore
  import opened Calendar
  import opened Contracts
  import opened Batch
  import opened Merge
  import opened Flush
  import opened Ledger
  import opened Ingest
  import P = Protocol
  import L = LedgerTheorems
  import R = Reads
  import E = Evaluator
  import D = Decimal

  // ---- Where requests come from ----

  /** One POST: its decoded records and when it was accepted. */
  datatype Arrival = Arrival(records: seq<Access>, acceptedAt: Time)

  /** The arrival behind every request, by updater process and number. */
  datatype Origin = Origin(instance: string, retention: int64, of: (nat, nat) -> Arrival)

  /** The job's request is what ingest makes of its arrival. */
  ghost predicate Originates(g: Origin, host: nat, job: Job) {
    var a := g.of(host, job.id);
    && a.records != [] && 0 <= a.acceptedAt <= LAST_TIME
    && CountsRecords(job.request, g.instance, a.records, HourOf(a.acceptedAt), CounterExpiry(a.acceptedAt, g.retention))
  }

  ghost function Good(g: Origin): (nat, Job) -> bool {
    (host: nat, job: Job) => Originates(g, host, job)
  }

  /** All requests of a run, to any updater, were built by ingest. */
  ghost predicate Ingests(db0: Db, now0: int, moves: seq<Move>, g: Origin) {
    L.Posts(db0, now0, moves, Good(g))
  }

  ghost predicate AllOriginate(g: Origin, posted: seq<Posted>) {
    forall i :: 0 <= i < |posted| ==> Originates(g, posted[i].host, posted[i].job)
  }

  lemma IngestedIsTimely(g: Origin)
    requires ValidateCounterRetention(g.retention)
    ensures L.OnlyTimely(Good(g))
  {
    hide CountsRecords, Timely, CounterExpiry, HourOf;
    forall host: nat, j: Job | Good(g)(host, j)
      ensures Timely(j.request)
    {
      var a := g.of(host, j.id);
      IngestExpiryIsInRange(a.acceptedAt, g.retention);
      TimelyRequest(j.request, g.instance, a.records, HourOf(a.acceptedAt), CounterExpiry(a.acceptedAt, g.retention));
    }
  }

  lemma TimelyRequest(request: Request, instance: string, records: seq<Access>, hour: nat, expiry: Time)
    requires CountsRecords(request, instance, records, hour, expiry) && 0 < Unix(expiry) <= MAX_EXPIRE_SECONDS
    ensures Timely(request)
  {
    hide RecordKey, SumDeltas, KeyTotal, Unix;
    IngestedTotal(request, instance, records, hour, expiry);
  }

  /** Ingested runs are exact, and everything applied goes back to an arrival. */
  lemma IngestedRun(db0: Db, now0: int, moves: seq<Move>, g: Origin)
    requires Play(db0, now0, moves).Some? && Ingests(db0, now0, moves, g) && ValidateCounterRetention(g.retention)
    ensures Play(db0, now0, moves).value.exact && AllOriginate(g, Play(db0, now0, moves).value.applied)
    ensures L.AllGood(Play(db0, now0, moves).value, Good(g))
  {
    hide Play, L.Posts, Originates, L.OnlyTimely;
    IngestedIsTimely(g);
    L.TimelyRunsAreExact(db0, now0, moves, Good(g));
    L.PlayKeepsGood(db0, now0, moves, Good(g));
  }

  // ---- What one counter holds ----

  /** The accesses of one request to an object, if it arrived in [from, to). */
  ghost function Share(a: Arrival, o: Access, from: int, to: int): nat {
    if a.acceptedAt >= ZERO_TIME && from <= HourOf(a.acceptedAt) < to then Accesses(a.records, o) else 0
  }

  /** Accesses of an object whose arrival hour lies in [from, to), over applied requests. */
  ghost function AccessesBetween(posted: seq<Posted>, g: Origin, o: Access, from: int, to: int): nat {
    if posted == [] then 0
    else
      var last := posted[|posted| - 1];
      AccessesBetween(posted[..|posted| - 1], g, o, from, to) + Share(g.of(last.host, last.job.id), o, from, to)
  }

  /** The total of an object's key over the applied requests is its number of applied accesses of that hour. */
  lemma {:induction false} TotalIsAccesses(posted: seq<Posted>, g: Origin, o: Access, hour: nat)
    requires AllOriginate(g, posted) && RecordKey(g.instance, o, hour).Ok?
    ensures KeyTotal(Flat(JobsOf(posted)), RecordKey(g.instance, o, hour).value) == AccessesBetween(posted, g, o, hour, hour + 1)
  {
    hide RecordKey, KeyTotal, CountsRecords, HourOf, CounterExpiry;
    var key := RecordKey(g.instance, o, hour).value;
    if posted != [] {
      var front, last := posted[..|posted| - 1], posted[|posted| - 1];
      TotalIsAccesses(front, g, o, hour);
      assert JobsOf(posted) == JobsOf(front) + [last.job];
      FlatAppends(JobsOf(front), last.job);
      L.KeyTotalConcat(Flat(JobsOf(front)), last.job.request.increments, key);
      assert Originates(g, last.host, last.job);
      var a := g.of(last.host, last.job.id);
      RequestKeyTotal(last.job.request, g.instance, a.records, HourOf(a.acceptedAt), CounterExpiry(a.acceptedAt, g.retention), o, hour);
    } else {
      assert JobsOf(posted) == [];
      NoIncrements(key);
    }
  }

  lemma NoIncrements(key: string)
    ensures KeyTotal(Flat([]), key) == 0
  {}

  // ---- When one counter expires ----

  /** The second at which the counters of an hour expire. */
  function HourDeadline(g: Origin, hour: nat): int {
    Unix(CounterExpiry(StartOf(hour), g.retention))
  }

  /** A key of an hour carries that hour's deadline, and is only given up once that has come. */
  ghost predicate Dated(b: Book, key: string, deadline: int) {
    && (key in b.db ==> b.db[key].expireAt == Some(deadline * 1000))
    && (key in b.expired ==> deadline * 1000 <= b.now)
  }

  /** Whoever counts under an object's key of an hour arrived in that hour, and dates it alike. */
  lemma {:induction false} KeyHasOneDeadline(jobs: seq<Job>, host: nat, g: Origin, o: Access, hour: nat, i: nat)
    requires forall k :: 0 <= k < |jobs| ==> Originates(g, host, jobs[k])
    requires i < |Flat(jobs)| && RecordKey(g.instance, o, hour) == Ok(Flat(jobs)[i].key)
    requires ValidateCounterRetention(g.retention)
    ensures Unix(Flat(jobs)[i].expireAt) == HourDeadline(g, hour)
  {
    hide RecordKey, CounterExpiry, HourOf, Unix;
    var front, last := jobs[..|jobs| - 1], jobs[|jobs| - 1];
    if i < |Flat(front)| {
      KeyHasOneDeadline(front, host, g, o, hour, i);
    } else {
      var j := i - |Flat(front)|;
      var increment, a := last.request.increments[j], g.of(host, last.id);
      assert Flat(jobs)[i] == increment;
      assert KeyOfSome(g.instance, a.records, HourOf(a.acceptedAt), increment.key);
      var k :| 0 <= k < |a.records| && RecordKey(g.instance, a.records[k], HourOf(a.acceptedAt)) == Ok(increment.key);
      SameKeySameHour(g.instance, a.records[k], HourOf(a.acceptedAt), o, hour);
      IngestExpiryIsInRange(a.acceptedAt, g.retention);
    }
  }

  lemma WriteKeepsDate(b: Book, m: Move, g: Origin, o: Access, hour: nat)
    requires L.FleetInv(b) && L.AllGood(b, Good(g)) && ValidateCounterRetention(g.retention)
    requires m.Flushes? && m.wrote && Take(b, m).Some?
    requires RecordKey(g.instance, o, hour).Ok? && Dated(b, RecordKey(g.instance, o, hour).value, HourDeadline(g, hour))
    ensures Dated(Take(b, m).value, RecordKey(g.instance, o, hour).value, HourDeadline(g, hour))
  {
    hide CounterScript.Run, Lists, Encodes, Counter, KeySet, Flat, KeyTotal, P.Step, P.Inv, L.Sandwich, RecordKey, HourDeadline, Originates, Exact,
         L.S.Present, L.OnlyTimely, KeyCommitted;
    var c, s := b.fleet[m.host].config, b.fleet[m.host].s;
    var batch, key := s.worker.batch, RecordKey(g.instance, o, hour).value;
    var b' := Take(b, m).value;
    IngestedIsTimely(g);
    L.GoodBatchIsExact(b, m.host, Good(g));
    L.BatchAccepted(c, s);
    FlatPositive(c, batch);
    CommitExact(Flat(batch), m.increments, m.command, b.db, b.now);
    assert KeyCommitted(Flat(batch), b.db, b'.db, b.now, key);
    L.S.FlushedJobsArePresent(s);
    assert forall i :: 0 <= i < |batch| ==> Good(g)(m.host, batch[i]);
    CommittedDate(b, b', batch, m.host, g, o, hour);
  }

  /** A committed batch dates the key with its hour's deadline, or drops it when that has come. */
  lemma CommittedDate(b: Book, b': Book, batch: seq<Job>, host: nat, g: Origin, o: Access, hour: nat)
    requires forall i :: 0 <= i < |batch| ==> Originates(g, host, batch[i])
    requires ValidateCounterRetention(g.retention) && RecordKey(g.instance, o, hour).Ok?
    requires KeyCommitted(Flat(batch), b.db, b'.db, b.now, RecordKey(g.instance, o, hour).value)
    requires b'.now == b.now && b'.expired == b.expired + (KeySet(Flat(batch)) - b'.db.Keys)
    requires Dated(b, RecordKey(g.instance, o, hour).value, HourDeadline(g, hour))
    ensures Dated(b', RecordKey(g.instance, o, hour).value, HourDeadline(g, hour))
  {
    hide Counter, Flat, KeyTotal, RecordKey, HourDeadline, Originates;
    var key := RecordKey(g.instance, o, hour).value;
    if key in KeySet(Flat(batch)) {
      var e :| HoldsSum(Flat(batch), b.db, b'.db, b.now, key, e);
      var i :| 0 <= i < |Flat(batch)| && Flat(batch)[i].key == key && Flat(batch)[i].expireAt == e;
      KeyHasOneDeadline(batch, host, g, o, hour, i);
      assert Unix(e) == HourDeadline(g, hour);
    }
  }

  lemma MoveKeepsDate(b: Book, m: Move, g: Origin, o: Access, hour: nat)
    requires L.FleetInv(b) && L.AllGood(b, Good(g)) && ValidateCounterRetention(g.retention) && Take(b, m).Some?
    requires RecordKey(g.instance, o, hour).Ok? && Dated(b, RecordKey(g.instance, o, hour).value, HourDeadline(g, hour))
    ensures Dated(Take(b, m).value, RecordKey(g.instance, o, hour).value, HourDeadline(g, hour))
  {
    hide L.FleetInv, L.AllGood, P.Step, RecordKey, HourDeadline, FlushEffect, Write;
    if m.Flushes? && m.wrote {
      WriteKeepsDate(b, m, g, o, hour);
    }
  }

  /**
   What a run may find of an object's counter of an hour: nothing, or a counter an updater left
   there. Any state of it that the run's own writes keep is allowed for.
   */
  ghost predicate Seeded(db: Db, now: int, g: Origin, o: Access, hour: nat)
    requires RecordKey(g.instance, o, hour).Ok?
  {
    var key := RecordKey(g.instance, o, hour).value;
    Counter(db, now, key).Some? && (key in db ==> db[key].expireAt == Some(HourDeadline(g, hour) * 1000))
  }

  lemma {:induction false} PlayKeepsDate(db0: Db, now0: int, moves: seq<Move>, g: Origin, o: Access, hour: nat)
    requires Play(db0, now0, moves).Some? && Ingests(db0, now0, moves, g) && ValidateCounterRetention(g.retention)
    requires RecordKey(g.instance, o, hour).Ok? && Seeded(db0, now0, g, o, hour)
    ensures Dated(Play(db0, now0, moves).value, RecordKey(g.instance, o, hour).value, HourDeadline(g, hour))
  {
    hide Take, L.FleetInv, L.Balanced, RecordKey, HourDeadline, L.AllGood, Counter;
    if moves != [] {
      var front := moves[..|moves| - 1];
      PlayKeepsDate(db0, now0, front, g, o, hour);
      L.PlayKeepsBookInv(db0, now0, front);
      L.PlayKeepsGood(db0, now0, front, Good(g));
      MoveKeepsDate(Play(db0, now0, front).value, moves[|moves| - 1], g, o, hour);
    }
  }

  /** One retention after its hour has ended an object's counter of that hour is gone, and no sooner by its own date. */
  lemma CounterIsGone(db0: Db, now0: int, moves: seq<Move>, g: Origin, o: Access, hour: nat)
    requires Play(db0, now0, moves).Some? && Ingests(db0, now0, moves, g) && ValidateCounterRetention(g.retention)
    requires RecordKey(g.instance, o, hour).Ok? && Seeded(db0, now0, g, o, hour)
    ensures var b, key := Play(db0, now0, moves).value, RecordKey(g.instance, o, hour).value;
            && (b.now * MILLISECOND > StartOf(hour + 1) + g.retention ==> Lookup(b.db, b.now, key).None?)
            && (key in b.db && b.now * MILLISECOND <= StartOf(hour + 1) + g.retention ==> Lookup(b.db, b.now, key).Some?)
  {
    hide Play, Ingests, RecordKey, Seeded, StartOf;
    var b, key := Play(db0, now0, moves).value, RecordKey(g.instance, o, hour).value;
    PlayKeepsDate(db0, now0, moves, g, o, hour);
    DeadlineIsEnd(g, hour);
    DatedEntry(b, key, HourDeadline(g, hour));
    assert HourDeadline(g, hour) * SECOND == HourDeadline(g, hour) * 1000 * MILLISECOND;
  }

  lemma DeadlineIsEnd(g: Origin, hour: nat)
    requires ValidateCounterRetention(g.retention)
    ensures HourDeadline(g, hour) * SECOND == StartOf(hour + 1) + g.retention
  {
    hide StartOf;
    StartOfIsWhole(hour);
    StartOfShifts(hour, 1);
    WholeSum(StartOf(hour), g.retention);
    WholeSeconds(StartOf(hour) + HOUR + g.retention);
  }

  lemma DatedEntry(b: Book, key: string, deadline: int)
    requires Dated(b, key, deadline)
    ensures key in b.db ==> b.db[key].expireAt == Some(deadline * 1000)
  {}

  // ---- The window ----

  /** A run of updaters that ingest, over a keyspace that may already hold their counters. */
  ghost predicate Situation(db0: Db, now0: int, moves: seq<Move>, g: Origin, o: Access, from: int, to: int) {
    && Play(db0, now0, moves).Some? && Ingests(db0, now0, moves, g)
    && ValidateCounterRetention(g.retention) && R.Keyable(g.instance, o)
    && forall h: nat :: from <= h < to && RecordKey(g.instance, o, h).Ok? ==> Seeded(db0, now0, g, o, h)
  }

  /** What a counter of the window held when the run began. */
  ghost function CounterOf(db: Db, now: int, g: Origin, o: Access, hour: nat): nat {
    match RecordKey(g.instance, o, hour)
    case Err(_) => 0
    case Ok(key) => if Counter(db, now, key).Some? then Counter(db, now, key).value else 0
  }

  /** The counters of n hours from one on. */
  ghost function Held(db: Db, now: int, g: Origin, o: Access, from: nat, n: nat): nat {
    if n == 0 then 0 else Held(db, now, g, o, from, n - 1) + CounterOf(db, now, g, o, from + n - 1)
  }

  /** Any instant up to the end of the hour after the evaluation hour, on Redis' millisecond clock. */
  predicate EarlyEnough(now: int, evaluation: nat) {
    now * MILLISECOND < StartOf(evaluation + 2)
  }

  /** The counter of any hour of a window holds what it held plus the applied accesses of that hour. */
  lemma CounterIsAccesses(db0: Db, now0: int, moves: seq<Move>, g: Origin, o: Access, evaluation: nat, window: nat, hour: nat)
    requires window <= evaluation && evaluation - window <= hour <= evaluation
    requires Situation(db0, now0, moves, g, o, hour, hour + 1)
    requires g.retention > window * HOUR + HOUR
    requires EarlyEnough(Play(db0, now0, moves).value.now, evaluation)
    ensures RecordKey(g.instance, o, hour).Ok?
    ensures var b := Play(db0, now0, moves).value;
            && Counter(b.db, b.now, RecordKey(g.instance, o, hour).value) ==
                 Some(CounterOf(db0, now0, g, o, hour) + AccessesBetween(b.applied, g, o, hour, hour + 1))
            && Seeded(b.db, b.now, g, o, hour)
  {
    hide Play, Ingests, Originates, RecordKey, AccessKey, KeyTotal, Flat, D.ValidUint, StartOf, CounterExpiry, Unix, R.Keyable, Counter;
    HasKey(g.instance, o, hour);
    assert Seeded(db0, now0, g, o, hour);
    var b := Play(db0, now0, moves).value;
    var key := RecordKey(g.instance, o, hour).value;
    PlayKeepsDate(db0, now0, moves, g, o, hour);
    WindowCountersAreLive(hour, evaluation, b.now * MILLISECOND, window, g.retention);
    LaterThanNow(b.now, HourDeadline(g, hour));
    IngestedRun(db0, now0, moves, g);
    L.CountersHoldAppliedRequests(db0, now0, moves, key);
    TotalIsAccesses(b.applied, g, o, hour);
  }

  lemma HasKey(instance: string, o: Access, hour: nat)
    requires R.Keyable(instance, o)
    ensures RecordKey(instance, o, hour).Ok?
  {
    R.KeyableExact(instance, o, hour);
  }

  lemma LaterThanNow(now: int, deadline: int)
    requires now * MILLISECOND < deadline * SECOND
    ensures now < deadline * 1000
  {}

  /** Runs follow one another: a run over what another left adds its own accesses to the other's. */
  lemma RunsAddUp(db0: Db, now0: int, first: seq<Move>, g1: Origin, second: seq<Move>, g2: Origin, o: Access, evaluation: nat, window: nat, hour: nat)
    requires window <= evaluation && evaluation - window <= hour <= evaluation
    requires g1.instance == g2.instance && g1.retention == g2.retention > window * HOUR + HOUR
    requires Situation(db0, now0, first, g1, o, hour, hour + 1) && EarlyEnough(Play(db0, now0, first).value.now, evaluation)
    requires var b1 := Play(db0, now0, first).value;
             && Play(b1.db, b1.now, second).Some? && Ingests(b1.db, b1.now, second, g2)
             && EarlyEnough(Play(b1.db, b1.now, second).value.now, evaluation)
    ensures var b1 := Play(db0, now0, first).value;
            var b2 := Play(b1.db, b1.now, second).value;
            && Situation(b1.db, b1.now, second, g2, o, hour, hour + 1)
            && CounterOf(b2.db, b2.now, g2, o, hour) ==
                 CounterOf(db0, now0, g1, o, hour) + AccessesBetween(b1.applied, g1, o, hour, hour + 1) + AccessesBetween(b2.applied, g2, o, hour, hour + 1)
  {
    hide Play, Ingests, RecordKey, Counter, StartOf, R.Keyable, AccessesBetween, EarlyEnough, HourDeadline;
    CounterIsAccesses(db0, now0, first, g1, o, evaluation, window, hour);
    var b1 := Play(db0, now0, first).value;
    SameDeadline(g1, g2, hour);
    assert Seeded(b1.db, b1.now, g2, o, hour);
    CounterIsAccesses(b1.db, b1.now, second, g2, o, evaluation, window, hour);
  }

  lemma SameDeadline(g1: Origin, g2: Origin, hour: nat)
    requires g1.retention == g2.retention
    ensures HourDeadline(g1, hour) == HourDeadline(g2, hour)
  {}

  lemma {:induction false} OneMoreHour(posted: seq<Posted>, g: Origin, o: Access, from: int, to: int)
    requires from <= to
    ensures AccessesBetween(posted, g, o, from, to + 1) == AccessesBetween(posted, g, o, from, to) + AccessesBetween(posted, g, o, to, to + 1)
    ensures AccessesBetween(posted, g, o, from, from) == 0
  {
    hide HourOf;
    if posted != [] {
      OneMoreHour(posted[..|posted| - 1], g, o, from, to);
    }
  }

  /** The hours of a window that ends before `end`. */
  function Window(end: nat, window: nat): (hours: seq<Time>)
    requires window <= end
    ensures |hours| == window && forall i :: 0 <= i < window ==> hours[i] == StartOf(end - window + i)
  {
    seq(window, i requires 0 <= i < window => StartOf(end - window + i))
  }

  lemma WindowOf(hours: seq<Time>, window: nat, end: nat)
    requires IsWindow(hours, window, StartOf(end)) && window <= end
    ensures hours == Window(end, window) && R.Hours(hours)
    ensures forall i :: 0 <= i < window ==> hours[i] >= ZERO_TIME && HourOf(hours[i]) == end - window + i
  {
    hide HourOf;
    forall i | 0 <= i < window
      ensures hours[i] == Window(end, window)[i] >= ZERO_TIME && HourOf(hours[i]) == end - window + i
    {
      StartOfShifts(end - window + i, window - i);
      HourOfUnique(hours[i], end - window + i);
    }
  }

  lemma WindowKey(instance: string, o: Access, hours: seq<Time>, window: nat, end: nat, i: nat)
    requires IsWindow(hours, window, StartOf(end)) && window <= end && i < window && R.Hours(hours) && R.Keyable(instance, o)
    ensures RecordKey(instance, o, end - window + i) == Ok(R.WindowKeys(instance, o, hours)[i])
  {
    hide AccessKey, StartOf, HourOf, R.Keyable;
    WindowOf(hours, window, end);
    R.KeyableExact(instance, o, end - window + i);
  }

  /** Each count the tierer reads is what the counter held plus the applied accesses of its hour. */
  lemma WindowCountsAreAccesses(db0: Db, now0: int, moves: seq<Move>, g: Origin, o: Access, evaluation: nat, end: nat, window: nat, hours: seq<Time>)
    requires window <= evaluation <= end <= evaluation + 1 && IsWindow(hours, window, StartOf(end)) && R.Hours(hours)
    requires Situation(db0, now0, moves, g, o, end - window, end)
    requires g.retention > window * HOUR + HOUR && EarlyEnough(Play(db0, now0, moves).value.now, evaluation)
    ensures var b := Play(db0, now0, moves).value;
            && R.Countable(b.db, b.now, g.instance, o, hours) && |hours| == window
            && forall i :: 0 <= i < window ==>
                 R.CountsOf(b.db, b.now, g.instance, o, hours)[i] ==
                   CounterOf(db0, now0, g, o, end - window + i) + AccessesBetween(b.applied, g, o, end - window + i, end - window + i + 1)
  {
    hide Play, Situation, RecordKey, Counter, StartOf, HourOf, R.Keyable, R.KeyText, R.Hours, EarlyEnough, AccessesBetween, IsWindow, CounterOf;
    RunExists(db0, now0, moves, g, o, end - window, end);
    WindowOf(hours, window, end);
    var b, keys := Play(db0, now0, moves).value, R.WindowKeys(g.instance, o, hours);
    forall i | 0 <= i < window
      ensures Counter(b.db, b.now, keys[i]) ==
              Some(CounterOf(db0, now0, g, o, end - window + i) + AccessesBetween(b.applied, g, o, end - window + i, end - window + i + 1))
    {
      var h := end - window + i;
      WindowKey(g.instance, o, hours, window, end, i);
      PartOfSituation(db0, now0, moves, g, o, end - window, end, h);
      CounterIsAccesses(db0, now0, moves, g, o, evaluation, window, h);
    }
  }

  lemma RunExists(db0: Db, now0: int, moves: seq<Move>, g: Origin, o: Access, from: int, to: int)
    requires Situation(db0, now0, moves, g, o, from, to)
    ensures Play(db0, now0, moves).Some? && R.Keyable(g.instance, o)
  {
    hide Play;
  }

  lemma PartOfSituation(db0: Db, now0: int, moves: seq<Move>, g: Origin, o: Access, from: int, to: int, hour: nat)
    requires Situation(db0, now0, moves, g, o, from, to) && from <= hour < to
    ensures Situation(db0, now0, moves, g, o, hour, hour + 1)
  {
    hide Play, Ingests, Seeded, RecordKey;
  }

  lemma {:induction false} SumOfHours(counts: seq<int>, db0: Db, now0: int, posted: seq<Posted>, g: Origin, o: Access, from: nat, n: nat)
    requires n <= |counts|
    requires forall i :: 0 <= i < |counts| ==>
               counts[i] == CounterOf(db0, now0, g, o, from + i) + AccessesBetween(posted, g, o, from + i, from + i + 1)
    ensures E.Sum(counts[..n]) == Held(db0, now0, g, o, from, n) + AccessesBetween(posted, g, o, from, from + n)
  {
    hide AccessesBetween, CounterOf;
    if n > 0 {
      SumOfHours(counts, db0, now0, posted, g, o, from, n - 1);
      OneMoreHour(posted, g, o, from, from + n - 1);
      E.SumExtends(counts, n - 1);
    } else {
      OneMoreHour(posted, g, o, from, from);
      NoCounts(counts[..0]);
    }
  }

  lemma NoCounts(counts: seq<int>)
    requires counts == []
    ensures E.Sum(counts) == 0
  {}

  /** What the counters of a window add up to: what they held plus the accesses applied since. */
  ghost function WindowTotal(db0: Db, now0: int, posted: seq<Posted>, g: Origin, o: Access, end: nat, window: nat): nat
    requires window <= end
  {
    Held(db0, now0, g, o, end - window, window) + AccessesBetween(posted, g, o, end - window, end)
  }

  /**
   The sum a verdict compares is exactly what the window's counters held plus the object's
   accesses that were applied and had arrived in it, and every counter of it can be read.
   */
  lemma SumIsAppliedAccesses(db0: Db, now0: int, moves: seq<Move>, g: Origin, o: Access, evaluation: nat, end: nat, window: nat, hours: seq<Time>)
    requires window <= evaluation <= end <= evaluation + 1 && IsWindow(hours, window, StartOf(end)) && R.Hours(hours)
    requires Situation(db0, now0, moves, g, o, end - window, end)
    requires g.retention > window * HOUR + HOUR && EarlyEnough(Play(db0, now0, moves).value.now, evaluation)
    ensures var b := Play(db0, now0, moves).value;
            && R.Countable(b.db, b.now, g.instance, o, hours)
            && E.Sum(R.CountsOf(b.db, b.now, g.instance, o, hours)) == WindowTotal(db0, now0, b.applied, g, o, end, window)
            && E.NonNegative(R.CountsOf(b.db, b.now, g.instance, o, hours))
  {
    hide Play, Situation, StartOf, HourOf, R.Hours, EarlyEnough, AccessesBetween, R.Countable, R.CountsOf, CounterOf, Held;
    RunExists(db0, now0, moves, g, o, end - window, end);
    var b := Play(db0, now0, moves).value;
    WindowCountsAreAccesses(db0, now0, moves, g, o, evaluation, end, window, hours);
    var counts := R.CountsOf(b.db, b.now, g.instance, o, hours);
    SumOfHours(counts, db0, now0, b.applied, g, o, end - window, window);
    assert counts[..window] == counts;
  }

  // ---- Acknowledged accesses ----

  /** A request by updater process and number. */
  datatype Ticket = Ticket(host: nat, id: nat)

  /** Accesses of an object in a window, over given requests. */
  ghost function AccessesOf(tickets: seq<Ticket>, g: Origin, o: Access, from: int, to: int): nat {
    if tickets == [] then 0
    else
      var last := tickets[|tickets| - 1];
      AccessesOf(tickets[..|tickets| - 1], g, o, from, to) + Share(g.of(last.host, last.id), o, from, to)
  }

  function TicketsOf(posted: seq<Posted>): (tickets: seq<Ticket>)
    ensures |tickets| == |posted| && forall i :: 0 <= i < |tickets| ==> tickets[i] == Ticket(posted[i].host, posted[i].job.id)
  {
    seq(|posted|, i requires 0 <= i < |posted| => Ticket(posted[i].host, posted[i].job.id))
  }

  lemma {:induction false} BetweenConcat(a: seq<Posted>, b: seq<Posted>, g: Origin, o: Access, from: int, to: int)
    ensures AccessesBetween(a + b, g, o, from, to) == AccessesBetween(a, g, o, from, to) + AccessesBetween(b, g, o, from, to)
  {
    hide Share;
    if b == [] {
      assert a + b == a;
    } else {
      BetweenConcat(a, b[..|b| - 1], g, o, from, to);
      assert (a + b)[..|a + b| - 1] == a + b[..|b| - 1];
    }
  }

  lemma WithoutOne(posted: seq<Posted>, p: nat, g: Origin, o: Access, from: int, to: int)
    requires p < |posted|
    ensures AccessesBetween(posted, g, o, from, to) ==
            AccessesBetween(posted[..p] + posted[p + 1..], g, o, from, to) + Share(g.of(posted[p].host, posted[p].job.id), o, from, to)
  {
    hide Share;
    var before, it, after := posted[..p], posted[p..p + 1], posted[p + 1..];
    assert posted == before + (it + after) && it[..0] == [];
    BetweenConcat(before, it + after, g, o, from, to);
    BetweenConcat(it, after, g, o, from, to);
    BetweenConcat(before, after, g, o, from, to);
  }

  lemma StillThere(posted: seq<Posted>, p: nat, t: Ticket)
    requires p < |posted| && t in TicketsOf(posted) && t != TicketsOf(posted)[p]
    ensures t in TicketsOf(posted[..p] + posted[p + 1..])
  {
    var q :| 0 <= q < |posted| && TicketsOf(posted)[q] == t;
    assert TicketsOf(posted[..p] + posted[p + 1..])[if q < p then q else q - 1] == t;
  }

  /** Distinct requests that were all applied have no more accesses than all that were applied. */
  lemma {:induction false} SomeOfTheApplied(tickets: seq<Ticket>, posted: seq<Posted>, g: Origin, o: Access, from: int, to: int)
    requires Distinct(tickets) && forall i :: 0 <= i < |tickets| ==> tickets[i] in TicketsOf(posted)
    ensures AccessesOf(tickets, g, o, from, to) <= AccessesBetween(posted, g, o, from, to)
  {
    hide Share, AccessesBetween;
    if tickets != [] {
      var front, x := tickets[..|tickets| - 1], tickets[|tickets| - 1];
      assert x in TicketsOf(posted);
      var p :| 0 <= p < |posted| && TicketsOf(posted)[p] == x;
      WithoutOne(posted, p, g, o, from, to);
      forall i | 0 <= i < |front|
        ensures front[i] in TicketsOf(posted[..p] + posted[p + 1..])
      {
        StillThere(posted, p, tickets[i]);
      }
      SomeOfTheApplied(front, posted[..p] + posted[p + 1..], g, o, from, to);
    }
  }

  ghost predicate IsAcknowledged(b: Book, t: Ticket) {
    t.host < |b.fleet| && t.id in b.fleet[t.host].s.responses && b.fleet[t.host].s.responses[t.id] == P.Answered(P.Acknowledged)
  }

  ghost predicate Acknowledged(b: Book, tickets: seq<Ticket>) {
    Distinct(tickets) && forall i :: 0 <= i < |tickets| ==> IsAcknowledged(b, tickets[i])
  }

  lemma {:induction false} PostedTicket(posted: seq<Posted>, t: Ticket)
    requires L.IdsAt(posted, t.host)[t.id] >= 1
    ensures t in TicketsOf(posted)
  {
    if posted != [] {
      var front, last := posted[..|posted| - 1], posted[|posted| - 1];
      if last.host == t.host && last.job.id == t.id {
        assert TicketsOf(posted)[|posted| - 1] == t;
      } else {
        PostedTicket(front, t);
        var i :| 0 <= i < |front| && TicketsOf(front)[i] == t;
        assert TicketsOf(posted)[i] == t;
      }
    }
  }

  /** No acknowledged access is missing from what was applied. */
  lemma AcknowledgedAreApplied(db0: Db, now0: int, moves: seq<Move>, g: Origin, tickets: seq<Ticket>, o: Access, from: int, to: int)
    requires Play(db0, now0, moves).Some? && Acknowledged(Play(db0, now0, moves).value, tickets)
    ensures AccessesOf(tickets, g, o, from, to) <= AccessesBetween(Play(db0, now0, moves).value.applied, g, o, from, to)
  {
    hide Play, AccessesOf, AccessesBetween, L.IdsAt;
    var b := Play(db0, now0, moves).value;
    forall i | 0 <= i < |tickets|
      ensures tickets[i] in TicketsOf(b.applied)
    {
      assert IsAcknowledged(b, tickets[i]);
      L.ExactlyOnce(db0, now0, moves, tickets[i].host, tickets[i].id);
      PostedTicket(b.applied, tickets[i]);
    }
    SomeOfTheApplied(tickets, b.applied, g, o, from, to);
  }

  // ---- The verdict ----

  /** The hour before which the high window ends. */
  function HighEnd(policy: E.Policy, evaluation: nat): nat {
    if policy.highIncludeCurrent then evaluation + 1 else evaluation
  }

  /** What the tierer may conclude for an object from two window totals. */
  predicate RightVerdict(v: E.Verdict, low: int, high: int, policy: E.Policy, evaluation: nat, lastModified: Time, covered: bool) {
    && v.coverageComplete == covered
    && v.low == (covered && lastModified <= StartOf(evaluation) - policy.lowWindowHours * HOUR && low < policy.lowThreshold)
    && v.high == (high > policy.highThreshold)
  }

  /** A policy LoadConfig lets through for one object and this retention, at an hour late enough for its windows. */
  predicate Reasonable(policy: E.Policy, retention: int64, evaluation: nat) {
    && E.ValidPolicy(policy) && policy.lowWindowHours + policy.highWindowHours <= R.MAX_ACCESS_KEYS_PER_CHUNK
    && policy.lowWindowHours <= evaluation && policy.highWindowHours <= evaluation
    && retention > policy.lowWindowHours * HOUR + HOUR && retention > policy.highWindowHours * HOUR + HOUR
  }

  ghost predicate BothSituations(db0: Db, now0: int, moves: seq<Move>, g: Origin, o: Access, policy: E.Policy, evaluation: nat) {
    && Situation(db0, now0, moves, g, o, evaluation - policy.lowWindowHours, evaluation)
    && Situation(db0, now0, moves, g, o, HighEnd(policy, evaluation) - policy.highWindowHours, HighEnd(policy, evaluation))
  }

  /**
   Read and judge one object. A low verdict means that the window's counters held, with the
   accesses applied since, fewer than the threshold; and an old, covered object of which that is
   true is judged low. A verdict is reached exactly when the coverage can be read and both sums
   are int64 values.
   */
  method ReadAndJudge(at: R.Snapshot, later: R.Snapshot, coverage: R.Coverage, policy: E.Policy, o: Access, lastModified: Time, chunkNow: Time,
                      ghost db0: Db, ghost now0: int, ghost moves: seq<Move>, g: Origin)
    returns (r: Option<E.Verdict>)
    requires chunkNow >= ZERO_TIME && Reasonable(policy, g.retention, HourOf(chunkNow))
    requires at.transport.Faithful? && R.Honest(later, coverage)
    requires BothSituations(db0, now0, moves, g, o, policy, HourOf(chunkNow))
    requires at.db == Play(db0, now0, moves).value.db && at.now == Play(db0, now0, moves).value.now
    requires EarlyEnough(at.now, HourOf(chunkNow))
    ensures var posted, evaluation := Play(db0, now0, moves).value.applied, HourOf(chunkNow);
            var low := WindowTotal(db0, now0, posted, g, o, evaluation, policy.lowWindowHours);
            var high := WindowTotal(db0, now0, posted, g, o, HighEnd(policy, evaluation), policy.highWindowHours);
            && (r.Some? <==> R.CoverageReadable(later, coverage, Window(evaluation, policy.lowWindowHours)) && low <= MAX_INT64 && high <= MAX_INT64)
            && (r.Some? ==>
                  RightVerdict(r.value, low, high, policy, evaluation, lastModified,
                               coverage.enabled ==> forall i :: 0 <= i < policy.lowWindowHours ==>
                                 Lookup(later.db, later.now, coverage.template(Window(evaluation, policy.lowWindowHours)[i])) == Some(Str(coverage.value))))
  {
    hide Play, Situation, EarlyEnough, AccessesBetween, Lookup, R.Countable, R.CountsOf, R.CoverageReadable, R.Keyable, StartOf, HourOf,
         Truncate, IsWindow, R.Hours, E.Sum, RightVerdict, Held, R.Honest, WindowTotal, Window;
    var evaluationHour := Truncate(chunkNow, HOUR);
    TruncatedTwice(chunkNow);
    FewHoursAreDurations(policy.lowWindowHours);
    FewHoursAreDurations(policy.highWindowHours);
    var low := HourWindow(evaluationHour, policy.lowWindowHours, false);
    if low.Err? {
      return None;
    }
    var high := HourWindow(evaluationHour, policy.highWindowHours, policy.highIncludeCurrent);
    if high.Err? {
      return None;
    }
    StartOfShifts(HourOf(chunkNow), 1);
    WindowOf(low.value, policy.lowWindowHours, HourOf(chunkNow));
    WindowOf(high.value, policy.highWindowHours, HighEnd(policy, HourOf(chunkNow)));
    SumIsAppliedAccesses(db0, now0, moves, g, o, HourOf(chunkNow), HourOf(chunkNow), policy.lowWindowHours, low.value);
    SumIsAppliedAccesses(db0, now0, moves, g, o, HourOf(chunkNow), HighEnd(policy, HourOf(chunkNow)), policy.highWindowHours, high.value);
    var read := R.ReadChunk(at, later, coverage, g.instance, [o], low.value, high.value);
    if read.Err? {
      return None;
    }
    var usage, covered := read.value.0[0], read.value.1;
    var input := E.Evaluation(evaluationHour, lastModified, usage.low, covered, usage.high);
    var verdict := E.Evaluate(input, policy);
    if verdict.Err? {
      return None;
    }
    JudgedRightly(verdict.value, policy, HourOf(chunkNow), input);
    r := Some(verdict.value);
  }

  lemma TruncatedTwice(t: Time)
    requires t >= ZERO_TIME
    ensures Truncate(t, HOUR) == StartOf(HourOf(t)) && Truncate(Truncate(t, HOUR), HOUR) == StartOf(HourOf(t))
  {
    HourOfBounds(t);
    StartOfIsWhole(HourOf(t));
  }

  lemma JudgedRightly(v: E.Verdict, policy: E.Policy, evaluation: nat, input: E.Evaluation)
    requires Truncate(input.hour, HOUR) == StartOf(evaluation) && v.coverageComplete == E.AllCovered(input.lowCoverage)
    requires v.low == (E.AllCovered(input.lowCoverage) && E.OldEnough(input, policy) && E.Sum(input.lowCounts) < policy.lowThreshold)
    requires v.high == (E.Sum(input.highCounts) > policy.highThreshold)
    ensures RightVerdict(v, E.Sum(input.lowCounts), E.Sum(input.highCounts), policy, evaluation, input.lastModified, E.AllCovered(input.lowCoverage))
  {
    hide E.Sum, StartOf;
  }

  lemma FewHoursAreDurations(hours: int)
    requires 0 <= hours <= R.MAX_ACCESS_KEYS_PER_CHUNK
    ensures hours <= MAX_WINDOW
  {}

  /** A low verdict is never reached with the threshold's worth of acknowledged accesses in the window. */
  lemma LowMeansFewAcknowledged(db0: Db, now0: int, moves: seq<Move>, g: Origin, o: Access, evaluation: nat, policy: E.Policy,
                                v: E.Verdict, high: int, lastModified: Time, covered: bool, tickets: seq<Ticket>)
    requires Play(db0, now0, moves).Some? && 0 < policy.lowWindowHours <= evaluation
    requires var low := WindowTotal(db0, now0, Play(db0, now0, moves).value.applied, g, o, evaluation, policy.lowWindowHours);
             RightVerdict(v, low, high, policy, evaluation, lastModified, covered) && v.low
    requires Acknowledged(Play(db0, now0, moves).value, tickets)
    ensures AccessesOf(tickets, g, o, evaluation - policy.lowWindowHours, evaluation)
            <= AccessesBetween(Play(db0, now0, moves).value.applied, g, o, evaluation - policy.lowWindowHours, evaluation)
            < policy.lowThreshold
  {
    hide Play, AccessesOf, AccessesBetween, Acknowledged, Held;
    AcknowledgedAreApplied(db0, now0, moves, g, tickets, o, evaluation - policy.lowWindowHours, evaluation);
  }
}
