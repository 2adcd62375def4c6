/**
 A fleet of updaters over one keyspace: processes come and go, each runs the batching protocol,
 and all write the same counters. Kept beside it: which requests were applied.
 */
module Ledger {
  import opened Wrappers
  import opened GoTypes
  import opened Text
  import opened Redis
  import opened CounterScript
  import opened RedisStore
  import opened Batch
  import opened Merge
  import opened Flush
  import P = Protocol
  import D = Decimal

  /** Requests as ingest builds them: deltas that do not wrap and expiries EXPIREAT accepts. */
  ghost predicate Timely(request: Request) {
    && SumDeltas(request.increments) == request.events
    && forall i :: 0 <= i < |request.increments| ==>
         0 < Unix(request.increments[i].expireAt) <= MAX_EXPIRE_SECONDS
  }

  /** One updater process. */
  datatype Updater = Updater(config: Config, s: P.State)

  /** A request and the process it was posted to. */
  datatype Posted = Posted(host: nat, job: Job)

  datatype Book = Book(
    fleet: seq<Updater>,     // every process ever started; a crashed one takes no more steps
    db: Db,
    now: int,
    applied: seq<Posted>,    // the jobs of every batch the script wrote to its end, in order
    torn: seq<Posted>,       // the jobs of every batch it stopped half way through
    exact: bool,             // every batch it wrote so far was one it can write exactly
    expired: set<string>)    // counters that expired, or were written already expired

  datatype Move =
    | Starts(config: Config)
    | Internal(host: nat, e: P.Event)
    | Flushes(host: nat, outcome: P.Outcome, wrote: bool, command: Command, increments: seq<Increment>)
    | Passes(delay: nat)

  function Tag(host: nat, jobs: seq<Job>): (posted: seq<Posted>)
    ensures |posted| == |jobs| && forall i :: 0 <= i < |posted| ==> posted[i] == Posted(host, jobs[i])
  {
    seq(|jobs|, i requires 0 <= i < |jobs| => Posted(host, jobs[i]))
  }

  function JobsOf(posted: seq<Posted>): (jobs: seq<Job>)
    ensures |jobs| == |posted| && forall i :: 0 <= i < |jobs| ==> jobs[i] == posted[i].job
  {
    seq(|posted|, i requires 0 <= i < |posted| => posted[i].job)
  }

  /** The keys whose entries are gone at an instant. */
  function Gone(db: Db, now: int): set<string> {
    set k | k in db && Lookup(db, now, k).None?
  }

  /** What Apply can do with a batch, given its answer. */
  ghost predicate FlushEffect(batch: seq<Job>, m: Move)
    requires m.Flushes?
  {
    && Lists(m.increments, MergeAll(Flat(batch)))
    && m.outcome != P.Stopped
    && (m.wrote ==> Encodes(m.command, m.increments))
    && (m.outcome.Acknowledged? ==> m.wrote)
    && (m.outcome.NotWritten? ==> !m.wrote)
  }

  /** Batches the script can write exactly: totals that are int64 values, expiries EXPIREAT takes. */
  ghost predicate Exact(flat: seq<Increment>) {
    TotalsFit(flat) && forall i :: 0 <= i < |flat| ==> Unix(flat[i].expireAt) <= MAX_EXPIRE_SECONDS
  }

  /** A batch the script wrote to, as far as it got. */
  ghost function Write(b: Book, host: nat, s': P.State, m: Move): Option<Book>
    requires m.Flushes? && host < |b.fleet| && b.fleet[host].s.worker.Flushing? && |m.command.argv| == 2 * |m.command.keys|
  {
    var batch := b.fleet[host].s.worker.batch;
    var (reply, db') := CounterScript.Run(b.db, b.now, m.command.keys, m.command.argv);
    if reply.Rejected? || (m.outcome.Acknowledged? && !reply.Done?) then None
    else Some(b.(fleet := b.fleet[host := b.fleet[host].(s := s')], db := db',
                 applied := if reply.Done? then b.applied + Tag(host, batch) else b.applied,
                 torn := if reply.Done? then b.torn else b.torn + Tag(host, batch),
                 exact := b.exact && Exact(Flat(batch)),
                 expired := b.expired + (KeySet(Flat(batch)) - db'.Keys)))
  }

  ghost function Take(b: Book, m: Move): Option<Book> {
    match m
    case Starts(config) => Some(b.(fleet := b.fleet + [Updater(config, P.Initial)]))
    case Internal(host, e) =>
      if host >= |b.fleet| || e.FlushReturns? then None
      else
        (match P.Step(b.fleet[host].config, b.fleet[host].s, e)
         case None => None
         case Some(s') => Some(b.(fleet := b.fleet[host := b.fleet[host].(s := s')])))
    case Passes(delay) =>
      Some(b.(now := b.now + delay, expired := b.expired + Gone(b.db, b.now + delay)))
    case Flushes(host, outcome, wrote, command, increments) =>
      if host >= |b.fleet| || !b.fleet[host].s.worker.Flushing? || !FlushEffect(b.fleet[host].s.worker.batch, m) then None
      else
        match P.Step(b.fleet[host].config, b.fleet[host].s, P.FlushReturns(outcome))
        case None => None
        case Some(s') =>
          if !wrote then Some(b.(fleet := b.fleet[host := b.fleet[host].(s := s')])) else Write(b, host, s', m)
  }

  ghost function Opening(db: Db, now: int): Book {
    Book([], db, now, [], [], true, {})
  }

  ghost function Play(db: Db, now: int, moves: seq<Move>): Option<Book> {
    if moves == [] then Some(Opening(db, now))
    else
      match Play(db, now, moves[..|moves| - 1])
      case None => None
      case Some(b) => Take(b, moves[|moves| - 1])
  }

  // ---- One written batch ----

  ghost predicate AllTimely(jobs: seq<Job>) {
    forall i :: 0 <= i < |jobs| ==> Timely(jobs[i].request)
  }

  lemma TimelyJobs(c: Config, jobs: seq<Job>)
    requires P.AllAccepted(c, jobs) && AllTimely(jobs)
    ensures Counted(jobs) && AfterEpoch(jobs)
  {
    forall i | 0 <= i < |jobs|
      ensures WellFormedIncrements(jobs[i].request.increments) && SumDeltas(jobs[i].request.increments) == jobs[i].request.events
    {
      assert Accepted(c, jobs[i].request) && Timely(jobs[i].request);
    }
    forall i, j | 0 <= i < |jobs| && 0 <= j < |jobs[i].request.increments|
      ensures Unix(jobs[i].request.increments[j].expireAt) > 0
    {
      assert Timely(jobs[i].request);
    }
  }

  lemma {:induction false} FlatTimely(jobs: seq<Job>)
    requires AllTimely(jobs)
    ensures forall i :: 0 <= i < |Flat(jobs)| ==> 0 < Unix(Flat(jobs)[i].expireAt) <= MAX_EXPIRE_SECONDS
  {
    if jobs != [] {
      FlatTimely(jobs[..|jobs| - 1]);
      assert Timely(jobs[|jobs| - 1].request);
    }
  }

  /** Requests like ingest's make exact batches. */
  lemma TimelyIsExact(jobs: seq<Job>)
    requires AllTimely(jobs) && Counted(jobs) && Events(jobs) <= MAX_INT64
    ensures Exact(Flat(jobs))
  {
    hide Flat, Events, SumDeltas, KeyTotal, Unix;
    FlatTimely(jobs);
    FlatTotals(jobs);
    forall k: string ensures KeyTotal(Flat(jobs), k) <= MAX_INT64 {
      KeyTotalBounds(Flat(jobs), k);
    }
  }

  lemma {:induction false} FlatPositive(c: Config, jobs: seq<Job>)
    requires P.AllAccepted(c, jobs)
    ensures Positive(Flat(jobs))
  {
    if jobs != [] {
      FlatPositive(c, jobs[..|jobs| - 1]);
      assert Accepted(c, jobs[|jobs| - 1].request);
    }
  }

  /** An increment of the batch carries an expiry of the jobs. */
  lemma BatchExpiry(flat: seq<Increment>, increments: seq<Increment>, i: nat) returns (j: nat)
    requires Lists(increments, MergeAll(flat)) && i < |increments|
    ensures j < |flat| && flat[j].key == increments[i].key && flat[j].expireAt == increments[i].expireAt
  {
    hide MergeAll, KeyTotal, Wrap;
    MergeAllWraps(flat);
    assert IsLatestExpiry(flat, increments[i].key, increments[i].expireAt);
    j :| 0 <= j < |flat| && flat[j].key == increments[i].key && flat[j].expireAt == increments[i].expireAt;
  }

  lemma ListedKey(flat: seq<Increment>, increments: seq<Increment>, k: string) returns (i: nat)
    requires Lists(increments, MergeAll(flat)) && k in KeySet(flat)
    ensures i < |increments| && increments[i].key == k
  {
    hide MergeAll;
    MergeAllKeys(flat);
    assert k in KeySet(increments);
    i :| 0 <= i < |increments| && increments[i].key == k;
  }

  lemma RangeOfArguments(increments: seq<Increment>, command: Command)
    requires Encodes(command, increments)
    requires forall i :: 0 <= i < |increments| ==> Unix(increments[i].expireAt) <= MAX_EXPIRE_SECONDS
    ensures ExpiriesInRange(command.argv)
  {
    hide D.ValidUint, D.Render, Unix;
    forall j | 0 <= j < |command.argv| && j % 2 == 1 && D.ValidUint(command.argv[j])
      ensures ValidUintValue(command.argv[j]).value <= MAX_EXPIRE_SECONDS
    {
      var i := j / 2;
      assert j == 2 * i + 1 && increments[i].delta > 0;
      D.RenderIsCanonical(Unix(increments[i].expireAt));
    }
  }

  /** A written batch adds to every key its total over the jobs, with the latest expiry, and touches nothing else. */
  ghost predicate KeyCommitted(flat: seq<Increment>, db: Db, db': Db, now: int, k: string) {
    if k in KeySet(flat) then
      Counter(db, now, k).Some? && exists e :: HoldsSum(flat, db, db', now, k, e)
    else EntryAt(db', k) == EntryAt(db, k)
  }

  ghost predicate HoldsSum(flat: seq<Increment>, db: Db, db': Db, now: int, k: string, e: Time)
    requires Counter(db, now, k).Some?
  {
    && IsLatestExpiry(flat, k, e) && Unix(e) > 0 && KeyTotal(flat, k) > 0
    && Counter(db, now, k).value + KeyTotal(flat, k) <= D.MAX_INT64
    && EntryAt(db', k) == Grown(db, now, k, KeyTotal(flat, k), Unix(e))
  }

  ghost predicate Committed(flat: seq<Increment>, db: Db, db': Db, now: int) {
    forall k: string :: KeyCommitted(flat, db, db', now, k)
  }

  lemma EncodedEntry(increments: seq<Increment>, command: Command, db: Db, now: int, i: nat)
    requires Encodes(command, increments) && i < |increments| && Checked(db, now, command.keys, command.argv, 0)
    ensures D.ValidUint(command.argv[2 * i]) && ValidUintValue(command.argv[2 * i]).value == increments[i].delta
    ensures D.ValidUint(command.argv[2 * i + 1]) && ValidUintValue(command.argv[2 * i + 1]).value == Unix(increments[i].expireAt)
    ensures CheckKey(db, now, command.keys[i], command.argv[2 * i], command.argv[2 * i + 1]).None?
  {
    hide D.ValidUint, D.Render, Unix, Counter, Lookup;
    assert CheckKey(db, now, command.keys[i], command.argv[2 * i], command.argv[2 * i + 1]).None?;
    assert increments[i].delta > 0 && Unix(increments[i].expireAt) > 0;
    D.RenderIsCanonical(increments[i].delta);
    D.RenderIsCanonical(Unix(increments[i].expireAt));
  }

  lemma ScriptRan(db: Db, now: int, keys: seq<string>, argv: seq<string>)
    requires |argv| == 2 * |keys| && !CounterScript.Run(db, now, keys, argv).0.Rejected?
    ensures Checked(db, now, keys, argv, 0)
    ensures CounterScript.Run(db, now, keys, argv).1 == WriteFrom(db, now, keys, argv, 0).db
    ensures CounterScript.Run(db, now, keys, argv).0.Done? <==> WriteFrom(db, now, keys, argv, 0).fault.None?
  {
    hide CheckKey, WriteFrom;
    NoRejectionMeansChecked(db, now, keys, argv, 0);
  }

  /** An exact batch the script writes to is committed, whole and exactly. */
  lemma CommitExact(flat: seq<Increment>, increments: seq<Increment>, command: Command, db: Db, now: int)
    requires Positive(flat) && Exact(flat) && Lists(increments, MergeAll(flat)) && Encodes(command, increments)
    requires !CounterScript.Run(db, now, command.keys, command.argv).0.Rejected?
    ensures CounterScript.Run(db, now, command.keys, command.argv).0.Done?
    ensures Committed(flat, db, CounterScript.Run(db, now, command.keys, command.argv).1, now)
  {
    hide MergeAll, SumDeltas, CounterScript.Run, WriteFrom, D.ValidUint, D.Render, CheckKey, Grown, Counter, EntryAt, ExpiriesInRange, KeyCommitted,
         KeyTotal, Unix, IsMerge;
    var keys, argv := command.keys, command.argv;
    var db' := CounterScript.Run(db, now, keys, argv).1;
    forall i | 0 <= i < |increments|
      ensures Unix(increments[i].expireAt) <= MAX_EXPIRE_SECONDS
    {
      var j := BatchExpiry(flat, increments, i);
    }
    RangeOfArguments(increments, command);
    SortedDistinctIsStrict(keys);
    ScriptRan(db, now, keys, argv);
    WritePhaseExact(db, now, keys, argv, 0);
    MergeExact(flat);
    forall k: string ensures KeyCommitted(flat, db, db', now, k) {
      GrownIsCommitted(flat, increments, command, db, db', now, k);
    }
  }

  lemma GrownIsCommitted(flat: seq<Increment>, increments: seq<Increment>, command: Command, db: Db, db': Db, now: int, k: string)
    requires Lists(increments, MergeAll(flat)) && IsMerge(MergeAll(flat), flat) && Positive(flat) && Encodes(command, increments)
    requires Checked(db, now, command.keys, command.argv, 0) && AllGrown(db, db', now, command.keys, command.argv, 0)
    ensures KeyCommitted(flat, db, db', now, k)
  {
    hide MergeAll, D.ValidUint, D.Render, CheckKey, Grown, Counter, EntryAt, Unix, KeyTotal;
    var keys, argv := command.keys, command.argv;
    MergeAllKeys(flat);
    if k in KeySet(flat) {
      var i := ListedKey(flat, increments, k);
      assert keys[i] == k;
      KeyTotalBounds(flat, k);
      EncodedEntry(increments, command, db, now, i);
      CheckedKey(db, now, k, argv[2 * i], argv[2 * i + 1]);
      assert KeyGrown(db, db', now, k, argv[2 * i], argv[2 * i + 1]);
      assert HoldsSum(flat, db, db', now, k, increments[i].expireAt);
    } else {
      assert forall i :: 0 <= i < |keys| ==> keys[i] == increments[i].key && increments[i].key in KeySet(increments);
      assert keys[0..] == keys;
    }
  }

  lemma LatestExpiryUnique(flat: seq<Increment>, k: string, d: Time, e: Time)
    requires IsLatestExpiry(flat, k, d) && IsLatestExpiry(flat, k, e)
    ensures d == e
  {}

  /** A key that holds its sum is grown the way the arguments say. */
  lemma CommittedIsGrown(flat: seq<Increment>, increments: seq<Increment>, command: Command, db: Db, db': Db, now: int, i: nat)
    requires Lists(increments, MergeAll(flat)) && Encodes(command, increments) && i < |increments|
    requires Checked(db, now, command.keys, command.argv, 0) && KeyCommitted(flat, db, db', now, increments[i].key)
    ensures CheckKey(db, now, command.keys[i], command.argv[2 * i], command.argv[2 * i + 1]).None?
    ensures KeyGrown(db, db', now, command.keys[i], command.argv[2 * i], command.argv[2 * i + 1])
  {
    hide MergeAll, D.ValidUint, D.Render, CheckKey, Grown, Counter, EntryAt, Unix, KeyTotal, IsLatestExpiry;
    var k := increments[i].key;
    MergeAllKeys(flat);
    MergeAllWraps(flat);
    assert k in KeySet(increments);
    var e :| HoldsSum(flat, db, db', now, k, e);
    LatestExpiryUnique(flat, k, e, increments[i].expireAt);
    EncodedEntry(increments, command, db, now, i);
    CheckedKey(db, now, k, command.argv[2 * i], command.argv[2 * i + 1]);
  }

  /** A batch whose expiries EXPIREAT refuses leaves a key torn. */
  lemma TornIsNotCommitted(flat: seq<Increment>, increments: seq<Increment>, command: Command, db: Db, now: int, i: nat) returns (k: string)
    requires Storable(db) && Lists(increments, MergeAll(flat)) && Encodes(command, increments)
    requires !CounterScript.Run(db, now, command.keys, command.argv).0.Rejected?
    requires i < |flat| && Unix(flat[i].expireAt) > MAX_EXPIRE_SECONDS
    ensures !KeyCommitted(flat, db, CounterScript.Run(db, now, command.keys, command.argv).1, now, k)
  {
    hide MergeAll, D.ValidUint, D.Render, CheckKey, WriteFrom, KeyGrown, KeyCommitted, KeyTotal, CounterScript.Run;
    var keys, argv := command.keys, command.argv;
    assert flat[i].key in KeySet(flat);
    var j := ListedKey(flat, increments, flat[i].key);
    MergeAllWraps(flat);
    assert flat[i].expireAt <= increments[j].expireAt;
    ScriptRan(db, now, keys, argv);
    EncodedEntry(increments, command, db, now, j);
    SortedDistinctIsStrict(keys);
    var t := WritePhaseRaises(db, now, keys, argv, 0, j);
    k := increments[t].key;
    if KeyCommitted(flat, db, CounterScript.Run(db, now, keys, argv).1, now, k) {
      CommittedIsGrown(flat, increments, command, db, CounterScript.Run(db, now, keys, argv).1, now, t);
    }
  }

  /** Of the batches the script writes to, exactly the exact ones end up committed. */
  lemma CommittedExactly(flat: seq<Increment>, increments: seq<Increment>, command: Command, db: Db, now: int)
    requires Storable(db) && Positive(flat) && Lists(increments, MergeAll(flat)) && Encodes(command, increments)
    requires !CounterScript.Run(db, now, command.keys, command.argv).0.Rejected?
    ensures Committed(flat, db, CounterScript.Run(db, now, command.keys, command.argv).1, now) <==> Exact(flat)
  {
    hide MergeAll, CounterScript.Run, KeyTotal, Counter, Unix, Lists;
    var db' := CounterScript.Run(db, now, command.keys, command.argv).1;
    if Exact(flat) {
      CommitExact(flat, increments, command, db, now);
    } else if Committed(flat, db, db', now) {
      forall k: string ensures KeyTotal(flat, k) <= MAX_INT64 {
        KeyTotalBounds(flat, k);
        assert KeyCommitted(flat, db, db', now, k);
      }
      var i :| 0 <= i < |flat| && Unix(flat[i].expireAt) > MAX_EXPIRE_SECONDS;
      var k := TornIsNotCommitted(flat, increments, command, db, now, i);
    }
  }
}
