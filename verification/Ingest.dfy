/** From decoded access records to one validated request: one increment per key. */
module Ingest {
  import opened Wrappers
  import opened GoTypes
  import opened Text
  import opened Calendar
  import opened Contracts
  import opened Redis
  import opened RedisStore
  import opened Batch
  import opened Merge
  import opened Ledger
  import opened Flush

  /** The key of a record that arrived in a given hour. */
  function RecordKey(instance: string, record: Access, hour: nat): Result<string, KeyError> {
    AccessKey(instance, record.bucket, record.name, hour)
  }

  /** How many of the records are accesses to one object. */
  function Accesses(records: seq<Access>, record: Access): nat {
    if records == [] then 0
    else Accesses(records[..|records| - 1], record) + if records[|records| - 1] == record then 1 else 0
  }

  /** One access adds one to its key. */
  function Bump(increments: map<string, Increment>, key: string, expiry: Time): map<string, Increment> {
    var current := if key in increments then increments[key].delta else 0;
    increments[key := Increment(key, Wrap(current + 1), expiry)]
  }

  ghost predicate AllKeyed(instance: string, records: seq<Access>, hour: nat) {
    forall i :: 0 <= i < |records| ==> RecordKey(instance, records[i], hour).Ok?
  }

  /** The map after some records: exactly their keys, each with its number of accesses. */
  ghost predicate Tallies(increments: map<string, Increment>, instance: string, records: seq<Access>, hour: nat, expiry: Time) {
    && (forall k :: k in increments <==> KeyOfSome(instance, records, hour, k))
    && (forall i :: 0 <= i < |records| && RecordKey(instance, records[i], hour).Ok? ==>
          var k := RecordKey(instance, records[i], hour).value;
          k in increments && increments[k] == Increment(k, Wrap(Accesses(records, records[i])), expiry))
  }

  lemma {:induction false} AccessesBound(records: seq<Access>, record: Access)
    ensures Accesses(records, record) <= |records|
    ensures Accesses(records, record) > 0 <==> record in records
  {
    if records != [] {
      var front := records[..|records| - 1];
      AccessesBound(front, record);
      assert records == front + [records[|records| - 1]];
    }
  }

  lemma AccessesExtends(records: seq<Access>, n: nat, record: Access)
    requires n < |records|
    ensures Accesses(records[..n + 1], record) == Accesses(records[..n], record) + if records[n] == record then 1 else 0
  {
    assert records[..n + 1][..n] == records[..n];
  }

  lemma SameKeySameRecord(instance: string, a: Access, b: Access, hour: nat)
    requires RecordKey(instance, a, hour).Ok? && RecordKey(instance, a, hour) == RecordKey(instance, b, hour)
    ensures a == b
  {
    AccessKeyInjective(instance, a.bucket, a.name, hour, instance, b.bucket, b.name, hour);
  }

  lemma TallyOneMore(increments: map<string, Increment>, instance: string, records: seq<Access>, n: nat, hour: nat, expiry: Time)
    requires n < |records| && |records| <= MAX_INT64
    requires Tallies(increments, instance, records[..n], hour, expiry)
    requires RecordKey(instance, records[n], hour).Ok?
    ensures Tallies(Bump(increments, RecordKey(instance, records[n], hour).value, expiry), instance, records[..n + 1], hour, expiry)
  {
    hide RecordKey, Wrap;
    var before, after, key := records[..n], records[..n + 1], RecordKey(instance, records[n], hour).value;
    var bumped := Bump(increments, key, expiry);
    assert after == before + [records[n]];
    assert after[n] == records[n];
    forall k | k in increments
      ensures KeyOfSome(instance, after, hour, k)
    {
      var i :| 0 <= i < |before| && RecordKey(instance, before[i], hour) == Ok(k);
      assert after[i] == before[i];
    }
    forall i | 0 <= i < |after| && RecordKey(instance, after[i], hour).Ok?
      ensures var k := RecordKey(instance, after[i], hour).value;
              k in bumped && bumped[k] == Increment(k, Wrap(Accesses(after, after[i])), expiry)
    {
      AccessesExtends(records, n, after[i]);
      if RecordKey(instance, after[i], hour) == Ok(key) {
        SameKeySameRecord(instance, after[i], records[n], hour);
        AccessesBound(before, records[n]);
        if key in increments {
          var j :| 0 <= j < |before| && RecordKey(instance, before[j], hour) == Ok(key);
          SameKeySameRecord(instance, before[j], records[n], hour);
        }
        assert forall j :: 0 <= j < |before| && before[j] == records[n] ==> RecordKey(instance, before[j], hour) == Ok(key);
        assert Wrap(Accesses(before, records[n])) == Accesses(before, records[n]);
      } else {
        assert i < n && after[i] == before[i];
      }
    }
  }

  /** The request before merging: one increment of one per record. */
  ghost function Singles(instance: string, records: seq<Access>, hour: nat, expiry: Time): (s: seq<Increment>)
    requires AllKeyed(instance, records, hour)
    ensures |s| == |records|
    ensures forall i :: 0 <= i < |s| ==> s[i] == Increment(RecordKey(instance, records[i], hour).value, 1, expiry)
  {
    seq(|records|, i requires 0 <= i < |records| => Increment(RecordKey(instance, records[i], hour).value, 1, expiry))
  }

  lemma {:induction false} SinglesTotal(instance: string, records: seq<Access>, hour: nat, expiry: Time)
    requires AllKeyed(instance, records, hour)
    ensures SumDeltas(Singles(instance, records, hour, expiry)) == |records|
  {
    if records != [] {
      var front := records[..|records| - 1];
      var s := Singles(instance, records, hour, expiry);
      SinglesTotal(instance, front, hour, expiry);
      assert s[..|s| - 1] == Singles(instance, front, hour, expiry);
    }
  }

  /** The total of an object's key is its number of accesses in the request. */
  lemma {:induction false} SinglesKeyTotal(instance: string, records: seq<Access>, hour: nat, expiry: Time, record: Access)
    requires AllKeyed(instance, records, hour) && RecordKey(instance, record, hour).Ok?
    ensures KeyTotal(Singles(instance, records, hour, expiry), RecordKey(instance, record, hour).value) == Accesses(records, record)
  {
    hide RecordKey;
    if records != [] {
      var front, last := records[..|records| - 1], records[|records| - 1];
      var s := Singles(instance, records, hour, expiry);
      SinglesKeyTotal(instance, front, hour, expiry, record);
      assert s[..|s| - 1] == Singles(instance, front, hour, expiry);
      assert RecordKey(instance, last, hour).Ok?;
      if RecordKey(instance, last, hour) == RecordKey(instance, record, hour) {
        SameKeySameRecord(instance, record, last, hour);
      }
    }
  }

  /** A request that counts the records of one hour: the meaning of ingest. */
  ghost predicate CountsRecords(request: Request, instance: string, records: seq<Access>, hour: nat, expiry: Time) {
    && AllKeyed(instance, records, hour)
    && request.events == |records|
    && Distinct(Keys(request.increments))
    && (forall i :: 0 <= i < |request.increments| ==>
          && request.increments[i].expireAt == expiry
          && request.increments[i].delta == KeyTotal(Singles(instance, records, hour, expiry), request.increments[i].key)
          && request.increments[i].delta > 0)
    && (forall i :: 0 <= i < |records| ==> RecordKey(instance, records[i], hour).value in Keys(request.increments))
    && (forall i :: 0 <= i < |request.increments| ==>
          KeyOfSome(instance, records, hour, request.increments[i].key))
  }

  ghost predicate KeyOfSome(instance: string, records: seq<Access>, hour: nat, key: string) {
    exists j :: 0 <= j < |records| && RecordKey(instance, records[j], hour) == Ok(key)
  }

  lemma TalliedIncrement(increments: map<string, Increment>, instance: string, records: seq<Access>, hour: nat, expiry: Time, k: string)
    requires Tallies(increments, instance, records, hour, expiry) && AllKeyed(instance, records, hour)
    requires k in increments && |records| <= MAX_INT64
    ensures increments[k].key == k && increments[k].expireAt == expiry && increments[k].delta > 0
    ensures increments[k].delta == KeyTotal(Singles(instance, records, hour, expiry), k)
    ensures KeyOfSome(instance, records, hour, k)
  {
    hide RecordKey, Wrap;
    var j :| 0 <= j < |records| && RecordKey(instance, records[j], hour) == Ok(k);
    AccessesBound(records, records[j]);
    SinglesKeyTotal(instance, records, hour, expiry, records[j]);
    assert Wrap(Accesses(records, records[j])) == Accesses(records, records[j]);
  }

  /** The aggregation of ingest, over records that were already decoded. */
  method Aggregate(instance: string, acceptedAt: Time, retention: int64, records: seq<Access>) returns (r: Result<Request, KeyError>)
    requires acceptedAt >= ZERO_TIME && |records| <= MAX_INT64
    ensures r.Ok? <==> AllKeyed(instance, records, HourOf(acceptedAt))
    ensures r.Ok? ==> CountsRecords(r.value, instance, records, HourOf(acceptedAt), CounterExpiry(acceptedAt, retention))
  {
    hide AccessKey, CounterExpiry, HourOf, Tallies, Bump, KeySet;
    ghost var hour := HourOf(acceptedAt);
    var increments: map<string, Increment>, expiry := map[], CounterExpiry(acceptedAt, retention);
    NothingTallied(instance, records, hour, expiry);
    for n := 0 to |records|
      invariant AllKeyed(instance, records[..n], hour)
      invariant Tallies(increments, instance, records[..n], hour, expiry)
    {
      var key := AccessKey(instance, records[n].bucket, records[n].name, HourOf(acceptedAt));
      assert key == RecordKey(instance, records[n], hour);
      if key.Err? {
        return Err(key.error);
      }
      TallyOneMore(increments, instance, records, n, hour, expiry);
      increments := Bump(increments, key.value, expiry);
    }
    assert records[..|records|] == records;
    var rest, listed := increments.Keys, [];
    EmptyKeySet();
    while rest != {}
      invariant rest <= increments.Keys && KeySet(listed) == increments.Keys - rest && Distinct(Keys(listed))
      invariant forall i :: 0 <= i < |listed| ==> listed[i].key in increments && listed[i] == increments[listed[i].key]
      decreases rest
    {
      var k :| k in rest;
      TalliedIncrement(increments, instance, records, hour, expiry, k);
      ghost var before := listed;
      listed := listed + [increments[k]];
      KeySetExtends(before, increments[k]);
      assert listed[..|before|] == before && listed[..|listed|] == listed;
      DistinctKeysExtend(listed, |before|);
      rest := rest - {k};
    }
    ListedCounts(increments, listed, instance, records, hour, expiry);
    r := Ok(Request(|records|, listed));
  }

  lemma NothingTallied(instance: string, records: seq<Access>, hour: nat, expiry: Time)
    ensures Tallies(map[], instance, records[..0], hour, expiry)
  {}

  lemma ListedCounts(increments: map<string, Increment>, listed: seq<Increment>, instance: string,
                     records: seq<Access>, hour: nat, expiry: Time)
    requires Tallies(increments, instance, records, hour, expiry) && AllKeyed(instance, records, hour) && |records| <= MAX_INT64
    requires KeySet(listed) == increments.Keys && Distinct(Keys(listed))
    requires forall i :: 0 <= i < |listed| ==> listed[i].key in increments && listed[i] == increments[listed[i].key]
    ensures CountsRecords(Request(|records|, listed), instance, records, hour, expiry)
  {
    hide AccessKey;
    forall i | 0 <= i < |listed|
      ensures listed[i].expireAt == expiry && listed[i].delta > 0
      ensures listed[i].delta == KeyTotal(Singles(instance, records, hour, expiry), listed[i].key)
      ensures KeyOfSome(instance, records, hour, listed[i].key)
    {
      TalliedIncrement(increments, instance, records, hour, expiry, listed[i].key);
    }
    forall i | 0 <= i < |records|
      ensures RecordKey(instance, records[i], hour).value in Keys(listed)
    {
      var k := RecordKey(instance, records[i], hour).value;
      assert k in increments;
      assert k in KeySet(listed);
      var j :| 0 <= j < |listed| && listed[j].key == k;
      assert Keys(listed)[j] == k;
    }
  }

  // ---- Stage compatibility ----

  lemma SinglesKeySet(instance: string, records: seq<Access>, hour: nat, expiry: Time, increments: seq<Increment>)
    requires AllKeyed(instance, records, hour)
    requires forall i :: 0 <= i < |records| ==> RecordKey(instance, records[i], hour).value in Keys(increments)
    ensures forall i :: 0 <= i < |records| ==> Singles(instance, records, hour, expiry)[i].key in Keys(increments)
  {}

  /** The deltas of an ingested request add up to its events: nothing wraps, nothing is lost. */
  lemma IngestedTotal(request: Request, instance: string, records: seq<Access>, hour: nat, expiry: Time)
    requires CountsRecords(request, instance, records, hour, expiry)
    ensures SumDeltas(request.increments) == request.events == |records|
    ensures |request.increments| <= |records|
  {
    hide RecordKey;
    var singles := Singles(instance, records, hour, expiry);
    BatchSumsTotals(request.increments, singles);
    SinglesKeySet(instance, records, hour, expiry, request.increments);
    TotalsCoverAll(Keys(request.increments), singles);
    SinglesTotal(instance, records, hour, expiry);
    PositiveSum(request.increments);
  }

  lemma AccessKeyNotEmpty(instance: string, bucket: Name, name: Name, hour: nat)
    requires AccessKey(instance, bucket, name, hour).Ok?
    ensures AccessKey(instance, bucket, name, hour).value != ""
  {
    hide Join, AccessParts;
    assert |NAMESPACE| > 0;
  }

  /**
   Every request built from at most as many records as LoadConfig allows passes validateRequest
   and, for an expiry after the epoch and within Redis' range, can be applied.
   */
  lemma IngestedRequestIsAccepted(config: Config, maxRecords: nat, request: Request, instance: string,
                                  records: seq<Access>, hour: nat, expiry: Time)
    requires CountsRecords(request, instance, records, hour, expiry)
    requires 0 < |records| <= maxRecords <= config.maxEvents && maxRecords <= config.maxKeys
    requires 0 < Unix(expiry) <= MAX_EXPIRE_SECONDS
    ensures Accepted(config, request) && Timely(request)
  {
    hide RecordKey, SumDeltas, KeyTotal;
    IngestedTotal(request, instance, records, hour, expiry);
    var increments := request.increments;
    forall i | 0 <= i < |increments|
      ensures increments[i].key != ""
    {
      assert KeyOfSome(instance, records, hour, increments[i].key);
      var j :| 0 <= j < |records| && RecordKey(instance, records[j], hour) == Ok(increments[i].key);
      RecordKeyNotEmpty(instance, records[j], hour);
    }
    assert RecordKey(instance, records[0], hour).value in Keys(increments);
  }

  lemma RecordKeyNotEmpty(instance: string, record: Access, hour: nat)
    requires RecordKey(instance, record, hour).Ok?
    ensures RecordKey(instance, record, hour).value != ""
  {
    hide AccessKey;
    AccessKeyNotEmpty(instance, record.bucket, record.name, hour);
  }

  /** Between 1970 and 9999 every retention gives an expiry that EXPIREAT accepts. */
  lemma IngestExpiryIsInRange(acceptedAt: Time, retention: int64)
    requires 0 <= acceptedAt <= LAST_TIME && ValidateCounterRetention(retention)
    ensures 0 < Unix(CounterExpiry(acceptedAt, retention)) <= MAX_EXPIRE_SECONDS
    ensures CounterExpiry(acceptedAt, retention) == CounterExpiry(StartOf(HourOf(acceptedAt)), retention)
  {
    HourOfBounds(acceptedAt);
    StartOfIsWhole(HourOf(acceptedAt));
  }

  lemma {:induction false} KeyTotalOfDistinct(increments: seq<Increment>, key: string)
    requires Distinct(Keys(increments))
    ensures forall i :: 0 <= i < |increments| && increments[i].key == key ==> KeyTotal(increments, key) == increments[i].delta
    ensures key !in Keys(increments) ==> KeyTotal(increments, key) == 0
  {
    if increments != [] {
      var front := increments[..|increments| - 1];
      PrefixOfDistinct(increments, |increments| - 1);
      assert increments[..|increments| - 1] == front;
      KeyTotalOfDistinct(front, key);
      var keys := Keys(increments);
      forall i | 0 <= i < |front|
        ensures Keys(front)[i] == keys[i] && keys[i] != keys[|increments| - 1]
      {}
      assert key !in keys ==> key !in Keys(front);
    }
  }

  /** The increment an ingested request makes to any object's counter of any hour. */
  lemma RequestKeyTotal(request: Request, instance: string, records: seq<Access>, hour: nat, expiry: Time,
                        record: Access, window: nat)
    requires CountsRecords(request, instance, records, hour, expiry)
    requires RecordKey(instance, record, window).Ok?
    ensures KeyTotal(request.increments, RecordKey(instance, record, window).value)
            == if window == hour then Accesses(records, record) else 0
  {
    hide RecordKey, KeyTotal;
    var key, increments := RecordKey(instance, record, window).value, request.increments;
    KeyTotalOfDistinct(increments, key);
    if key in Keys(increments) {
      var i :| 0 <= i < |increments| && Keys(increments)[i] == key;
      assert KeyOfSome(instance, records, hour, increments[i].key);
      var j :| 0 <= j < |records| && RecordKey(instance, records[j], hour) == Ok(increments[i].key);
      SameKeySameHour(instance, records[j], hour, record, window);
      SinglesKeyTotal(instance, records, hour, expiry, record);
    } else if window == hour {
      AccessesBound(records, record);
      assert forall j :: 0 <= j < |records| && records[j] == record ==> RecordKey(instance, records[j], hour).value in Keys(increments);
    }
  }

  lemma SameKeySameHour(instance: string, a: Access, h: nat, b: Access, k: nat)
    requires RecordKey(instance, a, h).Ok? && RecordKey(instance, a, h) == RecordKey(instance, b, k)
    ensures a == b && h == k
  {
    AccessKeyInjective(instance, a.bucket, a.name, h, instance, b.bucket, b.name, k);
  }
}
