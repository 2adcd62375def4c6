/** The requests ingest can build, and a family of them in which no two neighbours share a batch. */
module IngestedRequests {
  import opened Wrappers
  import opened GoTypes
  import opened Text
  import opened Calendar
  import opened Contracts
  import opened RedisStore
  import opened Batch
  import opened Merge
  import opened Ledger
  import opened Ingest
  import opened AckTiming
  import D = Decimal

  /** What ingest makes of some decoded records, accepted at some instant from 1970 to 9999. */
  ghost predicate FromRecords(request: Request, instance: string, records: seq<Access>, acceptedAt: Time, retention: int64) {
    && records != [] && 0 <= acceptedAt <= LAST_TIME && ValidateCounterRetention(retention)
    && CountsRecords(request, instance, records, HourOf(acceptedAt), CounterExpiry(acceptedAt, retention))
  }

  /** A request that ingest can build of at most m records. */
  ghost predicate FromIngest(m: nat, request: Request) {
    exists instance, records, acceptedAt, retention: int64 ::
      FromRecords(request, instance, records, acceptedAt, retention) && |records| <= m
  }

  lemma IngestedIsSmall(c: Config, m: nat, request: Request)
    requires FromIngest(m, request) && m <= c.maxEvents && m <= c.maxKeys
    ensures Small(m, request) && Accepted(c, request) && Timely(request)
  {
    hide CountsRecords, Accepted, Timely, CounterExpiry;
    var instance, records, acceptedAt, retention: int64 :|
      FromRecords(request, instance, records, acceptedAt, retention) && |records| <= m;
    IngestExpiryIsInRange(acceptedAt, retention);
    IngestedTotal(request, instance, records, HourOf(acceptedAt), CounterExpiry(acceptedAt, retention));
    IngestedRequestIsAccepted(c, m, request, instance, records, HourOf(acceptedAt), CounterExpiry(acceptedAt, retention));
  }

  // ---- One access to each of many objects ----

  /** A number as a bucket or object name. */
  function Numeral(n: nat): (name: Name)
    ensures name != []
  {
    D.RenderIsCanonical(n);
    D.Render(n)
  }

  const SOME_HOUR: nat := HourOf(0)
  const SOME_EXPIRY: Time := CounterExpiry(0, HOUR)

  /** One access to each of `size` objects of bucket i. */
  function Tour(i: nat, size: nat): (records: seq<Access>)
    ensures |records| == size && forall j :: 0 <= j < size ==> records[j] == Access(Numeral(i), Numeral(j))
  {
    seq(size, j requires 0 <= j < size => Access(Numeral(i), Numeral(j)))
  }

  ghost function TourKey(i: nat, j: nat): (key: string)
    ensures RecordKey("i", Access(Numeral(i), Numeral(j)), SOME_HOUR) == Ok(key)
  {
    RecordKey("i", Access(Numeral(i), Numeral(j)), SOME_HOUR).value
  }

  lemma TourKeysDiffer(i: nat, j: nat, k: nat, l: nat)
    requires TourKey(i, j) == TourKey(k, l)
    ensures i == k && j == l
  {
    hide RecordKey;
    SameKeySameRecord("i", Access(Numeral(i), Numeral(j)), Access(Numeral(k), Numeral(l)), SOME_HOUR);
    D.RenderInjective(i, k);
    D.RenderInjective(j, l);
  }

  ghost function TourRequest(i: nat, size: nat): (request: Request)
    requires size <= MAX_INT64
    ensures request.events == size == |request.increments|
    ensures forall j :: 0 <= j < size ==> request.increments[j] == Increment(TourKey(i, j), 1, SOME_EXPIRY)
  {
    hide RecordKey;
    assert AllKeyed("i", Tour(i, size), SOME_HOUR) by {
      forall j | 0 <= j < size
        ensures RecordKey("i", Tour(i, size)[j], SOME_HOUR).Ok?
      {
        assert RecordKey("i", Tour(i, size)[j], SOME_HOUR) == Ok(TourKey(i, j));
      }
    }
    Request(size, Singles("i", Tour(i, size), SOME_HOUR, SOME_EXPIRY))
  }

  lemma TourIsDistinct(i: nat, size: nat)
    requires size <= MAX_INT64
    ensures Distinct(Keys(TourRequest(i, size).increments))
  {
    hide TourKey;
    var keys := Keys(TourRequest(i, size).increments);
    forall j, k | 0 <= j < k < size
      ensures keys[j] != keys[k]
    {
      if TourKey(i, j) == TourKey(i, k) {
        TourKeysDiffer(i, j, i, k);
      }
    }
  }

  /** Ingest builds the request of every nonempty tour. */
  lemma TourIsIngested(i: nat, size: nat, m: nat)
    requires 0 < size <= m && size <= MAX_INT64
    ensures FromIngest(m, TourRequest(i, size))
  {
    hide RecordKey, CounterExpiry, HourOf, KeyTotal;
    var request, records := TourRequest(i, size), Tour(i, size);
    var increments := request.increments;
    TourIsDistinct(i, size);
    forall j | 0 <= j < size
      ensures RecordKey("i", records[j], SOME_HOUR) == Ok(increments[j].key)
      ensures increments[j].key in Keys(increments)
    {
      assert Keys(increments)[j] == increments[j].key;
    }
    var singles := Singles("i", records, SOME_HOUR, SOME_EXPIRY);
    assert singles == increments;
    forall j | 0 <= j < size
      ensures increments[j].delta == KeyTotal(singles, increments[j].key)
    {
      KeyTotalOfDistinct(increments, increments[j].key);
    }
    assert CountsRecords(request, "i", records, HourOf(0), CounterExpiry(0, HOUR));
    assert FromRecords(request, "i", records, 0, HOUR);
  }

  /** A tour is as many events as keys, and shares no key with a tour of another bucket. */
  lemma ToursOfTwoBuckets(i: nat, size: nat, k: nat, length: nat)
    requires size <= MAX_INT64 && length <= MAX_INT64 && i != k
    ensures var a, b := TourRequest(i, size).increments, TourRequest(k, length).increments;
            |KeySet(a)| == size && |KeySet(a) + KeySet(b)| == size + length
  {
    hide TourKey, TourRequest, KeySet;
    var a, b := TourRequest(i, size).increments, TourRequest(k, length).increments;
    TourIsDistinct(i, size);
    TourIsDistinct(k, length);
    KeysOfDistinct(a);
    KeysOfDistinct(b);
    NoCommonKey(i, size, k, length);
    assert KeySet(a) + KeySet(b) - KeySet(a) == KeySet(b);
  }

  lemma NoCommonKey(i: nat, size: nat, k: nat, length: nat)
    requires size <= MAX_INT64 && length <= MAX_INT64 && i != k
    ensures KeySet(TourRequest(i, size).increments) !! KeySet(TourRequest(k, length).increments)
  {
    hide TourKey, TourRequest;
    forall j, l | 0 <= j < size && 0 <= l < length
      ensures TourKey(i, j) != TourKey(k, l)
    {
      if TourKey(i, j) == TourKey(k, l) {
        TourKeysDiffer(i, j, k, l);
      }
    }
  }

  lemma {:induction false} KeysOfDistinct(increments: seq<Increment>)
    requires Distinct(Keys(increments))
    ensures |KeySet(increments)| == |increments|
  {
    if increments == [] {
      EmptyKeySet();
    } else {
      var n := |increments| - 1;
      PrefixOfDistinct(increments, n);
      KeysOfDistinct(increments[..n]);
      assert increments[..n + 1] == increments;
      DistinctKeysExtend(increments, n);
      PrefixWellFormed(increments, n);
    }
  }
}
