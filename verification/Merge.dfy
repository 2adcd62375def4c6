/** The pending batch: whole jobs, merged per key into one increment each. */
module Merge {
  import opened GoTypes
  import opened Text
  import opened RedisStore
  import opened Batch

  function Events(jobs: seq<Job>): int {
    if jobs == [] then 0 else Events(jobs[..|jobs| - 1]) + jobs[|jobs| - 1].request.events
  }

  /** All increments of the jobs, in order of arrival. */
  function Flat(jobs: seq<Job>): seq<Increment> {
    if jobs == [] then [] else Flat(jobs[..|jobs| - 1]) + jobs[|jobs| - 1].request.increments
  }

  function MergeOne(merged: map<string, Increment>, increment: Increment): map<string, Increment> {
    if increment.key !in merged then merged[increment.key := increment]
    else
      var current := merged[increment.key];
      merged[increment.key := Increment(current.key, Wrap(current.delta + increment.delta),
                                        if increment.expireAt > current.expireAt then increment.expireAt else current.expireAt)]
  }

  function MergeAll(increments: seq<Increment>): map<string, Increment> {
    if increments == [] then map[]
    else MergeOne(MergeAll(increments[..|increments| - 1]), increments[|increments| - 1])
  }

  /** The sum of the deltas of one key. */
  function KeyTotal(increments: seq<Increment>, key: string): int {
    if increments == [] then 0
    else
      var last := increments[|increments| - 1];
      KeyTotal(increments[..|increments| - 1], key) + if last.key == key then last.delta else 0
  }

  ghost predicate Positive(increments: seq<Increment>) {
    forall i :: 0 <= i < |increments| ==> increments[i].delta > 0
  }

  ghost predicate IsLatestExpiry(increments: seq<Increment>, key: string, expireAt: Time) {
    && (exists i :: 0 <= i < |increments| && increments[i].key == key && increments[i].expireAt == expireAt)
    && (forall i :: 0 <= i < |increments| && increments[i].key == key ==> increments[i].expireAt <= expireAt)
  }

  /** The per-key sum and the latest expiry, for exactly the keys that occur. */
  ghost predicate IsMerge(merged: map<string, Increment>, increments: seq<Increment>) {
    && merged.Keys == KeySet(increments)
    && forall k :: k in merged ==>
         merged[k].key == k && merged[k].delta == KeyTotal(increments, k) && IsLatestExpiry(increments, k, merged[k].expireAt)
  }

  lemma {:induction false} KeyTotalBounds(increments: seq<Increment>, key: string)
    requires Positive(increments)
    ensures 0 <= KeyTotal(increments, key) <= SumDeltas(increments)
    ensures key in KeySet(increments) <==> KeyTotal(increments, key) > 0
  {
    if increments != [] {
      var front := increments[..|increments| - 1];
      KeyTotalBounds(front, key);
      KeySetExtends(front, increments[|increments| - 1]);
      assert increments == front + [increments[|increments| - 1]];
    }
  }

  lemma KeySetExtends(front: seq<Increment>, last: Increment)
    ensures KeySet(front + [last]) == KeySet(front) + {last.key}
  {
    var all := front + [last];
    forall k | k in KeySet(front) ensures k in KeySet(all) {
      var j :| 0 <= j < |front| && front[j].key == k;
      assert all[j].key == k;
    }
    assert all[|front|].key == last.key;
  }

  lemma LatestExpiryExtends(front: seq<Increment>, last: Increment, key: string, expireAt: Time)
    requires key != last.key && IsLatestExpiry(front, key, expireAt)
    ensures IsLatestExpiry(front + [last], key, expireAt)
  {
    var i :| 0 <= i < |front| && front[i].key == key && front[i].expireAt == expireAt;
    assert (front + [last])[i].key == key;
  }

  lemma LatestExpiryOfLast(front: seq<Increment>, last: Increment, expireAt: Time)
    requires last.key in KeySet(front) ==> IsLatestExpiry(front, last.key, expireAt)
    ensures var latest := if last.key in KeySet(front) && last.expireAt <= expireAt then expireAt else last.expireAt;
            IsLatestExpiry(front + [last], last.key, latest)
  {
    var all := front + [last];
    assert all[|front|] == last;
    if last.key in KeySet(front) {
      var i :| 0 <= i < |front| && front[i].key == last.key && front[i].expireAt == expireAt;
      assert all[i].key == last.key;
    } else {
      assert forall i :: 0 <= i < |front| ==> front[i].key in KeySet(front);
    }
  }

  lemma {:induction false} KeyTotalOutside(flat: seq<Increment>, k: string)
    requires k !in KeySet(flat)
    ensures KeyTotal(flat, k) == 0
  {
    if flat != [] {
      var front, last := flat[..|flat| - 1], flat[|flat| - 1];
      KeySetExtends(front, last);
      assert flat == front + [last];
      KeyTotalOutside(front, k);
    }
  }

  /** What the int64 additions of the merge make of the sums: for exactly the keys that occur, with the latest expiry. */
  ghost predicate WrapsTo(merged: map<string, Increment>, increments: seq<Increment>) {
    && merged.Keys == KeySet(increments)
    && forall k :: k in merged ==>
         merged[k].key == k && merged[k].delta == Wrap(KeyTotal(increments, k)) && IsLatestExpiry(increments, k, merged[k].expireAt)
  }

  /** Merging one increment at a time computes the wrapped per-key sums and the maxima. */
  lemma {:induction false} MergeAllWraps(increments: seq<Increment>)
    ensures WrapsTo(MergeAll(increments), increments)
  {
    if increments != [] {
      var front, last := increments[..|increments| - 1], increments[|increments| - 1];
      MergeAllWraps(front);
      MergeStep(front, last);
      assert increments == front + [last];
    }
  }

  lemma MergeStep(front: seq<Increment>, last: Increment)
    requires WrapsTo(MergeAll(front), front)
    ensures WrapsTo(MergeOne(MergeAll(front), last), front + [last])
  {
    hide MergeAll, IsLatestExpiry, Wrap, KeySet;
    var old_, new_ := MergeAll(front), MergeOne(MergeAll(front), last);
    var all := front + [last];
    assert all[..|all| - 1] == front;
    KeySetExtends(front, last);
    WrapSteps(KeyTotal(front, last.key), last.delta);
    if last.key !in KeySet(front) {
      KeyTotalOutside(front, last.key);
    }
    forall k | k in new_
      ensures new_[k].key == k && new_[k].delta == Wrap(KeyTotal(all, k)) && IsLatestExpiry(all, k, new_[k].expireAt)
    {
      if k != last.key {
        LatestExpiryExtends(front, last, k, old_[k].expireAt);
      } else {
        LatestExpiryOfLast(front, last, if k in old_ then old_[k].expireAt else 0);
      }
    }
  }

  /** No key's total leaves the int64 range. */
  ghost predicate TotalsFit(increments: seq<Increment>) {
    forall k: string :: KeyTotal(increments, k) <= MAX_INT64
  }

  /** The merge is exact exactly when no key's total leaves the int64 range. */
  lemma MergeExact(increments: seq<Increment>)
    requires Positive(increments)
    ensures IsMerge(MergeAll(increments), increments) <==> TotalsFit(increments)
  {
    hide MergeAll, IsLatestExpiry, KeyTotal;
    MergeAllWraps(increments);
    var merged := MergeAll(increments);
    forall k: string
      ensures 0 <= KeyTotal(increments, k) && (k in KeySet(increments) <==> KeyTotal(increments, k) > 0)
      ensures k in merged ==> merged[k].delta == Wrap(KeyTotal(increments, k))
    {
      KeyTotalBounds(increments, k);
    }
    if IsMerge(merged, increments) {
      forall k: string ensures KeyTotal(increments, k) <= MAX_INT64 {
        assert k in merged ==> merged[k].delta == KeyTotal(increments, k);
      }
    }
  }

  /** Of increments whose sum is an int64 the merge is the per-key sum and maximum. */
  lemma MergeAllIsMerge(increments: seq<Increment>)
    requires Positive(increments) && SumDeltas(increments) <= MAX_INT64
    ensures IsMerge(MergeAll(increments), increments)
  {
    hide MergeAll, IsMerge;
    MergeExact(increments);
    forall k: string ensures KeyTotal(increments, k) <= MAX_INT64 {
      KeyTotalBounds(increments, k);
    }
  }

  lemma {:induction false} FlatAppends(jobs: seq<Job>, job: Job)
    ensures Flat(jobs + [job]) == Flat(jobs) + job.request.increments
    ensures Events(jobs + [job]) == Events(jobs) + job.request.events
  {
    assert (jobs + [job])[..|jobs|] == jobs;
  }

  lemma {:induction false} SumDeltasAppends(a: seq<Increment>, b: seq<Increment>)
    ensures SumDeltas(a + b) == SumDeltas(a) + SumDeltas(b)
  {
    if b == [] {
      assert a + b == a;
    } else {
      SumDeltasAppends(a, b[..|b| - 1]);
      assert (a + b)[..|a + b| - 1] == a + b[..|b| - 1];
    }
  }

  /** Jobs whose requests were validated and whose deltas did not wrap. */
  ghost predicate Counted(jobs: seq<Job>) {
    forall i :: 0 <= i < |jobs| ==>
      && WellFormedIncrements(jobs[i].request.increments)
      && SumDeltas(jobs[i].request.increments) == jobs[i].request.events
  }

  /** No event is lost or invented by merging: the deltas of a batch add up to its events. */
  lemma {:induction false} FlatTotals(jobs: seq<Job>)
    requires Counted(jobs)
    ensures Positive(Flat(jobs)) && SumDeltas(Flat(jobs)) == Events(jobs)
  {
    if jobs != [] {
      var front := jobs[..|jobs| - 1];
      FlatTotals(front);
      SumDeltasAppends(Flat(front), jobs[|jobs| - 1].request.increments);
    }
  }

  /** A batch may take a job when neither limit would be exceeded. */
  ghost predicate Fits(jobs: seq<Job>, job: Job, config: Config) {
    && Events(jobs) + job.request.events <= config.maxEvents
    && |KeySet(Flat(jobs)) + KeySet(job.request.increments)| <= config.maxKeys
  }

  ghost predicate IsFull(jobs: seq<Job>, config: Config) {
    Events(jobs) == config.maxEvents || |KeySet(Flat(jobs))| == config.maxKeys
  }

  lemma {:induction false} MergeAllKeys(increments: seq<Increment>)
    ensures MergeAll(increments).Keys == KeySet(increments)
  {
    if increments != [] {
      var front, last := increments[..|increments| - 1], increments[|increments| - 1];
      MergeAllKeys(front);
      KeySetExtends(front, last);
      assert increments == front + [last];
    }
  }

  lemma MergeAllExtends(before: seq<Increment>, added: seq<Increment>, i: nat)
    requires i < |added|
    ensures MergeAll(before + added[..i + 1]) == MergeOne(MergeAll(before + added[..i]), added[i])
  {
    assert (before + added[..i + 1])[..|before| + i] == before + added[..i];
  }

  lemma EmptyKeySet()
    ensures KeySet([]) == {}
  {}

  /** Among distinct keys each key outside the batch adds one to the union. */
  lemma CountKey(present: set<string>, added: seq<Increment>, i: nat)
    requires i < |added| && Distinct(Keys(added))
    ensures |present + KeySet(added[..i + 1])| ==
            |present + KeySet(added[..i])| + if added[i].key in present then 0 else 1
  {
    hide KeySet, Distinct;
    PrefixWellFormed(added, i);
    PrefixOfDistinct(added, i);
    PrefixOfDistinct(added, i + 1);
    DistinctKeysExtend(added, i);
    var before, key := present + KeySet(added[..i]), added[i].key;
    assert present + KeySet(added[..i + 1]) == before + {key};
    if key in present {
      assert before + {key} == before;
    }
  }

  class PendingBatch {
    var jobs: seq<Job>
    var events: int
    var increments: map<string, Increment>

    ghost predicate Valid()
      reads this
    {
      events == Events(jobs) && increments == MergeAll(Flat(jobs))
    }

    constructor (job: Job)
      ensures Valid() && jobs == [job]
    {
      jobs, events, increments := [], 0, map[];
      new;
      Add(job);
    }

    /** Exact for validated requests: a key repeated inside one request would be counted twice. */
    method CanAdd(job: Job, config: Config) returns (fits: bool)
      requires Valid() && Distinct(Keys(job.request.increments))
      ensures fits <==> Fits(jobs, job, config)
    {
      hide Events, Flat, MergeAll, KeySet;
      MergeAllKeys(Flat(jobs));
      if events + job.request.events > config.maxEvents {
        return false;
      }
      var unique, added := |increments|, job.request.increments;
      assert KeySet(added[..0]) == {} by { EmptyKeySet(); }
      assert increments.Keys + {} == increments.Keys;
      for i := 0 to |added|
        invariant unique == |increments.Keys + KeySet(added[..i])|
      {
        CountKey(increments.Keys, added, i);
        if added[i].key !in increments {
          unique := unique + 1;
        }
      }
      assert added[..|added|] == added;
      fits := unique <= config.maxKeys;
    }

    method Add(job: Job)
      requires Valid()
      modifies this
      ensures Valid() && jobs == old(jobs) + [job]
    {
      hide Events, Flat, MergeAll;
      ghost var before := Flat(jobs);
      FlatAppends(jobs, job);
      jobs := jobs + [job];
      events := events + job.request.events;
      var added := job.request.increments;
      assert before + added[..0] == before;
      for i := 0 to |added|
        invariant increments == MergeAll(before + added[..i])
        invariant jobs == old(jobs) + [job] && events == Events(jobs)
      {
        var increment := added[i];
        MergeAllExtends(before, added, i);
        if increment.key !in increments {
          increments := increments[increment.key := increment];
        } else {
          var current := increments[increment.key];
          current := current.(delta := Wrap(current.delta + increment.delta));
          if increment.expireAt > current.expireAt {
            current := current.(expireAt := increment.expireAt);
          }
          increments := increments[increment.key := current];
        }
      }
      assert added[..|added|] == added;
    }

    method Full(config: Config) returns (full: bool)
      requires Valid()
      ensures full <==> IsFull(jobs, config)
    {
      MergeAllKeys(Flat(jobs));
      full := events == config.maxEvents || |increments| == config.maxKeys;
    }
  }
}
