/** A flush: the pending map becomes one key-sorted batch, handed whole to the store. */
module Flush {
  import opened Wrappers
  import opened GoTypes
  import opened Text
  import opened RedisStore
  import opened Batch
  import opened Merge

  /** The key-sorted list of exactly the map's increments. */
  ghost predicate Lists(batch: seq<Increment>, merged: map<string, Increment>) {
    && StrictlySorted(Keys(batch))
    && KeySet(batch) == merged.Keys
    && forall i :: 0 <= i < |batch| ==> batch[i].key in merged && batch[i] == merged[batch[i].key]
  }

  ghost predicate KeysAscend(s: seq<Increment>) {
    forall i, j :: 0 <= i < j < |s| ==> LessEq(s[i].key, s[j].key)
  }

  /** The elements before the place of x are not after it. */
  lemma NotAfter(s: seq<Increment>, n: nat, key: string)
    requires KeysAscend(s) && 0 < n <= |s| && !Less(key, s[n - 1].key)
    ensures forall i :: 0 <= i < n ==> LessEq(s[i].key, key)
  {
    LessTotal(key, s[n - 1].key);
    forall i | 0 <= i < n
      ensures LessEq(s[i].key, key)
    {
      if i < n - 1 && s[i].key != s[n - 1].key && s[n - 1].key != key {
        LessTransitive(s[i].key, s[n - 1].key, key);
      }
    }
  }

  lemma InsertedMultiset(s: seq<Increment>, n: nat, x: Increment)
    requires n <= |s|
    ensures multiset(s[..n] + [x] + s[n..]) == multiset(s) + multiset{x}
  {
    assert s == s[..n] + s[n..];
    assert multiset(s[..n] + [x] + s[n..]) == multiset(s[..n]) + multiset{x} + multiset(s[n..]);
  }

  /** One element into its place in a key-sorted list. */
  method InsertByKey(s: seq<Increment>, x: Increment) returns (r: seq<Increment>)
    requires KeysAscend(s)
    ensures KeysAscend(r) && multiset(r) == multiset(s) + multiset{x}
  {
    hide Less;
    var n := |s|;
    while n > 0 && Less(x.key, s[n - 1].key)
      invariant 0 <= n <= |s|
      invariant forall j :: n <= j < |s| ==> Less(x.key, s[j].key)
    {
      n := n - 1;
    }
    if n > 0 {
      NotAfter(s, n, x.key);
    }
    r := s[..n] + [x] + s[n..];
    InsertedMultiset(s, n, x);
  }

  /** sort.Slice by key. */
  method SortByKey(s: seq<Increment>) returns (r: seq<Increment>)
    ensures KeysAscend(r) && multiset(r) == multiset(s)
  {
    r := [];
    for i := 0 to |s|
      invariant KeysAscend(r) && multiset(r) == multiset(s[..i])
    {
      r := InsertByKey(r, s[i]);
      assert s[..i + 1] == s[..i] + [s[i]];
    }
    assert s[..|s|] == s;
  }

  ghost predicate Keyed(merged: map<string, Increment>) {
    forall k :: k in merged ==> merged[k].key == k
  }

  lemma InSeqInMultiset<T>(s: seq<T>, x: T)
    ensures x in s <==> x in multiset(s)
  {}

  /** A key-sorted permutation of a listing of the map, in whatever order it was iterated. */
  lemma SortedListing(listed: seq<Increment>, sorted: seq<Increment>, merged: map<string, Increment>)
    requires Keyed(merged) && KeysAscend(sorted) && multiset(sorted) == multiset(listed)
    requires Distinct(Keys(listed)) && KeySet(listed) == merged.Keys
    requires forall i :: 0 <= i < |listed| ==> listed[i].key in merged && listed[i] == merged[listed[i].key]
    ensures Lists(sorted, merged)
  {
    forall x ensures x in sorted <==> x in listed {
      InSeqInMultiset(sorted, x);
      InSeqInMultiset(listed, x);
    }
    forall i | 0 <= i < |sorted|
      ensures sorted[i].key in merged && sorted[i] == merged[sorted[i].key]
    {
      assert sorted[i] in listed;
    }
    forall k ensures k in KeySet(sorted) <==> k in merged.Keys {
      if k in KeySet(sorted) {
        var i :| 0 <= i < |sorted| && sorted[i].key == k;
      }
      if k in merged.Keys {
        assert k in KeySet(listed);
        var i :| 0 <= i < |listed| && listed[i].key == k;
        assert listed[i] in sorted;
        var j :| 0 <= j < |sorted| && sorted[j] == listed[i];
        assert sorted[j].key == k;
      }
    }
    EntriesOnce(listed, merged);
    AtMostOnceIsDistinct(sorted);
    forall i, j | 0 <= i < j < |sorted|
      ensures Less(Keys(sorted)[i], Keys(sorted)[j])
    {
      assert sorted[i] != sorted[j];
    }
  }

  lemma TwiceInMultiset<T>(s: seq<T>, i: nat, j: nat)
    requires i < j < |s| && s[i] == s[j]
    ensures multiset(s)[s[i]] >= 2
  {
    assert s == s[..i] + [s[i]] + s[i + 1..j] + [s[j]] + s[j + 1..];
  }

  lemma AtMostOnceIsDistinct<T>(s: seq<T>)
    requires forall x :: multiset(s)[x] <= 1
    ensures Distinct(s)
  {
    forall i, j | 0 <= i < j < |s| && s[i] == s[j]
      ensures false
    {
      TwiceInMultiset(s, i, j);
    }
  }

  lemma {:induction false} EntriesOnce(listed: seq<Increment>, merged: map<string, Increment>)
    requires Distinct(Keys(listed))
    ensures forall x :: multiset(listed)[x] <= 1
  {
    if listed != [] {
      var front, last := listed[..|listed| - 1], listed[|listed| - 1];
      PrefixOfDistinct(listed, |listed| - 1);
      EntriesOnce(front, merged);
      assert listed == front + [last];
      forall i | 0 <= i < |front|
        ensures front[i] != last
      {
        assert Keys(listed)[i] != Keys(listed)[|listed| - 1];
      }
    }
  }

  /** Building the slice from the map, in any iteration order, and sorting it. */
  method ListIncrements(merged: map<string, Increment>) returns (batch: seq<Increment>)
    requires Keyed(merged)
    ensures Lists(batch, merged)
  {
    var rest, listed := merged.Keys, [];
    while rest != {}
      invariant rest <= merged.Keys && KeySet(listed) == merged.Keys - rest
      invariant Distinct(Keys(listed))
      invariant forall i :: 0 <= i < |listed| ==> listed[i].key in merged && listed[i] == merged[listed[i].key]
      decreases rest
    {
      var k :| k in rest;
      ghost var before := listed;
      listed := listed + [merged[k]];
      KeySetExtends(before, merged[k]);
      assert listed[..|before|] == before;
      DistinctKeysExtend(listed, |before|);
      assert listed[..|listed|] == listed;
      rest := rest - {k};
    }
    batch := SortByKey(listed);
    SortedListing(listed, batch, merged);
  }

  /** Map iteration order cannot be seen: the batch is a function of the pending map. */
  lemma ListingUnique(a: seq<Increment>, b: seq<Increment>, merged: map<string, Increment>)
    requires Lists(a, merged) && Lists(b, merged)
    ensures a == b
  {
    SameKeysSameOrder(Keys(a), Keys(b), a, b, merged);
    forall i | 0 <= i < |a| ensures a[i] == b[i] {
      assert Keys(a)[i] == Keys(b)[i];
    }
  }

  lemma SameKeysSameOrder(p: seq<string>, q: seq<string>, a: seq<Increment>, b: seq<Increment>, merged: map<string, Increment>)
    requires Lists(a, merged) && Lists(b, merged) && p == Keys(a) && q == Keys(b)
    ensures p == q
  {
    SortedDistinctIsStrict(p);
    SortedDistinctIsStrict(q);
    forall k ensures k in p <==> k in q {
      assert k in p <==> k in KeySet(a);
      assert k in q <==> k in KeySet(b);
    }
    DistinctSameElements(p, q);
    SortedPermutationUnique(p, q);
  }

  lemma {:induction false} DistinctCountsOnce(s: seq<string>, x: string)
    requires Distinct(s)
    ensures multiset(s)[x] == if x in s then 1 else 0
  {
    if s != [] {
      var front := s[..|s| - 1];
      DistinctCountsOnce(front, x);
      assert s == front + [s[|s| - 1]];
    }
  }

  lemma DistinctSameElements(p: seq<string>, q: seq<string>)
    requires Distinct(p) && Distinct(q) && forall k :: k in p <==> k in q
    ensures multiset(p) == multiset(q)
  {
    forall x ensures multiset(p)[x] == multiset(q)[x] {
      DistinctCountsOnce(p, x);
      DistinctCountsOnce(q, x);
    }
  }

  /** The sum, over distinct keys, of the totals of those keys. */
  function SumOfTotals(keys: seq<string>, increments: seq<Increment>): int {
    if keys == [] then 0 else SumOfTotals(keys[..|keys| - 1], increments) + KeyTotal(increments, keys[|keys| - 1])
  }

  lemma {:induction false} OneMoreIncrement(keys: seq<string>, front: seq<Increment>, last: Increment)
    requires Distinct(keys)
    ensures SumOfTotals(keys, front + [last]) == SumOfTotals(keys, front) + if last.key in keys then last.delta else 0
  {
    if keys != [] {
      var k := keys[..|keys| - 1];
      OneMoreIncrement(k, front, last);
      assert (front + [last])[..|front|] == front;
      assert keys == k + [keys[|keys| - 1]];
    }
  }

  lemma {:induction false} NoTotals(keys: seq<string>)
    ensures SumOfTotals(keys, []) == 0
  {
    if keys != [] {
      NoTotals(keys[..|keys| - 1]);
    }
  }

  lemma {:induction false} TotalsCoverAll(keys: seq<string>, increments: seq<Increment>)
    requires Distinct(keys) && forall i :: 0 <= i < |increments| ==> increments[i].key in keys
    ensures SumOfTotals(keys, increments) == SumDeltas(increments)
  {
    if increments == [] {
      NoTotals(keys);
    } else {
      var front, last := increments[..|increments| - 1], increments[|increments| - 1];
      TotalsCoverAll(keys, front);
      OneMoreIncrement(keys, front, last);
      assert increments == front + [last];
    }
  }

  lemma {:induction false} BatchSumsTotals(batch: seq<Increment>, increments: seq<Increment>)
    requires forall i :: 0 <= i < |batch| ==> batch[i].delta == KeyTotal(increments, batch[i].key)
    ensures SumDeltas(batch) == SumOfTotals(Keys(batch), increments)
  {
    if batch != [] {
      var front := batch[..|batch| - 1];
      BatchSumsTotals(front, increments);
      assert Keys(batch)[..|batch| - 1] == Keys(front);
    }
  }

  /** Every flushed batch of validated jobs carries exactly the jobs' events. */
  lemma FlushConservesEvents(jobs: seq<Job>, batch: seq<Increment>)
    requires Counted(jobs) && Events(jobs) <= MAX_INT64 && Lists(batch, MergeAll(Flat(jobs)))
    ensures SumDeltas(batch) == Events(jobs)
  {
    FlatTotals(jobs);
    MergeAllIsMerge(Flat(jobs));
    BatchSumsTotals(batch, Flat(jobs));
    SortedDistinctIsStrict(Keys(batch));
    forall i | 0 <= i < |Flat(jobs)|
      ensures Flat(jobs)[i].key in Keys(batch)
    {
      assert Flat(jobs)[i].key in KeySet(Flat(jobs));
      assert Flat(jobs)[i].key in KeySet(batch);
      var j :| 0 <= j < |batch| && batch[j].key == Flat(jobs)[i].key;
      assert Keys(batch)[j] == Flat(jobs)[i].key;
    }
    TotalsCoverAll(Keys(batch), Flat(jobs));
  }

  ghost predicate AfterEpoch(jobs: seq<Job>) {
    forall i :: 0 <= i < |jobs| ==>
      forall j :: 0 <= j < |jobs[i].request.increments| ==> Unix(jobs[i].request.increments[j].expireAt) > 0
  }

  lemma {:induction false} FlatElements(jobs: seq<Job>)
    requires Counted(jobs) && AfterEpoch(jobs)
    ensures forall i :: 0 <= i < |Flat(jobs)| ==> Flat(jobs)[i].key != "" && Unix(Flat(jobs)[i].expireAt) > 0
  {
    if jobs != [] {
      FlatElements(jobs[..|jobs| - 1]);
    }
  }

  /** A flushed batch of validated requests with expiries after the epoch passes commandArguments. */
  lemma FlushIsAcceptable(jobs: seq<Job>, batch: seq<Increment>)
    requires Counted(jobs) && AfterEpoch(jobs) && 0 < Events(jobs) <= MAX_INT64
    requires Lists(batch, MergeAll(Flat(jobs)))
    ensures Acceptable(batch)
  {
    var flat := Flat(jobs);
    FlatTotals(jobs);
    FlatElements(jobs);
    MergeAllIsMerge(flat);
    SortedDistinctIsStrict(Keys(batch));
    forall i | 0 <= i < |batch|
      ensures batch[i].key != "" && batch[i].delta > 0 && Unix(batch[i].expireAt) > 0
    {
      var k := batch[i].key;
      KeyTotalBounds(flat, k);
      assert IsLatestExpiry(flat, k, batch[i].expireAt);
      var j :| 0 <= j < |flat| && flat[j].key == k && flat[j].expireAt == batch[i].expireAt;
    }
    if batch == [] {
      NonemptyListing(flat, batch);
    }
  }

  lemma NonemptyListing(flat: seq<Increment>, batch: seq<Increment>)
    requires SumDeltas(flat) > 0 && Lists(batch, MergeAll(flat))
    ensures batch != []
  {
    MergeAllKeys(flat);
    assert flat != [];
    assert flat[0].key in KeySet(flat);
  }

  lemma MergedIsKeyed(increments: seq<Increment>)
    ensures Keyed(MergeAll(increments))
  {
    MergeAllWraps(increments);
  }

  /**
   flush without its timing and logging: sort, apply once, and report the outcome to every job.
   Batches of requests like ingest's are never refused for their arguments.
   */
  method FlushBatch(batch: PendingBatch, store: Store) returns (r: Result<(), ApplyError>, ghost applied: seq<Increment>)
    requires batch.Valid()
    modifies store, store.server
    ensures batch.Valid() && batch.jobs == old(batch.jobs)
    ensures Lists(applied, MergeAll(Flat(batch.jobs)))
    ensures store.server.runs <= old(store.server.runs) + 1
    ensures r.Ok? ==> store.server.runs == old(store.server.runs) + 1
    ensures r.Err? && r.error.BadArguments? <==> !Acceptable(applied)
    ensures old(store.server.log) <= store.server.log
    ensures Answers(r, store.server.log[|old(store.server.log)|..], old(store.sha), applied)
    ensures Counted(batch.jobs) && AfterEpoch(batch.jobs) && 0 < Events(batch.jobs) <= MAX_INT64 ==>
              !(r.Err? && r.error.BadArguments?)
    ensures ApplyEffect(r, old(store.server.db), store.server.db, store.server.now, applied)
  {
    hide MergeAll, Flat, Events, Counted, AfterEpoch, Acceptable, Lists, Answers;
    MergedIsKeyed(Flat(batch.jobs));
    var increments := ListIncrements(batch.increments);
    if Counted(batch.jobs) && AfterEpoch(batch.jobs) && 0 < Events(batch.jobs) <= MAX_INT64 {
      FlushIsAcceptable(batch.jobs, increments);
    }
    applied := increments;
    r := store.Apply(increments);
  }
}
