/**
 What a traversal needs of its listings: why a sorted, complete listing resumed from the cursor
 leaves no gap, bucket by bucket and object by object.
 */
module Traversal {
  import opened Wrappers
  import opened Text
  import opened Contracts
  import opened Minio
  import opened Progress
  import F = Flush

  /** A bucket's listing after a given name: what there is, how much of it arrives, and whether it then fails. */
  datatype Listing = Listing(full: seq<Object>, delivered: nat, failed: bool)

  /** What one scan gets to see; every listing is asked for at most once. */
  datatype Inventory = Inventory(buckets: seq<Name>, list: (Name, Name) -> Listing)

  function Source(l: Listing): seq<Listed> {
    var n := if l.failed && l.delivered <= |l.full| then l.delivered else |l.full|;
    Entries(l.full[..n]) + if l.failed then [ListFailed] else []
  }

  predicate IsDirectory(o: Object) {
    o.size == 0 && |o.name| > 0 && o.name[|o.name| - 1] == '/'
  }

  function Id(o: Object): Access {
    Access(o.bucket, o.name)
  }

  function Ids(objects: seq<Object>): (ids: seq<Access>)
    ensures |ids| == |objects| && forall i :: 0 <= i < |ids| ==> ids[i] == Id(objects[i])
  {
    seq(|objects|, i requires 0 <= i < |objects| => Id(objects[i]))
  }

  /** An object to be handled is listed under this name: one with content, or one whose name does not end in a slash. */
  ghost predicate ListsObject(l: Listing, o: Access) {
    exists j :: 0 <= j < |l.full| && l.full[j].name == o.name &&
                (l.full[j].size != 0 || o.name == [] || o.name[|o.name| - 1] != '/')
  }

  /** A sorted listing with every object of interest in it. */
  ghost predicate FaithfulListing(l: Listing, bucket: Name, startAfter: Name, stable: set<Access>) {
    && Ascending(l.full, startAfter)
    && forall o :: o in stable && o.bucket == bucket && Less(startAfter, o.name) ==> ListsObject(l, o)
  }

  ghost predicate FaithfulInventory(inv: Inventory, stable: set<Access>) {
    && (forall o :: o in stable ==> o.bucket in inv.buckets && o.name != [])
    && forall bucket, startAfter :: FaithfulListing(inv.list(bucket, startAfter), bucket, startAfter, stable)
  }

  /** Why reading a listing ends in an error: it fails, it does not ascend, or it names nothing. */
  ghost predicate FlawedListing(l: Listing, startAfter: Name) {
    l.failed || !Ascending(l.full, startAfter) || exists k :: 0 <= k < |l.full| && l.full[k].name == []
  }

  ghost predicate FlawedInventory(inv: Inventory) {
    [] in inv.buckets || exists bucket, startAfter :: bucket in inv.buckets && FlawedListing(inv.list(bucket, startAfter), startAfter)
  }

  /** The order filter complains about nothing else. */
  lemma SourceFlawed(l: Listing, startAfter: Name)
    ensures FilterError(Source(l), startAfter).Some? ==> FlawedListing(l, startAfter)
  {
    if !l.failed && Ascending(l.full, startAfter) {
      PassedUpTo(l.full, [], startAfter);
      assert l.full[..|l.full|] == l.full && Entries(l.full) + [] == Source(l);
    }
  }

  lemma NamelessFlawed(l: Listing, startAfter: Name, i: nat)
    requires i < |PassedOn(Source(l), startAfter)|
    ensures PassedOn(Source(l), startAfter)[i].name == [] ==> FlawedListing(l, startAfter)
  {
    PassedOnAscends(Source(l), startAfter);
    hide PassedOn;
    var n := if l.failed && l.delivered <= |l.full| then l.delivered else |l.full|;
    assert Entries(PassedOn(Source(l), startAfter))[i] == Source(l)[i];
    if i < n {
      assert Source(l)[i] == Entries(l.full[..n])[i] == Listed.Entry(l.full[i]);
    }
  }

  function Frontier(objects: seq<Object>, i: nat, startAfter: Name): Name
    requires i <= |objects|
  {
    if i == 0 then startAfter else objects[i - 1].name
  }

  lemma LessEqReflexive(a: string)
    ensures LessEq(a, a)
  {}

  lemma LessEqThenLess(a: string, b: string, c: string)
    requires LessEq(a, b) && Less(b, c)
    ensures Less(a, c)
  {
    if a != b {
      LessTransitive(a, b, c);
    }
  }

  lemma LessThenLessEq(a: string, b: string, c: string)
    requires Less(a, b) && LessEq(b, c)
    ensures Less(a, c)
  {
    if b != c {
      LessTransitive(a, b, c);
    }
  }

  lemma AfterCursor(objects: seq<Object>, i: nat, startAfter: Name)
    requires Ascending(objects, startAfter) && i < |objects|
    ensures Less(Frontier(objects, i, startAfter), objects[i].name)
  {}

  /** An object after everything read so far is after the cursor. */
  lemma StepsPast(cursor: Option<Cursor>, bucket: Name, frontier: Name, name: Name)
    requires Less(frontier, name)
    requires cursor.Some? ==> Less(cursor.value.bucket, bucket) || (cursor.value.bucket == bucket && LessEq(cursor.value.name, frontier))
    ensures cursor.Some? ==> CursorBefore(cursor.value, Cursor(bucket, name, 0))
  {
    LessIrreflexive(bucket);
    if cursor.Some? && cursor.value.bucket == bucket {
      LessEqThenLess(cursor.value.name, frontier, name);
    }
  }

  /** What may be passed up to a name may be passed up to an earlier one. */
  lemma PassLess(e: Exclusions, stable: set<Access>, bucket: Name, lower: Name, upper: Name, covered: set<Access>)
    requires LessEq(lower, upper) && NothingSkipped(e, stable, Some(Cursor(bucket, upper, 0)), covered)
    ensures NothingSkipped(e, stable, Some(Cursor(bucket, lower, 0)), covered)
  {
    hide IsExcluded;
    forall o | Reached(Some(Cursor(bucket, lower, 0)), o)
      ensures Reached(Some(Cursor(bucket, upper, 0)), o)
    {
      if o.bucket == bucket && Less(o.name, lower) {
        LessThenLessEq(o.name, lower, upper);
      }
    }
  }

  // ---- Why a sorted listing leaves no gap ----

  /** Of a sorted listing everything that arrives is passed on. */
  lemma SortedSourcePasses(l: Listing, startAfter: Name)
    requires Ascending(l.full, startAfter)
    ensures PassedOn(Source(l), startAfter) <= l.full
    ensures FilterError(Source(l), startAfter).None? ==> PassedOn(Source(l), startAfter) == l.full
  {
    var n := if l.failed && l.delivered <= |l.full| then l.delivered else |l.full|;
    var arrived := l.full[..n];
    PrefixAscends(l.full, n, startAfter);
    PassedUpTo(arrived, if l.failed then [ListFailed] else [], startAfter);
  }

  lemma PrefixAscends(objects: seq<Object>, n: nat, startAfter: Name)
    requires Ascending(objects, startAfter) && n <= |objects|
    ensures Ascending(objects[..n], startAfter)
  {}

  lemma {:induction false} PassedUpTo(objects: seq<Object>, rest: seq<Listed>, previous: Name)
    requires Ascending(objects, previous) && (rest == [] || rest[0].ListFailed?)
    ensures PassedOn(Entries(objects) + rest, previous) == objects
    ensures FilterError(Entries(objects) + rest, previous).None? <==> rest == []
  {
    if objects == [] {
      assert Entries(objects) + rest == rest;
    } else {
      var head, tail := objects[0], objects[1..];
      assert objects == [head] + tail;
      AscendingCons(head, tail, previous);
      PassedUpTo(tail, rest, head.name);
      assert (Entries(objects) + rest)[1..] == Entries(tail) + rest;
    }
  }

  /** Between two neighbours of a sorted listing there is no object of interest. */
  lemma NothingBetween(l: Listing, bucket: Name, startAfter: Name, stable: set<Access>, i: nat, o: Access)
    requires FaithfulListing(l, bucket, startAfter, stable) && i < |l.full|
    requires o in stable && o.bucket == bucket
    requires Less(Frontier(l.full, i, startAfter), o.name) && LessEq(o.name, l.full[i].name)
    ensures o.name == l.full[i].name && !IsDirectory(l.full[i])
  {
    if i > 0 {
      LessTransitive(startAfter, l.full[i - 1].name, o.name);
    }
    assert ListsObject(l, o);
    var j :| 0 <= j < |l.full| && l.full[j].name == o.name && (l.full[j].size != 0 || o.name == [] || o.name[|o.name| - 1] != '/');
    if j < i {
      if j < i - 1 {
        LessTransitive(l.full[j].name, l.full[i - 1].name, o.name);
      }
      LessIrreflexive(o.name);
    } else if j > i {
      LessThenLessEq(l.full[i].name, o.name, l.full[i].name);
      LessIrreflexive(l.full[i].name);
    }
  }

  lemma FrontierAdvances(l: Listing, bucket: Name, startAfter: Name, stable: set<Access>, e: Exclusions, covered: set<Access>,
                         chunk: seq<Object>, i: nat, live: bool)
    requires i < |PassedOn(Source(l), startAfter)|
    requires var objects := PassedOn(Source(l), startAfter);
             live ==> FaithfulListing(l, bucket, startAfter, stable) &&
                      NothingSkipped(e, stable, Some(Cursor(bucket, Frontier(objects, i, startAfter), 0)), covered + Elements(Ids(chunk)))
    ensures var objects := PassedOn(Source(l), startAfter);
            var item := objects[i].(bucket := bucket);
            live ==> NothingSkipped(e, stable, Some(Cursor(bucket, Frontier(objects, i + 1, startAfter), 0)),
                                    covered + Elements(Ids(if IsDirectory(item) then chunk else chunk + [item])))
  {
    hide IsExcluded, PassedOn, FilterError, Source, IsDirectory, FaithfulListing;
    if live {
      var objects := PassedOn(Source(l), startAfter);
      var item := objects[i].(bucket := bucket);
      FaithfulAscends(l, bucket, startAfter, stable);
      SortedSourcePasses(l, startAfter);
      DirectoryIgnoresBucket(objects[i], bucket);
      var longer := if IsDirectory(item) then chunk else chunk + [item];
      assert Ids(longer) == if IsDirectory(item) then Ids(chunk) else Ids(chunk) + [Id(item)];
      forall o | o in stable && !IsExcluded(e, o.bucket) && Reached(Some(Cursor(bucket, objects[i].name, 0)), o)
        ensures o in covered + Elements(Ids(longer))
      {
        if o.bucket == bucket {
          LessIrreflexive(bucket);
          LessTotal(Frontier(objects, i, startAfter), o.name);
          if Less(Frontier(objects, i, startAfter), o.name) {
            NothingBetween(l, bucket, startAfter, stable, i, o);
            assert o == Id(item);
            assert Ids(longer)[|chunk|] == o;
          }
        }
      }
    }
  }

  lemma FaithfulAscends(l: Listing, bucket: Name, startAfter: Name, stable: set<Access>)
    requires FaithfulListing(l, bucket, startAfter, stable)
    ensures Ascending(l.full, startAfter)
  {}

  lemma DirectoryIgnoresBucket(o: Object, bucket: Name)
    ensures IsDirectory(o.(bucket := bucket)) == IsDirectory(o)
  {}

  /** Once a listing has ended without an error, nothing of interest is left in the bucket. */
  lemma EndOfListing(l: Listing, bucket: Name, startAfter: Name, stable: set<Access>, e: Exclusions, covered: set<Access>, chunk: seq<Object>)
    requires FaithfulListing(l, bucket, startAfter, stable) && FilterError(Source(l), startAfter).None? && !IsExcluded(e, bucket)
    requires var objects := PassedOn(Source(l), startAfter);
             NothingSkipped(e, stable, Some(Cursor(bucket, Frontier(objects, |objects|, startAfter), 0)), covered + Elements(Ids(chunk)))
    ensures forall o :: o in stable && o.bucket == bucket ==> o in covered + Elements(Ids(chunk))
  {
    hide IsExcluded, PassedOn, FilterError, Source, IsDirectory, FaithfulListing;
    FaithfulAscends(l, bucket, startAfter, stable);
    SortedSourcePasses(l, startAfter);
    forall o | o in stable && o.bucket == bucket
      ensures o in covered + Elements(Ids(chunk))
    {
      WithinFrontier(l, bucket, startAfter, stable, o);
      assert Reached(Some(Cursor(bucket, Frontier(l.full, |l.full|, startAfter), 0)), o);
    }
  }

  lemma WithinFrontier(l: Listing, bucket: Name, startAfter: Name, stable: set<Access>, o: Access)
    requires FaithfulListing(l, bucket, startAfter, stable) && o in stable && o.bucket == bucket
    ensures LessEq(o.name, Frontier(l.full, |l.full|, startAfter))
  {
    hide IsDirectory;
    LessTotal(startAfter, o.name);
    if Less(startAfter, o.name) {
      assert ListsObject(l, o);
      var j :| 0 <= j < |l.full| && l.full[j].name == o.name;
    } else if |l.full| > 0 && o.name != startAfter {
      LessTransitive(o.name, startAfter, l.full[|l.full| - 1].name);
    }
  }

  /** Bucket names in ascending order, by the in-place sort. */
  method SortedBuckets(buckets: seq<Name>) returns (names: seq<Name>)
    requires Distinct(buckets)
    ensures StrictlySorted(names) && forall b :: b in names <==> b in buckets
  {
    var values := new string[|buckets|](i requires 0 <= i < |buckets| => buckets[i]);
    assert values[..] == buckets;
    SlicesSort(values);
    SortedNames(values[..], buckets);
    names := [];
    for k := 0 to values.Length
      invariant names == values[..k]
    {
      assert values[..k + 1] == values[..k] + [values[k]];
      assert values[k] in values[..];
      names := names + [values[k]];
    }
    assert values[..values.Length] == values[..];
  }

  lemma SortedNames(sorted: seq<string>, buckets: seq<string>)
    requires Sorted(sorted) && Distinct(buckets) && multiset(sorted) == multiset(buckets)
    ensures StrictlySorted(sorted) && forall b :: b in sorted <==> b in buckets
  {
    forall x
      ensures multiset(sorted)[x] <= 1 && (x in sorted <==> x in buckets)
    {
      F.DistinctCountsOnce(buckets, x);
      F.InSeqInMultiset(sorted, x);
      F.InSeqInMultiset(buckets, x);
    }
    F.AtMostOnceIsDistinct(sorted);
    SortedDistinctIsStrict(sorted);
  }

  /** Every object of interest in these buckets is covered. */
  ghost predicate BucketsDone(e: Exclusions, stable: set<Access>, names: seq<Name>, covered: set<Access>) {
    forall o :: o in stable && !IsExcluded(e, o.bucket) && o.bucket in names ==> o in covered
  }

  lemma SkippedBucket(e: Exclusions, stable: set<Access>, names: seq<Name>, k: nat, start: Option<Cursor>, covered: set<Access>)
    requires k < |names| && BucketsDone(e, stable, names[..k], covered) && NothingSkipped(e, stable, start, covered)
    requires IsExcluded(e, names[k]) || (start.Some? && Less(names[k], start.value.bucket))
    ensures BucketsDone(e, stable, names[..k + 1], covered)
  {
    hide IsExcluded;
    assert names[..k + 1] == names[..k] + [names[k]];
  }

  lemma OneMoreBucket(e: Exclusions, stable: set<Access>, names: seq<Name>, k: nat, start: Option<Cursor>, before: set<Access>, covered: set<Access>)
    requires k < |names| && BucketsDone(e, stable, names[..k], before) && NothingSkipped(e, stable, start, before) && before <= covered
    requires forall o :: o in stable && o.bucket == names[k] ==> o in covered
    ensures BucketsDone(e, stable, names[..k + 1], covered) && NothingSkipped(e, stable, start, covered)
  {
    hide IsExcluded;
    assert names[..k + 1] == names[..k] + [names[k]];
  }

  /** Everything before the place where a bucket's scan starts is covered. */
  lemma NextBucket(e: Exclusions, stable: set<Access>, inv: Inventory, names: seq<Name>, k: nat, start: Option<Cursor>, startAfter: Name, covered: set<Access>)
    requires FaithfulInventory(inv, stable) && StrictlySorted(names) && (forall b :: b in names <==> b in inv.buckets) && k < |names|
    requires BucketsDone(e, stable, names[..k], covered) && NothingSkipped(e, stable, start, covered)
    requires startAfter == if start.Some? && names[k] == start.value.bucket then start.value.name else []
    ensures NothingSkipped(e, stable, Some(Cursor(names[k], startAfter, 0)), covered + Elements(Ids([])))
  {
    hide IsExcluded;
    var here := Some(Cursor(names[k], startAfter, 0));
    forall o | o in stable && !IsExcluded(e, o.bucket) && Reached(here, o)
      ensures o in covered
    {
      if Less(o.bucket, names[k]) {
        EarlierBucket(names, k, o.bucket);
      } else {
        NothingBeforeEmpty(o.name);
      }
    }
  }

  lemma EarlierBucket(names: seq<Name>, k: nat, bucket: Name)
    requires StrictlySorted(names) && k < |names| && bucket in names && Less(bucket, names[k])
    ensures bucket in names[..k]
  {
    var j :| 0 <= j < |names| && names[j] == bucket;
    LessIrreflexive(bucket);
    if j > k {
      LessAsymmetric(names[k], names[j]);
    }
    assert j < k;
  }

  lemma NothingBeforeEmpty(name: Name)
    ensures LessEq(name, []) <==> name == []
  {}

  /** The cursor never stands past the place where a bucket's scan starts. */
  lemma NextPosition(names: seq<Name>, k: nat, cursor: Option<Cursor>, start: Option<Cursor>, startAfter: Name)
    requires StrictlySorted(names) && k < |names|
    requires cursor == start || (cursor.Some? && cursor.value.bucket in names[..k])
    requires start.Some? ==> !Less(names[k], start.value.bucket)
    requires startAfter == if start.Some? && names[k] == start.value.bucket then start.value.name else []
    ensures cursor.Some? ==>
              Less(cursor.value.bucket, names[k]) || (cursor.value.bucket == names[k] && LessEq(cursor.value.name, startAfter))
  {
    if cursor.Some? {
      if cursor == start {
        LessTotal(cursor.value.bucket, names[k]);
      } else {
        var j :| 0 <= j < k && names[j] == cursor.value.bucket;
      }
    }
  }

  lemma ListingOf(inv: Inventory, stable: set<Access>, bucket: Name, startAfter: Name)
    requires FaithfulInventory(inv, stable)
    ensures FaithfulListing(inv.list(bucket, startAfter), bucket, startAfter, stable)
  {}

  lemma AllBucketsDone(e: Exclusions, stable: set<Access>, inv: Inventory, names: seq<Name>, covered: set<Access>)
    requires FaithfulInventory(inv, stable) && (forall b :: b in names <==> b in inv.buckets)
    requires BucketsDone(e, stable, names[..|names|], covered)
    ensures Complete(e, stable, covered)
  {
    hide IsExcluded, FaithfulListing;
    assert names[..|names|] == names;
  }

  lemma NoBuckets(e: Exclusions, stable: set<Access>, names: seq<Name>, covered: set<Access>)
    ensures BucketsDone(e, stable, names[..0], covered)
  {}

  /**
   What the filter is for: a listing that steps back would lose the object it steps back to,
   for the cursor is already past it and no later listing shows it again.
   */
  lemma UnsortedListingLosesObject(a: Object, b: Object)
    requires a.name != [] && Less(a.name, b.name)
    ensures PassedOn(Source(Listing([b, a], 2, false)), []) == [b]
    ensures FilterError(Source(Listing([b, a], 2, false)), []) == Some(NotSorted)
    ensures forall rest: Listing :: forall o :: o in PassedOn(Source(rest), b.name) ==> o.name != a.name
  {
    var source := Source(Listing([b, a], 2, false));
    assert source == [Listed.Entry(b), Listed.Entry(a)];
    assert source[1..] == [Listed.Entry(a)];
    LessAsymmetric(a.name, b.name);
    forall rest: Listing
      ensures forall o :: o in PassedOn(Source(rest), b.name) ==> o.name != a.name
    {
      PassedOnAscends(Source(rest), b.name);
    }
  }

  /** The time of a cursor says nothing about where it stands. */
  lemma ReachIgnoresTime(e: Exclusions, stable: set<Access>, c: Cursor, covered: set<Access>)
    ensures NothingSkipped(e, stable, Some(c), covered) <==> NothingSkipped(e, stable, Some(Cursor(c.bucket, c.name, 0)), covered)
  {
    hide IsExcluded;
    var d := Cursor(c.bucket, c.name, 0);
    assert forall o :: Reached(Some(c), o) <==> Reached(Some(d), o);
  }
}
