/** The durable cursor of a traversal and what it stands for. */
module Progress {
  import opened Contexts
  import opened Wrappers
  import opened GoTypes
  import opened Text
  import opened Contracts

  datatype Cursor = Cursor(bucket: Name, name: Name, updatedAt: Time)

  predicate CursorBefore(left: Cursor, right: Cursor) {
    Less(left.bucket, right.bucket) || (left.bucket == right.bucket && Less(left.name, right.name))
  }

  lemma CursorBeforeTransitive(a: Cursor, b: Cursor, c: Cursor)
    requires CursorBefore(a, b) && CursorBefore(b, c)
    ensures CursorBefore(a, c)
  {
    if Less(a.bucket, b.bucket) && Less(b.bucket, c.bucket) {
      LessTransitive(a.bucket, b.bucket, c.bucket);
    } else if a.bucket == b.bucket == c.bucket {
      LessTransitive(a.name, b.name, c.name);
    }
  }

  /** The cursor order is the order in which objects are reached: what one cursor has reached a later one has, and more. */
  lemma CursorBeforeExact(a: Cursor, b: Cursor)
    ensures CursorBefore(a, b) <==> Reached(Some(b), Access(a.bucket, a.name)) && !Reached(Some(a), Access(b.bucket, b.name))
    ensures CursorBefore(a, b) || CursorBefore(b, a) || (a.bucket == b.bucket && a.name == b.name)
  {
    LessTotal(a.bucket, b.bucket);
    LessTotal(a.name, b.name);
    LessIrreflexive(a.bucket);
    LessIrreflexive(a.name);
    if Less(a.bucket, b.bucket) {
      LessAsymmetric(a.bucket, b.bucket);
    }
    if Less(b.bucket, a.bucket) {
      LessAsymmetric(b.bucket, a.bucket);
    }
    if Less(a.name, b.name) {
      LessAsymmetric(a.name, b.name);
    }
    if Less(b.name, a.name) {
      LessAsymmetric(b.name, a.name);
    }
  }

  ghost predicate Ascends(trail: seq<Cursor>) {
    forall i, j :: 0 <= i < j < |trail| ==> CursorBefore(trail[i], trail[j])
  }

  lemma AscendsFurther(trail: seq<Cursor>, c: Cursor)
    requires Ascends(trail) && (trail != [] ==> CursorBefore(trail[|trail| - 1], c))
    ensures Ascends(trail + [c])
  {
    forall i | 0 <= i < |trail|
      ensures CursorBefore(trail[i], c)
    {
      if i < |trail| - 1 {
        CursorBeforeTransitive(trail[i], trail[|trail| - 1], c);
      }
    }
  }

  datatype Exclusions = Exclusions(buckets: seq<Name>, prefixes: seq<Name>)

  ghost predicate IsExcluded(e: Exclusions, bucket: Name) {
    bucket in e.buckets || exists i :: 0 <= i < |e.prefixes| && e.prefixes[i] <= bucket
  }

  method Excluded(e: Exclusions, bucket: Name) returns (r: bool)
    ensures r <==> IsExcluded(e, bucket)
    ensures r <==> bucket in e.buckets || exists prefix :: prefix in e.prefixes && prefix <= bucket
  {
    for i := 0 to |e.buckets|
      invariant bucket !in e.buckets[..i]
    {
      if bucket == e.buckets[i] {
        return true;
      }
    }
    for i := 0 to |e.prefixes|
      invariant forall j :: 0 <= j < i ==> !(e.prefixes[j] <= bucket)
    {
      if e.prefixes[i] <= bucket {
        assert e.prefixes[i] in e.prefixes;
        return true;
      }
    }
    return false;
  }

  /** The cursor stands at or past an object. */
  predicate Reached(cursor: Option<Cursor>, o: Access) {
    cursor.Some? &&
    (Less(o.bucket, cursor.value.bucket) || (o.bucket == cursor.value.bucket && LessEq(o.name, cursor.value.name)))
  }

  /** Every object of interest that the cursor has reached was handled before the cursor got there. */
  ghost predicate NothingSkipped(e: Exclusions, stable: set<Access>, cursor: Option<Cursor>, covered: set<Access>) {
    forall o :: o in stable && !IsExcluded(e, o.bucket) && Reached(cursor, o) ==> o in covered
  }

  ghost predicate Complete(e: Exclusions, stable: set<Access>, covered: set<Access>) {
    forall o :: o in stable && !IsExcluded(e, o.bucket) ==> o in covered
  }

  /** A finished traversal: what it covered, what was there all the time, and whether its listings could be trusted. */
  datatype Pass = Pass(covered: set<Access>, stable: set<Access>, trusted: bool)

  function Elements<T>(s: seq<T>): set<T> {
    set x | x in s
  }

  class CursorStore {
    const exclusions: Exclusions
    var cursor: Option<Cursor>
    ghost var trail: seq<Cursor>     // the durable cursors since the last reset
    ghost var covered: set<Access>   // handled in a chunk whose cursor became durable, since the last reset
    ghost var loose: seq<Access>     // handled in this attempt and not covered yet
    ghost var stable: set<Access>    // some objects present in every listing since the last reset
    ghost var trusted: bool          // every listing since the last reset was sorted and complete
    ghost var passes: seq<Pass>

    ghost predicate Valid()
      reads this
    {
      && Ascends(trail) && cursor == (if trail == [] then None else Some(trail[|trail| - 1]))
      && (trusted ==> NothingSkipped(exclusions, stable, cursor, covered))
      && forall i :: 0 <= i < |passes| && passes[i].trusted ==> Complete(exclusions, passes[i].stable, passes[i].covered)
    }

    /** A cursor found in Redis at the start says nothing about what was handled before it. */
    constructor (exclusions: Exclusions, cursor: Option<Cursor>, ghost stable: set<Access>)
      ensures Valid() && this.exclusions == exclusions && this.cursor == cursor && passes == [] && this.stable == stable
    {
      this.exclusions, this.cursor := exclusions, cursor;
      trail := match cursor case None => [] case Some(c) => [c];
      covered, loose, this.stable, trusted, passes := {}, [], stable, cursor.None?, [];
    }

    method LoadCursor(ctx: Context) returns (r: Option<Option<Cursor>>)
      modifies ctx
      ensures (old(ctx.cancelled) ==> ctx.cancelled) && (old(ctx.failed) ==> ctx.failed)
      ensures if r.Some? then r.value == cursor else ctx.failed
    {
      var fate := ctx.Call();
      r := if fate == Answered then Some(cursor) else None;
    }

    /** The same cursor, nothing recorded; only the attempt's own notes may differ. */
    twostate predicate Unmoved()
      reads this
    {
      cursor == old(cursor) && trail == old(trail) && covered == old(covered) &&
      stable == old(stable) && trusted == old(trusted) && passes == old(passes)
    }

    twostate predicate MovedTo(c: Cursor, handled: seq<Access>)
      reads this
    {
      cursor == Some(c) && trail == old(trail) + [c] && covered == old(covered) + Elements(handled) && loose == [] &&
      stable == old(stable) && trusted == old(trusted) && passes == old(passes)
    }

    method SaveCursor(ctx: Context, c: Cursor) returns (ok: bool)
      requires Valid() && (cursor.Some? ==> CursorBefore(cursor.value, c))
      requires trusted && !ctx.cancelled ==> NothingSkipped(exclusions, stable, Some(c), covered + Elements(loose))
      modifies this, ctx
      ensures Valid() && (old(ctx.cancelled) ==> ctx.cancelled) && (old(ctx.failed) ==> ctx.failed)
      ensures (Unmoved() && loose == old(loose)) || MovedTo(c, old(loose))
      ensures if ok then MovedTo(c, old(loose)) else ctx.failed || c.bucket == [] || c.name == [] || c.updatedAt == ZERO_TIME
    {
      if c.bucket == [] || c.name == [] || c.updatedAt == ZERO_TIME {
        return false;
      }
      var fate := ctx.Call();
      if fate != RequestLost {
        AscendsFurther(trail, c);
        cursor, trail, covered, loose := Some(c), trail + [c], covered + Elements(loose), [];
      }
      ok := fate == Answered;
    }

    /** The end of a traversal, which starts the next one with new objects of interest. */
    method ResetCursor(ctx: Context) returns (ok: bool)
      requires Valid()
      requires trusted && !ctx.cancelled ==> Complete(exclusions, stable, covered)
      modifies this, ctx
      ensures Valid() && (old(ctx.cancelled) ==> ctx.cancelled) && (old(ctx.failed) ==> ctx.failed)
      ensures (Unmoved() && loose == old(loose)) || HasReset()
      ensures if ok then HasReset() else ctx.failed
    {
      var fate := ctx.Call();
      if fate != RequestLost {
        passes := passes + [Pass(covered, stable, trusted)];
        ghost var next: set<Access> := *;
        cursor, trail, covered, loose, stable, trusted := None, [], {}, [], next, true;
      }
      ok := fate == Answered;
    }

    /** The traversal is recorded and the next one starts from nothing. */
    twostate predicate HasReset()
      reads this
    {
      cursor.None? && trail == [] && loose == [] && covered == {} && trusted &&
      passes == old(passes) + [Pass(old(covered), old(stable), old(trusted))]
    }
  }

  /** A complete pass: every object of interest in a bucket that is neither listed nor has a listed prefix. */
  lemma CompleteMeans(e: Exclusions, stable: set<Access>, covered: set<Access>, o: Access)
    requires Complete(e, stable, covered) && o in stable
    requires o.bucket !in e.buckets && forall prefix :: prefix in e.prefixes ==> !(prefix <= o.bucket)
    ensures o in covered
  {
    assert forall i :: 0 <= i < |e.prefixes| ==> e.prefixes[i] in e.prefixes;
  }
}
