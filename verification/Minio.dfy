/** The MinIO adapter: the listing's order filter, object identity, and the marker tag. */
module Minio {
  import opened Contexts
  import opened Wrappers
  import opened GoTypes
  import opened Text
  import opened Evaluator

  datatype Object = Object(
    bucket: Name, name: Name, etag: string, lastModified: Time, size: int64, versionID: string,
    state: ObjectState, stateKnown: bool)

  // ---- The order filter ----

  /** What the SDK's listing yields: an object, or the error that ends it. */
  datatype Listed = Entry(item: Object) | ListFailed

  datatype ListError = SourceFailed | NotSorted

  /** The objects the adapter passes on: everything up to the first error or step back. */
  function PassedOn(source: seq<Listed>, previous: Name): seq<Object> {
    if source == [] || source[0].ListFailed? || !Less(previous, source[0].item.name) then []
    else [source[0].item] + PassedOn(source[1..], source[0].item.name)
  }

  function FilterError(source: seq<Listed>, previous: Name): Option<ListError> {
    if source == [] then None
    else if source[0].ListFailed? then Some(SourceFailed)
    else if !Less(previous, source[0].item.name) then Some(NotSorted)
    else FilterError(source[1..], source[0].item.name)
  }

  /** Names strictly ascending, all after a given one. */
  ghost predicate Ascending(objects: seq<Object>, previous: Name) {
    && (forall i :: 0 <= i < |objects| ==> Less(previous, objects[i].name))
    && (forall i, j :: 0 <= i < j < |objects| ==> Less(objects[i].name, objects[j].name))
  }

  function Entries(objects: seq<Object>): (source: seq<Listed>)
    ensures |source| == |objects| && forall i :: 0 <= i < |source| ==> source[i] == Entry(objects[i])
  {
    seq(|objects|, i requires 0 <= i < |objects| => Entry(objects[i]))
  }

  lemma AscendingCons(head: Object, rest: seq<Object>, previous: Name)
    ensures Ascending([head] + rest, previous) <==> Less(previous, head.name) && Ascending(rest, head.name)
  {
    var all := [head] + rest;
    if Less(previous, head.name) && Ascending(rest, head.name) {
      forall i | 0 <= i < |all| ensures Less(previous, all[i].name) {
        if i > 0 {
          LessTransitive(previous, head.name, rest[i - 1].name);
        }
      }
      forall i, j | 0 <= i < j < |all| ensures Less(all[i].name, all[j].name) {
        assert all[j] == rest[j - 1];
        assert i > 0 ==> all[i] == rest[i - 1];
      }
    }
    if Ascending(all, previous) {
      assert all[0] == head;
      forall i | 0 <= i < |rest| ensures Less(head.name, rest[i].name) {
        assert all[i + 1] == rest[i];
      }
      forall i, j | 0 <= i < j < |rest| ensures Less(rest[i].name, rest[j].name) {
        assert all[i + 1] == rest[i] && all[j + 1] == rest[j];
      }
    }
  }

  /** Whatever the source does, what is passed on is a strictly ascending prefix of it. */
  lemma {:induction false} PassedOnAscends(source: seq<Listed>, previous: Name)
    ensures Ascending(PassedOn(source, previous), previous)
    ensures |PassedOn(source, previous)| <= |source|
    ensures Entries(PassedOn(source, previous)) == source[..|PassedOn(source, previous)|]
    ensures FilterError(source, previous).None? <==> |PassedOn(source, previous)| == |source|
  {
    if source != [] && source[0].Entry? && Less(previous, source[0].item.name) {
      PassedOnAscends(source[1..], source[0].item.name);
      AscendingCons(source[0].item, PassedOn(source[1..], source[0].item.name), previous);
    }
  }

  /** The filter is silent exactly on listings without an error that strictly ascend from the start. */
  lemma {:induction false} FilterExact(source: seq<Listed>, previous: Name)
    ensures FilterError(source, previous).None?
            <==> exists objects: seq<Object> :: source == Entries(objects) && Ascending(objects, previous)
  {
    PassedOnAscends(source, previous);
    if FilterError(source, previous).None? {
      assert source == Entries(PassedOn(source, previous));
    }
    if objects: seq<Object> :| source == Entries(objects) && Ascending(objects, previous) {
      AscendingPasses(objects, previous);
    }
  }

  lemma {:induction false} AscendingPasses(objects: seq<Object>, previous: Name)
    requires Ascending(objects, previous)
    ensures PassedOn(Entries(objects), previous) == objects && FilterError(Entries(objects), previous).None?
  {
    if objects != [] {
      var head, rest := objects[0], objects[1..];
      assert objects == [head] + rest;
      AscendingCons(head, rest, previous);
      AscendingPasses(rest, head.name);
      assert Entries(objects)[1..] == Entries(rest);
    }
  }

  /**
   The adapter's goroutine. Cancelled, it closes the stream at any point and without an error,
   so that a reader cannot tell the end of a cut listing from the end of a whole one.
   */
  method Objects(ctx: Context, source: seq<Listed>, startAfter: Name) returns (stream: seq<Object>, error: Option<ListError>)
    modifies ctx`cancelled
    ensures old(ctx.cancelled) ==> ctx.cancelled
    ensures !ctx.cancelled ==> stream == PassedOn(source, startAfter) && error == FilterError(source, startAfter)
    ensures stream <= PassedOn(source, startAfter) && (error.Some? ==> stream == PassedOn(source, startAfter) && error == FilterError(source, startAfter))
  {
    var previous, i := startAfter, 0;
    stream := [];
    while i < |source|
      invariant 0 <= i <= |source| && |stream| == i && (old(ctx.cancelled) ==> ctx.cancelled)
      invariant stream + PassedOn(source[i..], previous) == PassedOn(source, startAfter)
      invariant FilterError(source[i..], previous) == FilterError(source, startAfter)
    {
      assert source[i..][1..] == source[i + 1..];
      ctx.Poll();
      var noticed: bool := *;
      if ctx.cancelled && noticed {
        return stream, None;
      }
      if source[i].ListFailed? {
        return stream, Some(SourceFailed);
      }
      var info := source[i].item;
      if LessEq(info.name, previous) {
        if Less(info.name, previous) {
          LessAsymmetric(info.name, previous);
        } else {
          LessIrreflexive(previous);
        }
        return stream, Some(NotSorted);
      }
      LessTotal(previous, info.name);
      previous := info.name;
      stream := stream + [info];
      i := i + 1;
    }
    return stream, None;
  }

  // ---- Identity ----

  function TrimLeft(s: string): string {
    if s != "" && s[0] == '"' then TrimLeft(s[1..]) else s
  }

  function TrimRight(s: string): string {
    if s != "" && s[|s| - 1] == '"' then TrimRight(s[..|s| - 1]) else s
  }

  /** strings.Trim with a quote. */
  function Unquoted(s: string): string {
    TrimRight(TrimLeft(s))
  }

  /** HEAD reports whole seconds where a listing has fractions. */
  predicate SameLastModified(listed: Time, current: Time) {
    listed == current || (current % SECOND == 0 && Truncate(listed, SECOND) == current)
  }

  predicate SameIdentity(listed: Object, current: Object) {
    && Unquoted(listed.etag) == Unquoted(current.etag)
    && SameLastModified(listed.lastModified, current.lastModified)
    && listed.size == current.size
    && (listed.versionID == "" || listed.versionID == current.versionID)
  }

  /** Two times pass for the same exactly when they are, or the second is the first with its fraction cut off. */
  lemma SameLastModifiedExact(listed: Time, current: Time)
    ensures SameLastModified(listed, current) <==>
            listed == current || (current <= listed < current + SECOND && current % SECOND == 0)
  {}

  function Quotes(n: nat): string {
    seq(n, _ => '"')
  }

  /** No quote at either end. */
  predicate Bare(s: string) {
    s != "" ==> s[0] != '"' && s[|s| - 1] != '"'
  }

  lemma {:induction false} TrimLeftQuotes(n: nat, s: string)
    ensures TrimLeft(Quotes(n) + s) == TrimLeft(s)
  {
    if n == 0 {
      assert Quotes(0) + s == s;
    } else {
      assert (Quotes(n) + s)[1..] == Quotes(n - 1) + s;
      TrimLeftQuotes(n - 1, s);
    }
  }

  lemma {:induction false} TrimRightQuotes(n: nat, s: string)
    ensures TrimRight(s + Quotes(n)) == TrimRight(s)
  {
    if n == 0 {
      assert s + Quotes(0) == s;
    } else {
      var t := s + Quotes(n);
      assert t[..|t| - 1] == s + Quotes(n - 1);
      TrimRightQuotes(n - 1, s);
    }
  }

  /** Trimming takes away exactly the quotes around a bare text. */
  lemma UnquotedExact(i: nat, core: string, j: nat)
    requires Bare(core)
    ensures Unquoted(Quotes(i) + core + Quotes(j)) == core
  {
    assert Quotes(i) + core + Quotes(j) == Quotes(i) + (core + Quotes(j));
    TrimLeftQuotes(i, core + Quotes(j));
    if core == "" {
      assert core + Quotes(j) == Quotes(j) + "";
      TrimLeftQuotes(j, "");
    } else {
      assert (core + Quotes(j))[0] == core[0];
      TrimRightQuotes(j, core);
    }
  }

  /** Every text is a bare one between quotes. */
  lemma {:induction false} BareBetweenQuotes(s: string) returns (i: nat, core: string, j: nat)
    ensures s == Quotes(i) + core + Quotes(j) && Bare(core)
    decreases |s|
  {
    if s != "" && s[0] == '"' {
      i, core, j := BareBetweenQuotes(s[1..]);
      assert s == [s[0]] + s[1..] && Quotes(i + 1) == ['"'] + Quotes(i);
      i := i + 1;
    } else if s != "" && s[|s| - 1] == '"' {
      i, core, j := BareBetweenQuotes(s[..|s| - 1]);
      assert s == s[..|s| - 1] + [s[|s| - 1]] && Quotes(j + 1) == Quotes(j) + ['"'];
      j := j + 1;
    } else {
      i, core, j := 0, s, 0;
    }
  }

  /**
   Two lookups are of one object exactly if nothing of this differs: the ETag between its
   quotes, the time but for a cut-off fraction, the size, and the version if the first has one.
   */
  lemma SameIdentityExact(listed: Object, current: Object, i: nat, a: string, j: nat, k: nat, b: string, l: nat)
    requires Bare(a) && Bare(b) && listed.etag == Quotes(i) + a + Quotes(j) && current.etag == Quotes(k) + b + Quotes(l)
    ensures SameIdentity(listed, current) <==>
            && a == b && listed.size == current.size && (listed.versionID != "" ==> listed.versionID == current.versionID)
            && (listed.lastModified == current.lastModified ||
                (current.lastModified <= listed.lastModified < current.lastModified + SECOND && current.lastModified % SECOND == 0))
  {
    UnquotedExact(i, a, j);
    UnquotedExact(k, b, l);
    SameLastModifiedExact(listed.lastModified, current.lastModified);
  }

  // ---- The marker ----

  type Tags = map<string, string>

  const MAX_TAGS: nat := 10

  datatype MarkerOutcome = Matched | Added | Replaced | TagLimit

  datatype MarkerPlan = MarkerPlan(required: bool, outcome: MarkerOutcome, tags: Tags)

  /** The tags after marking, nothing else touched. */
  ghost predicate Marks(plan: Tags, current: Tags, key: string, value: string) {
    && key in plan && plan[key] == value
    && (forall k :: k != key ==> (k in plan <==> k in current) && (k in plan ==> plan[k] == current[k]))
  }

  /** The tag set of one object version, which other clients may rewrite at any time. */
  class TagServer {
    var tags: Tags

    constructor (tags: Tags)
      ensures this.tags == tags
    {
      this.tags := tags;
    }

    method OthersWrite()
      modifies this
    {
      var other: Tags := *;
      tags := other;
    }

    method Get(ctx: Context) returns (r: Option<Tags>)
      modifies ctx
      ensures (old(ctx.cancelled) ==> ctx.cancelled) && (old(ctx.failed) ==> ctx.failed)
      ensures if r.Some? then r.value == tags && !old(ctx.cancelled) else ctx.failed
    {
      var fate := ctx.Call();
      r := if fate == Answered then Some(tags) else None;
    }

    /** A failed write may still have happened. */
    method Put(ctx: Context, wanted: Tags) returns (ok: bool)
      modifies this, ctx
      ensures (old(ctx.cancelled) ==> ctx.cancelled && tags == old(tags)) && (old(ctx.failed) ==> ctx.failed)
      ensures if ok then tags == wanted && !old(ctx.cancelled) else ctx.failed && (tags == wanted || tags == old(tags))
    {
      var fate := ctx.Call();
      if fate != RequestLost {
        tags := wanted;
      }
      ok := fate == Answered;
    }
  }

  /** A plan is required exactly if the marker is missing or different and there is room for it among ten tags. */
  method PlanMarker(ctx: Context, server: TagServer, key: string, value: string) returns (r: Option<MarkerPlan>)
    modifies ctx
    ensures (old(ctx.cancelled) ==> ctx.cancelled && r.None?) && (old(ctx.failed) ==> ctx.failed) && (r.None? ==> ctx.failed)
    ensures r.Some? ==>
              var plan, current := r.value, server.tags;
              && (plan.outcome == Matched <==> key in current && current[key] == value)
              && (plan.outcome == TagLimit <==> key !in current && |current| >= 10)
              && (plan.outcome == Replaced ==> key in current) && (plan.outcome == Added ==> key !in current)
              && (plan.required <==> (key in current && current[key] != value) || (key !in current && |current| < 10))
              && (plan.required ==> Marks(plan.tags, current, key, value) && plan.tags == current[key := value])
              && (plan.required && |current| <= 10 ==> |plan.tags| <= 10)
              && (!plan.required ==> plan.tags == current)
  {
    var current := server.Get(ctx);
    if current.None? {
      return None;
    }
    var values := current.value;
    if key in values && values[key] == value {
      return Some(MarkerPlan(false, Matched, values));
    } else if key in values {
      assert values[key := value].Keys == values.Keys;
      assert |values[key := value]| == |values[key := value].Keys| == |values.Keys|;
      return Some(MarkerPlan(true, Replaced, values[key := value]));
    }
    if |values| >= MAX_TAGS {
      return Some(MarkerPlan(false, TagLimit, values));
    }
    assert |values[key := value]| == |values| + 1;
    return Some(MarkerPlan(true, Added, values[key := value]));
  }

  /** Reading a Go map: a missing key reads as the empty string. */
  function ReadTag(tags: Tags, key: string): string {
    if key in tags then tags[key] else ""
  }

  /** What ApplyMarker checks of the tags it reads back. */
  ghost predicate PassesVerification(planned: Tags, actual: Tags) {
    |actual| == |planned| && forall k :: k in planned ==> ReadTag(actual, k) == planned[k]
  }

  method VerifyTags(planned: Tags, actual: Tags) returns (ok: bool)
    ensures ok <==> PassesVerification(planned, actual)
  {
    if |actual| != |planned| {
      return false;
    }
    var rest := planned.Keys;
    while rest != {}
      invariant rest <= planned.Keys
      invariant forall k :: k in planned && k !in rest ==> ReadTag(actual, k) == planned[k]
      decreases rest
    {
      var k :| k in rest;
      if ReadTag(actual, k) != planned[k] {
        return false;
      }
      rest := rest - {k};
    }
    return true;
  }

  lemma SubsetOfSameSize<T>(a: set<T>, b: set<T>)
    requires a <= b && |a| == |b|
    ensures a == b
  {
    if a != b {
      var x :| x in b && x !in a;
      SubsetIsSmaller(a, b - {x});
    }
  }

  lemma {:induction false} SubsetIsSmaller<T>(a: set<T>, b: set<T>)
    requires a <= b
    ensures |a| <= |b|
  {
    if a != {} {
      var x :| x in a;
      SubsetIsSmaller(a - {x}, b - {x});
    }
  }

  lemma PassingWithoutEmptyValues(planned: Tags, actual: Tags)
    requires PassesVerification(planned, actual) && "" !in planned.Values
    ensures actual == planned
  {
    forall k | k in planned
      ensures k in actual && actual[k] == planned[k]
    {
      assert planned[k] in planned.Values;
    }
    assert |planned.Keys| == |planned| && |actual.Keys| == |actual|;
    SubsetOfSameSize(planned.Keys, actual.Keys);
    assert actual.Keys == planned.Keys;
  }

  lemma {:induction false} LongerThanAll(keys: set<string>) returns (k: string)
    ensures forall x :: x in keys ==> |x| < |k|
  {
    k := "x";
    if keys != {} {
      var y :| y in keys;
      var longer := LongerThanAll(keys - {y});
      k := longer + y + "x";
      forall x | x in keys ensures |x| < |k| {
        assert x != y ==> x in keys - {y};
      }
    }
  }

  /** A planned empty value can be swapped for a foreign tag unnoticed. */
  lemma EmptyValueGoesUnnoticed(planned: Tags, key: string) returns (actual: Tags)
    requires key in planned && planned[key] == ""
    ensures PassesVerification(planned, actual) && actual != planned
  {
    var foreign := LongerThanAll(planned.Keys);
    assert foreign !in planned;
    var kept := planned - {key};
    assert kept.Keys == planned.Keys - {key};
    actual := kept[foreign := "x"];
    assert actual.Keys == kept.Keys + {foreign};
    assert |planned.Keys| == |kept.Keys| + 1 && |actual.Keys| == |kept.Keys| + 1;
    assert |actual| == |actual.Keys| && |planned| == |planned.Keys|;
    assert foreign in actual;
  }

  ghost predicate VerificationIsSound(planned: Tags) {
    forall actual :: PassesVerification(planned, actual) ==> actual == planned
  }

  /** Verification means equality exactly for plans without an empty tag value. */
  lemma VerificationExact(planned: Tags)
    ensures VerificationIsSound(planned) <==> "" !in planned.Values
  {
    if "" in planned.Values {
      var key :| key in planned && planned[key] == "";
      var actual := EmptyValueGoesUnnoticed(planned, key);
      assert PassesVerification(planned, actual) && actual != planned;
    } else {
      forall actual | PassesVerification(planned, actual)
        ensures actual == planned
      {
        PassingWithoutEmptyValues(planned, actual);
      }
    }
  }

  datatype MarkerError = InvalidTags | PutFailed | ReadBackFailed | VerificationFailed

  /**
   Success means the tags read back are the planned ones, whoever else wrote in between. Tags the
   library takes for valid are rejected only if a call was not answered or others were read back.
   */
  method ApplyMarker(ctx: Context, server: TagServer, plan: MarkerPlan, valid: bool) returns (r: Result<(), MarkerError>)
    modifies ctx, server
    ensures (old(ctx.cancelled) ==> ctx.cancelled && server.tags == old(server.tags)) && (old(ctx.failed) ==> ctx.failed)
    ensures !plan.required ==> r.Ok? && server.tags == old(server.tags)
    ensures r.Ok? && plan.required ==> PassesVerification(plan.tags, server.tags)
    ensures r.Ok? && plan.required && "" !in plan.tags.Values ==> server.tags == plan.tags
    ensures r == Err(InvalidTags) <==> plan.required && !valid
    ensures r == Err(InvalidTags) ==> server.tags == old(server.tags)
    ensures r == Err(PutFailed) || r == Err(ReadBackFailed) ==> ctx.failed
    ensures r == Err(VerificationFailed) ==> !PassesVerification(plan.tags, server.tags)
  {
    if !plan.required {
      return Ok(());
    }
    if !valid {
      return Err(InvalidTags);
    }
    var put := server.Put(ctx, plan.tags);
    if !put {
      return Err(PutFailed);
    }
    server.OthersWrite();
    var actual := server.Get(ctx);
    if actual.None? {
      return Err(ReadBackFailed);
    }
    var same := VerifyTags(plan.tags, actual.value);
    if !same {
      return Err(VerificationFailed);
    }
    if "" !in plan.tags.Values {
      PassingWithoutEmptyValues(plan.tags, actual.value);
    }
    return Ok(());
  }
}
