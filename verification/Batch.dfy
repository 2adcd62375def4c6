/**
 Requests and pending batches of the updater: validation, merging, the limits, and the
 key-sorted batch a flush hands to the store.
 */
module Batch {
  import opened Wrappers
  import opened GoTypes
  import opened Text
  import opened RedisStore

  /** The numeric limits LoadConfig lets through. */
  datatype Limits = Limits(queueSize: nat, maxEvents: nat, maxKeys: nat, maxWait: nat, operationTimeout: nat)

  const MAX_SETTING: nat := 1_000_000

  type Config = c: Limits |
      && 1 <= c.queueSize <= MAX_SETTING && 1 <= c.maxEvents <= MAX_SETTING && 1 <= c.maxKeys <= MAX_SETTING
      && 1 <= c.maxWait <= MAX_INT64 && 1 <= c.operationTimeout <= MAX_INT64
    witness Limits(1, 1, 1, 1, 1)

  datatype Request = Request(events: int64, increments: seq<Increment>)

  datatype Job = Job(id: nat, request: Request)

  datatype RequestError = InvalidRequest | RequestTooLarge

  function SumDeltas(increments: seq<Increment>): int {
    if increments == [] then 0 else SumDeltas(increments[..|increments| - 1]) + increments[|increments| - 1].delta
  }

  function KeySet(increments: seq<Increment>): (keys: set<string>) {
    set i | 0 <= i < |increments| :: increments[i].key
  }

  ghost predicate WellFormedIncrements(increments: seq<Increment>) {
    && (forall i :: 0 <= i < |increments| ==>
          increments[i].key != "" && increments[i].delta > 0 && increments[i].expireAt != ZERO_TIME)
    && Distinct(Keys(increments))
  }

  /** What validateRequest lets through; the total is an int64 sum and may wrap around. */
  ghost predicate Accepted(config: Config, request: Request) {
    && 0 < request.events <= config.maxEvents
    && 0 < |request.increments| <= config.maxKeys
    && WellFormedIncrements(request.increments)
    && Wrap(SumDeltas(request.increments)) == request.events
  }

  lemma WrapSteps(total: int, delta: int)
    ensures Wrap(Wrap(total) + delta) == Wrap(total + delta)
  {
    assert (Wrap(total) - total) % TWO_64 == 0;
    assert (Wrap(Wrap(total) + delta) - (Wrap(total) + delta)) % TWO_64 == 0;
    WrapUnique(total + delta, Wrap(Wrap(total) + delta));
  }

  lemma DistinctKeysExtend(increments: seq<Increment>, i: nat)
    requires i < |increments| && Distinct(Keys(increments[..i]))
    ensures Distinct(Keys(increments[..i + 1])) <==> increments[i].key !in KeySet(increments[..i])
  {
    var a, b := Keys(increments[..i]), Keys(increments[..i + 1]);
    forall j | 0 <= j < i ensures b[j] == a[j] {}
    assert b[i] == increments[i].key;
    if increments[i].key in KeySet(increments[..i]) {
      var j :| 0 <= j < i && increments[..i][j].key == increments[i].key;
      assert b[j] == b[i];
    } else {
      forall j | 0 <= j < i ensures b[j] != b[i] {
        assert increments[..i][j].key in KeySet(increments[..i]);
      }
    }
  }

  lemma PrefixOfDistinct(increments: seq<Increment>, i: nat)
    requires i <= |increments| && Distinct(Keys(increments))
    ensures Distinct(Keys(increments[..i]))
  {
    forall j, k | 0 <= j < k < i
      ensures Keys(increments[..i])[j] != Keys(increments[..i])[k]
    {
      assert Keys(increments)[j] != Keys(increments)[k];
    }
  }

  /** What one more increment has to be for the increments up to it to be well formed. */
  lemma WellFormedNext(increments: seq<Increment>, i: nat)
    requires i < |increments| && WellFormedIncrements(increments[..i])
    ensures var next := increments[i];
            WellFormedIncrements(increments[..i + 1]) <==>
              next.key != "" && next.delta > 0 && next.expireAt != ZERO_TIME && next.key !in KeySet(increments[..i])
  {
    hide Distinct;
    DistinctKeysExtend(increments, i);
    PrefixWellFormed(increments, i);
    assert increments[..i + 1][i] == increments[i];
  }

  lemma WellFormedPrefix(increments: seq<Increment>, i: nat)
    requires i <= |increments| && WellFormedIncrements(increments)
    ensures WellFormedIncrements(increments[..i])
  {
    PrefixOfDistinct(increments, i);
    hide Distinct;
  }

  method ValidateRequest(config: Config, request: Request) returns (error: Option<RequestError>)
    ensures error.None? <==> Accepted(config, request)
    ensures error == Some(RequestTooLarge) <==>
              && request.events > 0 && request.increments != []
              && (request.events > config.maxEvents || |request.increments| > config.maxKeys)
  {
    hide WellFormedIncrements, Wrap, SumDeltas;
    if request.events <= 0 || |request.increments| == 0 {
      return Some(InvalidRequest);
    }
    if request.events > config.maxEvents || |request.increments| > config.maxKeys {
      return Some(RequestTooLarge);
    }
    var seen, total: int64, increments := {}, 0, request.increments;
    NothingYet(increments);
    for i := 0 to |increments|
      invariant seen == KeySet(increments[..i])
      invariant WellFormedIncrements(increments[..i])
      invariant total == Wrap(SumDeltas(increments[..i]))
    {
      var increment := increments[i];
      WellFormedNext(increments, i);
      if WellFormedIncrements(increments) {
        WellFormedPrefix(increments, i + 1);
      }
      if increment.key == "" || increment.delta <= 0 || increment.expireAt == ZERO_TIME {
        return Some(InvalidRequest);
      }
      if increment.key in seen {
        return Some(InvalidRequest);
      }
      PrefixWellFormed(increments, i);
      seen := seen + {increment.key};
      WrapSteps(SumDeltas(increments[..i]), increment.delta);
      SumDeltasExtends(increments, i);
      total := Wrap(total + increment.delta);
    }
    assert increments[..|increments|] == increments;
    error := if total != request.events then Some(InvalidRequest) else None;
  }

  lemma NothingYet(increments: seq<Increment>)
    ensures increments[..0] == [] && WellFormedIncrements([]) && KeySet([]) == {} && Wrap(SumDeltas([])) == 0
  {}

  lemma PrefixWellFormed(increments: seq<Increment>, i: nat)
    requires i < |increments|
    ensures increments[..i + 1] == increments[..i] + [increments[i]]
    ensures KeySet(increments[..i + 1]) == KeySet(increments[..i]) + {increments[i].key}
  {
    var a, b := increments[..i], increments[..i + 1];
    forall k | k in KeySet(a) ensures k in KeySet(b) {
      var j :| 0 <= j < i && a[j].key == k;
      assert b[j].key == k;
    }
    assert b[i].key in KeySet(b);
  }

  lemma SumDeltasExtends(increments: seq<Increment>, i: nat)
    requires i < |increments|
    ensures SumDeltas(increments[..i + 1]) == SumDeltas(increments[..i]) + increments[i].delta
  {
    assert increments[..i + 1][..i] == increments[..i];
  }

  /**
   The event count of an accepted request is its true total exactly when that total fits an
   int64: a wrapped sum can pass for the count.
   */
  lemma AcceptedCountIsTotal(config: Config, request: Request)
    requires Accepted(config, request)
    ensures SumDeltas(request.increments) == request.events <==> SumDeltas(request.increments) <= MAX_INT64
  {
    PositiveSum(request.increments);
  }

  lemma {:induction false} PositiveSum(increments: seq<Increment>)
    requires forall i :: 0 <= i < |increments| ==> increments[i].delta > 0
    ensures SumDeltas(increments) >= |increments|
  {
    if increments != [] {
      PositiveSum(increments[..|increments| - 1]);
    }
  }

  /** A request whose three deltas wrap around to its event count of 2. */
  lemma WrappedRequestIsAccepted(config: Config, e: Time)
    requires config.maxEvents >= 2 && config.maxKeys >= 3 && e != ZERO_TIME
    ensures var r := Request(2, [Increment("a", MAX_INT64, e), Increment("b", MAX_INT64, e), Increment("c", 4, e)]);
            Accepted(config, r) && SumDeltas(r.increments) != r.events
  {
    var a, b, c := Increment("a", MAX_INT64, e), Increment("b", MAX_INT64, e), Increment("c", 4, e);
    var s := [a, b, c];
    assert s[..2] == [a, b] && s[..2][..1] == [a] && [a][..0] == [];
    assert SumDeltas([a]) == a.delta;
    assert SumDeltas([a, b]) == SumDeltas([a]) + b.delta;
    assert SumDeltas(s) == SumDeltas([a, b]) + c.delta == TWO_64 + 2;
    WrapUnique(TWO_64 + 2, 2);
    assert Keys(s) == ["a", "b", "c"];
    assert "a"[0] != "b"[0] && "a"[0] != "c"[0] && "b"[0] != "c"[0];
  }
}
