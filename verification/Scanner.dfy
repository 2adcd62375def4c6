/**
 One scan after the other: a traversal resumed from the durable cursor, chunk by chunk, with
 every mutation paid for by a reservation.
 */
module Scanner {
  import opened Contexts
  import opened Wrappers
  import opened GoTypes
  import opened Text
  import opened Redis
  import opened Calendar
  import opened Contracts
  import opened Evaluator
  import opened Minio
  import opened Reads
  import opened Budget
  import opened BudgetSafety
  import opened Progress
  import opened Traversal
  import opened Decisions

  class Scanner {
    const config: Config
    const cursors: CursorStore
    const redis: Keyspace
    const minio: ObjectStore

    constructor (config: Config, cursors: CursorStore, redis: Keyspace, minio: ObjectStore)
      ensures this.config == config && this.cursors == cursors && this.redis == redis && this.minio == minio
    {
      this.config, this.cursors, this.redis, this.minio := config, cursors, redis, minio;
    }

    /** The budgets cover all calls, and every call is justified by what was read. */
    ghost predicate Ordered()
      reads redis`db, redis`now, redis`asked, minio`calls
    {
      && Sane(config) && InEra(redis.now) && BudgetInv(config.budgets, redis.db, redis.now, Charges(minio.calls))
      && AllJustified(config, minio.calls, redis.asked)
    }

    /** Besides, the calls are exactly what reservations were granted for, one call for each grant. */
    ghost predicate Settled()
      reads redis, minio`calls
    {
      Ordered() && Paid(minio.calls) == Grants(redis.replies)
    }

    /** Besides, everything asked was asked about an object that was handled, and as its verdict calls for. */
    ghost predicate InOrder()
      reads redis, minio
    {
      Settled() && Accounted(config, minio.done, minio.log, redis.replies, redis.asked)
    }

    /** All that counts as covered, now or in a pass, was handled. */
    ghost predicate Backed()
      reads cursors, minio
    {
      && cursors.covered + Elements(cursors.loose) <= Names(minio.done)
      && forall i :: 0 <= i < |cursors.passes| ==> cursors.passes[i].covered <= Names(minio.done)
    }

    ghost predicate Fine()
      reads redis, minio, cursors
    {
      InOrder() && Backed() && cursors.Valid()
    }

    /** Records are only added to, and in audit mode no call is made nor a reservation. */
    twostate predicate Audited()
      reads redis, minio
    {
      && old(minio.calls) <= minio.calls && old(minio.done) <= minio.done && old(redis.asked) <= redis.asked
      && (!config.apply ==> minio.calls == old(minio.calls) && redis.replies == old(redis.replies))
    }

    twostate predicate After(ctx: Context)
      reads ctx, redis, minio
    {
      Audited() && (old(ctx.cancelled) ==> ctx.cancelled) && (old(ctx.failed) ==> ctx.failed)
    }

    /** A reason for giving up that is not the scanner's. */
    ghost predicate Hindered(ctx: Context)
      reads ctx, redis
    {
      ctx.cancelled || ctx.failed || exists x :: IsObstacle(config, redis.asked, redis.replies, x)
    }

    /** Time passes and the updaters write their counters. */
    method Meanwhile()
      requires Ordered()
      modifies redis`db, redis`now
      ensures Ordered()
    {
      hide BudgetInv, AllJustified, AccessKey, Sane, InEra, ValidBudgets;
      SaneMeans(config);
      var delay: nat, writes: nat := *, *;
      redis.Wait(delay);
      ghost var charges := Charges(minio.calls);
      TimeKeepsBudgets(config.budgets, redis.db, old(redis.now), redis.now, charges);
      for _ := 0 to writes
        invariant Ordered()
      {
        var writer: string, bucket: Name, name: Name, hour: nat, entry: Entry := *, *, *, *, *;
        var key := AccessKey(writer, bucket, name, hour);
        if key.Ok? {
          AccessWritesKeepBudgets(config.budgets, writer, bucket, name, hour, redis.db, entry);
          OthersKeepBudgets(config.budgets, redis.db, redis.db[key.value := entry], redis.now, charges);
          redis.db := redis.db[key.value := entry];
        }
      }
    }

    /** The scanner's own clock, less than a day from Redis'. */
    method Clock() returns (t: Time)
      requires InEra(redis.now)
      ensures 0 <= t <= LAST_TIME && redis.now * MILLISECOND < t + DAY
    {
      var skew: int := *;
      t := redis.now * MILLISECOND;
      if -DAY < skew < DAY && 0 <= t + skew <= LAST_TIME {
        t := t + skew;
      }
    }

    /**
     After cancellation Redis is not reached any more, and only a kind without limits, for which
     it is not needed, is still granted.
     */
    method Reserve(ctx: Context, kind: string, bytes: int64) returns (granted: Option<bool>, ghost charge: Charge)
      requires Ordered() && ValidKind(kind)
      modifies ctx, redis`db, redis`now, redis`replies
      ensures Ordered() && (old(ctx.cancelled) ==> ctx.cancelled) && (old(ctx.failed) ==> ctx.failed)
      ensures |redis.replies| == |old(redis.replies)| + 1
      ensures var ask := redis.replies[|old(redis.replies)|];
              && redis.replies == old(redis.replies) + [ask] && ask.kind == kind && ask.bytes == bytes
              && ask.limit == (if kind == TRANSITION then config.budgets.transition else config.budgets.restore)
              && DeniedRightly(config.instance, ask)
              && granted == (if ask.result.Ok? then Some(ask.result.value.allowed) else None)
      ensures granted == Some(true) ==>
                && charge.kind == kind && charge.bytes == bytes
                && BudgetInv(config.budgets, redis.db, redis.now, Charges(minio.calls) + [charge])
      ensures old(ctx.cancelled) ==> redis.db == old(redis.db) && (granted.Some? ==> Unlimited(LimitOf(config.budgets, kind)))
    {
      hide BudgetInv, AllJustified, Sane, InEra, ValidKind, DayOf, DayDeadline, Reserved, InTime, Room, LimitOf, BudgetKeyOf, Counter,
           ValidBudgets, Reported, DeniedRightly;
      SaneMeans(config);
      var clock := Clock();
      charge := Charge(DayOf(clock), kind, if bytes >= 0 then bytes else 0);
      var limit := LimitOf(config.budgets, kind);
      LimitOfKind(config.budgets, kind);
      var r := redis.Reserve(ctx, config.instance, clock, kind, limit, bytes, config.timeout);
      ghost var charges := Charges(minio.calls);
      TimelyReservation(old(redis.now), redis.now, clock, config.timeout);
      TimeKeepsBudgets(config.budgets, old(redis.db), old(redis.now), redis.now, charges);
      if bytes >= 0 {
        SettleReservation(config.budgets, old(redis.db), redis.db, redis.now, charges, clock, kind, bytes);
      }
      granted := if r.Ok? then Some(r.value.allowed) else None;
    }

    /** At most one mutation, of the object and on the evidence given. */
    twostate predicate OneMutation(listed: Object, e: Evidence)
      reads minio
    {
      minio.calls == old(minio.calls) ||
      (|minio.calls| == |old(minio.calls)| + 1 && minio.calls[..|old(minio.calls)|] == old(minio.calls) &&
       var call := minio.calls[|old(minio.calls)|];
       call.listed == listed && call.evidence == e)
    }

    /** A call that was paid for and is justified keeps the books in order. */
    lemma CallKeepsOrder(call: Call)
      requires Ordered() && Justified(config, call, redis.asked)
      requires BudgetInv(config.budgets, redis.db, redis.now, Charges(minio.calls) + [call.charge])
      ensures BudgetInv(config.budgets, redis.db, redis.now, Charges(minio.calls + [call]))
      ensures AllJustified(config, minio.calls + [call], redis.asked)
      ensures Paid(minio.calls + [call]) == Paid(minio.calls) + [(call.charge.kind, call.charge.bytes)]
    {
      hide BudgetInv, Justified, AllJustified;
      OneMoreCall(config, minio.calls, call, redis.asked);
    }

    /** What was asked since, of MinIO and of the budgets; failing means that the reservation did. */
    twostate predicate Asked(looks: seq<Look>, asks: seq<Ask>, ok: bool)
      reads redis, minio
    {
      && minio.log == old(minio.log) + looks && redis.replies == old(redis.replies) + asks
      && (ok <==> forall i :: 0 <= i < |asks| ==> asks[i].result.Ok?)
    }

    method HandleMarker(ctx: Context, o: Object, ghost listed: Object, ghost e: Evidence)
      returns (ok: bool, ghost looks: seq<Look>, ghost asks: seq<Ask>)
      requires Settled() && Founded(config, e, listed, redis.asked) && Called(Mark, listed, o, e)
      modifies ctx, redis`db, redis`now, redis`replies, minio`log, minio`calls
      ensures Settled() && Audited() && (old(ctx.cancelled) ==> ctx.cancelled) && (old(ctx.failed) ==> ctx.failed)
      ensures OneMutation(listed, e) && Asked(looks, asks, ok) && MarkTrace(config, o, looks, asks)
    {
      hide BudgetInv, AllJustified, Sane, InEra, Founded, Called, Paid, Grants, DeniedRightly;
      asks := [];
      var plan, server := minio.Plan(ctx, o, config.markerKey, config.markerValue);
      looks := [TagsRead(o, if plan.Some? then Some(server.tags) else None)];
      if plan.None? {
        return true, looks, asks;
      }
      if !plan.value.required {
        return true, looks, asks;
      }
      if !config.apply {
        return true, looks, asks;
      }
      var granted, charge := Reserve(ctx, TRANSITION, o.size);
      ghost var ask := redis.replies[|old(redis.replies)|];
      asks := [ask];
      GrantedOneMore(old(redis.replies), ask);
      if granted.None? {
        return false, looks, asks;
      }
      if !granted.value {
        return true, looks, asks;
      }
      ghost var call := Call(charge, listed, o, Mark, e);
      CallKeepsOrder(call);
      var applied := minio.Tag(ctx, o, server, plan.value, call);
      looks := looks + [Tagged(o, plan.value.tags, applied)];
      return true, looks, asks;
    }

    /** A renewal moves no data and is charged no bytes. */
    method HandleRestore(ctx: Context, o: Object, action: Action, ghost listed: Object, ghost e: Evidence)
      returns (ok: bool, ghost looks: seq<Look>, ghost asks: seq<Ask>)
      requires Settled() && Founded(config, e, listed, redis.asked) && Called(action, listed, o, e)
      requires action == Restore || action == Renew
      modifies ctx, redis`db, redis`now, redis`replies, minio`log, minio`calls
      ensures Settled() && Audited() && (old(ctx.cancelled) ==> ctx.cancelled) && (old(ctx.failed) ==> ctx.failed)
      ensures OneMutation(listed, e) && Asked(looks, asks, ok)
      ensures RestoreTrace(config, o, if action == Renew then 0 else o.size, looks, asks)
    {
      hide BudgetInv, AllJustified, Sane, InEra, Founded, Called, Paid, Grants, DeniedRightly;
      looks, asks := [], [];
      if !config.apply {
        return true, looks, asks;
      }
      var bytes := o.size;
      if action == Renew {
        bytes := 0;
      }
      var granted, charge := Reserve(ctx, RESTORE, bytes);
      ghost var ask := redis.replies[|old(redis.replies)|];
      asks := [ask];
      GrantedOneMore(old(redis.replies), ask);
      if granted.None? {
        return false, looks, asks;
      }
      if !granted.value {
        return true, looks, asks;
      }
      ghost var call := Call(charge, listed, o, action, e);
      CallKeepsOrder(call);
      var outcome := minio.Bring(ctx, o, config.restoreDays, call);
      looks := [Brought(o, config.restoreDays, outcome)];
      return true, looks, asks;
    }

    /** Looked up, and marked or restored if that is still due. */
    method Act(ctx: Context, listed: Object, verdict: Verdict, chunkNow: Time, ghost e: Evidence)
      returns (ok: bool, ghost looks: seq<Look>, ghost asks: seq<Ask>)
      requires Settled() && Founded(config, e, listed, redis.asked) && e.verdict == verdict && e.now == chunkNow
      modifies ctx, redis`db, redis`now, redis`replies, minio`log, minio`calls
      ensures Settled() && Audited() && (old(ctx.cancelled) ==> ctx.cancelled) && (old(ctx.failed) ==> ctx.failed)
      ensures OneMutation(listed, e) && Asked(looks, asks, ok) && ObjectTrace(config, listed, verdict, chunkNow, looks, asks)
    {
      hide Ordered, Founded, Paid, Grants, MarkTrace, RestoreTrace, Readable;
      looks, asks := [], [];
      var o := listed;
      var action := NoAction;
      if o.stateKnown {
        action := DecideAction(o.state, verdict.low, verdict.high, chunkNow);
      }
      if (!o.stateKnown && (verdict.low || verdict.high)) || action != NoAction {
        var current := minio.Stat(ctx, o);
        looks := [Stated(listed, current)];
        if current.None? {
          return true, looks, asks;
        }
        if !SameIdentity(o, current.value) {
          return true, looks, asks;
        }
        o := current.value;
        action := DecideAction(o.state, verdict.low, verdict.high, chunkNow);
      }
      ghost var more := [];
      match action {
        case NoAction => return true, looks, asks;
        case Mark => ok, more, asks := HandleMarker(ctx, o, listed, e);
        case Restore => ok, more, asks := HandleRestore(ctx, o, action, listed, e);
        case Renew => ok, more, asks := HandleRestore(ctx, o, action, listed, e);
      }
      assert (looks + more)[1..] == more;
      looks := looks + more;
    }

    /** One object, with a record of what was asked about it; fails exactly if a reservation does. */
    method HandleObject(ctx: Context, listed: Object, verdict: Verdict, chunkNow: Time, ghost e: Evidence) returns (ok: bool)
      requires InOrder() && Founded(config, e, listed, redis.asked) && e.verdict == verdict && e.now == chunkNow && !IsDirectory(listed)
      modifies ctx, redis`db, redis`now, redis`replies, minio
      ensures InOrder() && Audited() && (old(ctx.cancelled) ==> ctx.cancelled) && (old(ctx.failed) ==> ctx.failed)
      ensures OneMutation(listed, e)
      ensures |minio.done| == |old(minio.done)| + 1 && minio.done[..|old(minio.done)|] == old(minio.done)
      ensures var h := minio.done[|old(minio.done)|]; h.listed == listed && h.evidence == e
      ensures !ok ==> Hindered(ctx)
    {
      hide Ordered, Founded, Paid, Grants, ObjectTrace, AllLooks, AllAsks, BudgetInv;
      Meanwhile();
      ghost var looks, asks;
      ok, looks, asks := Act(ctx, listed, verdict, chunkNow, e);
      ghost var h := Handled(listed, e, looks, asks);
      OneMoreHandled(config, minio.done, h, redis.asked);
      minio.done := minio.done + [h];
      if !ok {
        ghost var i :| 0 <= i < |asks| && asks[i].result.Err?;
        assert asks[i] == redis.replies[|old(redis.replies)| + i];
        assert IsObstacle(config, redis.asked, redis.replies, ReservationFailed(asks[i]));
      }
    }

    // ---- The traversal ----

    /** The objects of interest the cursor would pass by moving past these are covered or among them. */
    ghost predicate SafeToPass(ctx: Context, last: Access, objects: seq<Object>)
      reads ctx, cursors
    {
      cursors.trusted && !ctx.cancelled ==>
        NothingSkipped(cursors.exclusions, cursors.stable, Some(Cursor(last.bucket, last.name, 0)), cursors.covered + Elements(Ids(objects)))
    }

    /** The cursor stands before an object. */
    ghost predicate Before(o: Access)
      reads cursors
    {
      cursors.cursor.Some? ==> CursorBefore(cursors.cursor.value, Cursor(o.bucket, o.name, 0))
    }

    /** Until a traversal ends its cursor only moves forward, and what was covered stays covered. */
    twostate predicate SameGoal()
      reads cursors
    {
      cursors.stable == old(cursors.stable) && cursors.trusted == old(cursors.trusted) && cursors.passes == old(cursors.passes) &&
      old(cursors.trail) <= cursors.trail && old(cursors.covered) <= cursors.covered
    }

    /** The counters as they are now, and the coverage a little later. */
    method ReadUsage(ctx: Context, objects: seq<Object>, low: seq<Time>, high: seq<Time>)
      returns (r: Option<(seq<Usage>, seq<bool>)>, at: Snapshot, later: Snapshot)
      requires InOrder() && Hours(low) && Hours(high)
      requires |objects| <= MAX_INT64 && |low| <= MAX_INT64 && |high| <= MAX_INT64
      modifies ctx, redis`db, redis`now, redis`asked
      ensures InOrder() && (old(ctx.cancelled) ==> ctx.cancelled && r.None?) && (old(ctx.failed) ==> ctx.failed)
      ensures redis.asked == old(redis.asked) + {Instant(at.db, at.now), Instant(later.db, later.now)}
      ensures at.db == old(redis.db) && at.now == old(redis.now) && later.db == redis.db && later.now == redis.now
      ensures !ctx.failed ==> at.transport.Faithful? && later.transport.Faithful?
      ensures at.transport.Faithful? && Honest(later, config.coverage) ==>
                (r.Some? <==>
                  && objects != [] && low != [] && high != [] && |objects| * (|low| + |high|) <= MAX_ACCESS_KEYS_PER_CHUNK
                  && AllCountable(at, config.instance, Ids(objects), low, high) && CoverageReadable(later, config.coverage, low))
      ensures r.Some? ==> |r.value.0| == |objects| && |r.value.1| == |low| && !at.transport.Lost?
      ensures r.Some? && at.transport.Faithful? ==> ReadsAs(r.value.0, at, config.instance, Ids(objects), low, high)
      ensures r.Some? && Honest(later, config.coverage) ==>
                forall i :: 0 <= i < |low| ==> r.value.1[i] == IsCovered(later, config.coverage, low[i])
    {
      hide Ordered, Hours, AllCountable, ReadsAs, CoverageReadable, IsCovered, Honest, Paid, Grants, AllLooks, AllAsks, HandledRightly;
      at := Observe(ctx);
      Meanwhile();
      later := Observe(ctx);
      var read := ReadChunk(at, later, config.coverage, config.instance, Ids(objects), low, high);
      r := if read.Ok? then Some(read.value) else None;
    }

    /** One EVAL that reads: Redis as it is, and what becomes of the reply. */
    method Observe(ctx: Context) returns (at: Snapshot)
      requires InOrder()
      modifies ctx, redis`asked
      ensures InOrder() && (old(ctx.cancelled) ==> ctx.cancelled && at.transport.Lost?) && (old(ctx.failed) ==> ctx.failed)
      ensures redis.asked == old(redis.asked) + {Instant(at.db, at.now)}
      ensures at.db == redis.db && at.now == redis.now && (!ctx.failed ==> at.transport.Faithful?)
    {
      hide BudgetInv, AllJustified, Sane, InEra, Paid, Grants, Accounted;
      var fate := ctx.Call();
      var other: seq<string>, garbled: bool := *, *;
      at := Snapshot(redis.db, redis.now,
                     if fate == Answered then Faithful else if fate == AnswerLost && garbled then Garbled(other) else Lost);
      redis.Observe();
      AskedMore(config, minio.calls, old(redis.asked), redis.asked);
      AccountedMore(config, minio.done, minio.log, redis.replies, old(redis.asked), redis.asked);
    }

    method Judge(ctx: Context, objects: seq<Object>, usage: seq<Usage>, covered: seq<bool>, hour: Time) returns (r: Option<seq<Verdict>>)
      requires |usage| == |objects|
      modifies ctx`cancelled
      ensures old(ctx.cancelled) ==> ctx.cancelled
      ensures r.Some? ==> |r.value| == |objects|
      ensures r.Some? ==> forall i :: 0 <= i < |objects| ==> Judged(r.value[i], objects[i], usage[i], covered, hour, config.policy)
      ensures r.None? ==>
                || ctx.cancelled
                || exists i :: 0 <= i < |objects| && !Judgeable(usage[i], covered, config.policy)
    {
      hide Sum;
      var verdicts := [];
      for i := 0 to |objects|
        invariant |verdicts| == i && (old(ctx.cancelled) ==> ctx.cancelled)
        invariant forall j :: 0 <= j < i ==> Judged(verdicts[j], objects[j], usage[j], covered, hour, config.policy)
      {
        ctx.Poll();
        if ctx.cancelled {
          return None;
        }
        var verdict := Evaluate(Evaluation(hour, objects[i].lastModified, usage[i].low, covered, usage[i].high), config.policy);
        if verdict.Err? {
          assert !Judgeable(usage[i], covered, config.policy);
          return None;
        }
        verdicts := verdicts + [verdict.value];
      }
      r := Some(verdicts);
    }

    ghost predicate AllFounded(objects: seq<Object>, verdicts: seq<Verdict>, chunkNow: Time, evidence: seq<Evidence>)
      reads redis`asked
    {
      && |verdicts| == |evidence| == |objects|
      && forall i :: 0 <= i < |objects| ==>
           Founded(config, evidence[i], objects[i], redis.asked) && evidence[i].verdict == verdicts[i] && evidence[i].now == chunkNow
    }

    /** The objects of a chunk are handled one after the other; a failed reservation ends it. */
    method HandleAll(ctx: Context, objects: seq<Object>, verdicts: seq<Verdict>, chunkNow: Time, ghost evidence: seq<Evidence>) returns (ok: bool)
      requires InOrder() && Backed() && cursors.Valid() && cursors.loose == []
      requires AllFounded(objects, verdicts, chunkNow, evidence) && NoDirectories(objects)
      modifies ctx, redis`db, redis`now, redis`replies, minio, cursors`loose
      ensures InOrder() && Backed() && Audited() && (old(ctx.cancelled) ==> ctx.cancelled) && (old(ctx.failed) ==> ctx.failed) && cursors.Valid()
      ensures |cursors.loose| <= |objects| && (ok ==> cursors.loose == Ids(objects)) && (!ok ==> Hindered(ctx))
      ensures exists n :: HandledFirst(old(minio.done), minio.done, objects, n) && (ok ==> n == |objects|)
    {
      hide Settled, Accounted, NothingSkipped, Complete, Founded, Names, Hindered;
      for i := 0 to |objects|
        invariant InOrder() && Backed() && Audited() && (old(ctx.cancelled) ==> ctx.cancelled) && (old(ctx.failed) ==> ctx.failed) && cursors.Valid()
        invariant HandledFirst(old(minio.done), minio.done, objects, i)
        invariant cursors.loose == Ids(objects)[..i]
      {
        ghost var before := minio.done;
        ok := HandleObject(ctx, objects[i], verdicts[i], chunkNow, evidence[i]);
        NamesOneMore(before, minio.done[|before|]);
        assert minio.done == before + [minio.done[|before|]];
        assert HandledFirst(old(minio.done), minio.done, objects, i + 1);
        if !ok {
          return;
        }
        LooseOneMore(cursors.covered, cursors.loose, Id(objects[i]), Names(minio.done));
        cursors.loose := cursors.loose + [Id(objects[i])];
      }
      ok := true;
    }

    /** What the reads of a chunk and the verdicts on it amount to, object by object. */
    ghost method Evidences(objects: seq<Object>, verdicts: seq<Verdict>, now: Time, low: seq<Time>, high: seq<Time>,
                           at: Snapshot, later: Snapshot, usage: seq<Usage>, covered: seq<bool>) returns (evidence: seq<Evidence>)
      requires |verdicts| == |usage| == |objects| && AreWindows(config.policy, now, low, high)
      requires Instant(at.db, at.now) in redis.asked && Instant(later.db, later.now) in redis.asked
      requires !at.transport.Lost? && (at.transport.Faithful? ==> ReadsAs(usage, at, config.instance, Ids(objects), low, high))
      requires |covered| == |low|
      requires Honest(later, config.coverage) ==> forall i :: 0 <= i < |low| ==> covered[i] == IsCovered(later, config.coverage, low[i])
      requires forall i :: 0 <= i < |objects| ==> Judged(verdicts[i], objects[i], usage[i], covered, Truncate(now, HOUR), config.policy)
      ensures AllFounded(objects, verdicts, now, evidence)
    {
      hide AreWindows, Judged, Countable, CountsOf, IsCovered, Honest;
      evidence := seq(|objects|, i requires 0 <= i < |objects| => Evidence(now, low, high, at, later, usage[i], covered, verdicts[i]));
      forall i | 0 <= i < |objects|
        ensures Founded(config, evidence[i], objects[i], redis.asked)
      {
        assert Ids(objects)[i] == Id(objects[i]);
      }
    }

    /** The cursor and what is covered as they were, or the cursor on an object and everything handled covered. */
    twostate predicate StayedOrMoved(last: Access, handled: seq<Access>)
      reads cursors
    {
      (cursors.cursor == old(cursors.cursor) && cursors.trail == old(cursors.trail) && cursors.covered == old(cursors.covered)) ||
      MovedOnto(last, handled)
    }

    twostate predicate MovedOnto(last: Access, handled: seq<Access>)
      reads cursors
    {
      && cursors.cursor.Some? && Access(cursors.cursor.value.bucket, cursors.cursor.value.name) == last
      && cursors.trail == old(cursors.trail) + [cursors.cursor.value]
      && cursors.covered == old(cursors.covered) + Elements(handled) && cursors.loose == []
    }

    /**
     Either the cursor did not move, or every object of the chunk was handled and the cursor
     stands on the last. A chunk is given up only for a reason that is not the scanner's.
     */
    method ProcessChunk(ctx: Context, objects: seq<Object>) returns (ok: bool)
      requires InOrder() && Backed() && cursors.Valid() && cursors.loose == [] && ValidConfig(config)
      requires 0 < |objects| <= config.chunkSize && NoDirectories(objects)
      requires objects[|objects| - 1].name != [] && Before(Id(objects[|objects| - 1])) && SafeToPass(ctx, Id(objects[|objects| - 1]), objects)
      modifies ctx, redis, minio, cursors
      ensures InOrder() && Backed() && Audited() && (old(ctx.cancelled) ==> ctx.cancelled) && (old(ctx.failed) ==> ctx.failed) && cursors.Valid()
      ensures SameGoal() && |cursors.loose| <= |objects|
      ensures exists n :: HandledFirst(old(minio.done), minio.done, objects, n) && (ok ==> n == |objects|)
      ensures StayedOrMoved(Id(objects[|objects| - 1]), Ids(objects))
      ensures if ok then MovedOnto(Id(objects[|objects| - 1]), Ids(objects)) else Hindered(ctx) || objects[|objects| - 1].bucket == []
    {
      hide InOrder, Backed, Hindered, Sane, InEra, NothingSkipped, Complete, Truncate, IsWindow, Ascends, AreWindows, AllFounded, Hours, Accounted,
           BudgetInv, AllJustified, Elements, NoDirectories;
      assert HandledFirst(minio.done, minio.done, objects, 0);
      SaneOfOrder();
      SaneMeans(config);
      var chunkNow := Clock();
      var evaluationHour := Truncate(chunkNow, HOUR);
      var lowHours := HourWindow(evaluationHour, config.policy.lowWindowHours, false);
      ValidWindows(config);
      if lowHours.Err? {
        return false;
      }
      var highHours := HourWindow(evaluationHour, config.policy.highWindowHours, config.policy.highIncludeCurrent);
      if highHours.Err? {
        return false;
      }
      WindowsInRange(config, chunkNow, lowHours.value, highHours.value);
      var verdicts, evidence := JudgeChunk(ctx, objects, chunkNow, lowHours.value, highHours.value);
      if verdicts.None? {
        return false;
      }
      ok := HandleChunk(ctx, objects, verdicts.value, chunkNow, evidence);
    }

    lemma SaneOfOrder()
      requires InOrder()
      ensures Sane(config) && InEra(redis.now)
    {
      hide Accounted, BudgetInv, AllJustified;
    }

    /** All objects were handled: the cursor is saved at the last one. */
    method SaveLast(ctx: Context, objects: seq<Object>, chunkNow: Time) returns (ok: bool)
      requires cursors.Valid() && objects != [] && cursors.loose == Ids(objects) && chunkNow >= 0
      requires objects[|objects| - 1].name != [] && Before(Id(objects[|objects| - 1])) && SafeToPass(ctx, Id(objects[|objects| - 1]), objects)
      modifies ctx, cursors
      ensures cursors.Valid() && (old(ctx.cancelled) ==> ctx.cancelled) && (old(ctx.failed) ==> ctx.failed)
      ensures SameGoal() && |cursors.loose| <= |objects|
      ensures StayedOrMoved(Id(objects[|objects| - 1]), Ids(objects))
      ensures cursors.covered + Elements(cursors.loose) <= old(cursors.covered) + Elements(Ids(objects))
      ensures if ok then MovedOnto(Id(objects[|objects| - 1]), Ids(objects))
              else ctx.failed || objects[|objects| - 1].bucket == []
    {
      hide NothingSkipped, Complete, Ascends;
      var last := objects[|objects| - 1];
      var c := Cursor(last.bucket, last.name, chunkNow);
      ReachIgnoresTime(cursors.exclusions, cursors.stable, c, cursors.covered + Elements(cursors.loose));
      ok := cursors.SaveCursor(ctx, c);
    }

    /** The verdicts are acted on, then the cursor is saved. */
    method HandleChunk(ctx: Context, objects: seq<Object>, verdicts: seq<Verdict>, chunkNow: Time, ghost evidence: seq<Evidence>) returns (ok: bool)
      requires InOrder() && Backed() && cursors.Valid() && cursors.loose == [] && objects != [] && chunkNow >= 0
      requires AllFounded(objects, verdicts, chunkNow, evidence) && NoDirectories(objects)
      requires objects[|objects| - 1].name != [] && Before(Id(objects[|objects| - 1])) && SafeToPass(ctx, Id(objects[|objects| - 1]), objects)
      modifies ctx, redis`db, redis`now, redis`replies, minio, cursors
      ensures InOrder() && Backed() && Audited() && (old(ctx.cancelled) ==> ctx.cancelled) && (old(ctx.failed) ==> ctx.failed) && cursors.Valid()
      ensures SameGoal() && |cursors.loose| <= |objects|
      ensures exists n :: HandledFirst(old(minio.done), minio.done, objects, n) && (ok ==> n == |objects|)
      ensures StayedOrMoved(Id(objects[|objects| - 1]), Ids(objects))
      ensures if ok then MovedOnto(Id(objects[|objects| - 1]), Ids(objects)) else Hindered(ctx) || objects[|objects| - 1].bucket == []
    {
      hide InOrder, Audited, NothingSkipped, Complete, Ascends, AllFounded, Elements, Names, HandledFirst, NoDirectories;
      ok := HandleAll(ctx, objects, verdicts, chunkNow, evidence);
      if !ok {
        return false;
      }
      ok := SaveLast(ctx, objects, chunkNow);
    }

    /** The reads of a chunk and the verdicts on its objects; none only if something cannot be read or summed. */
    method JudgeChunk(ctx: Context, objects: seq<Object>, chunkNow: Time, low: seq<Time>, high: seq<Time>)
      returns (r: Option<seq<Verdict>>, ghost evidence: seq<Evidence>)
      requires InOrder() && AreWindows(config.policy, chunkNow, low, high) && ValidConfig(config)
      requires 0 < |objects| <= config.chunkSize
      modifies ctx, redis`db, redis`now, redis`asked
      ensures InOrder() && (old(ctx.cancelled) ==> ctx.cancelled && r.None?) && (old(ctx.failed) ==> ctx.failed) && old(redis.asked) <= redis.asked
      ensures if r.Some? then AllFounded(objects, r.value, chunkNow, evidence) else Hindered(ctx)
    {
      hide Ordered, Accounted, AllFounded, Judged, Hours, Paid, Grants, IsWindow, ReadsAs, IsCovered, AllCountable, CoverageReadable, Hindered,
           Judgeable;
      evidence := [];
      WindowSizes(config, chunkNow, low, high, |objects|);
      Meanwhile();
      var read, at, later := ReadUsage(ctx, objects, low, high);
      if read.None? {
        if !ctx.failed {
          NotRead(ctx, objects, low, high, at, later);
        }
        HinderedByCall(ctx);
        return None, [];
      }
      r := Judge(ctx, objects, read.value.0, read.value.1, Truncate(chunkNow, HOUR));
      if r.Some? {
        evidence := Evidences(objects, r.value, chunkNow, low, high, at, later, read.value.0, read.value.1);
      } else {
        if !ctx.failed && !ctx.cancelled {
          NotJudged(ctx, objects, low, high, at, read.value.0, read.value.1);
        }
        HinderedByCall(ctx);
      }
    }

    lemma HinderedByCall(ctx: Context)
      ensures ctx.cancelled || ctx.failed ==> Hindered(ctx)
    {}

    /** Answered reads that fail found a counter or a coverage key they cannot read. */
    lemma NotRead(ctx: Context, objects: seq<Object>, low: seq<Time>, high: seq<Time>, at: Snapshot, later: Snapshot)
      requires Hours(low) && Hours(high) && Instant(at.db, at.now) in redis.asked && Instant(later.db, later.now) in redis.asked
      requires low != [] && later.transport.Faithful?
      requires !AllCountable(at, config.instance, Ids(objects), low, high) || !CoverageReadable(later, config.coverage, low)
      ensures Hindered(ctx)
    {
      hide Hours, Countable;
      if !AllCountable(at, config.instance, Ids(objects), low, high) {
        var i :| 0 <= i < |objects| && !(Countable(at.db, at.now, config.instance, Ids(objects)[i], low) && Countable(at.db, at.now, config.instance, Ids(objects)[i], high));
        var window := if Countable(at.db, at.now, config.instance, Ids(objects)[i], low) then high else low;
        assert IsObstacle(config, redis.asked, redis.replies, UnreadableCounters(at, Ids(objects)[i], window));
      } else {
        assert IsObstacle(config, redis.asked, redis.replies, UnreadableCoverage(later, low));
      }
    }

    /** Counters that were read but not judged add up to more than an int64. */
    lemma NotJudged(ctx: Context, objects: seq<Object>, low: seq<Time>, high: seq<Time>, at: Snapshot, usage: seq<Usage>, covered: seq<bool>)
      requires Hours(low) && Hours(high) && Instant(at.db, at.now) in redis.asked && ReadsAs(usage, at, config.instance, Ids(objects), low, high)
      requires |low| == config.policy.lowWindowHours && |high| == config.policy.highWindowHours && |covered| == |low|
      requires exists i :: 0 <= i < |objects| && !Judgeable(usage[i], covered, config.policy)
      ensures Hindered(ctx)
    {
      hide Hours, Countable, CountsOf, Sum;
      var i :| 0 <= i < |objects| && !Judgeable(usage[i], covered, config.policy);
      var o := Ids(objects)[i];
      CountsAreNotNegative(at.db, at.now, config.instance, o, low);
      CountsAreNotNegative(at.db, at.now, config.instance, o, high);
      if !ValidPolicy(config.policy) {
        assert IsObstacle(config, redis.asked, redis.replies, BadSettings);
      } else {
        assert IsObstacle(config, redis.asked, redis.replies, CountOverflows(at, o, if Summable(usage[i].low) then high else low));
      }
    }

    /** The cursor stands at or before a name in a bucket. */
    ghost predicate NotPast(bucket: Name, name: Name)
      reads cursors
    {
      cursors.cursor.Some? ==>
        Less(cursors.cursor.value.bucket, bucket) ||
        (cursors.cursor.value.bucket == bucket && LessEq(cursors.cursor.value.name, name))
    }

    /** The chunk in hand: objects of the bucket, all after the cursor, none after the last name read. */
    ghost predicate InHand(chunk: seq<Object>, bucket: Name, frontier: Name)
      reads cursors
    {
      && |chunk| < config.chunkSize && cursors.loose == [] && NotPast(bucket, frontier) && NoDirectories(chunk)
      && (chunk != [] ==>
            var last := chunk[|chunk| - 1];
            last.bucket == bucket && last.name != [] && LessEq(last.name, frontier) && Before(Id(last)))
    }

    /** Every object of interest in the bucket is covered, unless the scan was cancelled. */
    ghost predicate BucketDone(ctx: Context, bucket: Name)
      reads ctx, cursors
    {
      cursors.trusted && !ctx.cancelled ==>
        forall o :: o in cursors.stable && o.bucket == bucket ==> o in cursors.covered
    }

    /** One object read from the listing: skipped as a directory, or added to a chunk that is processed once full. */
    method Accept(ctx: Context, bucket: Name, item: Object, chunk: seq<Object>) returns (ok: bool, rest: seq<Object>)
      requires Fine() && ValidConfig(config) && item.bucket == bucket
      requires InHand(chunk, bucket, item.name) && Before(Id(item)) && item.name != []
      requires SafeToPass(ctx, Id(item), if IsDirectory(item) then chunk else chunk + [item])
      modifies ctx, redis, minio, cursors
      ensures Fine() && After(ctx)
      ensures SameGoal() && |cursors.loose| <= config.chunkSize
      ensures if ok then InHand(rest, bucket, item.name) && SafeToPass(ctx, Id(item), rest) else Hindered(ctx) || bucket == []
      ensures item.size == 0 && item.name != [] && item.name[|item.name| - 1] == '/' ==> ok && rest == chunk
      ensures !(item.size == 0 && item.name != [] && item.name[|item.name| - 1] == '/') && |chunk| + 1 < config.chunkSize ==>
                ok && rest == chunk + [item]
      ensures ok ==> cursors.cursor == old(cursors.cursor) || (cursors.cursor.Some? && cursors.cursor.value.bucket == bucket)
    {
      hide InOrder, Backed, Hindered, HandledFirst, NothingSkipped, Complete, Ascends, ValidConfig, NoDirectories, Elements;
      ChunkSizePositive(config);
      LessEqReflexive(item.name);
      NothingToCover(cursors.covered);
      EmptyChunk();
      ok, rest := true, chunk;
      if !IsDirectory(item) {
        rest := chunk + [item];
        OneMoreNoDirectory(chunk, item);
        if |rest| == config.chunkSize {
          ok := ProcessChunk(ctx, rest);
          rest := [];
          NothingToCover(cursors.covered);
        }
      }
    }

    /** What is left when the listing has ended. */
    method LastChunk(ctx: Context, bucket: Name, frontier: Name, chunk: seq<Object>) returns (ok: bool)
      requires Fine() && ValidConfig(config) && InHand(chunk, bucket, frontier)
      requires SafeToPass(ctx, Access(bucket, frontier), chunk)
      requires cursors.trusted && !ctx.cancelled ==>
                 forall o :: o in cursors.stable && o.bucket == bucket ==> o in cursors.covered + Elements(Ids(chunk))
      modifies ctx, redis, minio, cursors
      ensures Fine() && After(ctx)
      ensures SameGoal() && |cursors.loose| <= config.chunkSize
      ensures if ok then cursors.loose == [] && BucketDone(ctx, bucket) else Hindered(ctx) || bucket == []
      ensures ok ==> cursors.cursor == old(cursors.cursor) || (cursors.cursor.Some? && cursors.cursor.value.bucket == bucket)
    {
      hide InOrder, Backed, Hindered, HandledFirst, NothingSkipped, Complete, Ascends, ValidConfig, NoDirectories;
      ChunkSizePositive(config);
      if |chunk| > 0 {
        var last := chunk[|chunk| - 1].name;
        if cursors.trusted && !ctx.cancelled {
          PassLess(cursors.exclusions, cursors.stable, bucket, last, frontier, cursors.covered + Elements(Ids(chunk)));
        }
        ok := ProcessChunk(ctx, chunk);
      } else {
        assert cursors.covered + Elements(Ids(chunk)) == cursors.covered;
        ok := true;
      }
    }

    /** The select of the listing loop: cancelled, idle for too long, or an item; a cancelled listing may just end. */
    method Select(ctx: Context) returns (event: ListEvent)
      modifies ctx
      ensures (old(ctx.cancelled) ==> ctx.cancelled) && (old(ctx.failed) ==> ctx.failed)
      ensures event == GivesUp ==> ctx.cancelled || ctx.failed
      ensures event == SeesEnd ==> ctx.cancelled
    {
      ctx.Poll();
      var choice: ListEvent, idle: bool := *, *;
      event := SeesItem;
      if ctx.cancelled {
        event := choice;
      } else if idle {
        var fate := ctx.Call();
        event := if fate == Answered then SeesItem else GivesUp;
      }
    }

    method ScanBucket(ctx: Context, bucket: Name, startAfter: Name, listing: Listing) returns (ok: bool)
      requires Fine() && cursors.loose == [] && ValidConfig(config)
      requires !IsExcluded(cursors.exclusions, bucket)
      requires NotPast(bucket, startAfter) && SafeToPass(ctx, Access(bucket, startAfter), [])
      requires cursors.trusted ==> FaithfulListing(listing, bucket, startAfter, cursors.stable)
      modifies ctx, redis, minio, cursors
      ensures Fine() && After(ctx)
      ensures SameGoal() && |cursors.loose| <= config.chunkSize
      ensures if ok then cursors.loose == [] && BucketDone(ctx, bucket) else Hindered(ctx) || bucket == [] || FlawedListing(listing, startAfter)
      ensures ok ==> cursors.cursor == old(cursors.cursor) || (cursors.cursor.Some? && cursors.cursor.value.bucket == bucket)
    {
      hide InOrder, Backed, Hindered, HandledFirst, NothingSkipped, Complete, FaithfulListing, Ascends, Source, IsExcluded, ValidConfig, PassedOn, FilterError,
           Ascending, Entries, IsDirectory, NoDirectories, FlawedListing, Fine, Elements;
      ChunkSizePositive(config);
      EmptyChunk();
      SourceFlawed(listing, startAfter);
      var objects, error := PassedOn(Source(listing), startAfter), FilterError(Source(listing), startAfter);
      PassedOnAscends(Source(listing), startAfter);
      var chunk: seq<Object>, i := [], 0;
      while true
        invariant 0 <= i <= |objects|
        invariant Fine() && After(ctx)
        invariant SameGoal() && InHand(chunk, bucket, Frontier(objects, i, startAfter))
        invariant SafeToPass(ctx, Access(bucket, Frontier(objects, i, startAfter)), chunk)
        invariant cursors.cursor == old(cursors.cursor) || (cursors.cursor.Some? && cursors.cursor.value.bucket == bucket)
        decreases |objects| - i
      {
        var event := Select(ctx);
        HinderedByCall(ctx);
        if event == GivesUp {
          return false;
        }
        if (i == |objects| && error.None?) || event == SeesEnd {
          if cursors.trusted && !ctx.cancelled {
            EndOfListing(listing, bucket, startAfter, cursors.stable, cursors.exclusions, cursors.covered, chunk);
          }
          ok := LastChunk(ctx, bucket, Frontier(objects, i, startAfter), chunk);
          return;
        }
        if i == |objects| {
          return false;
        }
        var item := objects[i].(bucket := bucket);
        NamelessFlawed(listing, startAfter, i);
        if |item.name| == 0 {
          return false;
        }
        NextObject(ctx, listing, bucket, startAfter, chunk, i);
        ok, chunk := Accept(ctx, bucket, item, chunk);
        if !ok {
          return false;
        }
        i := i + 1;
      }
    }

    /** What validate lets through; the window and chunk sizes are bounded together, budgets matter in apply mode only. */
    method Validate() returns (ok: bool)
      ensures ok <==> ValidConfig(config) && OtherSettings(config) && (config.apply ==> NoNegativeLimit(config.budgets))
      ensures ok <==>
                && config.chunkSize > 0 && config.policy.lowWindowHours > 0 && config.policy.highWindowHours > 0 && config.restoreDays > 0
                && config.chunkSize * (config.policy.lowWindowHours + config.policy.highWindowHours) <= 10_000
                && config.markerKey != "" && config.markerValue != "" && config.scope != ""
                && (config.apply ==>
                      && config.budgets.transition.attempts >= 0 && config.budgets.transition.bytes >= 0
                      && config.budgets.restore.attempts >= 0 && config.budgets.restore.bytes >= 0)
    {
      if config.chunkSize <= 0 || config.policy.lowWindowHours <= 0 || config.policy.highWindowHours <= 0 || config.restoreDays <= 0
         || config.markerKey == "" || config.markerValue == "" || config.scope == "" {
        return false;
      }
      if config.apply && (config.budgets.transition.attempts < 0 || config.budgets.transition.bytes < 0 ||
                          config.budgets.restore.attempts < 0 || config.budgets.restore.bytes < 0) {
        return false;
      }
      ok := ValidateAggregateAccessKeys(config.chunkSize, config.policy.lowWindowHours, config.policy.highWindowHours, MAX_ACCESS_KEYS_PER_CHUNK);
    }

    /** After the first buckets: where the cursor can be, and what is covered unless the scan was cancelled. */
    ghost predicate Progressing(ctx: Context, start: Option<Cursor>, names: seq<Name>, k: nat)
      requires k <= |names|
      reads ctx, cursors
    {
      && cursors.loose == []
      && (cursors.cursor == start || (cursors.cursor.Some? && cursors.cursor.value.bucket in names[..k]))
      && (cursors.trusted && !ctx.cancelled ==>
            && NothingSkipped(cursors.exclusions, cursors.stable, start, cursors.covered)
            && BucketsDone(cursors.exclusions, cursors.stable, names[..k], cursors.covered))
    }

    method VisitBucket(ctx: Context, inventory: Inventory, names: seq<Name>, k: nat, start: Option<Cursor>) returns (ok: bool)
      requires Fine() && cursors.exclusions == config.exclusions && ValidConfig(config)
      requires StrictlySorted(names) && (forall b :: b in names <==> b in inventory.buckets) && k < |names|
      requires cursors.trusted ==> FaithfulInventory(inventory, cursors.stable)
      requires Progressing(ctx, start, names, k)
      modifies ctx, redis, minio, cursors
      ensures Fine() && After(ctx)
      ensures SameGoal() && |cursors.loose| <= config.chunkSize
      ensures if ok then Progressing(ctx, start, names, k + 1) else Hindered(ctx) || FlawedInventory(inventory)
      ensures IsExcluded(config.exclusions, names[k]) || (start.Some? && Less(names[k], start.value.bucket)) ==>
                ok && unchanged(ctx, redis, minio, cursors)
    {
      hide InOrder, Backed, Hindered, HandledFirst, NothingSkipped, Complete, Ascends, ValidConfig, FaithfulInventory, FaithfulListing, IsExcluded, StrictlySorted,
           BucketsDone, Less, LessEq, FlawedListing;
      ChunkSizePositive(config);
      var bucket := names[k];
      assert names[..k + 1] == names[..k] + [bucket];
      var excluded := Excluded(config.exclusions, bucket);
      if excluded || (start.Some? && Less(bucket, start.value.bucket)) {
        if cursors.trusted && !ctx.cancelled {
          SkippedBucket(cursors.exclusions, cursors.stable, names, k, start, cursors.covered);
        }
        return true;
      }
      var startAfter := if start.Some? && bucket == start.value.bucket then start.value.name else [];
      if cursors.trusted {
        ListingOf(inventory, cursors.stable, bucket, startAfter);
        if !ctx.cancelled {
          NextBucket(cursors.exclusions, cursors.stable, inventory, names, k, start, startAfter, cursors.covered);
        }
      }
      NextPosition(names, k, cursors.cursor, start, startAfter);
      ghost var before := cursors.covered;
      assert bucket in inventory.buckets;
      ok := ScanBucket(ctx, bucket, startAfter, inventory.list(bucket, startAfter));
      if ok && cursors.trusted && !ctx.cancelled {
        OneMoreBucket(cursors.exclusions, cursors.stable, names, k, start, before, cursors.covered);
      }
    }

    lemma NothingVisited(ctx: Context, start: Option<Cursor>, names: seq<Name>)
      requires cursors.Valid() && cursors.loose == [] && cursors.cursor == start
      ensures Progressing(ctx, start, names, 0)
    {
      hide NothingSkipped;
      NoBuckets(cursors.exclusions, cursors.stable, names, cursors.covered);
    }

    /** All buckets were visited: the cursor is reset and the traversal recorded. */
    method Finish(ctx: Context, inventory: Inventory, names: seq<Name>, start: Option<Cursor>) returns (ok: bool)
      requires Fine() && Progressing(ctx, start, names, |names|) && forall b :: b in names <==> b in inventory.buckets
      requires cursors.trusted ==> FaithfulInventory(inventory, cursors.stable)
      modifies ctx, cursors
      ensures Fine() && cursors.loose == [] && (old(ctx.cancelled) ==> ctx.cancelled) && (old(ctx.failed) ==> ctx.failed)
      ensures if ok then cursors.cursor.None? else ctx.failed
      ensures var end := old(cursors.passes) + [Pass(old(cursors.covered), old(cursors.stable), old(cursors.trusted))];
              (cursors.passes == old(cursors.passes) || cursors.passes == end) && (ok ==> cursors.passes == end)
      ensures cursors.passes == old(cursors.passes) ==> SameGoal()
      ensures cursors.passes != old(cursors.passes) ==> cursors.trail == [] && cursors.trusted
    {
      hide InOrder, NothingSkipped, FaithfulInventory, Ascends, Complete, Names, Elements;
      NothingToCover({});
      if cursors.trusted && !ctx.cancelled {
        AllBucketsDone(cursors.exclusions, cursors.stable, inventory, names, cursors.covered);
      }
      ok := cursors.ResetCursor(ctx);
    }

    /** A traversal is recorded at most once, with what it was up against; the next one then starts from nothing. */
    twostate predicate AtMostOnePass(trusted: bool)
      reads cursors
    {
      cursors.passes == old(cursors.passes) ||
      (|cursors.passes| == |old(cursors.passes)| + 1 && cursors.passes[..|old(cursors.passes)|] == old(cursors.passes) &&
       cursors.trail == [] && cursors.trusted &&
       var pass := cursors.passes[|old(cursors.passes)|];
       pass.stable == old(cursors.stable) && pass.trusted == trusted && old(cursors.covered) <= pass.covered)
    }

    /** An unfinished traversal: forward only, nothing forgotten. */
    twostate predicate Unfinished(trusted: bool)
      reads cursors
    {
      cursors.stable == old(cursors.stable) && cursors.trusted == trusted &&
      old(cursors.trail) <= cursors.trail && old(cursors.covered) <= cursors.covered
    }

    method Traverse(ctx: Context, inventory: Inventory, names: seq<Name>, start: Option<Cursor>) returns (ok: bool)
      requires Fine() && cursors.exclusions == config.exclusions && ValidConfig(config)
      requires StrictlySorted(names) && forall b :: b in names <==> b in inventory.buckets
      requires cursors.trusted ==> FaithfulInventory(inventory, cursors.stable)
      requires cursors.loose == [] && cursors.cursor == start
      modifies ctx, redis, minio, cursors
      ensures Fine() && After(ctx)
      ensures |cursors.loose| <= config.chunkSize && AtMostOnePass(old(cursors.trusted))
      ensures cursors.passes == old(cursors.passes) ==> SameGoal()
      ensures if ok then cursors.cursor.None? && |cursors.passes| == |old(cursors.passes)| + 1 else Hindered(ctx) || FlawedInventory(inventory)
    {
      hide InOrder, Backed, Hindered, HandledFirst, NothingSkipped, Complete, Ascends, ValidConfig, FaithfulInventory, IsExcluded, StrictlySorted,
           BucketsDone, Progressing, FlawedInventory;
      ChunkSizePositive(config);
      NothingVisited(ctx, start, names);
      for k := 0 to |names|
        invariant Fine() && After(ctx) && SameGoal() && Progressing(ctx, start, names, k)
      {
        ok := VisitBucket(ctx, inventory, names, k, start);
        if !ok {
          return false;
        }
      }
      ok := Finish(ctx, inventory, names, start);
      HinderedByCall(ctx);
    }

    /** The settings are checked, the cursor loaded and the buckets listed; then they are traversed. */
    method Attempt(ctx: Context, inventory: Inventory) returns (ok: bool)
      requires Fine() && cursors.exclusions == config.exclusions && Distinct(inventory.buckets) && cursors.loose == []
      requires cursors.trusted ==> FaithfulInventory(inventory, cursors.stable)
      modifies ctx, redis, minio, cursors
      ensures Fine() && After(ctx)
      ensures config.chunkSize > 0 ==> |cursors.loose| <= config.chunkSize
      ensures AtMostOnePass(old(cursors.trusted)) && (cursors.passes == old(cursors.passes) ==> SameGoal())
      ensures if ok then cursors.cursor.None? && |cursors.passes| == |old(cursors.passes)| + 1 else Hindered(ctx) || FlawedInventory(inventory)
    {
      hide InOrder, Backed, Hindered, NothingSkipped, Complete, Ascends, ValidConfig, FaithfulInventory, IsExcluded, Distinct,
           StrictlySorted, OtherSettings, NoNegativeLimit, FlawedInventory;
      ok := Validate();
      if !ok {
        HinderedBySettings(ctx);
        return false;
      }
      var loaded := cursors.LoadCursor(ctx);
      HinderedByCall(ctx);
      if loaded.None? {
        return false;
      }
      var fate := ctx.Call();
      HinderedByCall(ctx);
      if fate != Answered {
        return false;
      }
      var names := SortedBuckets(inventory.buckets);
      ok := Traverse(ctx, inventory, names, loaded.value);
    }

    /**
     One scan, however it ends: the cursor only moves forward and past nothing of interest that
     was not handled; at most one chunk's worth of handled objects is not behind it; every
     finished traversal over trustworthy listings covered all objects of interest; and no day's
     calls exceed the limits of their kind. A scan that does not finish keeps the goal, the
     cursors passed and everything covered, and gives up only because it was cancelled or let
     down, or because of what it was given to read.
     */
    method ScanOnce(ctx: Context, inventory: Inventory) returns (ok: bool)
      requires Fine() && cursors.exclusions == config.exclusions && Distinct(inventory.buckets)
      modifies ctx, redis, minio, cursors
      ensures Fine() && After(ctx)
      ensures config.chunkSize > 0 ==> |cursors.loose| <= config.chunkSize
      ensures if ok then cursors.cursor.None? && |cursors.passes| == |old(cursors.passes)| + 1 else Hindered(ctx) || FlawedInventory(inventory)
      ensures var trusted := old(cursors.trusted) && FaithfulInventory(inventory, old(cursors.stable));
              AtMostOnePass(trusted) && (cursors.passes == old(cursors.passes) ==> Unfinished(trusted))
      ensures ok && old(cursors.trusted) && FaithfulInventory(inventory, old(cursors.stable)) ==>
                forall o :: o in old(cursors.stable) && o.bucket !in config.exclusions.buckets
                            && (forall prefix :: prefix in config.exclusions.prefixes ==> !(prefix <= o.bucket)) ==>
                              o in Names(minio.done)
      ensures forall day: nat :: WithinLimits(config.budgets, Charges(minio.calls), day)
    {
      hide InOrder, Hindered, NothingSkipped, Complete, Ascends, ValidConfig, FaithfulInventory, IsExcluded, Distinct,
           StrictlySorted, OtherSettings, NoNegativeLimit, Names, Elements, WithinLimits, FlawedInventory, Charges;
      DropLoose();
      cursors.loose := [];
      cursors.trusted := cursors.trusted && FaithfulInventory(inventory, cursors.stable);
      ok := Attempt(ctx, inventory);
      KeptLimits();
      PassesHandled();
    }

    lemma KeptLimits()
      requires Fine()
      ensures forall day: nat :: WithinLimits(config.budgets, Charges(minio.calls), day)
    {
      hide Accounted, AllJustified, BudgetInv, Kept;
      forall day: nat
        ensures WithinLimits(config.budgets, Charges(minio.calls), day)
      {
        LimitsAreKept(config.budgets, redis.db, redis.now, Charges(minio.calls), day);
        KeptMeans(config.budgets, redis.db, redis.now, Charges(minio.calls), day);
      }
    }

    lemma DropLoose()
      requires Backed()
      ensures cursors.covered <= Names(minio.done) && cursors.covered + Elements<Access>([]) <= Names(minio.done)
      ensures forall i :: 0 <= i < |cursors.passes| ==> cursors.passes[i].covered <= Names(minio.done)
    {
      hide Names;
    }

    lemma HinderedBySettings(ctx: Context)
      requires !(ValidConfig(config) && OtherSettings(config) && (config.apply ==> NoNegativeLimit(config.budgets)))
      ensures Hindered(ctx)
    {
      assert IsObstacle(config, redis.asked, redis.replies, BadSettings);
    }

    /** Passes over trustworthy listings: all their objects of interest were handled. */
    lemma PassesHandled()
      requires Fine() && cursors.exclusions == config.exclusions
      ensures AllHandled()
    {
      hide InOrder, Names, Complete, Ascends, NothingSkipped;
      forall i, o | 0 <= i < |cursors.passes| && cursors.passes[i].trusted && o in cursors.passes[i].stable
                    && o.bucket !in config.exclusions.buckets
                    && (forall prefix :: prefix in config.exclusions.prefixes ==> !(prefix <= o.bucket))
        ensures o in Names(minio.done)
      {
        CompleteMeans(cursors.exclusions, cursors.passes[i].stable, cursors.passes[i].covered, o);
      }
    }

    /** Every object that was there all through a trusted traversal, in a bucket that is not excluded, was handled. */
    ghost predicate AllHandled()
      reads cursors`passes, minio`done
    {
      forall i :: 0 <= i < |cursors.passes| && cursors.passes[i].trusted ==>
        forall o :: o in cursors.passes[i].stable && o.bucket !in config.exclusions.buckets
                    && (forall prefix :: prefix in config.exclusions.prefixes ==> !(prefix <= o.bucket)) ==>
                      o in Names(minio.done)
    }

    /**
     Scan after scan, each with its own context and its own view of the buckets. The scans from
     the end of one traversal to the end of the next make up that traversal: its pass is trusted,
     and then by Valid complete, exactly if the listings of all of them were trustworthy. Scans
     after the last end leave the cursor where it was or further on.
     */
    method RunScans(inventories: seq<Inventory>) returns (ghost ends: seq<nat>)
      requires Fine() && cursors.exclusions == config.exclusions
      requires forall i :: 0 <= i < |inventories| ==> Distinct(inventories[i].buckets)
      modifies redis, minio, cursors
      ensures Fine() && Audited() && SinceThen(ends) && AllHandled()
      ensures forall day: nat :: WithinLimits(config.budgets, Charges(minio.calls), day)
      ensures Ended(cursors.passes[|old(cursors.passes)|..], cursors.stable, cursors.trusted, inventories, ends, old(cursors.trusted))
    {
      hide InOrder, Backed, Hindered, NothingSkipped, Complete, Ascends, FaithfulInventory, Distinct, Ended, Names, WithinLimits, Charges,
           FlawedInventory, Fine, AllHandled;
      ends := [];
      NothingEnded(cursors.stable, cursors.trusted);
      assert inventories[..0] == [] && cursors.passes[|cursors.passes|..] == [];
      for i := 0 to |inventories|
        invariant Fine() && Audited() && SinceThen(ends)
        invariant Ended(cursors.passes[|old(cursors.passes)|..], cursors.stable, cursors.trusted, inventories[..i], ends, old(cursors.trusted))
        invariant |ends| <= i
      {
        var ctx := new Context();
        ghost var first, before, stable, trusted := |old(cursors.passes)|, cursors.passes, cursors.stable, cursors.trusted;
        var finished := ScanOnce(ctx, inventories[i]);
        assert inventories[..i + 1] == inventories[..i] + [inventories[i]];
        if cursors.passes == before {
          OneMoreScan(before[first..], stable, trusted, inventories[..i], ends, old(cursors.trusted), inventories[i]);
        } else {
          ghost var pass := cursors.passes[|before|];
          OneMoreEnd(before[first..], stable, trusted, inventories[..i], ends, old(cursors.trusted), inventories[i], pass, cursors.stable);
          assert cursors.passes == before + [pass];
          assert cursors.passes[first..] == before[first..] + [pass];
          ends := ends + [i];
        }
      }
      assert inventories[..|inventories|] == inventories;
      KeptLimits();
      PassesHandled();
    }

    /** Passes are only added; the first new one continues the traversal found, and without a new one that traversal went on. */
    twostate predicate SinceThen(ends: seq<nat>)
      reads cursors
    {
      && |cursors.passes| == |old(cursors.passes)| + |ends| && cursors.passes[..|old(cursors.passes)|] == old(cursors.passes)
      && (ends == [] ==>
            cursors.stable == old(cursors.stable) && old(cursors.trail) <= cursors.trail && old(cursors.covered) <= cursors.covered)
      && (ends != [] ==>
            var pass := cursors.passes[|old(cursors.passes)|];
            pass.stable == old(cursors.stable) && old(cursors.covered) <= pass.covered)
    }

    /** Reading one more object: it may join the chunk, and the cursor may then pass it. */
    lemma NextObject(ctx: Context, l: Listing, bucket: Name, startAfter: Name, chunk: seq<Object>, i: nat)
      requires i < |PassedOn(Source(l), startAfter)| && (cursors.trusted ==> FaithfulListing(l, bucket, startAfter, cursors.stable))
      requires var frontier := Frontier(PassedOn(Source(l), startAfter), i, startAfter);
               InHand(chunk, bucket, frontier) && SafeToPass(ctx, Access(bucket, frontier), chunk)
      ensures var item := PassedOn(Source(l), startAfter)[i].(bucket := bucket);
              && InHand(chunk, bucket, item.name) && Before(Id(item))
              && SafeToPass(ctx, Id(item), if IsDirectory(item) then chunk else chunk + [item])
    {
      hide PassedOn, Source, FilterError, NothingSkipped, FaithfulListing, IsDirectory, NoDirectories, Elements, Ascending, InHand, IsExcluded;
      var objects := PassedOn(Source(l), startAfter);
      FrontierAdvances(l, bucket, startAfter, cursors.stable, cursors.exclusions, cursors.covered, chunk, i, cursors.trusted && !ctx.cancelled);
      PassedOnAscends(Source(l), startAfter);
      AfterCursor(objects, i, startAfter);
      StillInHand(chunk, bucket, Frontier(objects, i, startAfter), objects[i].name);
    }

    /** Reading on keeps the chunk in hand, and the next object lies after the cursor. */
    lemma StillInHand(chunk: seq<Object>, bucket: Name, frontier: Name, name: Name)
      requires InHand(chunk, bucket, frontier) && Less(frontier, name)
      ensures InHand(chunk, bucket, name) && Before(Access(bucket, name))
    {
      StepsPast(cursors.cursor, bucket, frontier, name);
      if chunk != [] {
        LessEqThenLess(chunk[|chunk| - 1].name, frontier, name);
      }
    }
  }

  /** What the scans from one to another amount to: trust, if it was there before and all their listings deserve it. */
  ghost predicate Deserved(trusted: bool, stable: set<Access>, scans: seq<Inventory>, from: nat, to: nat, before: bool) {
    from <= to <= |scans| && trusted == (before && AllFaithful(scans[from..to], stable))
  }

  /** A finished traversal, from its first to its last scan. */
  ghost predicate Lasted(pass: Pass, scans: seq<Inventory>, first: nat, last: nat, before: bool) {
    first <= last && Deserved(pass.trusted, pass.stable, scans, first, last + 1, before)
  }

  /** The scan each finished traversal began with: the one after the end of the traversal before. */
  function From(ends: seq<nat>, j: nat): nat
    requires j <= |ends|
  {
    if j == 0 then 0 else ends[j - 1] + 1
  }

  /**
   Which scan ended each of the traversals that ended, and what trust each of them and the
   present one deserve, after some scans.
   */
  ghost predicate Ended(passes: seq<Pass>, stable: set<Access>, trusted: bool, scans: seq<Inventory>, ends: seq<nat>, atFirst: bool) {
    && |passes| == |ends|
    && (forall j :: 0 <= j < |ends| ==> Lasted(passes[j], scans, From(ends, j), ends[j], j > 0 || atFirst))
    && Deserved(trusted, stable, scans, From(ends, |ends|), |scans|, ends != [] || atFirst)
  }

  lemma NothingEnded(stable: set<Access>, trusted: bool)
    ensures Ended([], stable, trusted, [], [], trusted)
  {}

  lemma SameSegment(pass: Pass, scans: seq<Inventory>, first: nat, last: nat, before: bool, scan: Inventory)
    requires Lasted(pass, scans, first, last, before)
    ensures Lasted(pass, scans + [scan], first, last, before)
  {
    hide AllFaithful;
    assert (scans + [scan])[first..last + 1] == scans[first..last + 1];
  }

  lemma LongerSegment(trusted: bool, stable: set<Access>, scans: seq<Inventory>, from: nat, before: bool, scan: Inventory)
    requires Deserved(trusted, stable, scans, from, |scans|, before)
    ensures Deserved(trusted && FaithfulInventory(scan, stable), stable, scans + [scan], from, |scans| + 1, before)
  {
    hide AllFaithful, FaithfulInventory;
    assert scans[from..|scans|] == scans[from..] && (scans + [scan])[from..|scans| + 1] == scans[from..] + [scan];
    OneMoreFaithful(scans[from..], scan, stable);
  }

  lemma OneMoreScan(passes: seq<Pass>, stable: set<Access>, trusted: bool, scans: seq<Inventory>, ends: seq<nat>, atFirst: bool, scan: Inventory)
    requires Ended(passes, stable, trusted, scans, ends, atFirst)
    ensures Ended(passes, stable, trusted && FaithfulInventory(scan, stable), scans + [scan], ends, atFirst)
  {
    hide FaithfulInventory, Deserved, Lasted;
    forall j | 0 <= j < |ends|
      ensures Lasted(passes[j], scans + [scan], From(ends, j), ends[j], j > 0 || atFirst)
    {
      SameSegment(passes[j], scans, From(ends, j), ends[j], j > 0 || atFirst, scan);
    }
    LongerSegment(trusted, stable, scans, From(ends, |ends|), ends != [] || atFirst, scan);
  }

  lemma OneMoreEnd(passes: seq<Pass>, stable: set<Access>, trusted: bool, scans: seq<Inventory>, ends: seq<nat>, atFirst: bool, scan: Inventory,
                   pass: Pass, next: set<Access>)
    requires Ended(passes, stable, trusted, scans, ends, atFirst)
    requires pass.stable == stable && pass.trusted == (trusted && FaithfulInventory(scan, stable))
    ensures Ended(passes + [pass], next, true, scans + [scan], ends + [|scans|], atFirst)
  {
    hide FaithfulInventory, Deserved, Lasted;
    var all, after, grown := scans + [scan], ends + [|scans|], passes + [pass];
    LastSegment(pass, trusted, scans, From(ends, |ends|), ends != [] || atFirst, scan);
    forall j | 0 <= j < |after|
      ensures Lasted(grown[j], all, From(after, j), after[j], j > 0 || atFirst)
    {
      assert From(after, j) == From(ends, j);
      if j < |ends| {
        SameSegment(passes[j], scans, From(ends, j), ends[j], j > 0 || atFirst, scan);
      }
    }
    NothingSince(next, all);
  }

  lemma LastSegment(pass: Pass, trusted: bool, scans: seq<Inventory>, first: nat, before: bool, scan: Inventory)
    requires Deserved(trusted, pass.stable, scans, first, |scans|, before) && pass.trusted == (trusted && FaithfulInventory(scan, pass.stable))
    ensures Lasted(pass, scans + [scan], first, |scans|, before)
  {
    LongerSegment(trusted, pass.stable, scans, first, before, scan);
    hide AllFaithful, FaithfulInventory;
  }

  lemma NothingSince(stable: set<Access>, scans: seq<Inventory>)
    ensures Deserved(true, stable, scans, |scans|, |scans|, true)
  {}

  lemma OneMoreFaithful(scans: seq<Inventory>, scan: Inventory, stable: set<Access>)
    ensures AllFaithful(scans + [scan], stable) == (AllFaithful(scans, stable) && FaithfulInventory(scan, stable))
  {
    hide FaithfulInventory;
    assert (scans + [scan])[|scans|] == scan;
    assert forall i :: 0 <= i < |scans| ==> (scans + [scan])[i] == scans[i];
  }

  datatype ListEvent = SeesItem | SeesEnd | GivesUp

  /** What can stand in the way of a scan besides calls that are not answered. */
  datatype Obstacle =
    | BadSettings
    | UnreadableCounters(at: Snapshot, o: Access, hours: seq<Time>)
    | CountOverflows(at: Snapshot, o: Access, hours: seq<Time>)
    | UnreadableCoverage(at: Snapshot, hours: seq<Time>)
    | ReservationFailed(ask: Ask)

  ghost predicate IsObstacle(c: Config, asked: set<Instant>, replies: seq<Ask>, x: Obstacle) {
    match x
    case BadSettings =>
      || c.chunkSize <= 0 || c.policy.lowWindowHours <= 0 || c.policy.highWindowHours <= 0 || c.restoreDays <= 0
      || c.chunkSize * (c.policy.lowWindowHours + c.policy.highWindowHours) > 10_000
      || c.markerKey == "" || c.markerValue == "" || c.scope == ""
      || c.policy.lowThreshold < 0 || c.policy.highThreshold < 0
      || (c.apply && (c.budgets.transition.attempts < 0 || c.budgets.transition.bytes < 0 ||
                      c.budgets.restore.attempts < 0 || c.budgets.restore.bytes < 0))
    case UnreadableCounters(at, o, hours) =>
      Instant(at.db, at.now) in asked && Hours(hours) && !Countable(at.db, at.now, c.instance, o, hours)
    case CountOverflows(at, o, hours) =>
      && Instant(at.db, at.now) in asked && Hours(hours) && Countable(at.db, at.now, c.instance, o, hours)
      && Sum(CountsOf(at.db, at.now, c.instance, o, hours)) > MAX_INT64
    case UnreadableCoverage(at, hours) =>
      && Instant(at.db, at.now) in asked && c.coverage.enabled
      && exists i :: 0 <= i < |hours| && Lookup(at.db, at.now, c.coverage.template(hours[i])) == Some(Container)
    case ReservationFailed(ask) => ask in replies && ask.result.Err?
  }

  /** What Evaluate takes. */
  ghost predicate Judgeable(usage: Usage, covered: seq<bool>, p: Policy) {
    && ValidPolicy(p) && Summable(usage.low) && Summable(usage.high)
    && |usage.low| == p.lowWindowHours && |covered| == p.lowWindowHours && |usage.high| == p.highWindowHours
  }

  lemma CountsAreNotNegative(db: Db, now: int, instance: string, o: Access, hours: seq<Time>)
    requires Hours(hours)
    ensures Countable(db, now, instance, o, hours) ==> NonNegative(CountsOf(db, now, instance, o, hours))
  {
    hide Counter, Keyable, KeyText;
  }

  /** Each kind's mutations of a day against the limits configured for that kind; zero means none. */
  ghost predicate WithinLimits(b: Budgets, charges: seq<Charge>, day: nat) {
    && (b.transition.attempts > 0 ==> Attempts(charges, day, TRANSITION) <= b.transition.attempts)
    && (b.transition.bytes > 0 ==> BytesCharged(charges, day, TRANSITION) <= b.transition.bytes)
    && (b.restore.attempts > 0 ==> Attempts(charges, day, RESTORE) <= b.restore.attempts)
    && (b.restore.bytes > 0 ==> BytesCharged(charges, day, RESTORE) <= b.restore.bytes)
  }

  lemma KeptMeans(b: Budgets, db: Db, now: int, charges: seq<Charge>, day: nat)
    requires Kept(b.transition, b.instance, db, now, charges, day, TRANSITION)
    requires Kept(b.restore, b.instance, db, now, charges, day, RESTORE)
    ensures WithinLimits(b, charges, day)
  {
    hide Attempts, BytesCharged, Covers;
  }

  lemma ValidWindows(c: Config)
    requires ValidConfig(c)
    ensures c.policy.lowWindowHours > 0 && c.policy.highWindowHours > 0
  {}

  lemma WindowSizes(c: Config, now: Time, low: seq<Time>, high: seq<Time>, objects: nat)
    requires AreWindows(c.policy, now, low, high) && ValidConfig(c) && 0 < objects <= c.chunkSize
    ensures Hours(low) && Hours(high) && |low| == c.policy.lowWindowHours && |high| == c.policy.highWindowHours && low != [] && high != []
    ensures objects * (|low| + |high|) <= MAX_ACCESS_KEYS_PER_CHUNK && |low| <= MAX_INT64 && |high| <= MAX_INT64
  {
    hide Hours;
    MoreTimes(c.chunkSize, objects, c.policy.lowWindowHours + c.policy.highWindowHours);
  }

  /** No empty object whose name ends in a slash. */
  ghost predicate NoDirectories(objects: seq<Object>) {
    forall i :: 0 <= i < |objects| ==>
      objects[i].size != 0 || objects[i].name == [] || objects[i].name[|objects[i].name| - 1] != '/'
  }

  lemma EmptyChunk()
    ensures NoDirectories([])
  {}

  lemma OneMoreNoDirectory(chunk: seq<Object>, item: Object)
    requires NoDirectories(chunk) && !IsDirectory(item)
    ensures NoDirectories(chunk + [item])
  {}

  lemma NothingToCover(covered: set<Access>)
    ensures covered + Elements(Ids([])) == covered && covered + Elements<Access>([]) == covered
  {}

  lemma LooseOneMore(covered: set<Access>, loose: seq<Access>, o: Access, names: set<Access>)
    requires covered + Elements(loose) <= names && o in names
    ensures covered + Elements(loose + [o]) <= names
  {}

  /** The first objects of a chunk were handled, one after the other. */
  ghost predicate HandledFirst(before: seq<Handled>, after: seq<Handled>, objects: seq<Object>, n: nat) {
    && n <= |objects| && |after| == |before| + n && before <= after
    && forall i :: 0 <= i < n ==> after[|before| + i].listed == objects[i]
  }

  ghost predicate AllFaithful(inventories: seq<Inventory>, stable: set<Access>) {
    forall i :: 0 <= i < |inventories| ==> FaithfulInventory(inventories[i], stable)
  }

  lemma TimelyReservation(before: int, now: int, clock: Time, timeout: nat)
    requires 0 <= clock <= LAST_TIME && before * MILLISECOND < clock + DAY
    requires now <= before + timeout && timeout * MILLISECOND <= DAY
    ensures InTime(now, clock)
  {
    DayOutlived(now, clock);
  }

  lemma LimitOfKind(b: Budgets, kind: string)
    ensures LimitOf(b, kind) == if kind == TRANSITION then b.transition else b.restore
  {}

  lemma SettleReservation(b: Budgets, db: Db, db': Db, now: int, calls: seq<Charge>, clock: Time, kind: string, bytes: nat)
    requires BudgetInv(b, db, now, calls) && ValidKind(kind) && InTime(now, clock)
    ensures var limit, charge := LimitOf(b, kind), Charge(DayOf(clock), kind, bytes);
            if Unlimited(limit) then BudgetInv(b, db, now, calls + [charge])
            else Reserved(db, db', now, b.instance, DayOf(clock), kind, limit, bytes) ==>
                   BudgetInv(b, db', now, calls) && BudgetInv(b, db', now, calls + [charge])
  {
    hide BudgetInv, ValidKind, Unlimited, Reserved, DayDeadline, DayOf, LimitOf;
    OnTimeMeans(now, clock);
    if Unlimited(LimitOf(b, kind)) {
      UnlimitedChargesAreFree(b, db, now, calls, DayOf(clock), kind, bytes);
    } else if Reserved(db, db', now, b.instance, DayOf(clock), kind, LimitOf(b, kind), bytes) {
      ReservationPaysForOne(b, db, db', now, calls, DayOf(clock), kind, bytes);
    }
  }

}
