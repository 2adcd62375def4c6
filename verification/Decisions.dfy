/**
 What is done about an object: the verdict and what it rests on, the lookups, the reservation
 and the mutation that follow from it, and the record of all of them.
 */
module Decisions {
  import opened Contexts
  import opened Wrappers
  import opened GoTypes
  import opened Redis
  import opened Contracts
  import opened Evaluator
  import opened Minio
  import opened Reads
  import opened Budget
  import opened BudgetSafety
  import opened Progress
  import opened Traversal

  datatype Config = Config(
    apply: bool, instance: string, policy: Policy, restoreDays: int64, markerKey: string, markerValue: string,
    chunkSize: int64, exclusions: Exclusions, scope: string, budgets: Budgets, coverage: Coverage,
    timeout: nat)  // of one Redis operation, in milliseconds

  /** What LoadConfig guarantees beyond validate: a known instance, and timeouts far below a day. */
  predicate Sane(c: Config) {
    ValidInstanceID(c.instance) && c.budgets.instance == c.instance && ValidBudgets(c.budgets) && c.timeout * MILLISECOND <= DAY
  }

  lemma SaneMeans(c: Config)
    requires Sane(c)
    ensures ValidInstanceID(c.instance) && c.budgets.instance == c.instance && c.timeout * MILLISECOND <= DAY
    ensures ValidBudgets(c.budgets)
  {}

  predicate ValidConfig(c: Config) {
    && c.chunkSize > 0 && c.policy.lowWindowHours > 0 && c.policy.highWindowHours > 0
    && c.chunkSize * (c.policy.lowWindowHours + c.policy.highWindowHours) <= MAX_ACCESS_KEYS_PER_CHUNK
  }

  predicate OtherSettings(c: Config) {
    c.restoreDays > 0 && c.markerKey != "" && c.markerValue != "" && c.scope != ""
  }

  predicate NoNegativeLimit(b: Budgets) {
    b.transition.attempts >= 0 && b.transition.bytes >= 0 && b.restore.attempts >= 0 && b.restore.bytes >= 0
  }

  lemma ChunkSizePositive(c: Config)
    requires ValidConfig(c)
    ensures c.chunkSize > 0
  {}

  // ---- The two windows of a chunk ----

  /** The whole hours before the chunk's hour, for the high window with the chunk's hour if so configured. */
  ghost predicate AreWindows(p: Policy, now: Time, low: seq<Time>, high: seq<Time>) {
    && p.lowWindowHours > 0 && p.highWindowHours > 0
    && IsWindow(low, p.lowWindowHours, Truncate(now, HOUR))
    && IsWindow(high, p.highWindowHours, Truncate(now, HOUR) + if p.highIncludeCurrent then HOUR else 0)
    && Hours(low) && Hours(high)
  }

  lemma FewHours(chunk: int, low: int, high: int)
    requires chunk >= 1 && low >= 1 && high >= 1 && chunk * (low + high) <= MAX_ACCESS_KEYS_PER_CHUNK
    ensures low + high <= MAX_ACCESS_KEYS_PER_CHUNK
  {
    MoreTimes(chunk, 1, low + high);
  }

  lemma WindowInRange(window: seq<Time>, hours: nat, end: Time)
    requires hours <= MAX_ACCESS_KEYS_PER_CHUNK && 0 <= end && IsWindow(window, hours, end)
    ensures Hours(window)
  {
    forall i | 0 <= i < hours
      ensures window[i] >= ZERO_TIME
    {
      assert (hours - i) * HOUR <= MAX_ACCESS_KEYS_PER_CHUNK * HOUR;
    }
  }

  lemma WindowsInRange(c: Config, now: Time, low: seq<Time>, high: seq<Time>)
    requires ValidConfig(c) && 0 <= now
    requires var p, t := c.policy, Truncate(Truncate(now, HOUR), HOUR);
             && (p.lowWindowHours <= MAX_WINDOW ==> IsWindow(low, p.lowWindowHours, t + 0))
             && (p.highWindowHours <= MAX_WINDOW ==> IsWindow(high, p.highWindowHours, t + if p.highIncludeCurrent then HOUR else 0))
    ensures AreWindows(c.policy, now, low, high)
    ensures Hours(low) && Hours(high) && |low| == c.policy.lowWindowHours && |high| == c.policy.highWindowHours
  {
    hide IsWindow;
    FewHours(c.chunkSize, c.policy.lowWindowHours, c.policy.highWindowHours);
    var t := Truncate(now, HOUR);
    assert Truncate(t, HOUR) == t;
    WindowLength(low, c.policy.lowWindowHours, t);
    WindowLength(high, c.policy.highWindowHours, t + if c.policy.highIncludeCurrent then HOUR else 0);
    WindowInRange(low, c.policy.lowWindowHours, t);
    WindowInRange(high, c.policy.highWindowHours, t + if c.policy.highIncludeCurrent then HOUR else 0);
  }

  lemma WindowLength(window: seq<Time>, hours: nat, end: Time)
    requires IsWindow(window, hours, end)
    ensures |window| == hours
  {}

  // ---- What a verdict rests on ----

  /** The verdict the usage of an object calls for. */
  ghost predicate Judged(v: Verdict, o: Object, usage: Usage, covered: seq<bool>, hour: Time, policy: Policy) {
    && v.coverageComplete == AllCovered(covered)
    && v.high == (Sum(usage.high) > policy.highThreshold)
    && (v.low ==> AllCovered(covered) && Sum(usage.low) < policy.lowThreshold)
    && (policy.lowWindowHours <= MAX_WINDOW ==>
          v.low == (AllCovered(covered) && Sum(usage.low) < policy.lowThreshold &&
                    o.lastModified <= Truncate(hour, HOUR) - policy.lowWindowHours * HOUR))
  }

  datatype Evidence = Evidence(
    now: Time,              // the chunk's time
    low: seq<Time>, high: seq<Time>,
    at: Snapshot,           // Redis when the counters were read
    later: Snapshot,        // Redis when the coverage was read
    usage: Usage, covered: seq<bool>,
    verdict: Verdict)

  /** The counters in evidence are those Redis held for the object, unless the reply was not the script's; so is the coverage. */
  ghost predicate WasRead(c: Config, e: Evidence, o: Access)
    requires Hours(e.low) && Hours(e.high)
  {
    && !e.at.transport.Lost?
    && (e.at.transport.Faithful? ==>
          && Countable(e.at.db, e.at.now, c.instance, o, e.low) && Countable(e.at.db, e.at.now, c.instance, o, e.high)
          && e.usage.low == CountsOf(e.at.db, e.at.now, c.instance, o, e.low)
          && e.usage.high == CountsOf(e.at.db, e.at.now, c.instance, o, e.high))
    && |e.covered| == |e.low|
    && (Honest(e.later, c.coverage) ==> forall i :: 0 <= i < |e.low| ==> e.covered[i] == IsCovered(e.later, c.coverage, e.low[i]))
  }

  /** Both reads really happened, at an instant the scanner asked Redis. */
  ghost predicate Witnessed(e: Evidence, asked: set<Instant>) {
    Instant(e.at.db, e.at.now) in asked && Instant(e.later.db, e.later.now) in asked
  }

  ghost predicate Founded(c: Config, e: Evidence, o: Object, asked: set<Instant>) {
    && AreWindows(c.policy, e.now, e.low, e.high) && Witnessed(e, asked) && WasRead(c, e, Id(o))
    && Judged(e.verdict, o, e.usage, e.covered, Truncate(e.now, HOUR), c.policy)
  }

  // ---- Calls ----

  /** A mutation call: its charge, the object as listed and as looked up again, the action and the evidence. */
  datatype Call = Call(charge: Charge, listed: Object, target: Object, action: Action, evidence: Evidence)

  /** The charge is of the right kind; a renewal only extends a restored copy and moves no data. */
  ghost predicate PaysFor(charge: Charge, action: Action, size: int64) {
    match action
    case Mark => charge.kind == TRANSITION && charge.bytes == size
    case Restore => charge.kind == RESTORE && charge.bytes == size
    case Renew => charge.kind == RESTORE && charge.bytes == 0
    case NoAction => false
  }

  /** The object looked up again is the one that was listed, and its state calls for the action under the verdict. */
  ghost predicate Called(action: Action, listed: Object, target: Object, e: Evidence) {
    && Id(target) == Id(listed) && SameIdentity(listed, target)
    && action == DecideAction(target.state, e.verdict.low, e.verdict.high, e.now)
  }

  ghost predicate Justified(c: Config, call: Call, asked: set<Instant>) {
    && Founded(c, call.evidence, call.listed, asked)
    && Called(call.action, call.listed, call.target, call.evidence)
    && PaysFor(call.charge, call.action, call.target.size)
  }

  ghost predicate AllJustified(c: Config, calls: seq<Call>, asked: set<Instant>) {
    forall i :: 0 <= i < |calls| ==> Justified(c, calls[i], asked)
  }

  lemma OneMoreCall(c: Config, calls: seq<Call>, call: Call, asked: set<Instant>)
    requires AllJustified(c, calls, asked) && Justified(c, call, asked)
    ensures AllJustified(c, calls + [call], asked)
    ensures Charges(calls + [call]) == Charges(calls) + [call.charge]
    ensures Paid(calls + [call]) == Paid(calls) + [(call.charge.kind, call.charge.bytes)]
  {
    hide Justified;
    assert (calls + [call])[..|calls|] == calls;
  }

  lemma AskedMore(c: Config, calls: seq<Call>, asked: set<Instant>, more: set<Instant>)
    requires AllJustified(c, calls, asked) && asked <= more
    ensures AllJustified(c, calls, more)
  {
    hide AreWindows, WasRead, Judged, Called, PaysFor;
  }

  /** The counters Redis held at some instant for an object's window summed to this. */
  ghost predicate SummedTo(c: Config, at: Snapshot, o: Access, hours: seq<Time>, total: int) {
    Hours(hours) && Countable(at.db, at.now, c.instance, o, hours) && Sum(CountsOf(at.db, at.now, c.instance, o, hours)) == total
  }

  /**
   What a call says about its object: a mark means an untransitioned object as old as the low
   window, every hour of which was covered and whose counters summed below the threshold; a
   restore or renewal a transitioned one whose counters summed above the other threshold. The
   sums are of what Redis held at an instant the scanner asked, unless the reply was garbled.
   */
  lemma CallMeans(c: Config, call: Call, asked: set<Instant>)
    requires Justified(c, call, asked)
    ensures call.charge.kind == (if call.action == Mark then TRANSITION else RESTORE)
    ensures call.target.state.transitioned <==> call.action != Mark
    ensures var e := call.evidence;
            call.action == Mark ==>
              && AllCovered(e.covered) && Sum(e.usage.low) < c.policy.lowThreshold
              && (c.coverage.enabled && Honest(e.later, c.coverage) ==>
                    forall i :: 0 <= i < |e.low| ==>
                      Lookup(e.later.db, e.later.now, c.coverage.template(e.low[i])) == Some(Str(c.coverage.value)))
              && (c.policy.lowWindowHours <= MAX_WINDOW ==>
                    call.listed.lastModified <= Truncate(e.now, HOUR) - c.policy.lowWindowHours * HOUR)
              && (e.at.transport.Faithful? ==> SummedTo(c, e.at, Id(call.listed), e.low, Sum(e.usage.low)))
    ensures var e := call.evidence;
            call.action != Mark ==>
              && Sum(e.usage.high) > c.policy.highThreshold
              && (e.at.transport.Faithful? ==> SummedTo(c, e.at, Id(call.listed), e.high, Sum(e.usage.high)))
    ensures Instant(call.evidence.at.db, call.evidence.at.now) in asked && Instant(call.evidence.later.db, call.evidence.later.now) in asked
  {
    hide IsWindow, Hours, Countable, CountsOf, Sum, Lookup;
    var now := call.evidence.now;
    assert Truncate(Truncate(now, HOUR), HOUR) == Truncate(now, HOUR);
  }

  function Charges(calls: seq<Call>): (charges: seq<Charge>)
    ensures |charges| == |calls| && forall i :: 0 <= i < |charges| ==> charges[i] == calls[i].charge
  {
    seq(|calls|, i requires 0 <= i < |calls| => calls[i].charge)
  }

  // ---- What was paid for ----

  /** Kind and bytes of every call, in order. */
  ghost function Paid(calls: seq<Call>): seq<(string, int)> {
    if calls == [] then []
    else
      var last := calls[|calls| - 1];
      Paid(calls[..|calls| - 1]) + [(last.charge.kind, last.charge.bytes)]
  }

  predicate IsGrant(ask: Ask) {
    ask.result.Ok? && ask.result.value.allowed
  }

  /** Kind and bytes of every granted reservation, in order. */
  ghost function Grants(asks: seq<Ask>): seq<(string, int)> {
    if asks == [] then []
    else
      var last := asks[|asks| - 1];
      Grants(asks[..|asks| - 1]) + if IsGrant(last) then [(last.kind, last.bytes)] else []
  }

  lemma GrantedOneMore(asks: seq<Ask>, ask: Ask)
    ensures Grants(asks + [ask]) == Grants(asks) + if IsGrant(ask) then [(ask.kind, ask.bytes)] else []
  {
    assert (asks + [ask])[..|asks|] == asks;
  }

  // ---- One object ----

  /** What MinIO was asked about one object, and what it answered. */
  datatype Look =
    | Stated(listed: Object, found: Option<Object>)
    | TagsRead(o: Object, current: Option<Tags>)
    | Tagged(o: Object, tags: Tags, result: Result<(), MarkerError>)
    | Brought(o: Object, days: int64, outcome: RestoreOutcome)

  /**
   Marking: the tags are read; where the marker is missing or different and there is room for it
   a reservation of the object's size is asked for; and exactly after a grant the tags are
   written, with the marker and otherwise as they were read.
   */
  ghost predicate MarkTrace(c: Config, o: Object, looks: seq<Look>, asks: seq<Ask>) {
    && looks != [] && looks[0].TagsRead? && looks[0].o == o
    && var current := looks[0].current;
       if c.apply && current.Some? &&
          (if c.markerKey in current.value then current.value[c.markerKey] != c.markerValue else |current.value| < 10)
       then
         && |asks| == 1 && asks[0].kind == TRANSITION && asks[0].bytes == o.size
         && asks[0].limit == c.budgets.transition && DeniedRightly(c.instance, asks[0])
         && if IsGrant(asks[0]) then
              |looks| == 2 && looks[1].Tagged? && looks[1].o == o && looks[1].tags == current.value[c.markerKey := c.markerValue]
            else |looks| == 1
       else |looks| == 1 && asks == []
  }

  /** Restoring or renewing: a reservation is asked for, and exactly after a grant the call is made. */
  ghost predicate RestoreTrace(c: Config, o: Object, bytes: int, looks: seq<Look>, asks: seq<Ask>) {
    if c.apply then
      && |asks| == 1 && asks[0].kind == RESTORE && asks[0].bytes == bytes
      && asks[0].limit == c.budgets.restore && DeniedRightly(c.instance, asks[0])
      && if IsGrant(asks[0]) then |looks| == 1 && looks[0].Brought? && looks[0].o == o && looks[0].days == c.restoreDays else looks == []
    else looks == [] && asks == []
  }

  /** The listing already shows that nothing is to be done. */
  ghost predicate NothingDue(listed: Object, v: Verdict, now: Time) {
    if listed.stateKnown then DecideAction(listed.state, v.low, v.high, now) == NoAction else !v.low && !v.high
  }

  /** Everything asked of MinIO and of the budgets about one object, from its listing and its verdict. */
  ghost predicate ObjectTrace(c: Config, listed: Object, v: Verdict, now: Time, looks: seq<Look>, asks: seq<Ask>) {
    if NothingDue(listed, v, now) then looks == [] && asks == []
    else
      && looks != [] && looks[0].Stated? && looks[0].listed == listed
      && match looks[0].found
         case None => |looks| == 1 && asks == []
         case Some(o) =>
           var action := DecideAction(o.state, v.low, v.high, now);
           && Id(o) == Id(listed)
           && if !SameIdentity(listed, o) || action == NoAction then |looks| == 1 && asks == []
              else if action == Mark then MarkTrace(c, o, looks[1..], asks)
              else RestoreTrace(c, o, if action == Renew then 0 else o.size, looks[1..], asks)
  }

  /** An object that was handled: on what evidence, and all that was asked about it. */
  datatype Handled = Handled(listed: Object, evidence: Evidence, looks: seq<Look>, asks: seq<Ask>)

  ghost predicate HandledRightly(c: Config, h: Handled, asked: set<Instant>) {
    && Founded(c, h.evidence, h.listed, asked)
    && ObjectTrace(c, h.listed, h.evidence.verdict, h.evidence.now, h.looks, h.asks)
    && (h.listed.size != 0 || h.listed.name == [] || h.listed.name[|h.listed.name| - 1] != '/')
  }

  ghost function AllLooks(done: seq<Handled>): seq<Look> {
    if done == [] then [] else AllLooks(done[..|done| - 1]) + done[|done| - 1].looks
  }

  ghost function AllAsks(done: seq<Handled>): seq<Ask> {
    if done == [] then [] else AllAsks(done[..|done| - 1]) + done[|done| - 1].asks
  }

  /** The logs hold what was asked about the objects handled, and nothing else. */
  ghost predicate Accounted(c: Config, done: seq<Handled>, looks: seq<Look>, asks: seq<Ask>, asked: set<Instant>) {
    && looks == AllLooks(done) && asks == AllAsks(done)
    && forall i :: 0 <= i < |done| ==> HandledRightly(c, done[i], asked)
  }

  lemma OneMoreHandled(c: Config, done: seq<Handled>, h: Handled, asked: set<Instant>)
    requires Accounted(c, done, AllLooks(done), AllAsks(done), asked) && HandledRightly(c, h, asked)
    ensures Accounted(c, done + [h], AllLooks(done) + h.looks, AllAsks(done) + h.asks, asked)
  {
    hide HandledRightly;
    assert (done + [h])[..|done|] == done;
  }

  lemma AccountedMore(c: Config, done: seq<Handled>, looks: seq<Look>, asks: seq<Ask>, asked: set<Instant>, more: set<Instant>)
    requires Accounted(c, done, looks, asks, asked) && asked <= more
    ensures Accounted(c, done, looks, asks, more)
  {
    hide AreWindows, WasRead, Judged, ObjectTrace, AllLooks, AllAsks;
  }

  ghost function Names(done: seq<Handled>): set<Access> {
    set h | h in done :: Id(h.listed)
  }

  lemma NamesOneMore(done: seq<Handled>, h: Handled)
    ensures Names(done + [h]) == Names(done) + {Id(h.listed)}
  {
    forall o | o in Names(done) + {Id(h.listed)}
      ensures o in Names(done + [h])
    {
      if o in Names(done) {
        var x :| x in done && Id(x.listed) == o;
        assert x in done + [h];
      } else {
        assert h in done + [h];
      }
    }
  }

  datatype RestoreOutcome = Requested | AlreadyRunning | RestoreFailed

  /** MinIO as the scanner uses it, with a log of what it was asked and a record of the mutations called. */
  class ObjectStore {
    const library: Tags -> bool     // the tag library's verdict on a tag set
    ghost var log: seq<Look>
    ghost var calls: seq<Call>
    ghost var done: seq<Handled>    // the objects handled so far

    constructor (library: Tags -> bool)
      ensures this.library == library && log == [] && calls == [] && done == []
    {
      this.library := library;
      log, calls, done := [], [], [];
    }

    /** Stat gives an object's current properties, always with a known state. */
    method Stat(ctx: Context, listed: Object) returns (r: Option<Object>)
      modifies ctx, this`log
      ensures (old(ctx.cancelled) ==> ctx.cancelled && r.None?) && (old(ctx.failed) ==> ctx.failed)
      ensures log == old(log) + [Stated(listed, r)]
      ensures if r.Some? then Id(r.value) == Id(listed) && r.value.stateKnown else ctx.failed
    {
      var found: Object := *;
      var fate := ctx.Call();
      r := if fate == Answered then Some(found.(bucket := listed.bucket, name := listed.name, stateKnown := true)) else None;
      log := log + [Stated(listed, r)];
    }

    /** The tags of the object's version are read and the marker planned. */
    method Plan(ctx: Context, o: Object, key: string, value: string) returns (r: Option<MarkerPlan>, server: TagServer)
      modifies ctx, this`log
      ensures fresh(server) && (old(ctx.cancelled) ==> ctx.cancelled && r.None?) && (old(ctx.failed) ==> ctx.failed)
      ensures log == old(log) + [TagsRead(o, if r.Some? then Some(server.tags) else None)]
      ensures r.None? ==> ctx.failed
      ensures r.Some? ==>
                && (r.value.required <==> if key in server.tags then server.tags[key] != value else |server.tags| < 10)
                && (r.value.required ==> r.value.tags == server.tags[key := value])
    {
      var tags: Tags := *;
      server := new TagServer(tags);
      r := PlanMarker(ctx, server, key, value);
      log := log + [TagsRead(o, if r.Some? then Some(server.tags) else None)];
    }

    /** Success means the tags read back passed verification. */
    method Tag(ctx: Context, o: Object, server: TagServer, plan: MarkerPlan, ghost call: Call) returns (r: Result<(), MarkerError>)
      requires call.target == o && call.action == Mark && plan.required
      modifies ctx, this`log, this`calls, server
      ensures (old(ctx.cancelled) ==> ctx.cancelled && server.tags == old(server.tags)) && (old(ctx.failed) ==> ctx.failed)
      ensures calls == old(calls) + [call] && log == old(log) + [Tagged(o, plan.tags, r)]
      ensures r.Ok? ==> PassesVerification(plan.tags, server.tags)
      ensures r.Ok? && "" !in plan.tags.Values ==> server.tags == plan.tags
      ensures r.Err? ==> ctx.failed || !library(plan.tags) || !PassesVerification(plan.tags, server.tags)
    {
      calls := calls + [call];
      r := ApplyMarker(ctx, server, plan, library(plan.tags));
      assert r.Err? ==> r.error.InvalidTags? || r.error.PutFailed? || r.error.ReadBackFailed? || r.error.VerificationFailed?;
      log := log + [Tagged(o, plan.tags, r)];
    }

    /** Fails exactly without a positive number of days or an answer. */
    method Bring(ctx: Context, o: Object, days: int64, ghost call: Call) returns (r: RestoreOutcome)
      requires call.target == o && (call.action == Restore || call.action == Renew)
      modifies ctx, this`log, this`calls
      ensures (old(ctx.cancelled) ==> ctx.cancelled) && (old(ctx.failed) ==> ctx.failed)
      ensures calls == old(calls) + [call] && log == old(log) + [Brought(o, days, r)]
      ensures days <= 0 ==> r.RestoreFailed?
      ensures r.RestoreFailed? ==> days <= 0 || ctx.failed
    {
      calls := calls + [call];
      r := RestoreFailed;
      if days > 0 {
        var running: bool := *;
        var fate := ctx.Call();
        if fate == Answered {
          r := if running then AlreadyRunning else Requested;
        }
      }
      log := log + [Brought(o, days, r)];
    }
  }
}
