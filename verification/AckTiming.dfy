/**
 How long an enqueued request can wait for its answer. Time passes only where the worker
 really waits: inside Apply, up to its deadline, and in a select on an empty queue, up to the
 timer. Everything else is taken as instantaneous.
 */
module AckTiming {
  import opened Wrappers
  import opened Batch
  import opened Merge
  import opened GoTypes
  import opened RedisStore
  import P = Protocol
  import S = ProtocolSafety

  datatype Clocked = Clocked(
    s: P.State,
    now: int,
    entered: map<nat, int>,  // when each accepted request was enqueued
    timer: int,              // when the batching timer of the pending batch fires
    deadline: int)           // when the running Apply must have returned

  datatype Tick = Act(e: P.Event) | Delay(d: nat)

  /** The worker is waiting, and for how long it may. */
  predicate MayWait(t: Clocked, d: nat) {
    match t.s.worker
    case NotStarted => true
    case Finished => true
    case Idle => t.s.queue == [] && !t.s.stopping
    case Collecting(_) => t.s.queue == [] && !t.s.stopping && t.now + d <= t.timer
    case Flushing(_, _) => t.now + d <= t.deadline
    case _ => false
  }

  /** A pending batch that did not exist before: a new timer is started for it. */
  predicate NewBatch(before: P.Worker, after: P.Worker) {
    after.Collecting? && (before.Resolving? || (before.Received? && before.batch == []))
  }

  ghost function Elapse(c: Config, t: Clocked, k: Tick): Option<Clocked> {
    match k
    case Delay(d) => if MayWait(t, d) then Some(t.(now := t.now + d)) else None
    case Act(e) =>
      if e.TimerFires? && t.now < t.timer then None
      else
        match P.Step(c, t.s, e)
        case None => None
        case Some(s') =>
          Some(Clocked(s', t.now,
                       if e.Sends? then t.entered[t.s.holder.value.id := t.now] else t.entered,
                       if NewBatch(t.s.worker, s'.worker) then t.now + c.maxWait else t.timer,
                       if s'.worker.Flushing? && !t.s.worker.Flushing? then t.now + c.operationTimeout else t.deadline))
  }

  const Dawn: Clocked := Clocked(P.Initial, 0, map[], 0, 0)

  ghost function Watch(c: Config, ticks: seq<Tick>): Option<Clocked> {
    if ticks == [] then Some(Dawn)
    else
      match Watch(c, ticks[..|ticks| - 1])
      case None => None
      case Some(t) => Elapse(c, t, ticks[|ticks| - 1])
  }

  /** With room for only one event or one key every request fills a batch by itself. */
  predicate Eager(c: Config) {
    c.maxEvents == 1 || c.maxKeys == 1
  }

  /** A request of at most so many records, each an event of one key. */
  predicate Small(m: nat, request: Request) {
    request.events <= m && |request.increments| <= m
  }

  /** Any two requests of at most m records fit into one batch. */
  predicate Roomy(c: Config, m: nat) {
    2 * m <= c.maxEvents && 2 * m <= c.maxKeys
  }

  /**
   The operations that can come before that of a request just sent: the running one and the one
   of the job in hand, unless no job waits in hand or the next one joins it.
   */
  function OperationsAhead(c: Config, m: nat): int {
    if Eager(c) || Roomy(c, m) then 1 else 2
  }

  /** One MaxWait and QueueSize + 2 operations, or one operation less for eager or roomy limits. */
  function Bound(c: Config, m: nat): int {
    c.maxWait + (c.queueSize + OperationsAhead(c, m)) * c.operationTimeout
  }

  // ---- The time a job still needs, by the place it is in ----

  /** The jobs the worker treats as one batch, and the one it keeps for the next batch. */
  function BatchOf(w: P.Worker): seq<Job> {
    match w
    case Collecting(batch) => batch
    case Received(batch, _, _) => batch
    case Flushing(batch, _) => batch
    case Resolving(rest, _, _) => rest
    case Draining(batch) => batch
    case DrainSelect(batch) => batch
    case _ => []
  }

  function HandOf(w: P.Worker): seq<Job> {
    match w
    case Received(_, job, _) => [job]
    case Flushing(_, next) => P.NextJobs(next)
    case Resolving(_, _, next) => P.NextJobs(next)
    case AbortReceived(job) => [job]
    case _ => []
  }

  function LeftOfBatch(c: Config, t: Clocked): int {
    match t.s.worker
    case Collecting(_) => t.timer - t.now + c.operationTimeout
    case Received(_, _, draining) => if draining then c.operationTimeout else t.timer - t.now + c.operationTimeout
    case Flushing(_, _) => t.deadline - t.now
    case Draining(_) => c.operationTimeout
    case DrainSelect(_) => c.operationTimeout
    case _ => 0
  }

  /** The worker's batch is one the next job will join. */
  predicate Joins(c: Config, m: nat, batch: seq<Job>) {
    Roomy(c, m) && |batch| == 1
  }

  function LeftOfHand(c: Config, m: nat, t: Clocked): int {
    match t.s.worker
    case Received(batch, _, _) =>
      (if batch == [] || Joins(c, m, batch) then 0 else c.operationTimeout) + c.operationTimeout + c.maxWait
    case Flushing(_, _) => t.deadline - t.now + c.maxWait + c.operationTimeout
    case Resolving(_, _, _) => c.maxWait + c.operationTimeout
    case _ => 0
  }

  /** Time the worker spends before it can deal with the head of the queue. */
  function Ahead(c: Config, m: nat, t: Clocked): int {
    match t.s.worker
    case Collecting(batch) => if Joins(c, m, batch) && t.now < t.timer then 0 else c.operationTimeout
    case Received(batch, _, _) =>
      (if batch == [] then 0 else c.operationTimeout) + (if Roomy(c, m) then 0 else c.operationTimeout)
    case Flushing(_, next) => t.deadline - t.now + (if P.NextJobs(next) == [] || Roomy(c, m) then 0 else c.operationTimeout)
    case Resolving(_, _, next) => if P.NextJobs(next) == [] || Roomy(c, m) then 0 else c.operationTimeout
    case Draining(batch) => if batch == [] || Joins(c, m, batch) then 0 else c.operationTimeout
    case DrainSelect(batch) => if batch == [] || Joins(c, m, batch) then 0 else c.operationTimeout
    case _ => 0
  }

  ghost predicate OnTime(c: Config, m: nat, t: Clocked, job: Job, left: int) {
    job.id in t.entered && t.now + left <= t.entered[job.id] + Bound(c, m)
  }

  ghost predicate BatchOnTime(c: Config, m: nat, t: Clocked) {
    forall i :: 0 <= i < |BatchOf(t.s.worker)| ==> OnTime(c, m, t, BatchOf(t.s.worker)[i], LeftOfBatch(c, t))
  }

  ghost predicate HandOnTime(c: Config, m: nat, t: Clocked) {
    forall i :: 0 <= i < |HandOf(t.s.worker)| ==> OnTime(c, m, t, HandOf(t.s.worker)[i], LeftOfHand(c, m, t))
  }

  ghost predicate QueueOnTime(c: Config, m: nat, t: Clocked) {
    forall p :: 0 <= p < |t.s.queue| ==>
      OnTime(c, m, t, t.s.queue[p], Ahead(c, m, t) + (p + 1) * c.operationTimeout + c.maxWait)
  }

  ghost predicate ClocksSet(c: Config, t: Clocked) {
    && (t.s.worker.Collecting? || (t.s.worker.Received? && t.s.worker.batch != [] && !t.s.worker.draining) ==>
          t.now <= t.timer <= t.now + c.maxWait)
    && (t.s.worker.Flushing? ==> t.now <= t.deadline <= t.now + c.operationTimeout)
  }

  /** No batch waits for company and no job waits in the worker's hand. */
  predicate Lone(w: P.Worker) {
    match w
    case Collecting(_) => false
    case Received(batch, _, _) => batch == []
    case Flushing(_, next) => P.NextJobs(next) == []
    case Resolving(_, _, next) => P.NextJobs(next) == []
    case Draining(batch) => batch == []
    case DrainSelect(batch) => batch == []
    case _ => true
  }

  ghost predicate AllSmall(m: nat, s: P.State) {
    forall j :: j in S.Present(s) ==> Small(m, j.request)
  }

  ghost predicate EveryoneOnTime(c: Config, m: nat, t: Clocked) {
    ClocksSet(c, t) && BatchOnTime(c, m, t) && HandOnTime(c, m, t) && QueueOnTime(c, m, t)
  }

  ghost predicate TimeInv(c: Config, m: nat, t: Clocked) {
    && P.Inv(c, t.s) && (Eager(c) ==> Lone(t.s.worker)) && (Roomy(c, m) ==> AllSmall(m, t.s))
    && EveryoneOnTime(c, m, t)
  }

  /** Every request that enters Submit has at most m records. */
  predicate OnlySmall(m: nat, ticks: seq<Tick>) {
    forall i :: 0 <= i < |ticks| && ticks[i].Act? && ticks[i].e.Enters? ==> Small(m, ticks[i].e.request)
  }

  lemma KeysOfOne(job: Job)
    ensures Flat([job]) == job.request.increments && Events([job]) == job.request.events
    ensures |KeySet(job.request.increments)| <= |job.request.increments|
  {
    FlatAppends([], job);
    assert [] + [job] == [job] && [] + job.request.increments == job.request.increments;
    S.KeySetSize(job.request.increments);
  }

  /** A small request fills no batch, and any other small one joins it. */
  lemma SmallOnesJoin(c: Config, m: nat, job: Job, other: Job)
    requires Roomy(c, m) && Small(m, job.request) && Small(m, other.request) && Accepted(c, job.request)
    ensures !IsFull([job], c) && Fits([job], other, c)
  {
    hide Flat, Events, KeySet, WellFormedIncrements;
    KeysOfOne(job);
    KeysOfOne(other);
    UnionSize(KeySet(job.request.increments), KeySet(other.request.increments));
  }

  /** What the limits leave for the job in the worker's hand, if they are roomy. */
  ghost predicate HandHasRoom(c: Config, w: P.Worker) {
    && (forall i :: 0 <= i < |HandOf(w)| ==> !IsFull([HandOf(w)[i]], c))
    && (w.Received? && |w.batch| == 1 ==> Fits(w.batch, w.job, c))
  }

  lemma RoomForHand(c: Config, m: nat, s: P.State)
    requires P.AllAccepted(c, P.WorkerJobs(s.worker)) && Roomy(c, m) && AllSmall(m, s)
    ensures HandHasRoom(c, s.worker)
  {
    hide Roomy, Small, IsFull, Fits, Accepted, HandOf, BatchOf;
    var batch, hand, jobs := BatchOf(s.worker), HandOf(s.worker), P.WorkerJobs(s.worker);
    PartsOfWorker(s.worker);
    forall i | 0 <= i < |jobs|
      ensures jobs[i] in S.Present(s)
    {
      assert jobs[i] in jobs;
    }
    forall i | 0 <= i < |hand|
      ensures !IsFull([hand[i]], c)
    {
      assert hand[i] == jobs[|batch| + i];
      SmallOnesJoin(c, m, hand[i], hand[i]);
    }
    if s.worker.Received? && |s.worker.batch| == 1 {
      ReceivedParts(s.worker);
      assert batch[0] == jobs[0] && hand[0] == jobs[1];
      SmallOnesJoin(c, m, batch[0], hand[0]);
      assert batch == [batch[0]];
    }
  }

  lemma ReceivedParts(w: P.Worker)
    requires w.Received?
    ensures BatchOf(w) == w.batch && HandOf(w) == [w.job]
  {}

  lemma UnionSize<T>(a: set<T>, b: set<T>)
    ensures |a + b| <= |a| + |b|
  {
    assert a + b == a + (b - a) && |b - a| + |a * b| == |b|;
  }

  lemma OneKey(increments: seq<Increment>)
    requires |increments| == 1
    ensures |KeySet(increments)| == 1
  {
    assert KeySet(increments) == {increments[0].key};
  }

  lemma SingleFills(c: Config, job: Job)
    requires Eager(c) && Accepted(c, job.request)
    ensures IsFull([job], c)
  {
    hide Flat, Events, KeySet, WellFormedIncrements;
    FlatAppends([], job);
    NoJobs();
    assert [] + [job] == [job] && [] + job.request.increments == job.request.increments;
    if c.maxKeys == 1 {
      OneKey(job.request.increments);
    }
  }

  lemma NoJobs()
    ensures Flat([]) == [] && Events([]) == 0
  {}

  lemma CountKeepsLone(c: Config, s: P.State)
    requires P.AllAccepted(c, P.WorkerJobs(s.worker)) && Eager(c) && Lone(s.worker) && P.Count(c, s).Some?
    ensures Lone(P.Count(c, s).value.worker)
  {
    hide IsFull, Fits, Accepted, Eager;
    if s.worker.Received? {
      assert P.WorkerJobs(s.worker) == [] + [s.worker.job] == [s.worker.job];
      assert Accepted(c, P.WorkerJobs(s.worker)[0].request);
      SingleFills(c, s.worker.job);
    }
  }

  lemma ResolveKeepsLone(c: Config, s: P.State)
    requires Lone(s.worker) && P.Resolve(c, s).Some?
    ensures Lone(P.Resolve(c, s).value.worker)
  {
    hide IsFull;
  }

  /** Under eager limits every received job goes straight into Apply. */
  lemma StepKeepsLone(c: Config, s: P.State, e: P.Event)
    requires P.AllAccepted(c, P.WorkerJobs(s.worker)) && Eager(c) && Lone(s.worker) && P.Step(c, s, e).Some?
    ensures Lone(P.Step(c, s, e).value.worker)
  {
    hide P.Count, P.Resolve, P.AllAccepted, P.WorkerJobs, Accepted, Eager;
    if e.Counts? {
      CountKeepsLone(c, s);
    } else if e.Resolves? {
      ResolveKeepsLone(c, s);
    }
  }

  lemma PartsOfWorker(w: P.Worker)
    ensures P.WorkerJobs(w) == BatchOf(w) + HandOf(w)
  {}

  // ---- Preservation ----

  /** Waiting uses up exactly the time the clocks allow for. */
  lemma WaitUsesAllowance(c: Config, m: nat, t: Clocked, d: nat)
    requires MayWait(t, d) && P.Flags(t.s)
    ensures var t' := t.(now := t.now + d);
            && (BatchOf(t.s.worker) != [] ==> t'.now + LeftOfBatch(c, t') == t.now + LeftOfBatch(c, t))
            && (HandOf(t.s.worker) != [] ==> t'.now + LeftOfHand(c, m, t') == t.now + LeftOfHand(c, m, t))
            && (t.s.queue != [] ==> t'.now + Ahead(c, m, t') == t.now + Ahead(c, m, t))
            && (ClocksSet(c, t) ==> ClocksSet(c, t'))
  {}

  lemma FlagsOfInv(c: Config, s: P.State)
    requires P.Inv(c, s)
    ensures P.Flags(s)
  {}

  lemma DelayKeepsTime(c: Config, m: nat, t: Clocked, d: nat)
    requires TimeInv(c, m, t) && MayWait(t, d)
    ensures TimeInv(c, m, t.(now := t.now + d))
  {
    hide P.Inv, LeftOfBatch, LeftOfHand, Ahead, MayWait, BatchOf, HandOf, ClocksSet, Bound, Eager, Roomy, Lone, AllSmall;
    var t' := t.(now := t.now + d);
    FlagsOfInv(c, t.s);
    WaitUsesAllowance(c, m, t, d);
    forall p | 0 <= p < |t'.s.queue|
      ensures OnTime(c, m, t', t'.s.queue[p], Ahead(c, m, t') + (p + 1) * c.operationTimeout + c.maxWait)
    {
      assert OnTime(c, m, t, t.s.queue[p], Ahead(c, m, t) + (p + 1) * c.operationTimeout + c.maxWait);
    }
  }

  lemma AheadBound(c: Config, m: nat, t: Clocked)
    requires ClocksSet(c, t) && (Eager(c) ==> Lone(t.s.worker))
    ensures 0 <= Ahead(c, m, t) <= OperationsAhead(c, m) * c.operationTimeout
  {
    assert OperationsAhead(c, m) * c.operationTimeout == if Eager(c) || Roomy(c, m) then c.operationTimeout else 2 * c.operationTimeout;
    hide Eager, Roomy;
  }

  lemma SendFrame(c: Config, t: Clocked)
    requires P.Inv(c, t.s) && Elapse(c, t, Act(P.Sends)).Some?
    ensures t.s.holder.Some? && |t.s.queue| < c.queueSize
    ensures var t' := Elapse(c, t, Act(P.Sends)).value;
            && t' == t.(s := t'.s, entered := t.entered[t.s.holder.value.id := t.now])
            && t'.s.worker == t.s.worker && t'.s.queue == t.s.queue + [t.s.holder.value]
            && P.Inv(c, t'.s)
  {
    S.StepKeepsInv(c, t.s, P.Sends);
    hide P.Inv;
  }

  /** Enqueueing starts the clock with the whole bound still ahead. */
  lemma SendKeepsTime(c: Config, m: nat, t: Clocked)
    requires TimeInv(c, m, t) && Elapse(c, t, Act(P.Sends)).Some?
    ensures EveryoneOnTime(c, m, Elapse(c, t, Act(P.Sends)).value)
  {
    hide P.Inv, Elapse, LeftOfBatch, LeftOfHand, Ahead, BatchOf, HandOf, ClocksSet, Bound;
    SendFrame(c, t);
    var t' := Elapse(c, t, Act(P.Sends)).value;
    HolderIsNew(c, t.s);
    AheadBound(c, m, t);
    SameWorkerSameAllowance(c, m, t, t');
    forall p | 0 <= p < |t'.s.queue|
      ensures OnTime(c, m, t', t'.s.queue[p], Ahead(c, m, t') + (p + 1) * c.operationTimeout + c.maxWait)
    {
      if p < |t.s.queue| {
        assert OnTime(c, m, t, t.s.queue[p], Ahead(c, m, t) + (p + 1) * c.operationTimeout + c.maxWait);
      } else {
        NewcomerOnTime(c, m, t, p);
      }
    }
  }

  lemma SameWorkerSameAllowance(c: Config, m: nat, t: Clocked, t': Clocked)
    requires t'.s.worker == t.s.worker && t'.now == t.now && t'.timer == t.timer && t'.deadline == t.deadline
    ensures LeftOfBatch(c, t') == LeftOfBatch(c, t) && LeftOfHand(c, m, t') == LeftOfHand(c, m, t) && Ahead(c, m, t') == Ahead(c, m, t)
    ensures ClocksSet(c, t') == ClocksSet(c, t)
  {}

  lemma NewcomerOnTime(c: Config, m: nat, t: Clocked, p: nat)
    requires Ahead(c, m, t) <= OperationsAhead(c, m) * c.operationTimeout && p < c.queueSize
    ensures Ahead(c, m, t) + (p + 1) * c.operationTimeout + c.maxWait <= Bound(c, m)
  {
    hide Ahead, OperationsAhead;
    MorePositions(p + 1, c.queueSize, OperationsAhead(c, m), c.operationTimeout);
  }

  lemma MorePositions(few: int, many: int, ahead: int, each: int)
    requires few <= many && each >= 0
    ensures few * each + ahead * each <= (many + ahead) * each
  {
    MoreTimes(many, few, each);
    assert (many + ahead) * each == many * each + ahead * each;
  }

  /** The job being sent has an identity no enqueued job has. */
  lemma HolderIsNew(c: Config, s: P.State)
    requires P.Inv(c, s) && s.holder.Some?
    ensures forall p :: 0 <= p < |s.queue| ==> s.queue[p].id != s.holder.value.id
    ensures forall i :: 0 <= i < |BatchOf(s.worker)| ==> BatchOf(s.worker)[i].id != s.holder.value.id
    ensures forall i :: 0 <= i < |HandOf(s.worker)| ==> HandOf(s.worker)[i].id != s.holder.value.id
  {
    var w := P.WorkerJobs(s.worker);
    PartsOfWorker(s.worker);
    forall p | 0 <= p < |s.queue|
      ensures s.queue[p].id in s.accepted
    {
      assert P.Ids(s.queue)[p] in multiset(P.Ids(s.queue));
      assert s.queue[p].id in P.Census(s);
    }
    forall i | 0 <= i < |w|
      ensures w[i].id in s.accepted
    {
      assert P.Ids(w)[i] in multiset(P.Ids(w));
      assert w[i].id in P.Census(s);
    }
    assert forall i :: 0 <= i < |BatchOf(s.worker)| ==> w[i] == BatchOf(s.worker)[i];
    assert forall i :: 0 <= i < |HandOf(s.worker)| ==> w[|BatchOf(s.worker)| + i] == HandOf(s.worker)[i];
  }

  /** Same clocks, same queue: the queue stays on time if the worker needs no longer than before. */
  lemma QueueStaysOnTime(c: Config, m: nat, t: Clocked, t': Clocked)
    requires QueueOnTime(c, m, t) && t'.s.queue == t.s.queue && t'.now == t.now && t'.entered == t.entered
    requires t.s.queue != [] ==> Ahead(c, m, t') <= Ahead(c, m, t)
    ensures QueueOnTime(c, m, t')
  {
    hide Ahead, Bound;
    forall p | 0 <= p < |t'.s.queue|
      ensures OnTime(c, m, t', t'.s.queue[p], Ahead(c, m, t') + (p + 1) * c.operationTimeout + c.maxWait)
    {
      assert OnTime(c, m, t, t.s.queue[p], Ahead(c, m, t) + (p + 1) * c.operationTimeout + c.maxWait);
    }
  }

  lemma BatchStaysOnTime(c: Config, m: nat, t: Clocked, t': Clocked)
    requires BatchOnTime(c, m, t) && t'.now == t.now && t'.entered == t.entered
    requires BatchOf(t'.s.worker) == BatchOf(t.s.worker)
    requires BatchOf(t.s.worker) != [] ==> LeftOfBatch(c, t') <= LeftOfBatch(c, t)
    ensures BatchOnTime(c, m, t')
  {
    hide BatchOf, LeftOfBatch, Bound;
  }

  lemma HandStaysOnTime(c: Config, m: nat, t: Clocked, t': Clocked)
    requires HandOnTime(c, m, t) && t'.now == t.now && t'.entered == t.entered
    requires HandOf(t'.s.worker) == HandOf(t.s.worker)
    requires HandOf(t.s.worker) != [] ==> LeftOfHand(c, m, t') <= LeftOfHand(c, m, t)
    ensures HandOnTime(c, m, t')
  {
    hide HandOf, LeftOfHand, Bound;
  }

  /** What a receive makes of the worker. */
  predicate IsReceipt(w: P.Worker, w': P.Worker, job: Job) {
    match w
    case Idle => w' == P.Received([], job, false)
    case Collecting(batch) => w' == P.Received(batch, job, false)
    case DrainSelect(batch) => w' == P.Received(batch, job, true)
    case Aborting => w' == P.AbortReceived(job)
    case _ => false
  }

  lemma ReceiptOf(s: P.State)
    requires P.Receive(s).Some?
    ensures s.queue != [] && P.Receive(s).value.queue == s.queue[1..]
    ensures IsReceipt(s.worker, P.Receive(s).value.worker, s.queue[0])
  {}

  lemma ReceiptTimes(c: Config, m: nat, t: Clocked, t': Clocked, job: Job)
    requires IsReceipt(t.s.worker, t'.s.worker, job) && t'.now == t.now && t'.timer == t.timer
    requires t.s.worker.Collecting? ==> t.s.worker.batch != []
    ensures BatchOf(t'.s.worker) == BatchOf(t.s.worker) && HandOf(t'.s.worker) == [job]
    ensures BatchOf(t.s.worker) != [] ==> LeftOfBatch(c, t') <= LeftOfBatch(c, t)
    ensures LeftOfHand(c, m, t') <= Ahead(c, m, t) + c.operationTimeout + c.maxWait
    ensures Ahead(c, m, t') <= Ahead(c, m, t) + c.operationTimeout
    ensures ClocksSet(c, t) ==> ClocksSet(c, t')
  {}

  lemma ReceiveKeepsTime(c: Config, m: nat, t: Clocked, t': Clocked)
    requires TimeInv(c, m, t) && P.Receive(t.s).Some? && t' == t.(s := P.Receive(t.s).value)
    ensures EveryoneOnTime(c, m, t')
  {
    assert t.s.worker.Collecting? ==> t.s.worker.batch != [];
    hide P.Inv, Bound, P.WorkerShape, IsReceipt, BatchOf, HandOf, LeftOfBatch, LeftOfHand, Ahead, ClocksSet;
    ReceiptOf(t.s);
    hide P.Receive;
    ReceiptTimes(c, m, t, t', t.s.queue[0]);
    BatchStaysOnTime(c, m, t, t');
    assert OnTime(c, m, t, t.s.queue[0], Ahead(c, m, t) + (0 + 1) * c.operationTimeout + c.maxWait);
    forall p | 0 <= p < |t'.s.queue|
      ensures OnTime(c, m, t', t'.s.queue[p], Ahead(c, m, t') + (p + 1) * c.operationTimeout + c.maxWait)
    {
      assert OnTime(c, m, t, t.s.queue[p + 1], Ahead(c, m, t) + (p + 1 + 1) * c.operationTimeout + c.maxWait);
      assert (p + 1 + 1) * c.operationTimeout == (p + 1) * c.operationTimeout + c.operationTimeout;
    }
  }

  /** The clocks after the worker moved on. */
  ghost predicate Moved(c: Config, t: Clocked, t': Clocked) {
    && t'.now == t.now && t'.entered == t.entered
    && t'.timer == (if NewBatch(t.s.worker, t'.s.worker) then t.now + c.maxWait else t.timer)
    && t'.deadline == (if t'.s.worker.Flushing? && !t.s.worker.Flushing? then t.now + c.operationTimeout else t.deadline)
  }

  lemma AbsorbTimes(c: Config, m: nat, t: Clocked, t': Clocked)
    requires t.s.worker.Received? && ClocksSet(c, t) && Moved(c, t, t') && (Roomy(c, m) ==> HandHasRoom(c, t.s.worker))
    requires var w := t.s.worker; t'.s == t.s.(depth := t'.s.depth, worker := P.Absorb(c, w.batch, w.job, w.draining))
    ensures var w, w' := t.s.worker, t'.s.worker;
            && ClocksSet(c, t')
            && Ahead(c, m, t') <= Ahead(c, m, t)
            && ((BatchOf(w') == w.batch + [w.job] && HandOf(w') == [] && LeftOfBatch(c, t') <= LeftOfHand(c, m, t))
                || (BatchOf(w') == w.batch && HandOf(w') == [w.job] && LeftOfHand(c, m, t') <= LeftOfHand(c, m, t)))
            && (w.batch != [] ==> LeftOfBatch(c, t') <= LeftOfBatch(c, t))
  {
    hide IsFull, Fits, Roomy;
    var w := t.s.worker;
    assert Roomy(c, m) ==> !IsFull([HandOf(w)[0]], c);
    assert [] + [w.job] == [w.job];
  }

  lemma CountKeepsTime(c: Config, m: nat, t: Clocked, t': Clocked)
    requires TimeInv(c, m, t) && P.Count(c, t.s).Some? && t'.s == P.Count(c, t.s).value && Moved(c, t, t')
    ensures EveryoneOnTime(c, m, t')
  {
    hide P.Inv, EveryoneOnTime, Moved, P.Absorb, Roomy, HandHasRoom;
    if t.s.worker.AbortReceived? {
      StoppedKeepsTime(c, m, t, t');
    } else {
      RoomIfRoomy(c, m, t);
      AbsorbKeepsTime(c, m, t, t');
    }
  }

  lemma StoppedKeepsTime(c: Config, m: nat, t: Clocked, t': Clocked)
    requires EveryoneOnTime(c, m, t) && Moved(c, t, t') && t.s.worker.AbortReceived?
    requires t'.s == t.s.(depth := t'.s.depth, worker := P.Resolving([t.s.worker.job], P.Stopped, P.ToAbort))
    ensures EveryoneOnTime(c, m, t')
  {
    hide Bound;
    assert OnTime(c, m, t, HandOf(t.s.worker)[0], LeftOfHand(c, m, t));
    QueueStaysOnTime(c, m, t, t');
  }

  lemma AbsorbKeepsTime(c: Config, m: nat, t: Clocked, t': Clocked)
    requires EveryoneOnTime(c, m, t) && Moved(c, t, t') && t.s.worker.Received? && (Roomy(c, m) ==> HandHasRoom(c, t.s.worker))
    requires var w := t.s.worker; t'.s == t.s.(depth := t'.s.depth, worker := P.Absorb(c, w.batch, w.job, w.draining))
    ensures EveryoneOnTime(c, m, t')
  {
    hide P.Absorb, Bound, BatchOf, HandOf, LeftOfBatch, LeftOfHand, Ahead, ClocksSet, Moved, Roomy, HandHasRoom;
    var w := t.s.worker;
    ReceivedParts(w);
    AbsorbTimes(c, m, t, t');
    assert OnTime(c, m, t, HandOf(w)[0], LeftOfHand(c, m, t));
    assert forall i :: 0 <= i < |w.batch| ==> OnTime(c, m, t, BatchOf(w)[i], LeftOfBatch(c, t));
    MovedFrame(c, t, t');
    QueueStaysOnTime(c, m, t, t');
  }

  lemma RoomIfRoomy(c: Config, m: nat, t: Clocked)
    requires TimeInv(c, m, t)
    ensures Roomy(c, m) ==> HandHasRoom(c, t.s.worker)
  {
    hide Roomy, HandHasRoom, EveryoneOnTime;
    if Roomy(c, m) {
      RoomForHand(c, m, t.s);
    }
  }

  lemma MovedFrame(c: Config, t: Clocked, t': Clocked)
    requires Moved(c, t, t')
    ensures t'.now == t.now && t'.entered == t.entered
  {}

  lemma ContinueTimes(c: Config, m: nat, t: Clocked, t': Clocked)
    requires t.s.worker.Resolving? && |t.s.worker.rest| == 1 && Moved(c, t, t') && (Roomy(c, m) ==> HandHasRoom(c, t.s.worker))
    requires t'.s == t.s.(answers := t'.s.answers, worker := P.Continue(c, t.s.worker.next))
    ensures ClocksSet(c, t') && Ahead(c, m, t') <= Ahead(c, m, t)
    ensures BatchOf(t'.s.worker) == HandOf(t.s.worker) && HandOf(t'.s.worker) == []
    ensures HandOf(t.s.worker) != [] ==> LeftOfBatch(c, t') <= LeftOfHand(c, m, t)
  {
    hide IsFull, Fits;
    var hand := HandOf(t.s.worker);
    assert Roomy(c, m) && hand != [] ==> !IsFull([hand[0]], c);
  }

  lemma ResolveKeepsTime(c: Config, m: nat, t: Clocked, t': Clocked)
    requires TimeInv(c, m, t) && P.Resolve(c, t.s).Some? && t'.s == P.Resolve(c, t.s).value && Moved(c, t, t')
    ensures EveryoneOnTime(c, m, t')
  {
    hide P.Inv, Bound, P.Continue;
    var w, w' := t.s.worker, t'.s.worker;
    MovedFrame(c, t, t');
    if |w.rest| == 1 {
      RoomIfRoomy(c, m, t);
      ContinueTimes(c, m, t, t');
      hide LeftOfBatch, LeftOfHand, Ahead, ClocksSet, Moved, BatchOf, HandOf;
      QueueStaysOnTime(c, m, t, t');
      forall i | 0 <= i < |BatchOf(w')|
        ensures OnTime(c, m, t', BatchOf(w')[i], LeftOfBatch(c, t'))
      {
        assert OnTime(c, m, t, HandOf(w)[i], LeftOfHand(c, m, t));
      }
    } else {
      QueueStaysOnTime(c, m, t, t');
      HandStaysOnTime(c, m, t, t');
      forall i | 0 <= i < |BatchOf(w')|
        ensures OnTime(c, m, t', BatchOf(w')[i], LeftOfBatch(c, t'))
      {
        assert OnTime(c, m, t, BatchOf(w)[i + 1], LeftOfBatch(c, t));
      }
    }
  }

  lemma ChoiceTimes(c: Config, m: nat, t: Clocked, e: P.Event, t': Clocked)
    requires ClocksSet(c, t) && Moved(c, t, t') && (e.TimerFires? ==> t.now >= t.timer)
    requires P.Choose(t.s.worker, e, t.s.stopping, t.s.cancelled, t.s.queue == []).Some?
    requires t'.s == t.s.(worker := P.Choose(t.s.worker, e, t.s.stopping, t.s.cancelled, t.s.queue == []).value)
    ensures BatchOf(t'.s.worker) == BatchOf(t.s.worker) && HandOf(t'.s.worker) == HandOf(t.s.worker)
    ensures BatchOf(t.s.worker) != [] ==> LeftOfBatch(c, t') <= LeftOfBatch(c, t)
    ensures HandOf(t.s.worker) != [] ==> LeftOfHand(c, m, t') <= LeftOfHand(c, m, t)
    ensures t.s.queue != [] ==> Ahead(c, m, t') <= Ahead(c, m, t)
    ensures ClocksSet(c, t')
  {}

  lemma ChoiceKeepsTime(c: Config, m: nat, t: Clocked, e: P.Event, t': Clocked)
    requires TimeInv(c, m, t) && P.Choose(t.s.worker, e, t.s.stopping, t.s.cancelled, t.s.queue == []).Some?
    requires t'.s == t.s.(worker := P.Choose(t.s.worker, e, t.s.stopping, t.s.cancelled, t.s.queue == []).value)
    requires Moved(c, t, t') && (e.TimerFires? ==> t.now >= t.timer)
    ensures EveryoneOnTime(c, m, t')
  {
    hide *;
    PartsOfInv(c, m, t);
    ChoiceTimes(c, m, t, e, t');
    MovedFrame(c, t, t');
    BatchStaysOnTime(c, m, t, t');
    HandStaysOnTime(c, m, t, t');
    QueueStaysOnTime(c, m, t, t');
    InvFromParts(c, m, t');
  }

  lemma PartsOfInv(c: Config, m: nat, t: Clocked)
    requires TimeInv(c, m, t)
    ensures ClocksSet(c, t) && BatchOnTime(c, m, t) && HandOnTime(c, m, t) && QueueOnTime(c, m, t)
  {}

  lemma InvFromParts(c: Config, m: nat, t: Clocked)
    requires ClocksSet(c, t) && BatchOnTime(c, m, t) && HandOnTime(c, m, t) && QueueOnTime(c, m, t)
    ensures EveryoneOnTime(c, m, t)
  {}

  // ---- The bound ----

  lemma ActKeepsTime(c: Config, m: nat, t: Clocked, e: P.Event)
    requires TimeInv(c, m, t) && Elapse(c, t, Act(e)).Some?
    requires Roomy(c, m) && e.Enters? ==> Small(m, e.request)
    ensures TimeInv(c, m, Elapse(c, t, Act(e)).value)
  {
    hide P.Inv, EveryoneOnTime, AllSmall, P.Choose, P.Receive, P.Count, P.Resolve, P.ClientStep;
    var t' := Elapse(c, t, Act(e)).value;
    S.StepKeepsInv(c, t.s, e);
    LoneAgain(c, m, t, e);
    SmallAgain(c, m, t, e);
    if e.Sends? {
      SendKeepsTime(c, m, t);
    } else if !P.IsWorkerEvent(e) {
      ClientKeepsTime(c, m, t, e, t');
    } else if e.Receives? {
      ReceiveMovesNoClock(c, t, t');
      ReceiveKeepsTime(c, m, t, t');
    } else if e.Counts? {
      CountKeepsTime(c, m, t, t');
    } else if e.Resolves? {
      ResolveKeepsTime(c, m, t, t');
    } else {
      ChoiceKeepsTime(c, m, t, e, t');
    }
  }

  lemma LoneAgain(c: Config, m: nat, t: Clocked, e: P.Event)
    requires TimeInv(c, m, t) && P.Step(c, t.s, e).Some?
    ensures Eager(c) ==> Lone(P.Step(c, t.s, e).value.worker)
  {
    hide P.Step, Eager, Lone, P.Census, P.Histories, P.Flags, P.WorkerShape, Accepted, EveryoneOnTime;
    if Eager(c) {
      StepKeepsLone(c, t.s, e);
    }
  }

  lemma SmallAgain(c: Config, m: nat, t: Clocked, e: P.Event)
    requires TimeInv(c, m, t) && P.Step(c, t.s, e).Some? && (Roomy(c, m) && e.Enters? ==> Small(m, e.request))
    ensures Roomy(c, m) ==> AllSmall(m, P.Step(c, t.s, e).value)
  {
    hide P.Step, S.Present, Roomy, Small, P.Census, P.Histories, P.Flags, P.WorkerShape, P.AllAccepted, EveryoneOnTime;
    S.StepInventsNothing(c, t.s, e);
  }

  lemma ReceiveMovesNoClock(c: Config, t: Clocked, t': Clocked)
    requires P.Receive(t.s).Some? && t'.s == P.Receive(t.s).value && Moved(c, t, t')
    ensures t' == t.(s := P.Receive(t.s).value)
  {}

  lemma ClientFrame(c: Config, s: P.State, e: P.Event)
    requires P.Inv(c, s) && !P.IsWorkerEvent(e) && !e.Sends? && P.ClientStep(c, s, e).Some?
    ensures var s' := P.ClientStep(c, s, e).value;
            s'.queue == s.queue && (s'.worker == s.worker || (s.worker.NotStarted? && s'.worker.Idle?))
  {
    hide P.Census, P.Histories, P.AllAccepted, P.WorkerShape, Accepted;
  }

  lemma ClientKeepsTime(c: Config, m: nat, t: Clocked, e: P.Event, t': Clocked)
    requires TimeInv(c, m, t) && !P.IsWorkerEvent(e) && !e.Sends? && Elapse(c, t, Act(e)) == Some(t')
    ensures EveryoneOnTime(c, m, t')
  {
    ClientFrame(c, t.s, e);
    hide P.Inv, P.ClientStep, Bound;
    if t'.s.worker == t.s.worker {
      SameWorkerSameAllowance(c, m, t, t');
      hide LeftOfBatch, LeftOfHand, Ahead, ClocksSet, BatchOf, HandOf;
      BatchStaysOnTime(c, m, t, t');
      HandStaysOnTime(c, m, t, t');
      QueueStaysOnTime(c, m, t, t');
    } else {
      QueueStaysOnTime(c, m, t, t');
    }
  }

  lemma {:induction false} WatchKeepsTime(c: Config, m: nat, ticks: seq<Tick>)
    requires Watch(c, ticks).Some? && (Roomy(c, m) ==> OnlySmall(m, ticks))
    ensures TimeInv(c, m, Watch(c, ticks).value)
  {
    hide TimeInv, Elapse, Small, Roomy;
    if ticks == [] {
      DawnOnTime(c, m);
    } else {
      var t, k := Watch(c, ticks[..|ticks| - 1]).value, ticks[|ticks| - 1];
      WatchKeepsTime(c, m, ticks[..|ticks| - 1]);
      match k
      case Act(e) => ActKeepsTime(c, m, t, e);
      case Delay(d) =>
        DelayMeans(c, t, d);
        DelayKeepsTime(c, m, t, d);
    }
  }

  lemma DelayMeans(c: Config, t: Clocked, d: nat)
    requires Elapse(c, t, Delay(d)).Some?
    ensures MayWait(t, d) && Elapse(c, t, Delay(d)).value == t.(now := t.now + d)
  {}

  lemma DawnOnTime(c: Config, m: nat)
    ensures TimeInv(c, m, Dawn)
  {
    S.InitialInv(c);
  }

  /**
   No enqueued request is still unanswered later than one MaxWait and QueueSize + 2 operation
   timeouts after it entered the queue, in any run, including every shutdown.
   */
  lemma AcknowledgedInTime(c: Config, m: nat, ticks: seq<Tick>, id: nat)
    requires Watch(c, ticks).Some? && (Roomy(c, m) ==> OnlySmall(m, ticks))
    requires var t := Watch(c, ticks).value; id in t.s.accepted && id !in P.AnsweredIds(t.s.answers)
    ensures var t := Watch(c, ticks).value;
            id in t.entered && t.now <= t.entered[id] + Bound(c, m)
  {
    hide Watch, Bound, LeftOfBatch, LeftOfHand, Ahead, P.Inv, P.AnsweredIds, BatchOf, HandOf, ClocksSet;
    WatchKeepsTime(c, m, ticks);
    var t := Watch(c, ticks).value;
    var w := t.s.worker;
    AllowancesNotNegative(c, m, t);
    PartsOfWorker(w);
    var inQueue, i := PlaceOfUnanswered(c, t.s, id);
    if inQueue {
      assert OnTime(c, m, t, t.s.queue[i], Ahead(c, m, t) + (i + 1) * c.operationTimeout + c.maxWait);
      assert (i + 1) * c.operationTimeout >= 0;
    } else if i < |BatchOf(w)| {
      assert OnTime(c, m, t, BatchOf(w)[i], LeftOfBatch(c, t));
    } else {
      assert OnTime(c, m, t, HandOf(w)[i - |BatchOf(w)|], LeftOfHand(c, m, t));
    }
  }

  lemma PlaceOfUnanswered(c: Config, s: P.State, id: nat) returns (inQueue: bool, i: nat)
    requires P.Inv(c, s) && id in s.accepted && id !in P.AnsweredIds(s.answers)
    ensures if inQueue then i < |s.queue| && s.queue[i].id == id
            else i < |P.WorkerJobs(s.worker)| && P.WorkerJobs(s.worker)[i].id == id
  {
    hide P.WorkerShape, P.AllAccepted, P.Flags, P.Histories, P.InTransit, P.WorkerJobs;
    assert P.Census(s)[id] == 1;
    inQueue := id in P.Ids(s.queue);
    if inQueue {
      i :| i < |s.queue| && P.Ids(s.queue)[i] == id;
    } else {
      assert id in multiset(P.Ids(P.WorkerJobs(s.worker)));
      i :| i < |P.WorkerJobs(s.worker)| && P.Ids(P.WorkerJobs(s.worker))[i] == id;
    }
  }

  lemma AllowancesNotNegative(c: Config, m: nat, t: Clocked)
    requires TimeInv(c, m, t)
    ensures BatchOf(t.s.worker) != [] ==> LeftOfBatch(c, t) >= 0
    ensures HandOf(t.s.worker) != [] ==> LeftOfHand(c, m, t) >= 0
    ensures Ahead(c, m, t) >= 0
  {
    hide P.Inv, BatchOnTime, HandOnTime, QueueOnTime;
  }
}
