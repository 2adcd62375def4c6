/**
 The acknowledgement budget of the configuration against the true bound. The comment on the
 budget counts one active batch; the worker can have two ahead of the queue, the one in Apply
 and the one of the job in its hand.
 */
module AckBudget {
  import opened Wrappers
  import opened GoTypes
  import opened Batch
  import opened Merge
  import opened IngestedRequests
  import opened AckTiming
  import U = UpdaterConfig
  import P = Protocol

  /** The values LoadConfig takes for MaxRecords. */
  type MaxRecords = m: nat | 1 <= m <= MAX_SETTING witness 1

  /** What worstCaseAcknowledgementTime allows for the backlog. */
  function Budget(c: Config): int {
    (c.queueSize + 1) * (c.maxWait + c.operationTimeout)
  }

  /**
   What lets the budget reach the bound for requests of at most m records: eager limits, limits
   that hold any two requests, or MaxWait slack worth one operation.
   */
  predicate Slack(c: Config, m: MaxRecords) {
    Eager(c) || Roomy(c, m) || c.queueSize * c.maxWait >= c.operationTimeout
  }

  /**
   The configuration check computes exactly this budget on top of the time for reading a request,
   and refuses settings exactly if that is no Duration.
   */
  method ConfiguredBudget(c: Config, readTimeout: int64) returns (r: Result<int64, U.Overflow>)
    requires readTimeout > 0
    ensures r.Ok? <==> readTimeout + Budget(c) <= MAX_INT64
    ensures r.Ok? ==> r.value == readTimeout + Budget(c)
  {
    r := U.WorstCaseAcknowledgementTime(c.maxWait, c.operationTimeout, readTimeout, c.queueSize);
  }

  lemma BudgetAgainstBound(c: Config, m: MaxRecords)
    ensures Budget(c) >= Bound(c, m) <==> Slack(c, m)
  {
    var q, w, t := c.queueSize, c.maxWait, c.operationTimeout;
    assert (q + 1) * (w + t) == q * w + (q + 1) * t + w;
    assert (q + 2) * t == (q + 1) * t + t;
    MoreTimes(q, 0, w);
  }

  // ---- A run that needs all of the bound: no two neighbours share a batch ----

  /** LoadConfig: one request must fit within both limits; here neither eager nor roomy. */
  ghost predicate Tight(c: Config, m: MaxRecords) {
    m <= c.maxEvents && m <= c.maxKeys && !Eager(c) && !Roomy(c, m)
  }

  /** A request of m records fills a batch by itself. */
  predicate FullyLoaded(c: Config, m: MaxRecords) {
    m == c.maxEvents || m == c.maxKeys
  }

  /** All requests have m records, only the first and the last one where m records fill a batch. */
  function Size(c: Config, m: MaxRecords, i: nat): (size: nat)
    ensures 1 <= size <= m
  {
    if FullyLoaded(c, m) && (i == 0 || i == c.queueSize + 1) then 1 else m
  }

  ghost function J(c: Config, m: MaxRecords, i: nat): (job: Job)
    ensures job.id == i
  {
    Job(i, TourRequest(i, Size(c, m, i)))
  }

  ghost function Jobs(c: Config, m: MaxRecords, from: nat, to: nat): (jobs: seq<Job>)
    requires from <= to
    ensures |jobs| == to - from && forall i :: 0 <= i < |jobs| ==> jobs[i] == J(c, m, from + i)
  {
    seq(to - from, i requires 0 <= i < to - from => J(c, m, from + i))
  }

  lemma LoadOf(c: Config, m: MaxRecords, i: nat)
    ensures var job, other := J(c, m, i), J(c, m, i + 1);
            && Events([job]) == |KeySet(Flat([job]))| == Size(c, m, i) && other.request.events == Size(c, m, i + 1)
            && |KeySet(Flat([job])) + KeySet(other.request.increments)| == Size(c, m, i) + Size(c, m, i + 1)
  {
    hide TourRequest, Flat, Events, KeySet, Size;
    KeysOfOne(J(c, m, i));
    ToursOfTwoBuckets(i, Size(c, m, i), i + 1, Size(c, m, i + 1));
  }

  lemma JobFacts(c: Config, m: MaxRecords, i: nat)
    requires Tight(c, m) && i <= c.queueSize + 1
    ensures FromIngest(m, J(c, m, i).request) && Accepted(c, J(c, m, i).request)
    ensures IsFull([J(c, m, i)], c) <==> FullyLoaded(c, m) && 1 <= i <= c.queueSize
    ensures i <= c.queueSize ==> !Fits([J(c, m, i)], J(c, m, i + 1), c)
  {
    hide TourRequest, Flat, Events, KeySet, Accepted, FromIngest;
    TourIsIngested(i, Size(c, m, i), m);
    IngestedIsSmall(c, m, J(c, m, i).request);
    LoadOf(c, m, i);
  }

  lemma WatchOneMore(c: Config, ticks: seq<Tick>, k: Tick)
    requires Watch(c, ticks).Some?
    ensures Watch(c, ticks + [k]) == Elapse(c, Watch(c, ticks).value, k)
  {
    assert (ticks + [k])[..|ticks|] == ticks;
  }

  /** Every request that enters Submit was built by ingest. */
  ghost predicate OnlyIngested(m: MaxRecords, ticks: seq<Tick>) {
    forall i :: 0 <= i < |ticks| && ticks[i].Act? && ticks[i].e.Enters? ==> FromIngest(m, ticks[i].e.request)
  }

  /** A timed run of ingested requests, and where it ends. */
  ghost predicate Reaches(c: Config, m: MaxRecords, ticks: seq<Tick>, t: Clocked) {
    Watch(c, ticks) == Some(t) && OnlyIngested(m, ticks)
  }

  lemma OneTick(c: Config, m: MaxRecords, ticks: seq<Tick>, t: Clocked, k: Tick) returns (ticks': seq<Tick>, t': Clocked)
    requires Reaches(c, m, ticks, t) && Elapse(c, t, k).Some? && (k.Act? && k.e.Enters? ==> FromIngest(m, k.e.request))
    ensures Reaches(c, m, ticks', t') && t' == Elapse(c, t, k).value
  {
    hide Watch, Elapse, FromIngest;
    WatchOneMore(c, ticks, k);
    ticks', t' := ticks + [k], Elapse(c, t, k).value;
  }

  /** Running, nobody in Submit, the request `last` enqueued at time zero and not answered. */
  ghost predicate Undisturbed(t: Clocked, last: nat) {
    && t.s.started && t.s.accepting && !t.s.stopping && !t.s.cancelled && t.s.holder.None?
    && t.s.issued == last + 1
    && last in t.s.accepted && last in t.entered && t.entered[last] == 0
    && last !in P.AnsweredIds(t.s.answers)
  }

  lemma OneSubmission(c: Config, m: MaxRecords, ticks: seq<Tick>, t: Clocked) returns (ticks': seq<Tick>, t': Clocked)
    requires Tight(c, m) && t.s.issued <= c.queueSize + 1
    requires Reaches(c, m, ticks, t) && t.s.holder.None? && t.s.accepting && t.now == 0
    requires |t.s.queue| < c.queueSize && t.s.issued !in P.AnsweredIds(t.s.answers)
    requires t.s.started && !t.s.stopping && !t.s.cancelled
    ensures Reaches(c, m, ticks', t') && Undisturbed(t', t.s.issued)
    ensures t'.s.queue == t.s.queue + [J(c, m, t.s.issued)] && t'.s.worker == t.s.worker
    ensures t'.now == 0 && t'.timer == t.timer && t'.deadline == t.deadline && t'.s.answers == t.s.answers
  {
    hide Reaches, Accepted, FromIngest, Tight, J;
    JobFacts(c, m, t.s.issued);
    var request := J(c, m, t.s.issued).request;
    assert J(c, m, t.s.issued) == Job(t.s.issued, request);
    ticks', t' := OneTick(c, m, ticks, t, Act(P.Enters(request)));
    ticks', t' := OneTick(c, m, ticks', t', Act(P.Sends));
  }

  /** An idle worker receives the next job and starts a batch with it. */
  lemma TakesUp(c: Config, m: MaxRecords, ticks0: seq<Tick>, t0: Clocked, job: Job, rest: seq<Job>)
    returns (ticks: seq<Tick>, t: Clocked)
    requires Reaches(c, m, ticks0, t0) && t0.s.holder.None? && t0.s.worker == P.Idle && t0.s.queue == [job] + rest
    ensures Reaches(c, m, ticks, t)
    ensures t == t0.(timer := t.timer, deadline := t.deadline,
                     s := t0.s.(depth := t.s.depth, queue := rest, worker := P.Settle(c, [job], false)))
    ensures t.s.worker.Flushing? ==> t.deadline == t.now + c.operationTimeout
    ensures t.s.worker.Collecting? ==> t.timer == t.now + c.maxWait
  {
    hide Reaches, IsFull;
    assert t0.s.queue[0] == job && t0.s.queue[1..] == rest && [] + [job] == [job];
    ticks, t := OneTick(c, m, ticks0, t0, Act(P.Receives));
    ticks, t := OneTick(c, m, ticks, t, Act(P.Counts));
  }

  /** The first request is taken up at once, and waits for company. */
  lemma FirstPending(c: Config, m: MaxRecords) returns (ticks: seq<Tick>, t: Clocked)
    requires Tight(c, m)
    ensures Reaches(c, m, ticks, t) && t.s.worker == P.Collecting([J(c, m, 0)])
    ensures t.s.queue == [] && t.now == 0 && t.s.answers == [] && Undisturbed(t, 0)
  {
    hide Accepted, IsFull, Fits, Tight, Reaches, J;
    JobFacts(c, m, 0);
    NothingYet(c, m);
    ticks, t := OneTick(c, m, [], Dawn, Act(P.Starts));
    ticks, t := OneSubmission(c, m, ticks, t);
    assert t.s.queue == [J(c, m, 0)] + [];
    ticks, t := TakesUp(c, m, ticks, t, J(c, m, 0), []);
  }

  lemma NothingYet(c: Config, m: MaxRecords)
    ensures Reaches(c, m, [], Dawn)
  {}

  /** The first batch is in Apply, the next job in the worker's hand, the rest queued. */
  ghost predicate Stage(c: Config, m: MaxRecords, t: Clocked, end: nat) {
    && 2 <= end
    && t.s.worker == P.Flushing([J(c, m, 0)], P.ToHand(J(c, m, 1)))
    && t.s.queue == Jobs(c, m, 2, end)
    && t.now == 0 && t.deadline == c.operationTimeout && t.s.answers == []
    && Undisturbed(t, end - 1)
  }

  /** The pending batch receives a neighbour that does not fit, which is kept in hand. */
  lemma Misfit(c: Config, m: MaxRecords, ticks0: seq<Tick>, t0: Clocked, job: Job, next: Job, rest: seq<Job>)
    returns (ticks: seq<Tick>, t: Clocked)
    requires Reaches(c, m, ticks0, t0) && t0.s.holder.None? && !Fits([job], next, c)
    requires t0.s.worker == P.Collecting([job]) && t0.s.queue == [next] + rest
    ensures Reaches(c, m, ticks, t)
    ensures t == t0.(deadline := t0.now + c.operationTimeout,
                     s := t0.s.(depth := t.s.depth, queue := rest, worker := P.Flushing([job], P.ToHand(next))))
  {
    hide Reaches, IsFull, Fits;
    assert t0.s.queue[0] == next && t0.s.queue[1..] == rest;
    ticks, t := OneTick(c, m, ticks0, t0, Act(P.Receives));
    ticks, t := OneTick(c, m, ticks, t, Act(P.Counts));
  }

  lemma FirstStage(c: Config, m: MaxRecords) returns (ticks: seq<Tick>, t: Clocked)
    requires Tight(c, m)
    ensures Reaches(c, m, ticks, t) && Stage(c, m, t, 2)
  {
    hide Accepted, IsFull, Fits, Tight, Reaches, J;
    ticks, t := FirstPending(c, m);
    ticks, t := OneSubmission(c, m, ticks, t);
    assert t.s.queue == [J(c, m, 1)] + [];
    JobFacts(c, m, 0);
    ticks, t := Misfit(c, m, ticks, t, J(c, m, 0), J(c, m, 1), []);
    assert Jobs(c, m, 2, 2) == [];
  }

  lemma {:induction false} FilledStage(c: Config, m: MaxRecords, queued: nat) returns (ticks: seq<Tick>, t: Clocked)
    requires Tight(c, m) && queued <= c.queueSize
    ensures Reaches(c, m, ticks, t) && Stage(c, m, t, queued + 2)
  {
    hide Tight, Reaches, J;
    if queued == 0 {
      ticks, t := FirstStage(c, m);
    } else {
      ticks, t := FilledStage(c, m, queued - 1);
      ticks, t := OneSubmission(c, m, ticks, t);
      assert Jobs(c, m, 2, queued + 2) == Jobs(c, m, 2, queued + 1) + [J(c, m, queued + 1)];
    }
  }

  /** Job k is alone in Apply, all earlier ones are answered, all later ones queued or in hand. */
  ghost predicate Turn(c: Config, m: MaxRecords, t: Clocked, k: nat) {
    && k <= c.queueSize
    && t.s.worker.Flushing? && t.s.worker.batch == [J(c, m, k)] && (t.s.worker.next.ToIdle? || t.s.worker.next.ToHand?)
    && P.NextJobs(t.s.worker.next) + t.s.queue == Jobs(c, m, k + 1, c.queueSize + 2)
    && t.now == k * c.operationTimeout && t.deadline == t.now + c.operationTimeout
    && Undisturbed(t, c.queueSize + 1) && AnsweredBelow(t, k)
  }

  ghost predicate AnsweredBelow(t: Clocked, k: nat) {
    forall id :: id in P.AnsweredIds(t.s.answers) ==> id < k
  }

  /** Job k has just become the pending batch, everything later is queued. */
  ghost predicate Begun(c: Config, m: MaxRecords, t: Clocked, k: nat) {
    && 1 <= k <= c.queueSize + 1
    && t.s.worker == P.Settle(c, [J(c, m, k)], false)
    && t.s.queue == Jobs(c, m, k + 1, c.queueSize + 2)
    && t.now == k * c.operationTimeout
    && (t.s.worker.Flushing? ==> t.deadline == t.now + c.operationTimeout)
    && (t.s.worker.Collecting? ==> t.timer == t.now + c.maxWait)
    && Undisturbed(t, c.queueSize + 1) && AnsweredBelow(t, k)
  }

  /** Apply takes all its time, and its one job is answered. */
  lemma ApplyTakesItsTime(c: Config, m: MaxRecords, ticks0: seq<Tick>, t0: Clocked, k: nat) returns (ticks: seq<Tick>, t: Clocked)
    requires Reaches(c, m, ticks0, t0) && t0.s.worker.Flushing? && t0.s.worker.batch == [J(c, m, k)]
    requires t0.deadline == t0.now + c.operationTimeout && k <= c.queueSize
    requires Undisturbed(t0, c.queueSize + 1) && AnsweredBelow(t0, k)
    ensures Reaches(c, m, ticks, t) && t.s.worker == P.Continue(c, t0.s.worker.next) && t.s.queue == t0.s.queue
    ensures t.now == t0.now + c.operationTimeout && Undisturbed(t, c.queueSize + 1) && AnsweredBelow(t, k + 1)
    ensures t.s.worker.Flushing? ==> t.deadline == t.now + c.operationTimeout
    ensures t.s.worker.Collecting? ==> t.timer == t.now + c.maxWait
  {
    hide Reaches, P.Continue, J;
    ticks, t := OneTick(c, m, ticks0, t0, Delay(c.operationTimeout));
    ticks, t := OneTick(c, m, ticks, t, Act(P.FlushReturns(P.Unknown)));
    ghost var before := t.s.answers;
    ticks, t := OneTick(c, m, ticks, t, Act(P.Resolves));
    assert P.AnsweredIds(t.s.answers) == P.AnsweredIds(before) + [k];
  }

  /** From an idle worker: the next job of the queue is received and counted. */
  lemma NextJob(c: Config, m: MaxRecords, ticks0: seq<Tick>, t0: Clocked, k: nat) returns (ticks: seq<Tick>, t: Clocked)
    requires 1 <= k <= c.queueSize + 1 && t0.now == k * c.operationTimeout
    requires Reaches(c, m, ticks0, t0) && t0.s.worker == P.Idle && t0.s.queue == Jobs(c, m, k, c.queueSize + 2)
    requires Undisturbed(t0, c.queueSize + 1) && AnsweredBelow(t0, k)
    ensures Reaches(c, m, ticks, t) && Begun(c, m, t, k)
  {
    hide P.Settle, Reaches, J;
    assert t0.s.queue == [J(c, m, k)] + Jobs(c, m, k + 1, c.queueSize + 2);
    ticks, t := TakesUp(c, m, ticks0, t0, J(c, m, k), Jobs(c, m, k + 1, c.queueSize + 2));
  }

  lemma AfterTurn(c: Config, m: MaxRecords, ticks0: seq<Tick>, t0: Clocked, k: nat) returns (ticks: seq<Tick>, t: Clocked)
    requires Reaches(c, m, ticks0, t0) && Turn(c, m, t0, k)
    ensures Reaches(c, m, ticks, t) && Begun(c, m, t, k + 1)
  {
    hide Reaches, J, P.Settle, IsFull;
    var jobs := Jobs(c, m, k + 1, c.queueSize + 2);
    assert (k + 1) * c.operationTimeout == k * c.operationTimeout + c.operationTimeout;
    ticks, t := ApplyTakesItsTime(c, m, ticks0, t0, k);
    if t0.s.worker.next.ToIdle? {
      assert [] + t0.s.queue == t0.s.queue;
      ticks, t := NextJob(c, m, ticks, t, k + 1);
    } else {
      var job := t0.s.worker.next.job;
      assert ([job] + t0.s.queue)[0] == jobs[0] && t0.s.queue == ([job] + t0.s.queue)[1..] == jobs[1..];
      assert jobs[1..] == Jobs(c, m, k + 2, c.queueSize + 2);
    }
  }

  /** A pending batch that is not full meets a neighbour that does not fit. */
  lemma Meets(c: Config, m: MaxRecords, ticks0: seq<Tick>, t0: Clocked, k: nat) returns (ticks: seq<Tick>, t: Clocked)
    requires Tight(c, m) && Reaches(c, m, ticks0, t0) && Begun(c, m, t0, k) && k <= c.queueSize
    ensures Reaches(c, m, ticks, t) && Turn(c, m, t, k)
  {
    hide Reaches, J, Tight, IsFull, Fits, FullyLoaded, Accepted, FromIngest, Undisturbed, AnsweredBelow;
    if IsFull([J(c, m, k)], c) {
      ticks, t := ticks0, t0;
      assert [] + t.s.queue == t.s.queue;
    } else {
      JobFacts(c, m, k);
      ticks, t := Refused(c, m, ticks0, t0, k);
    }
  }

  lemma Refused(c: Config, m: MaxRecords, ticks0: seq<Tick>, t0: Clocked, k: nat) returns (ticks: seq<Tick>, t: Clocked)
    requires Reaches(c, m, ticks0, t0) && Begun(c, m, t0, k) && k <= c.queueSize
    requires !IsFull([J(c, m, k)], c) && !Fits([J(c, m, k)], J(c, m, k + 1), c)
    ensures Reaches(c, m, ticks, t) && Turn(c, m, t, k)
  {
    hide Reaches, J, IsFull, Fits;
    var jobs := Jobs(c, m, k + 1, c.queueSize + 2);
    assert jobs[0] == J(c, m, k + 1) && [jobs[0]] + jobs[1..] == jobs;
    ticks, t := Misfit(c, m, ticks0, t0, J(c, m, k), jobs[0], jobs[1..]);
  }

  lemma {:induction false} LaterTurn(c: Config, m: MaxRecords, k: nat) returns (ticks: seq<Tick>, t: Clocked)
    requires Tight(c, m) && k <= c.queueSize
    ensures Reaches(c, m, ticks, t) && Turn(c, m, t, k)
  {
    hide Reaches, J, Tight, Begun;
    if k == 0 {
      ticks, t := FilledStage(c, m, c.queueSize);
      var jobs := Jobs(c, m, 1, c.queueSize + 2);
      assert jobs == [jobs[0]] + jobs[1..] && jobs[1..] == Jobs(c, m, 2, c.queueSize + 2);
    } else {
      ticks, t := LaterTurn(c, m, k - 1);
      ticks, t := AfterTurn(c, m, ticks, t, k - 1);
      ticks, t := Meets(c, m, ticks, t, k);
    }
  }

  /** The bound is reached: an ingested request that entered at time zero still waits when all of it has passed. */
  lemma BoundIsReached(c: Config, m: MaxRecords) returns (ticks: seq<Tick>, id: nat)
    requires Tight(c, m)
    ensures Watch(c, ticks).Some? && OnlyIngested(m, ticks)
    ensures var t := Watch(c, ticks).value;
            && id in t.s.accepted && id !in P.AnsweredIds(t.s.answers)
            && id in t.entered && t.now == t.entered[id] + Bound(c, m)
  {
    hide IsFull, OnlyIngested, Watch, J, FromIngest;
    var q, t: Clocked := c.queueSize, Dawn;
    id := q + 1;
    ticks, t := LaterTurn(c, m, q);
    ticks, t := AfterTurn(c, m, ticks, t, q);
    JobFacts(c, m, q + 1);
    assert Jobs(c, m, q + 2, q + 2) == [];
    ticks, t := OneTick(c, m, ticks, t, Delay(c.maxWait));
    ticks, t := OneTick(c, m, ticks, t, Act(P.TimerFires));
    ticks, t := OneTick(c, m, ticks, t, Delay(c.operationTimeout));
    assert (q + 2) * c.operationTimeout == (q + 1) * c.operationTimeout + c.operationTimeout;
  }

  /** A request is still unanswered although the given time has passed since it was enqueued. */
  ghost predicate WaitsLonger(c: Config, ticks: seq<Tick>, id: nat, limit: int) {
    && Watch(c, ticks).Some?
    && var t := Watch(c, ticks).value;
      && id in t.s.accepted && id !in P.AnsweredIds(t.s.answers)
      && id in t.entered && t.now > t.entered[id] + limit
  }

  /** No request of an ingested run is still unanswered when the budget has passed. */
  ghost predicate BudgetHolds(c: Config, m: MaxRecords) {
    forall ticks, id :: OnlyIngested(m, ticks) ==> !WaitsLonger(c, ticks, id, Budget(c))
  }

  lemma BudgetCovers(c: Config, m: MaxRecords, ticks: seq<Tick>, id: nat)
    requires Slack(c, m) && OnlyIngested(m, ticks) && m <= c.maxEvents && m <= c.maxKeys
    ensures !WaitsLonger(c, ticks, id, Budget(c))
  {
    hide Watch, Bound, Budget, Slack, Roomy, Small, FromIngest, Accepted;
    BudgetAgainstBound(c, m);
    forall i | 0 <= i < |ticks| && ticks[i].Act? && ticks[i].e.Enters?
      ensures Small(m, ticks[i].e.request)
    {
      IngestedIsSmall(c, m, ticks[i].e.request);
    }
    if Watch(c, ticks).Some? && id in Watch(c, ticks).value.s.accepted
       && id !in P.AnsweredIds(Watch(c, ticks).value.s.answers) {
      AcknowledgedInTime(c, m, ticks, id);
    }
  }

  /**
   With requests of at most m records the configured budget covers every run exactly when the
   limits are eager, or hold any two requests, or QueueSize times MaxWait is at least the
   operation timeout; otherwise some run of ingested requests keeps one waiting beyond it.
   */
  lemma BudgetCoversEveryRun(c: Config, m: MaxRecords)
    requires m <= c.maxEvents && m <= c.maxKeys
    ensures BudgetHolds(c, m) <==> Slack(c, m)
  {
    hide Watch, Bound, Budget, Slack, OnlyIngested;
    BudgetAgainstBound(c, m);
    if Slack(c, m) {
      forall ticks, id | OnlyIngested(m, ticks)
        ensures !WaitsLonger(c, ticks, id, Budget(c))
      {
        BudgetCovers(c, m, ticks, id);
      }
    } else {
      NoSlack(c, m);
      var ticks, id := BoundIsReached(c, m);
      assert WaitsLonger(c, ticks, id, Budget(c));
    }
  }

  lemma NoSlack(c: Config, m: MaxRecords)
    requires !Slack(c, m) && m <= c.maxEvents && m <= c.maxKeys
    ensures Tight(c, m)
  {}
}
