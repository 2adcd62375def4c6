/**
 The worker's shutdown loops as they run: after Stop nobody else touches the queue, so drain
 and abort are sequential but for a cancellation that may come at any turn.
 */
module Batcher {
  import opened Contexts
  import opened Wrappers
  import opened Text
  import opened Redis
  import opened RedisStore
  import opened Batch
  import opened Merge
  import opened Flush
  import opened Protocol
  import L = LedgerTheorems
  import S = ProtocolSafety

  /** The same result for every job, in order. */
  function Replies(jobs: seq<Job>, outcome: Outcome): (answers: seq<Answer>)
    ensures |answers| == |jobs| && forall i :: 0 <= i < |jobs| ==> answers[i] == Answer(jobs[i], outcome)
  {
    seq(|jobs|, i requires 0 <= i < |jobs| => Answer(jobs[i], outcome))
  }

  lemma RepliesConcat(a: seq<Job>, b: seq<Job>, outcome: Outcome)
    ensures Replies(a + b, outcome) == Replies(a, outcome) + Replies(b, outcome)
  {}

  lemma OneReply(job: Job, outcome: Outcome)
    ensures Replies([job], outcome) == [Answer(job, outcome)]
  {}

  /** A batch that may be flushed: validated requests within both limits. */
  ghost predicate Flushable(config: Config, jobs: seq<Job>) {
    jobs != [] && Within(config, jobs) && AllAccepted(config, jobs)
  }

  lemma FlushableSingle(config: Config, job: Job)
    requires Accepted(config, job.request)
    ensures Flushable(config, [job])
  {
    hide Accepted, Within;
    S.SingleFits(config, job);
  }

  lemma FlushableExtended(config: Config, jobs: seq<Job>, job: Job)
    requires Flushable(config, jobs) && Accepted(config, job.request) && Fits(jobs, job, config)
    ensures Flushable(config, jobs + [job])
  {
    hide Accepted, Fits, Within;
    S.FitsMeansWithin(config, jobs, job);
  }

  lemma AcceptedKeysDiffer(config: Config, request: Request)
    requires Accepted(config, request)
    ensures Distinct(Keys(request.increments))
  {}

  ghost function JobsOf(batch: PendingBatch?): seq<Job>
    reads batch
  {
    if batch == null then [] else batch.jobs
  }

  ghost predicate Holding(config: Config, batch: PendingBatch?)
    reads batch
  {
    batch != null ==> batch.Valid() && Flushable(config, batch.jobs)
  }

  // ---- How jobs are grouped into batches ----

  /** What a received job makes of the pending one: the batches to flush, in order, and what is pending then. */
  ghost function Absorbed(config: Config, pending: seq<Job>, job: Job): (r: (seq<seq<Job>>, seq<Job>)) {
    var flushed := if pending != [] && !Fits(pending, job, config) then [pending] else [];
    var grown := if flushed == [] then pending + [job] else [job];
    if IsFull(grown, config) then (flushed + [grown], []) else (flushed, grown)
  }

  /** The batches that jobs received one after the other are flushed in, and what is pending then. */
  ghost function Grouped(config: Config, pending: seq<Job>, jobs: seq<Job>): (r: (seq<seq<Job>>, seq<Job>)) {
    if jobs == [] then ([], pending)
    else
      var (groups, rest) := Grouped(config, pending, jobs[..|jobs| - 1]);
      var (more, last) := Absorbed(config, rest, jobs[|jobs| - 1]);
      (groups + more, last)
  }

  lemma NothingGrouped(config: Config, pending: seq<Job>)
    ensures Grouped(config, pending, []) == ([], pending)
  {}

  lemma GroupedNext(config: Config, pending: seq<Job>, queue: seq<Job>, turns: nat)
    requires turns < |queue|
    ensures var before, after := Grouped(config, pending, queue[..turns]), Grouped(config, pending, queue[..turns + 1]);
            var next := Absorbed(config, before.1, queue[turns]);
            after.0 == before.0 + next.0 && after.1 == next.1
  {
    hide Absorbed;
    assert queue[..turns + 1][..turns] == queue[..turns];
  }

  ghost function Concat(groups: seq<seq<Job>>): seq<Job> {
    if groups == [] then [] else Concat(groups[..|groups| - 1]) + groups[|groups| - 1]
  }

  lemma {:induction false} ConcatAppends(a: seq<seq<Job>>, b: seq<seq<Job>>)
    ensures Concat(a + b) == Concat(a) + Concat(b)
  {
    if b == [] {
      assert a + b == a;
    } else {
      var c, last := a + b, b[|b| - 1];
      ConcatAppends(a, b[..|b| - 1]);
      assert c[..|c| - 1] == a + b[..|b| - 1] && c[|c| - 1] == last;
      assert Concat(c) == Concat(a + b[..|b| - 1]) + last;
      hide Concat;
    }
  }

  lemma ConcatOne(group: seq<Job>)
    ensures Concat([]) == [] && Concat([group]) == group
  {
    assert [group][..0] == [];
  }

  lemma AbsorbedKeepsJobs(config: Config, pending: seq<Job>, job: Job)
    ensures var (groups, rest) := Absorbed(config, pending, job); Concat(groups) + rest == pending + [job]
  {
    hide Fits, IsFull, Concat;
    var (groups, rest) := Absorbed(config, pending, job);
    if pending != [] && !Fits(pending, job, config) {
      ConcatOne(pending);
      ConcatOne([job]);
      ConcatAppends([pending], [[job]]);
      assert groups == [pending] || groups == [pending] + [[job]];
    } else {
      ConcatOne(pending + [job]);
      assert groups == [] || groups == [] + [pending + [job]] == [pending + [job]];
    }
  }

  /** No job is lost, split or moved by grouping. */
  lemma {:induction false} GroupedKeepsJobs(config: Config, pending: seq<Job>, jobs: seq<Job>)
    ensures var (groups, rest) := Grouped(config, pending, jobs); Concat(groups) + rest == pending + jobs
  {
    hide Absorbed;
    if jobs == [] {
      ConcatOne([]);
    } else {
      var front, job := jobs[..|jobs| - 1], jobs[|jobs| - 1];
      GroupedKeepsJobs(config, pending, front);
      var (groups, rest) := Grouped(config, pending, front);
      var (more, last) := Absorbed(config, rest, job);
      AbsorbedKeepsJobs(config, rest, job);
      ConcatAppends(groups, more);
      hide Concat;
      calc {
        Concat(groups + more) + last;
        Concat(groups) + (Concat(more) + last);
        (Concat(groups) + rest) + [job];
        pending + (front + [job]);
      }
      assert front + [job] == jobs;
    }
  }

  /** The batch is full, or what comes next does not fit into it. */
  ghost predicate Closed(config: Config, group: seq<Job>, next: seq<Job>) {
    group != [] && (IsFull(group, config) || (next != [] && !Fits(group, next[0], config)))
  }

  /** Every batch is flushed because it is full or because the next job does not fit into it, and never before. */
  ghost predicate Greedy(config: Config, groups: seq<seq<Job>>, rest: seq<Job>) {
    && (forall k :: 0 <= k < |groups| ==> Closed(config, groups[k], (groups + [rest])[k + 1]))
    && (rest != [] ==> !IsFull(rest, config))
  }

  lemma {:induction false} GroupedIsGreedy(config: Config, pending: seq<Job>, jobs: seq<Job>)
    requires pending != [] ==> !IsFull(pending, config)
    ensures var (groups, rest) := Grouped(config, pending, jobs); Greedy(config, groups, rest)
  {
    hide Absorbed, Closed, IsFull;
    if jobs != [] {
      var front, job := jobs[..|jobs| - 1], jobs[|jobs| - 1];
      GroupedIsGreedy(config, pending, front);
      var (groups, rest) := Grouped(config, pending, front);
      AbsorbedIsGreedy(config, rest, job);
      GreedyGoesOn(config, groups, rest, Absorbed(config, rest, job).0, Absorbed(config, rest, job).1);
    }
  }

  lemma AbsorbedIsGreedy(config: Config, pending: seq<Job>, job: Job)
    ensures var (groups, rest) := Absorbed(config, pending, job);
            Greedy(config, groups, rest) && Starts((groups + [rest])[0], pending)
  {
    hide Fits, IsFull;
  }

  /** Nothing comes before what was pending. */
  predicate Starts(head: seq<Job>, pending: seq<Job>) {
    pending != [] ==> head != [] && head[0] == pending[0]
  }

  lemma GreedyGoesOn(config: Config, groups: seq<seq<Job>>, rest: seq<Job>, more: seq<seq<Job>>, last: seq<Job>)
    requires Greedy(config, groups, rest) && Greedy(config, more, last) && Starts((more + [last])[0], rest)
    ensures Greedy(config, groups + more, last)
  {
    hide Fits, IsFull;
    var all := groups + more;
    forall k | 0 <= k < |all|
      ensures Closed(config, all[k], (all + [last])[k + 1])
    {
      assert all + [last] == groups + (more + [last]);
      if k < |groups| {
        assert Closed(config, groups[k], (groups + [rest])[k + 1]);
      } else {
        assert Closed(config, more[k - |groups|], (more + [last])[k - |groups| + 1]);
      }
    }
  }

  /** The protocol's worker groups jobs the same way while it drains. */
  lemma AbsorbedByProtocol(config: Config, pending: seq<Job>, job: Job)
    ensures var (groups, rest) := Absorbed(config, pending, job);
            match Absorb(config, pending, job, true)
            case Draining(batch) => groups == [] && rest == batch
            case Flushing(batch, ToDrain) => groups == [batch] && rest == []
            case Flushing(batch, ToDrainHand(hand)) =>
              hand == job && (match Continue(config, ToDrainHand(job))
                              case Draining(next) => groups == [batch] && rest == next
                              case Flushing(next, ToDrain) => groups == [batch, next] && rest == []
                              case _ => false)
            case _ => false
  {
    hide Fits, IsFull;
  }

  // ---- What was flushed ----

  /** One Apply: its batch, what it exchanged with the server, its answer, and the keyspace before and after. */
  datatype Flushed = Flushed(
    jobs: seq<Job>, increments: seq<Increment>, result: Result<(), ApplyError>,
    talk: seq<Exchange>, cached: string, before: Db, after: Db, now: int)

  ghost predicate Performed(f: Flushed) {
    && Lists(f.increments, MergeAll(Flat(f.jobs)))
    && Answers(f.result, f.talk, f.cached, f.increments)
    && ApplyEffect(f.result, f.before, f.after, f.now, f.increments)
  }

  ghost function Talks(flushes: seq<Flushed>): seq<Exchange> {
    if flushes == [] then [] else Talks(flushes[..|flushes| - 1]) + flushes[|flushes| - 1].talk
  }

  /** Each Apply finds the keyspace the one before it left. */
  ghost predicate Leads(flushes: seq<Flushed>, before: Db, after: Db) {
    if flushes == [] then after == before
    else
      var last := flushes[|flushes| - 1];
      last.after == after && Leads(flushes[..|flushes| - 1], before, last.before)
  }

  /** These and no other exchanges with the server lead from one keyspace and log to another. */
  ghost predicate Ran(config: Config, flushes: seq<Flushed>, before: Db, after: Db, logBefore: seq<Exchange>, logAfter: seq<Exchange>) {
    && (forall i :: 0 <= i < |flushes| ==> Performed(flushes[i]) && Flushable(config, flushes[i].jobs))
    && Leads(flushes, before, after) && logAfter == logBefore + Talks(flushes)
  }

  lemma NothingRan(config: Config, db: Db, log: seq<Exchange>)
    ensures Ran(config, [], db, db, log, log)
  {}

  lemma RanOnce(config: Config, f: Flushed, log: seq<Exchange>)
    requires Performed(f) && Flushable(config, f.jobs)
    ensures Ran(config, [f], f.before, f.after, log, log + f.talk)
    ensures BatchesOf([f]) == [f.jobs] && AllReplies([f]) == RepliesTo(f)
  {
    hide Performed, Flushable, RepliesTo;
    assert [f][..0] == [];
    assert Leads([], f.before, f.before) && Leads([f], f.before, f.after);
    assert Talks([f]) == [] + f.talk == f.talk;
    assert AllReplies([f]) == [] + RepliesTo(f);
  }

  lemma {:induction false} LeadsOn(a: seq<Flushed>, b: seq<Flushed>, db0: Db, db1: Db, db2: Db)
    requires Leads(a, db0, db1) && Leads(b, db1, db2)
    ensures Leads(a + b, db0, db2)
  {
    if b == [] {
      assert a + b == a;
    } else {
      LeadsOn(a, b[..|b| - 1], db0, db1, b[|b| - 1].before);
      assert (a + b)[..|a + b| - 1] == a + b[..|b| - 1];
    }
  }

  lemma {:induction false} TalksOn(a: seq<Flushed>, b: seq<Flushed>)
    ensures Talks(a + b) == Talks(a) + Talks(b)
  {
    if b == [] {
      assert a + b == a;
    } else {
      var c, last := a + b, b[|b| - 1];
      TalksOn(a, b[..|b| - 1]);
      assert c[..|c| - 1] == a + b[..|b| - 1] && c[|c| - 1] == last;
      assert Talks(c) == Talks(a + b[..|b| - 1]) + last.talk;
      hide Talks;
    }
  }

  lemma {:induction false} RepliesOn(a: seq<Flushed>, b: seq<Flushed>)
    ensures AllReplies(a + b) == AllReplies(a) + AllReplies(b)
  {
    hide RepliesTo;
    if b == [] {
      assert a + b == a;
    } else {
      RepliesOn(a, b[..|b| - 1]);
      assert (a + b)[..|a + b| - 1] == a + b[..|b| - 1];
    }
  }

  lemma RanOn(config: Config, a: seq<Flushed>, b: seq<Flushed>, db0: Db, db1: Db, db2: Db,
              log0: seq<Exchange>, log1: seq<Exchange>, log2: seq<Exchange>)
    requires Ran(config, a, db0, db1, log0, log1) && Ran(config, b, db1, db2, log1, log2)
    ensures Ran(config, a + b, db0, db2, log0, log2)
  {
    hide Performed, Flushable, Leads, Talks;
    LeadsOn(a, b, db0, db1, db2);
    TalksOn(a, b);
  }

  /** What the jobs of a batch are told: the answer of its Apply. */
  ghost function RepliesTo(f: Flushed): seq<Answer> {
    Replies(f.jobs, L.OutcomeOf(f.result))
  }

  ghost function AllReplies(flushes: seq<Flushed>): seq<Answer> {
    if flushes == [] then [] else AllReplies(flushes[..|flushes| - 1]) + RepliesTo(flushes[|flushes| - 1])
  }

  ghost function BatchesOf(flushes: seq<Flushed>): (groups: seq<seq<Job>>)
    ensures |groups| == |flushes| && forall i :: 0 <= i < |groups| ==> groups[i] == flushes[i].jobs
  {
    seq(|flushes|, i requires 0 <= i < |flushes| => flushes[i].jobs)
  }

  function AnsweredJobs(answers: seq<Answer>): (jobs: seq<Job>)
    ensures |jobs| == |answers| && forall i :: 0 <= i < |jobs| ==> jobs[i] == answers[i].job
  {
    seq(|answers|, i requires 0 <= i < |answers| => answers[i].job)
  }

  lemma AnsweredBoth(a: seq<Answer>, b: seq<Answer>)
    ensures AnsweredJobs(a + b) == AnsweredJobs(a) + AnsweredJobs(b)
  {}

  lemma {:induction false} RepliesFollowBatches(flushes: seq<Flushed>)
    ensures AnsweredJobs(AllReplies(flushes)) == Concat(BatchesOf(flushes))
  {
    if flushes != [] {
      var front, last := flushes[..|flushes| - 1], flushes[|flushes| - 1];
      RepliesFollowBatches(front);
      AnsweredBoth(AllReplies(front), RepliesTo(last));
      assert AnsweredJobs(RepliesTo(last)) == last.jobs;
      assert BatchesOf(flushes)[..|flushes| - 1] == BatchesOf(flushes[..|flushes| - 1]);
    }
  }

  /**
   Wherever a drain is cut off: the jobs of the batches flushed by then, followed by those
   stopped, are all the jobs there were, each once and in their order.
   */
  lemma DrainReachesEveryone(config: Config, pending: seq<Job>, queue: seq<Job>, turns: nat, flushes: seq<Flushed>)
    requires turns <= |queue| && BatchesOf(flushes) == Grouped(config, pending, queue[..turns]).0
    ensures var left := Grouped(config, pending, queue[..turns]).1 + queue[turns..];
            AnsweredJobs(AllReplies(flushes) + Replies(left, Stopped)) == pending + queue
  {
    hide Grouped, AllReplies, Concat;
    var rest := Grouped(config, pending, queue[..turns]).1;
    GroupedKeepsJobs(config, pending, queue[..turns]);
    RepliesFollowBatches(flushes);
    AnsweredBoth(AllReplies(flushes), Replies(rest + queue[turns..], Stopped));
    calc {
      AnsweredJobs(AllReplies(flushes)) + (rest + queue[turns..]);
      (AnsweredJobs(AllReplies(flushes)) + rest) + queue[turns..];
      pending + (queue[..turns] + queue[turns..]);
    }
    assert queue == queue[..turns] + queue[turns..];
    assert AnsweredJobs(Replies(rest + queue[turns..], Stopped)) == rest + queue[turns..];
  }

  /** What can be seen of a worker and its store. */
  datatype View = View(flushes: seq<Flushed>, answers: seq<Answer>, db: Db, log: seq<Exchange>, runs: nat)

  /**
   From one view to a later one exactly these batches were flushed, in order: nothing else
   happened to the store, and every job of them was told its batch's answer, and nobody else anything.
   */
  ghost predicate FlushedSince(config: Config, v: View, w: View, groups: seq<seq<Job>>) {
    && v.flushes <= w.flushes
    && var news := w.flushes[|v.flushes|..];
       && BatchesOf(news) == groups && w.answers == v.answers + AllReplies(news)
       && Ran(config, news, v.db, w.db, v.log, w.log) && w.runs <= v.runs + |groups|
  }

  lemma NothingFlushed(config: Config, v: View)
    ensures FlushedSince(config, v, v, [])
  {
    assert v.flushes[|v.flushes|..] == [];
    NothingRan(config, v.db, v.log);
  }

  lemma FlushedOn(config: Config, u: View, v: View, w: View, a: seq<seq<Job>>, b: seq<seq<Job>>)
    requires FlushedSince(config, u, v, a) && FlushedSince(config, v, w, b)
    ensures FlushedSince(config, u, w, a + b)
  {
    hide Ran, AllReplies;
    var first, second := v.flushes[|u.flushes|..], w.flushes[|v.flushes|..];
    assert w.flushes[|u.flushes|..] == first + second;
    RanOn(config, first, second, u.db, v.db, w.db, u.log, v.log, w.log);
    RepliesOn(first, second);
  }

  lemma FlushedOne(config: Config, v: View, w: View, f: Flushed)
    requires Performed(f) && Flushable(config, f.jobs) && w.flushes == v.flushes + [f] && w.answers == v.answers + RepliesTo(f)
    requires f.before == v.db && f.after == w.db && w.log == v.log + f.talk && w.runs <= v.runs + 1
    ensures FlushedSince(config, v, w, [f.jobs])
  {
    hide Performed, Flushable, RepliesTo, Ran;
    assert w.flushes[|v.flushes|..] == [f];
    RanOnce(config, f, v.log);
  }

  /**
   What an answer means: acknowledged exactly if the last exchange of the batch's Apply brought
   the reply that the script is done, unknown exactly if it may have run to an end nobody heard of.
   */
  lemma AcknowledgedMeansDone(f: Flushed, i: nat)
    requires Performed(f) && i < |f.jobs| && Acceptable(f.increments)
    ensures RepliesTo(f)[i].job == f.jobs[i] && f.talk != []
    ensures var last := f.talk[|f.talk| - 1];
            && (RepliesTo(f)[i].outcome == Acknowledged <==>
                  last.Evaluated? && last.answer.Executed? && last.answer.reply.Done?)
            && (RepliesTo(f)[i].outcome == Unknown <==>
                  last.Evaluated? && (last.answer.TransportError? || (last.answer.Executed? && last.answer.reply.Raised?)))
  {
    hide Acceptable, Lists, ApplyEffect, Conversed;
  }

  lemma HoldingSome(config: Config, batch: PendingBatch?)
    requires Holding(config, batch)
    ensures batch == null <==> JobsOf(batch) == []
  {}

  class Worker {
    const config: Config
    const store: Store
    const runCtx: Context
    var queue: seq<Job>
    var depth: int
    var answers: seq<Answer>
    ghost var flushes: seq<Flushed>

    constructor (config: Config, store: Store, runCtx: Context, queue: seq<Job>)
      ensures this.config == config && this.store == store && this.runCtx == runCtx && this.queue == queue
      ensures depth == |queue| && answers == [] && flushes == []
    {
      this.config, this.store, this.runCtx, this.queue := config, store, runCtx, queue;
      depth, answers, flushes := |queue|, [], [];
    }

    ghost function Now(): View
      reads this, store, store.server
    {
      View(flushes, answers, store.server.db, store.server.log, store.server.runs)
    }

    method Dequeued()
      modifies this`depth
      ensures depth == old(depth) - 1
    {
      depth := depth - 1;
    }

    /** One send per job, in order, all with the same result. */
    method Resolve(jobs: seq<Job>, outcome: Outcome)
      modifies this`answers
      ensures answers == old(answers) + Replies(jobs, outcome)
    {
      for i := 0 to |jobs|
        invariant answers == old(answers) + Replies(jobs, outcome)[..i]
      {
        answers := answers + [Answer(jobs[i], outcome)];
      }
    }

    /** One Apply for the whole batch, and its answer to every job of it. */
    method FlushPending(batch: PendingBatch)
      requires Holding(config, batch)
      modifies this`answers, this`flushes, store, store.server
      ensures FlushedSince(config, old(Now()), Now(), [batch.jobs])
    {
      hide Flat, Events, MergeAll, Flushable, Lists, AfterEpoch, Counted, Performed, Replies, Answers, ApplyEffect, Acceptable, FlushedSince;
      ghost var v := Now();
      var r, applied := FlushBatch(batch, store);
      Resolve(batch.jobs, L.OutcomeOf(r));
      ghost var f := Flushed(batch.jobs, applied, r, store.server.log[|v.log|..], old(store.sha), v.db, store.server.db, store.server.now);
      PerformedFrom(f);
      flushes := flushes + [f];
      FlushedOne(config, v, Now(), f);
    }

    /** abort: the pending jobs and every queued job are answered, in order, without touching the store. */
    method Abort(pending: seq<Job>)
      modifies this`queue, this`depth, this`answers
      ensures queue == [] && depth == old(depth) - |old(queue)|
      ensures answers == old(answers) + Replies(pending + old(queue), Stopped)
    {
      Resolve(pending, Stopped);
      ghost var turn := 0;
      while queue != []
        invariant turn <= |old(queue)| && queue == old(queue)[turn..] && depth == old(depth) - turn
        invariant answers == old(answers) + Replies(pending + old(queue)[..turn], Stopped)
        decreases |queue|
      {
        var job := queue[0];
        queue := queue[1..];
        Dequeued();
        answers := answers + [Answer(job, Stopped)];
        ghost var taken := pending + old(queue)[..turn];
        RepliesConcat(taken, [job], Stopped);
        OneReply(job, Stopped);
        assert pending + old(queue)[..turn + 1] == taken + [job];
        turn := turn + 1;
      }
      assert old(queue)[..turn] == old(queue);
    }

    /** What the loop of drain does with one received job, batch by batch. */
    method Take(pending: PendingBatch?, job: Job) returns (next: PendingBatch?)
      requires Holding(config, pending) && Accepted(config, job.request)
      modifies this`answers, this`flushes, store, store.server, if pending == null then {} else {pending}
      ensures Holding(config, next) && (next == null || next == pending || fresh(next))
      ensures var (groups, rest) := Absorbed(config, old(JobsOf(pending)), job);
              FlushedSince(config, old(Now()), Now(), groups) && JobsOf(next) == rest
    {
      hide Flushable, Accepted, Fits, IsFull, Flat, Events, MergeAll, FlushedSince;
      NothingFlushed(config, Now());
      HoldingSome(config, pending);
      next := pending;
      ghost var groups := [];
      if next == null {
        next := new PendingBatch(job);
        FlushableSingle(config, job);
        assert [] + [job] == [job];
      } else {
        AcceptedKeysDiffer(config, job.request);
        var fits := next.CanAdd(job, config);
        if fits {
          FlushableExtended(config, next.jobs, job);
          next.Add(job);
        } else {
          FlushPending(next);
          groups := [next.jobs];
          next := new PendingBatch(job);
          FlushableSingle(config, job);
        }
      }
      var full := next.Full(config);
      if full {
        ghost var between := Now();
        FlushPending(next);
        FlushedOn(config, old(Now()), between, Now(), groups, [next.jobs]);
        assert groups + [next.jobs] == Absorbed(config, old(JobsOf(pending)), job).0;
        next := null;
      }
    }

    /** The loop of drain for a queue nobody else can reach; false if a cancellation ended it. */
    method Receive(start: PendingBatch?) returns (empty: bool, pending: PendingBatch?, ghost turns: nat)
      requires Holding(config, start) && AllAccepted(config, queue)
      modifies this`queue, this`depth, this`answers, this`flushes, store, store.server, runCtx, if start == null then {} else {start}
      ensures turns <= |old(queue)| && queue == old(queue)[turns..] && depth == old(depth) - turns
      ensures if empty then queue == [] else runCtx.cancelled
      ensures Holding(config, pending)
      ensures var (groups, rest) := Grouped(config, old(JobsOf(start)), old(queue)[..turns]);
              FlushedSince(config, old(Now()), Now(), groups) && JobsOf(pending) == rest
    {
      hide Flushable, Accepted, FlushedSince, Absorbed, Grouped;
      NothingGrouped(config, JobsOf(start));
      assert queue[..0] == [];
      NothingFlushed(config, Now());
      turns, pending := 0, start;
      while true
        invariant pending == null || pending == start || fresh(pending)
        invariant Holding(config, pending)
        invariant turns <= |old(queue)| && queue == old(queue)[turns..] && depth == old(depth) - turns
        invariant FlushedSince(config, old(Now()), Now(), Grouped(config, old(JobsOf(start)), old(queue)[..turns]).0)
        invariant JobsOf(pending) == Grouped(config, old(JobsOf(start)), old(queue)[..turns]).1
        decreases |queue|
      {
        runCtx.Poll();
        if runCtx.cancelled {
          return false, pending, turns;
        }
        if queue == [] {
          return true, pending, turns;
        }
        ghost var between, taken := Now(), old(queue)[..turns];
        var job := queue[0];
        GroupedNext(config, old(JobsOf(start)), old(queue), turns);
        queue := queue[1..];
        Dequeued();
        ghost var before := JobsOf(pending);
        pending := Take(pending, job);
        FlushedOn(config, old(Now()), between, Now(), Grouped(config, old(JobsOf(start)), taken).0, Absorbed(config, before, job).0);
        turns := turns + 1;
      }
    }

    /**
     drain. Unless a cancellation comes, all jobs pending and queued are flushed, in batches
     formed as they came, and each is told the answer of its own batch. After a cancellation, at
     any turn, the jobs not flushed by then, and only they, are told that they were stopped.
     */
    method Drain(start: PendingBatch?) returns (stopped: bool, ghost turns: nat)
      requires Holding(config, start) && AllAccepted(config, queue)
      modifies this, store, store.server, runCtx, if start == null then {} else {start}
      ensures queue == [] && depth == old(depth) - |old(queue)| && turns <= |old(queue)|
      ensures stopped ==> runCtx.cancelled
      ensures var (groups, rest) := Grouped(config, old(JobsOf(start)), old(queue)[..turns]);
              if stopped then
                var left := rest + old(queue)[turns..];
                && |left| <= |answers| && answers[|answers| - |left|..] == Replies(left, Stopped)
                && FlushedSince(config, old(Now()), Now().(answers := answers[..|answers| - |left|]), groups)
              else
                turns == |old(queue)| && FlushedSince(config, old(Now()), Now(), groups + if rest == [] then [] else [rest])
    {
      hide Flushable, Accepted, FlushedSince, Absorbed, Replies, Grouped;
      var empty, pending;
      empty, pending, turns := Receive(start);
      ghost var (groups, rest) := Grouped(config, old(JobsOf(start)), old(queue)[..turns]);
      ghost var between := Now();
      stopped := !empty;
      HoldingSome(config, pending);
      if stopped {
        Abort(if pending == null then [] else pending.jobs);
        ghost var left := rest + old(queue)[turns..];
        assert answers == between.answers + Replies(left, Stopped);
        assert answers[..|answers| - |left|] == between.answers && Now().(answers := between.answers) == between;
      } else if pending != null {
        FlushPending(pending);
        FlushedOn(config, old(Now()), between, Now(), groups, [rest]);
      } else {
        assert groups + [] == groups;
      }
    }
  }

  lemma PerformedFrom(f: Flushed)
    requires Lists(f.increments, MergeAll(Flat(f.jobs))) && Answers(f.result, f.talk, f.cached, f.increments)
    requires ApplyEffect(f.result, f.before, f.after, f.now, f.increments)
    ensures Performed(f)
  {}
}
