/** What every run of the batching protocol guarantees, and why shutdown always completes. */
module ProtocolTheorems {
  import opened Wrappers
  import opened Text
  import opened Batch
  import opened Merge
  import opened Protocol
  import opened ProtocolSafety

  /** Each enqueued request is in exactly one place, with multiplicity one; no other request is anywhere. */
  lemma ExactlyOnePlace(c: Config, events: seq<Event>, id: nat)
    requires Run(c, events).Some?
    ensures var s := Run(c, events).value;
            Census(s)[id] == if id in s.accepted then 1 else 0
  {
    hide Run;
    RunKeepsInv(c, events);
  }

  lemma TwiceIsTwo(ids: seq<nat>, i: nat, j: nat)
    requires i < j < |ids| && ids[i] == ids[j]
    ensures multiset(ids)[ids[i]] >= 2
  {
    assert ids == ids[..j] + ids[j..];
    assert ids[i] in ids[..j] && ids[j] in ids[j..];
  }

  /** No result channel is ever sent to twice, so no send blocks the worker. */
  lemma NeverAnsweredTwice(c: Config, events: seq<Event>)
    requires Run(c, events).Some?
    ensures Distinct(AnsweredIds(Run(c, events).value.answers))
  {
    hide Run;
    RunKeepsInv(c, events);
    var s := Run(c, events).value;
    var ids := AnsweredIds(s.answers);
    forall i, j | 0 <= i < j < |ids|
      ensures ids[i] != ids[j]
    {
      if ids[i] == ids[j] {
        TwiceIsTwo(ids, i, j);
        assert Census(s)[ids[i]] >= multiset(ids)[ids[i]];
        ExactlyOnePlace(c, events, ids[i]);
      }
    }
  }

  /** The published depth counts the queue, the job received but not yet counted, and Submit's own raise. */
  lemma PublishedDepth(c: Config, events: seq<Event>)
    requires Run(c, events).Some?
    ensures var s := Run(c, events).value;
            s.depth == InTransit(s) && 0 <= s.depth <= c.queueSize + 2
  {
    hide Run;
    RunKeepsInv(c, events);
  }

  /** Once done is closed every enqueued request has its answer, whichever way the worker went. */
  lemma DoneLeavesNobodyWaiting(c: Config, events: seq<Event>)
    requires Run(c, events).Some? && Run(c, events).value.worker.Finished?
    ensures var s := Run(c, events).value;
            && s.queue == [] && s.holder.None? && s.depth == 0
            && multiset(AnsweredIds(s.answers)) == multiset(s.accepted)
  {
    hide Run;
    RunKeepsInv(c, events);
    var s := Run(c, events).value;
    assert Ids(s.queue) == [] && Ids(WorkerJobs(s.worker)) == [];
  }

  /** Whatever is flushed respects both limits and consists of whole validated requests. */
  lemma FlushedBatchesAreBounded(c: Config, events: seq<Event>)
    requires Run(c, events).Some? && Run(c, events).value.worker.Flushing?
    ensures var batch := Run(c, events).value.worker.batch;
            && 0 < |batch| && Events(batch) <= c.maxEvents && |KeySet(Flat(batch))| <= c.maxKeys
            && AllAccepted(c, batch)
  {
    hide Run;
    RunKeepsInv(c, events);
    var Flushing(batch, next) := Run(c, events).value.worker;
    forall i | 0 <= i < |batch| ensures Accepted(c, batch[i].request) {
      assert WorkerJobs(Run(c, events).value.worker)[i] == batch[i];
    }
  }

  /** A response that reports a result reports the one the worker sent. */
  lemma ResponsesAreHonest(c: Config, events: seq<Event>, id: nat)
    requires Run(c, events).Some? && id in Run(c, events).value.responses
    ensures var s := Run(c, events).value;
            match s.responses[id]
            case Answered(outcome) => exists i :: 0 <= i < |s.answers| && s.answers[i].job.id == id && s.answers[i].outcome == outcome
            case GaveUp => id in s.accepted
            case _ => id !in s.accepted
  {
    hide Run;
    RunKeepsInv(c, events);
  }

  // ---- Why somebody is turned away or stopped ----

  /** Every response is given in the event that is its reason, and stays. */
  ghost predicate HasReason(c: Config, s: State, e: Event, id: nat, response: Response) {
    match response
    case Refused => e.Refuses? && id == s.issued && !Accepted(c, e.request)
    case NotRunning => e.TurnsAway? && id == s.issued && Accepted(c, e.request) && !s.accepting
    case QueueFull => e.FindsFull? && s.holder.Some? && id == s.holder.value.id && |s.queue| == c.queueSize
    case Answered(outcome) => e.Returns? && e.index < |s.answers| && s.answers[e.index].job.id == id && s.answers[e.index].outcome == outcome
    case GaveUp => e == GivesUp(id) && id in s.accepted
  }

  lemma ResponsesHaveReasons(c: Config, s: State, e: Event, id: nat)
    requires Inv(c, s) && Step(c, s, e).Some? && id in Step(c, s, e).value.responses
    ensures var response := Step(c, s, e).value.responses[id];
            if id in s.responses then response == s.responses[id] else HasReason(c, s, e, id, response)
  {
    hide Accepted, Census, WorkerShape, AllAccepted, Receive, Count, Resolve, Choose;
    if IsWorkerEvent(e) {
      WorkerFrame(c, s, e);
    }
  }

  /** A worker that is not giving up. */
  ghost predicate Calm(w: Worker) {
    && !w.Aborting? && !w.AbortReceived?
    && (w.Flushing? ==> !w.next.ToAbort?)
    && (w.Resolving? ==> !w.outcome.Stopped? && !w.next.ToAbort?)
  }

  /** Nobody is, or is about to be, told that the worker was stopped. */
  ghost predicate NobodyStopped(s: State) {
    Calm(s.worker) && forall i :: 0 <= i < |s.answers| ==> !s.answers[i].outcome.Stopped?
  }

  lemma CalmAbsorb(c: Config, batch: seq<Job>, job: Job, draining: bool)
    ensures Calm(Absorb(c, batch, job, draining))
  {
    hide Fits, IsFull;
  }

  lemma CalmContinue(c: Config, next: Next)
    requires !next.ToAbort?
    ensures Calm(Continue(c, next))
  {
    hide Fits, IsFull;
  }

  lemma CalmChoice(w: Worker, e: Event, stopping: bool, empty: bool)
    requires Calm(w) && Choose(w, e, stopping, false, empty).Some?
    ensures Calm(Choose(w, e, stopping, false, empty).value)
  {}

  lemma CalmWorkerStep(c: Config, s: State, e: Event)
    requires !s.cancelled && NobodyStopped(s) && IsWorkerEvent(e) && WorkerStep(c, s, e).Some?
    ensures NobodyStopped(WorkerStep(c, s, e).value)
  {
    hide Absorb, Continue, Choose;
    match e
    case Counts =>
      if s.worker.Received? {
        CalmAbsorb(c, s.worker.batch, s.worker.job, s.worker.draining);
      }
    case Resolves =>
      if s.worker.Resolving? {
        CalmContinue(c, s.worker.next);
      }
    case Receives =>
    case _ =>
      CalmChoice(s.worker, e, s.stopping, s.queue == []);
  }

  lemma CalmStep(c: Config, s: State, e: Event)
    requires !s.cancelled && NobodyStopped(s) && !e.Cancels? && Step(c, s, e).Some?
    ensures !Step(c, s, e).value.cancelled && NobodyStopped(Step(c, s, e).value)
  {
    hide Accepted, Calm, WorkerStep;
    if IsWorkerEvent(e) {
      WorkerFrame(c, s, e);
      CalmWorkerStep(c, s, e);
    } else {
      CalmFromStart();
    }
  }

  lemma CalmFromStart()
    ensures Calm(Idle)
  {}

  lemma {:induction false} CalmRun(c: Config, events: seq<Event>)
    requires Run(c, events).Some? && Cancels !in events
    ensures !Run(c, events).value.cancelled && NobodyStopped(Run(c, events).value)
  {
    hide Step, NobodyStopped;
    if events == [] {
      CalmStart();
    } else {
      var front := events[..|events| - 1];
      assert events[|events| - 1] in events;
      CalmRun(c, front);
      CalmStep(c, Run(c, front).value, events[|events| - 1]);
    }
  }

  lemma CalmStart()
    ensures !Initial.cancelled && NobodyStopped(Initial)
  {}

  /** Unless Stop's context ends first, no request is given up: nobody is told that the batcher was stopped. */
  lemma OnlyCancellationStopsRequests(c: Config, events: seq<Event>, id: nat)
    requires Run(c, events).Some? && Cancels !in events
    ensures var s := Run(c, events).value;
            && (forall i :: 0 <= i < |s.answers| ==> !s.answers[i].outcome.Stopped?)
            && (id in s.responses ==> s.responses[id] != Answered(Stopped))
  {
    hide Run;
    CalmRun(c, events);
    RunKeepsInv(c, events);
  }

  // ---- Shutdown ----

  /** Upper bound on the worker events a continuation still causes by itself. */
  function After(next: Next): nat {
    match next
    case ToIdle => 3
    case ToHand(_) => 8
    case ToDrain => 2
    case ToDrainHand(_) => 7
    case ToFinish => 0
    case ToAbort => 1
  }

  function Phase(w: Worker): nat {
    match w
    case NotStarted => 0
    case Idle => 3
    case Collecting(batch) => 3 + 5 * |batch|
    case Received(batch, _, _) => 9 + 5 * |batch|
    case Flushing(batch, next) => 1 + |batch| + After(next)
    case Resolving(rest, _, next) => |rest| + After(next)
    case Draining(batch) => 2 + 5 * |batch|
    case DrainSelect(batch) => 1 + 5 * |batch|
    case Aborting => 1
    case AbortReceived(_) => 3
    case Finished => 0
  }

  function Work(s: State): nat {
    10 * |s.queue| + Phase(s.worker)
  }

  lemma AbsorbPhase(c: Config, batch: seq<Job>, job: Job, draining: bool)
    ensures Phase(Absorb(c, batch, job, draining)) < 9 + 5 * |batch|
  {
    hide IsFull, Fits;
  }

  lemma ContinuePhase(c: Config, next: Next)
    ensures Phase(Continue(c, next)) <= After(next)
  {
    hide IsFull;
  }

  lemma ChoicePhase(w: Worker, e: Event, stopping: bool, cancelled: bool, empty: bool)
    requires Choose(w, e, stopping, cancelled, empty).Some?
    requires w.Flushing? || w.Collecting? ==> w.batch != []
    ensures Phase(Choose(w, e, stopping, cancelled, empty).value) < Phase(w)
  {}

  /** Every worker event uses up work; no other event but a send adds any. */
  lemma WorkerEventsUseUpWork(c: Config, s: State, e: Event)
    requires Inv(c, s) && Step(c, s, e).Some?
    ensures IsWorkerEvent(e) ==> Work(Step(c, s, e).value) < Work(s)
    ensures !IsWorkerEvent(e) && !e.Sends? && s.started ==> Work(Step(c, s, e).value) == Work(s)
  {
    hide Absorb, Continue, Choose, Census, Histories, AllAccepted, Accepted;
    if !IsWorkerEvent(e) {
    } else if e.Counts? {
      if s.worker.Received? {
        AbsorbPhase(c, s.worker.batch, s.worker.job, s.worker.draining);
      }
    } else if e.Resolves? {
      ContinuePhase(c, s.worker.next);
    } else if !e.Receives? {
      ChoicePhase(s.worker, e, s.stopping, s.cancelled, s.queue == []);
    }
  }

  /** The worker is never stuck: after Stop, until done is closed, one of its events is enabled. */
  lemma ShutdownNeverStuck(c: Config, s: State) returns (e: Event)
    requires Inv(c, s) && s.stopping && !s.worker.Finished?
    ensures IsWorkerEvent(e) && Step(c, s, e).Some?
  {
    hide Census, Histories, AllAccepted, Absorb, Continue, Growing, Within, InTransit;
    match s.worker
    case Idle => e := SeesStop;
    case Collecting(_) => e := SeesStop;
    case Received(_, _, _) => e := Counts;
    case Flushing(_, _) => e := FlushReturns(Unknown);
    case Resolving(_, _, _) => e := Resolves;
    case Draining(_) => e := ChecksContext;
    case DrainSelect(_) => e := if s.queue == [] then FindsEmpty else Receives;
    case Aborting => e := if s.queue == [] then FindsEmpty else Receives;
    case AbortReceived(_) => e := Counts;
  }

  /** The state after more events. */
  ghost function RunFrom(c: Config, s: State, events: seq<Event>): Option<State>
    decreases |events|
  {
    if events == [] then Some(s)
    else
      match Step(c, s, events[0])
      case None => None
      case Some(s') => RunFrom(c, s', events[1..])
  }

  function WorkerEvents(events: seq<Event>): nat {
    if events == [] then 0 else (if IsWorkerEvent(events[0]) then 1 else 0) + WorkerEvents(events[1..])
  }

  lemma StopIsForGood(c: Config, s: State, e: Event)
    requires Inv(c, s) && s.stopping && Step(c, s, e).Some?
    ensures Step(c, s, e).value.stopping && !e.Sends?
  {
    hide Census, Histories, AllAccepted, WorkerStep;
    if IsWorkerEvent(e) {
      WorkerFrame(c, s, e);
    }
  }

  /**
   Shutdown completes: after Stop the worker can take at most Work(s) more steps, in any
   interleaving, and whenever no further step of it is possible it has closed done.
   */
  lemma {:induction false} ShutdownCompletes(c: Config, s: State, events: seq<Event>)
    requires Inv(c, s) && s.stopping && RunFrom(c, s, events).Some?
    ensures WorkerEvents(events) <= Work(s)
    ensures var end := RunFrom(c, s, events).value;
            && Inv(c, end) && end.stopping
            && ((forall e :: IsWorkerEvent(e) ==> Step(c, end, e).None?) ==> end.worker.Finished?)
    decreases |events|
  {
    hide Inv, Step, Work;
    if events == [] {
      if !s.worker.Finished? {
        var e := ShutdownNeverStuck(c, s);
      }
    } else {
      var s' := Step(c, s, events[0]).value;
      StepKeepsInv(c, s, events[0]);
      StopIsForGood(c, s, events[0]);
      WorkerEventsUseUpWork(c, s, events[0]);
      StoppingIsStarted(c, s);
      ShutdownCompletes(c, s', events[1..]);
    }
  }

  lemma StoppingIsStarted(c: Config, s: State)
    requires Inv(c, s) && s.stopping
    ensures s.started
  {}
}
