/**
 The concurrent batching protocol: many submitters, one worker and one stopper over a bounded
 channel, a lock, a stop channel and a cancellation.

 A state machine over atomic steps. Regions under the lock whose intermediate states nobody
 can see are one step; Submit's raised depth before its send can be seen and is its own
 state. Every Go select is a choice between enabled events.
 */
module Protocol {
  import opened Wrappers
  import opened Batch
  import opened Merge

  /** What the worker sends on a job's result channel. */
  datatype Outcome = Acknowledged | NotWritten | Unknown | Stopped

  datatype Answer = Answer(job: Job, outcome: Outcome)

  /** What Submit returns. */
  datatype Response = Refused | NotRunning | QueueFull | Answered(outcome: Outcome) | GaveUp

  /** Where the worker goes on after a flush or an abort has answered its jobs. */
  datatype Next = ToIdle | ToHand(job: Job) | ToDrain | ToDrainHand(job: Job) | ToFinish | ToAbort

  datatype Worker =
    | NotStarted
    | Idle                                            // run's select without a pending batch
    | Collecting(batch: seq<Job>)                     // run's select with a pending batch and a timer
    | Received(batch: seq<Job>, job: Job, draining: bool)  // received, not yet through dequeued()
    | Flushing(batch: seq<Job>, next: Next)           // inside Apply
    | Resolving(rest: seq<Job>, outcome: Outcome, next: Next)
    | Draining(batch: seq<Job>)                       // top of drain's loop
    | DrainSelect(batch: seq<Job>)                    // drain's select, the context was not cancelled
    | Aborting                                        // abort's select
    | AbortReceived(job: Job)
    | Finished                                        // done is closed

  datatype State = State(
    started: bool,
    accepting: bool,
    stopping: bool,
    cancelled: bool,
    holder: Option<Job>,       // the submitter between raising depth and its send, holding the lock
    depth: int,
    queue: seq<Job>,
    worker: Worker,
    issued: nat,               // requests submitted so far; the next job's identity
    accepted: set<nat>,        // requests that were enqueued
    answers: seq<Answer>,      // results sent, in order
    responses: map<nat, Response>)

  datatype Event =
    | Starts
    | Refuses(request: Request)
    | TurnsAway(request: Request)
    | Enters(request: Request)
    | Sends
    | FindsFull
    | Returns(index: nat)
    | GivesUp(id: nat)
    | StopCalled
    | Cancels
    | Receives
    | Counts
    | TimerFires
    | SeesStop
    | SeesCancel
    | ChecksContext
    | FindsEmpty
    | FlushReturns(outcome: Outcome)
    | Resolves

  const Initial: State :=
    State(false, false, false, false, None, 0, [], NotStarted, 0, {}, [], map[])

  /** A batch that just grew: flushed at once when full. */
  ghost function Settle(c: Config, batch: seq<Job>, draining: bool): Worker {
    if IsFull(batch, c) then Flushing(batch, if draining then ToDrain else ToIdle)
    else if draining then Draining(batch)
    else Collecting(batch)
  }

  /** The worker's decision about a received job. */
  ghost function Absorb(c: Config, batch: seq<Job>, job: Job, draining: bool): Worker {
    if batch == [] || Fits(batch, job, c) then Settle(c, batch + [job], draining)
    else Flushing(batch, if draining then ToDrainHand(job) else ToHand(job))
  }

  ghost function Continue(c: Config, next: Next): Worker {
    match next
    case ToIdle => Idle
    case ToHand(job) => Settle(c, [job], false)
    case ToDrain => Draining([])
    case ToDrainHand(job) => Settle(c, [job], true)
    case ToFinish => Finished
    case ToAbort => Aborting
  }

  function Abort(batch: seq<Job>): Worker {
    if batch == [] then Aborting else Resolving(batch, Stopped, ToAbort)
  }

  /** A receive from the queue, in any of the worker's selects. */
  function Receive(s: State): Option<State> {
    if s.queue == [] then None
    else
      var job, rest := s.queue[0], s.queue[1..];
      match s.worker
      case Idle => Some(s.(queue := rest, worker := Received([], job, false)))
      case Collecting(batch) => Some(s.(queue := rest, worker := Received(batch, job, false)))
      case DrainSelect(batch) => Some(s.(queue := rest, worker := Received(batch, job, true)))
      case Aborting => Some(s.(queue := rest, worker := AbortReceived(job)))
      case _ => None
  }

  /** dequeued(), which needs the lock, and the decision that follows it. */
  ghost function Count(c: Config, s: State): Option<State> {
    if s.holder.Some? then None
    else
      match s.worker
      case Received(batch, job, draining) =>
        Some(s.(depth := s.depth - 1, worker := Absorb(c, batch, job, draining)))
      case AbortReceived(job) =>
        Some(s.(depth := s.depth - 1, worker := Resolving([job], Stopped, ToAbort)))
      case _ => None
  }

  /** One send on a result channel. */
  ghost function Resolve(c: Config, s: State): Option<State> {
    match s.worker
    case Resolving(rest, outcome, next) =>
      if rest == [] then None
      else Some(s.(answers := s.answers + [Answer(rest[0], outcome)],
                   worker := if |rest| == 1 then Continue(c, next) else Resolving(rest[1..], outcome, next)))
    case _ => None
  }

  /** The other choices of the worker: timer, stop, cancellation, empty queue, end of Apply. */
  function Choose(w: Worker, e: Event, stopping: bool, cancelled: bool, empty: bool): Option<Worker> {
    match e
    case TimerFires => if w.Collecting? then Some(Flushing(w.batch, ToIdle)) else None
    case SeesStop =>
      if !stopping then None
      else if w.Idle? then Some(Draining([]))
      else if w.Collecting? then Some(Draining(w.batch))
      else None
    case SeesCancel =>
      if !cancelled then None
      else if w.Idle? then Some(Abort([]))
      else if w.Collecting? then Some(Abort(w.batch))
      else None
    case ChecksContext =>
      if w.Draining? then Some(if cancelled then Abort(w.batch) else DrainSelect(w.batch)) else None
    case FindsEmpty =>
      if !empty then None
      else if w.DrainSelect? then Some(if w.batch == [] then Finished else Flushing(w.batch, ToFinish))
      else if w.Aborting? then Some(Finished)
      else None
    case FlushReturns(outcome) =>
      if w.Flushing? && outcome != Stopped then Some(Resolving(w.batch, outcome, w.next)) else None
    case _ => None
  }

  ghost function WorkerStep(c: Config, s: State, e: Event): Option<State> {
    match e
    case Receives => Receive(s)
    case Counts => Count(c, s)
    case Resolves => Resolve(c, s)
    case _ =>
      match Choose(s.worker, e, s.stopping, s.cancelled, s.queue == [])
      case None => None
      case Some(w) => Some(s.(worker := w))
  }

  ghost function ClientStep(c: Config, s: State, e: Event): Option<State> {
    match e
    case Starts =>
      if s.started then None else Some(s.(started := true, accepting := true, worker := Idle))
    case Refuses(request) =>
      if Accepted(c, request) then None
      else Some(s.(issued := s.issued + 1, responses := s.responses[s.issued := Refused]))
    case TurnsAway(request) =>
      if !Accepted(c, request) || s.holder.Some? || s.accepting then None
      else Some(s.(issued := s.issued + 1, responses := s.responses[s.issued := NotRunning]))
    case Enters(request) =>
      if !Accepted(c, request) || s.holder.Some? || !s.accepting then None
      else Some(s.(issued := s.issued + 1, holder := Some(Job(s.issued, request)), depth := s.depth + 1))
    case Sends =>
      if s.holder.None? || |s.queue| >= c.queueSize then None
      else Some(s.(holder := None, queue := s.queue + [s.holder.value], accepted := s.accepted + {s.holder.value.id}))
    case FindsFull =>
      if s.holder.None? || |s.queue| < c.queueSize then None
      else Some(s.(holder := None, depth := s.depth - 1, responses := s.responses[s.holder.value.id := QueueFull]))
    case Returns(index) =>
      if index >= |s.answers| || s.answers[index].job.id in s.responses then None
      else Some(s.(responses := s.responses[s.answers[index].job.id := Answered(s.answers[index].outcome)]))
    case GivesUp(id) =>
      if id !in s.accepted || id in s.responses then None
      else Some(s.(responses := s.responses[id := GaveUp]))
    case StopCalled =>
      if s.holder.Some? then None
      else if !s.started then Some(s)
      else Some(s.(accepting := false, stopping := true))
    case Cancels =>
      if s.stopping then Some(s.(cancelled := true)) else None
    case _ => None
  }

  predicate IsWorkerEvent(e: Event) {
    e.Receives? || e.Counts? || e.TimerFires? || e.SeesStop? || e.SeesCancel? ||
    e.ChecksContext? || e.FindsEmpty? || e.FlushReturns? || e.Resolves?
  }

  /** The state after an event, or None where the event cannot happen. */
  ghost function Step(c: Config, s: State, e: Event): Option<State> {
    if IsWorkerEvent(e) then WorkerStep(c, s, e) else ClientStep(c, s, e)
  }

  /** The state after a whole interleaving. */
  ghost function Run(c: Config, events: seq<Event>): Option<State> {
    if events == [] then Some(Initial)
    else
      match Run(c, events[..|events| - 1])
      case None => None
      case Some(s) => Step(c, s, events[|events| - 1])
  }

  // ---- Where the jobs are ----

  function NextJobs(next: Next): seq<Job> {
    if next.ToHand? || next.ToDrainHand? then [next.job] else []
  }

  function WorkerJobs(w: Worker): seq<Job> {
    match w
    case Collecting(batch) => batch
    case Received(batch, job, _) => batch + [job]
    case Flushing(batch, next) => batch + NextJobs(next)
    case Resolving(rest, _, next) => rest + NextJobs(next)
    case Draining(batch) => batch
    case DrainSelect(batch) => batch
    case AbortReceived(job) => [job]
    case _ => []
  }

  function Ids(jobs: seq<Job>): (ids: seq<nat>)
    ensures |ids| == |jobs| && forall i :: 0 <= i < |ids| ==> ids[i] == jobs[i].id
  {
    seq(|jobs|, i requires 0 <= i < |jobs| => jobs[i].id)
  }

  function AnsweredIds(answers: seq<Answer>): (ids: seq<nat>)
    ensures |ids| == |answers| && forall i :: 0 <= i < |ids| ==> ids[i] == answers[i].job.id
  {
    seq(|answers|, i requires 0 <= i < |answers| => answers[i].job.id)
  }

  /** Every place a job can be in, with multiplicity. */
  ghost function Census(s: State): multiset<nat> {
    multiset(Ids(s.queue)) + multiset(Ids(WorkerJobs(s.worker))) + multiset(AnsweredIds(s.answers))
  }

  ghost function InTransit(s: State): nat {
    |s.queue| + (if s.holder.Some? then 1 else 0)
    + (if s.worker.Received? || s.worker.AbortReceived? then 1 else 0)
  }

  // ---- The invariant ----

  /** A batch under construction: within both limits and not yet full. */
  ghost predicate Growing(c: Config, batch: seq<Job>) {
    batch != [] ==> Within(c, batch) && !IsFull(batch, c)
  }

  ghost predicate Within(c: Config, batch: seq<Job>) {
    Events(batch) <= c.maxEvents && |KeySet(Flat(batch))| <= c.maxKeys
  }

  ghost predicate AllAccepted(c: Config, jobs: seq<Job>) {
    forall i :: 0 <= i < |jobs| ==> Accepted(c, jobs[i].request)
  }

  ghost predicate WorkerShape(c: Config, w: Worker) {
    match w
    case Collecting(batch) => batch != [] && Growing(c, batch)
    case Received(batch, _, _) => Growing(c, batch)
    case Flushing(batch, _) => batch != [] && Within(c, batch)
    case Resolving(rest, _, _) => rest != []
    case Draining(batch) => Growing(c, batch)
    case DrainSelect(batch) => Growing(c, batch)
    case _ => true
  }

  /** The worker is on the shutdown path. */
  predicate ShuttingDown(w: Worker) {
    match w
    case Received(_, _, draining) => draining
    case Flushing(_, next) => next.ToDrain? || next.ToDrainHand? || next.ToFinish? || next.ToAbort?
    case Resolving(_, _, next) => next.ToDrain? || next.ToDrainHand? || next.ToFinish? || next.ToAbort?
    case Draining(_) => true
    case DrainSelect(_) => true
    case Aborting => true
    case AbortReceived(_) => true
    case Finished => true
    case _ => false
  }

  /** The worker has found the queue empty for good. */
  predicate QueueSettled(w: Worker) {
    match w
    case Flushing(_, next) => next.ToFinish?
    case Resolving(_, _, next) => next.ToFinish?
    case Finished => true
    case _ => false
  }

  ghost predicate Flags(s: State) {
    && (s.worker.NotStarted? <==> !s.started)
    && (s.accepting <==> s.started && !s.stopping)
    && (s.cancelled ==> s.stopping)
    && (s.stopping ==> s.started)
    && (s.holder.Some? ==> s.accepting)
    && (ShuttingDown(s.worker) ==> s.stopping)
    && (QueueSettled(s.worker) || s.worker.NotStarted? ==> s.queue == [])
  }

  /** This result was sent for this job. */
  ghost predicate WasSent(answers: seq<Answer>, id: nat, outcome: Outcome) {
    exists i :: 0 <= i < |answers| && answers[i].job.id == id && answers[i].outcome == outcome
  }

  ghost predicate Histories(s: State) {
    && (forall id :: id in s.accepted ==> id < s.issued)
    && (forall id :: id in s.responses ==> id < s.issued)
    && (s.holder.Some? ==> s.holder.value.id < s.issued && s.holder.value.id !in s.accepted && s.holder.value.id !in s.responses)
    && (forall id :: id in s.responses && (s.responses[id].Refused? || s.responses[id].NotRunning? || s.responses[id].QueueFull?) ==>
          id !in s.accepted)
    && (forall id :: id in s.responses && s.responses[id].Answered? ==> WasSent(s.answers, id, s.responses[id].outcome))
    && (forall id :: id in s.responses && s.responses[id].GaveUp? ==> id in s.accepted)
  }

  ghost predicate Inv(c: Config, s: State) {
    && Census(s) == multiset(s.accepted)
    && s.depth == InTransit(s)
    && |s.queue| <= c.queueSize
    && WorkerShape(c, s.worker)
    && AllAccepted(c, s.queue) && AllAccepted(c, WorkerJobs(s.worker))
    && (s.holder.Some? ==> Accepted(c, s.holder.value.request))
    && Flags(s)
    && Histories(s)
  }
}
