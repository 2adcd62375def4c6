/** Safety of the batching protocol over every interleaving. */
module ProtocolSafety {
  import opened RedisStore
  import opened Batch
  import opened Merge
  import opened Protocol

  lemma IdsAppend(a: seq<Job>, b: seq<Job>)
    ensures Ids(a + b) == Ids(a) + Ids(b)
  {}

  lemma AbsorbKeepsJobs(c: Config, batch: seq<Job>, job: Job, draining: bool)
    ensures WorkerJobs(Absorb(c, batch, job, draining)) == batch + [job]
    ensures !Absorb(c, batch, job, draining).Received? && !Absorb(c, batch, job, draining).AbortReceived?
    ensures draining <==> ShuttingDown(Absorb(c, batch, job, draining))
    ensures !QueueSettled(Absorb(c, batch, job, draining)) && !Absorb(c, batch, job, draining).NotStarted?
  {
    hide IsFull, Fits;
  }

  lemma ContinueKeepsJobs(c: Config, next: Next)
    ensures WorkerJobs(Continue(c, next)) == NextJobs(next)
    ensures !Continue(c, next).Received? && !Continue(c, next).AbortReceived? && !Continue(c, next).NotStarted?
    ensures QueueSettled(Continue(c, next)) <==> next.ToFinish?
    ensures ShuttingDown(Continue(c, next)) <==> !next.ToIdle? && !next.ToHand?
  {}

  /** A receive moves the head of the queue into the worker's hand. */
  lemma ReceiveMoves(queue: seq<Job>, before: seq<Job>, after: seq<Job>)
    requires queue != [] && after == before + [queue[0]]
    ensures multiset(Ids(queue[1..])) + multiset(Ids(after)) == multiset(Ids(queue)) + multiset(Ids(before))
  {
    assert queue == [queue[0]] + queue[1..];
    IdsAppend([queue[0]], queue[1..]);
    IdsAppend(before, [queue[0]]);
  }

  /** A resolved job moves from the worker into the answers. */
  lemma ResolveMoves(queued: multiset<nat>, rest: seq<Job>, next: seq<Job>, answers: seq<Answer>, outcome: Outcome)
    requires rest != []
    ensures queued + multiset(Ids(rest[1..] + next)) + multiset(AnsweredIds(answers + [Answer(rest[0], outcome)])) ==
            queued + multiset(Ids(rest + next)) + multiset(AnsweredIds(answers))
  {
    assert rest + next == [rest[0]] + (rest[1..] + next);
    IdsAppend([rest[0]], rest[1..] + next);
    assert AnsweredIds(answers + [Answer(rest[0], outcome)]) == AnsweredIds(answers) + [rest[0].id];
  }

  /** What a choice can change: neither the worker's jobs, nor where it counts, but perhaps its phase. */
  lemma ChoiceFacts(c: Config, w: Worker, e: Event, stopping: bool, cancelled: bool, empty: bool)
    requires Choose(w, e, stopping, cancelled, empty).Some?
    ensures var w' := Choose(w, e, stopping, cancelled, empty).value;
            && WorkerJobs(w') == WorkerJobs(w)
            && !w.NotStarted? && !w'.NotStarted?
            && !w.Received? && !w.AbortReceived? && !w'.Received? && !w'.AbortReceived?
            && (ShuttingDown(w') ==> ShuttingDown(w) || stopping || cancelled)
            && (QueueSettled(w') ==> QueueSettled(w) || empty)
            && (WorkerShape(c, w) ==> WorkerShape(c, w'))
  {
    hide IsFull;
  }

  lemma ReceiveFacts(s: State)
    requires Receive(s).Some?
    ensures var s' := Receive(s).value;
            && s.queue != [] && s'.queue == s.queue[1..] && s'.answers == s.answers
            && WorkerJobs(s'.worker) == WorkerJobs(s.worker) + [s.queue[0]]
  {}

  lemma ReceiveCensus(s: State)
    requires Receive(s).Some?
    ensures Census(Receive(s).value) == Census(s)
  {
    var s' := Receive(s).value;
    ReceiveFacts(s);
    hide Receive, Ids, AnsweredIds, WorkerJobs;
    ReceiveMoves(s.queue, WorkerJobs(s.worker), WorkerJobs(s'.worker));
  }

  lemma CountCensus(c: Config, s: State)
    requires Count(c, s).Some?
    ensures Census(Count(c, s).value) == Census(s)
  {
    hide Absorb;
    if s.worker.Received? {
      AbsorbKeepsJobs(c, s.worker.batch, s.worker.job, s.worker.draining);
    }
    assert WorkerJobs(Count(c, s).value.worker) == WorkerJobs(s.worker);
  }

  lemma ResolveCensus(c: Config, s: State)
    requires Resolve(c, s).Some?
    ensures Census(Resolve(c, s).value) == Census(s)
  {
    hide Continue, Ids, AnsweredIds;
    var Resolving(rest, outcome, next) := s.worker;
    ContinueKeepsJobs(c, next);
    ResolveMoves(multiset(Ids(s.queue)), rest, NextJobs(next), s.answers, outcome);
    assert |rest| == 1 ==> rest[1..] == [] && [] + NextJobs(next) == NextJobs(next);
    assert WorkerJobs(Resolve(c, s).value.worker) == rest[1..] + NextJobs(next);
  }

  lemma WorkerCensus(c: Config, s: State, e: Event)
    requires IsWorkerEvent(e) && WorkerStep(c, s, e).Some?
    ensures Census(WorkerStep(c, s, e).value) == Census(s)
  {
    hide Choose, Receive, Count, Resolve;
    if e.Receives? {
      ReceiveCensus(s);
    } else if e.Counts? {
      CountCensus(c, s);
    } else if e.Resolves? {
      ResolveCensus(c, s);
    } else {
      ChoiceFacts(c, s.worker, e, s.stopping, s.cancelled, s.queue == []);
    }
  }

  /** Worker events change nothing a client owns. */
  lemma WorkerFrame(c: Config, s: State, e: Event)
    requires IsWorkerEvent(e) && WorkerStep(c, s, e).Some?
    ensures var s' := WorkerStep(c, s, e).value;
            && s' == s.(depth := s'.depth, queue := s'.queue, worker := s'.worker, answers := s'.answers)
            && s.answers <= s'.answers && |s'.queue| <= |s.queue|
  {
    hide Choose, Receive, Count, Resolve;
    match e
    case Receives => ReceiveFrame(s);
    case Counts => CountFrame(c, s);
    case Resolves => ResolveFrame(c, s);
    case _ =>
  }

  lemma ReceiveFrame(s: State)
    requires Receive(s).Some?
    ensures var s' := Receive(s).value; s' == s.(queue := s'.queue, worker := s'.worker) && |s'.queue| <= |s.queue|
  {}

  lemma CountFrame(c: Config, s: State)
    requires Count(c, s).Some?
    ensures var s' := Count(c, s).value; s' == s.(depth := s'.depth, worker := s'.worker)
  {
    hide Absorb;
  }

  lemma ResolveFrame(c: Config, s: State)
    requires Resolve(c, s).Some?
    ensures var s' := Resolve(c, s).value; s' == s.(worker := s'.worker, answers := s'.answers) && s.answers <= s'.answers
  {
    hide Continue;
  }

  lemma SendCensus(s: State, s': State, job: Job)
    requires s'.queue == s.queue + [job] && s'.worker == s.worker && s'.answers == s.answers && s'.accepted == s.accepted + {job.id}
    requires job.id !in s.accepted && Census(s) == multiset(s.accepted)
    ensures Census(s') == multiset(s'.accepted)
  {
    hide WorkerJobs;
    IdsAppend(s.queue, [job]);
    assert Ids([job]) == [job.id];
    assert multiset(s.accepted + {job.id}) == multiset(s.accepted) + multiset{job.id};
  }

  lemma ClientCensus(c: Config, s: State, e: Event)
    requires !IsWorkerEvent(e) && ClientStep(c, s, e).Some? && Inv(c, s)
    ensures Census(ClientStep(c, s, e).value) == multiset(ClientStep(c, s, e).value.accepted)
  {
    hide WorkerShape, AllAccepted, Accepted, InTransit, Ids, AnsweredIds;
    if e.Sends? {
      SendCensus(s, ClientStep(c, s, e).value, s.holder.value);
    }
  }

  lemma StepKeepsCensus(c: Config, s: State, e: Event)
    requires Inv(c, s) && Step(c, s, e).Some?
    ensures Census(Step(c, s, e).value) == multiset(Step(c, s, e).value.accepted)
  {
    hide Census, WorkerStep, ClientStep, WorkerShape;
    if IsWorkerEvent(e) {
      WorkerCensus(c, s, e);
      WorkerFrame(c, s, e);
    } else {
      ClientCensus(c, s, e);
    }
  }

  lemma StepKeepsDepth(c: Config, s: State, e: Event)
    requires Inv(c, s) && Step(c, s, e).Some?
    ensures Step(c, s, e).value.depth == InTransit(Step(c, s, e).value)
    ensures |Step(c, s, e).value.queue| <= c.queueSize
  {
    hide Absorb, Continue, Census, WorkerShape, AllAccepted, Histories, Choose;
    if s.worker.Received? {
      AbsorbKeepsJobs(c, s.worker.batch, s.worker.job, s.worker.draining);
    } else if s.worker.Resolving? {
      ContinueKeepsJobs(c, s.worker.next);
    }
    if IsWorkerEvent(e) && !e.Receives? && !e.Counts? && !e.Resolves? {
      ChoiceFacts(c, s.worker, e, s.stopping, s.cancelled, s.queue == []);
    }
  }

  lemma StepKeepsFlags(c: Config, s: State, e: Event)
    requires Inv(c, s) && Step(c, s, e).Some?
    ensures Flags(Step(c, s, e).value)
  {
    hide Absorb, Continue, Census, WorkerShape, AllAccepted, Histories, Choose, InTransit;
    if s.worker.Received? {
      AbsorbKeepsJobs(c, s.worker.batch, s.worker.job, s.worker.draining);
    } else if s.worker.Resolving? {
      ContinueKeepsJobs(c, s.worker.next);
    }
    if IsWorkerEvent(e) && !e.Receives? && !e.Counts? && !e.Resolves? {
      ChoiceFacts(c, s.worker, e, s.stopping, s.cancelled, s.queue == []);
    }
  }

  /** A single accepted request fits a batch of its own. */
  lemma SingleFits(c: Config, job: Job)
    requires Accepted(c, job.request)
    ensures Within(c, [job])
  {
    var increments := job.request.increments;
    assert [job][..0] == [];
    assert Flat([job]) == increments && Events([job]) == job.request.events;
    KeySetSize(increments);
  }

  lemma {:induction false} KeySetSize(increments: seq<Increment>)
    ensures |KeySet(increments)| <= |increments|
  {
    if increments != [] {
      var front, last := increments[..|increments| - 1], increments[|increments| - 1];
      KeySetSize(front);
      KeySetExtends(front, last);
      assert increments == front + [last];
    } else {
      EmptyKeySet();
    }
  }

  lemma FitsMeansWithin(c: Config, batch: seq<Job>, job: Job)
    requires Fits(batch, job, c)
    ensures Within(c, batch + [job])
  {
    FlatAppends(batch, job);
    KeySetUnion(Flat(batch), job.request.increments);
  }

  lemma KeySetUnion(a: seq<Increment>, b: seq<Increment>)
    ensures KeySet(a + b) == KeySet(a) + KeySet(b)
  {
    var all := a + b;
    forall k | k in KeySet(a) ensures k in KeySet(all) {
      var i :| 0 <= i < |a| && a[i].key == k;
      assert all[i].key == k;
    }
    forall k | k in KeySet(b) ensures k in KeySet(all) {
      var i :| 0 <= i < |b| && b[i].key == k;
      assert all[|a| + i].key == k;
    }
  }

  lemma AbsorbShape(c: Config, batch: seq<Job>, job: Job, draining: bool)
    requires Growing(c, batch) && Accepted(c, job.request)
    ensures WorkerShape(c, Absorb(c, batch, job, draining))
  {
    if batch == [] {
      SingleFits(c, job);
      assert batch + [job] == [job];
    } else if Fits(batch, job, c) {
      FitsMeansWithin(c, batch, job);
    }
  }

  lemma ContinueShape(c: Config, next: Next)
    requires AllAccepted(c, NextJobs(next))
    ensures WorkerShape(c, Continue(c, next))
  {
    if next.ToHand? || next.ToDrainHand? {
      assert Accepted(c, NextJobs(next)[0].request);
      SingleFits(c, next.job);
    }
  }

  lemma CountShape(c: Config, s: State)
    requires Inv(c, s) && Count(c, s).Some?
    ensures var s' := Count(c, s).value;
            WorkerShape(c, s'.worker) && AllAccepted(c, WorkerJobs(s'.worker)) && s'.queue == s.queue && s'.holder == s.holder
  {
    hide Absorb, Census, Histories, Flags, Accepted, InTransit;
    if s.worker.Received? {
      var Received(batch, job, draining) := s.worker;
      assert WorkerJobs(s.worker)[|batch|] == job;
      AbsorbKeepsJobs(c, batch, job, draining);
      AbsorbShape(c, batch, job, draining);
    }
  }

  lemma ResolveShape(c: Config, s: State)
    requires Inv(c, s) && Resolve(c, s).Some?
    ensures var s' := Resolve(c, s).value;
            WorkerShape(c, s'.worker) && AllAccepted(c, WorkerJobs(s'.worker)) && s'.queue == s.queue && s'.holder == s.holder
  {
    hide Continue, Census, Histories, Flags, Accepted, InTransit;
    var Resolving(rest, _, next) := s.worker;
    ContinueKeepsJobs(c, next);
    var all := rest + NextJobs(next);
    forall i | 0 <= i < |NextJobs(next)| ensures Accepted(c, NextJobs(next)[i].request) {
      assert all[|rest| + i] == NextJobs(next)[i];
    }
    ContinueShape(c, next);
    forall i | 0 <= i < |all| - 1 ensures Accepted(c, (rest[1..] + NextJobs(next))[i].request) {
      assert (rest[1..] + NextJobs(next))[i] == all[i + 1];
    }
  }

  lemma ReceiveShape(c: Config, s: State)
    requires Inv(c, s) && Receive(s).Some?
    ensures var s' := Receive(s).value;
            WorkerShape(c, s'.worker) && AllAccepted(c, WorkerJobs(s'.worker)) && AllAccepted(c, s'.queue) && s'.holder == s.holder
  {
    hide Census, Histories, Flags, Accepted, InTransit, Growing, WorkerJobs;
    ReceiveFacts(s);
    ReceivedShape(c, s);
  }

  lemma ReceivedShape(c: Config, s: State)
    requires WorkerShape(c, s.worker) && Receive(s).Some?
    ensures WorkerShape(c, Receive(s).value.worker) && Receive(s).value.holder == s.holder
  {
    hide IsFull, Within;
  }

  lemma ClientShape(c: Config, s: State, e: Event)
    requires Inv(c, s) && !IsWorkerEvent(e) && ClientStep(c, s, e).Some?
    ensures var s' := ClientStep(c, s, e).value;
            && WorkerShape(c, s'.worker) && AllAccepted(c, s'.queue) && AllAccepted(c, WorkerJobs(s'.worker))
            && (s'.holder.Some? ==> Accepted(c, s'.holder.value.request))
  {
    hide Census, Histories, Flags, Accepted, InTransit, IsFull, Within;
  }

  lemma StepKeepsShape(c: Config, s: State, e: Event)
    requires Inv(c, s) && Step(c, s, e).Some?
    ensures var s' := Step(c, s, e).value;
            && WorkerShape(c, s'.worker) && AllAccepted(c, s'.queue) && AllAccepted(c, WorkerJobs(s'.worker))
            && (s'.holder.Some? ==> Accepted(c, s'.holder.value.request))
  {
    hide Choose, Receive, Count, Resolve, ClientStep, WorkerShape, AllAccepted, Accepted, WorkerJobs;
    if !IsWorkerEvent(e) {
      ClientShape(c, s, e);
    } else if e.Receives? {
      ReceiveShape(c, s);
    } else if e.Counts? {
      CountShape(c, s);
    } else if e.Resolves? {
      ResolveShape(c, s);
    } else {
      ChoiceFacts(c, s.worker, e, s.stopping, s.cancelled, s.queue == []);
    }
  }

  lemma WorkerKeepsHistories(c: Config, s: State, e: Event)
    requires Inv(c, s) && IsWorkerEvent(e) && WorkerStep(c, s, e).Some?
    ensures Histories(WorkerStep(c, s, e).value)
  {
    hide WorkerStep, WorkerShape, AllAccepted, Accepted, InTransit, Census, Flags;
    WorkerFrame(c, s, e);
    var s' := WorkerStep(c, s, e).value;
    forall id | id in s'.responses && s'.responses[id].Answered?
      ensures WasSent(s'.answers, id, s'.responses[id].outcome)
    {
      var i :| 0 <= i < |s.answers| && s.answers[i].job.id == id && s.answers[i].outcome == s.responses[id].outcome;
      assert s'.answers[i] == s.answers[i];
    }
  }

  lemma ClientKeepsHistories(c: Config, s: State, e: Event)
    requires Inv(c, s) && !IsWorkerEvent(e) && ClientStep(c, s, e).Some?
    ensures Histories(ClientStep(c, s, e).value)
  {
    hide WorkerShape, AllAccepted, Accepted, InTransit, Census, Flags, WasSent;
    if e.Returns? {
      AnsweredWasAccepted(s, e.index);
    }
  }

  lemma StepKeepsHistories(c: Config, s: State, e: Event)
    requires Inv(c, s) && Step(c, s, e).Some?
    ensures Histories(Step(c, s, e).value)
  {
    hide Inv, WorkerStep, ClientStep, Histories;
    if IsWorkerEvent(e) {
      WorkerKeepsHistories(c, s, e);
    } else {
      ClientKeepsHistories(c, s, e);
    }
  }

  lemma AnsweredWasAccepted(s: State, i: nat)
    requires Census(s) == multiset(s.accepted) && i < |s.answers|
    ensures s.answers[i].job.id in s.accepted && WasSent(s.answers, s.answers[i].job.id, s.answers[i].outcome)
  {
    assert AnsweredIds(s.answers)[i] in multiset(AnsweredIds(s.answers));
    assert s.answers[i].job.id in Census(s);
  }

  /** Every event of every participant keeps the invariant. */
  lemma StepKeepsInv(c: Config, s: State, e: Event)
    requires Inv(c, s) && Step(c, s, e).Some?
    ensures Inv(c, Step(c, s, e).value)
  {
    hide *;
    StepKeepsCensus(c, s, e);
    StepKeepsDepth(c, s, e);
    StepKeepsFlags(c, s, e);
    StepKeepsShape(c, s, e);
    StepKeepsHistories(c, s, e);
    InvFromParts(c, Step(c, s, e).value);
  }

  lemma InvFromParts(c: Config, s: State)
    requires Census(s) == multiset(s.accepted)
    requires s.depth == InTransit(s) && |s.queue| <= c.queueSize
    requires WorkerShape(c, s.worker) && AllAccepted(c, s.queue) && AllAccepted(c, WorkerJobs(s.worker))
    requires s.holder.Some? ==> Accepted(c, s.holder.value.request)
    requires Flags(s) && Histories(s)
    ensures Inv(c, s)
  {}

  lemma InitialInv(c: Config)
    ensures Inv(c, Initial)
  {}

  lemma {:induction false} RunKeepsInv(c: Config, events: seq<Event>)
    requires Run(c, events).Some?
    ensures Inv(c, Run(c, events).value)
  {
    if events == [] {
      InitialInv(c);
    } else {
      RunKeepsInv(c, events[..|events| - 1]);
      StepKeepsInv(c, Run(c, events[..|events| - 1]).value, events[|events| - 1]);
    }
  }

  // ---- Where jobs come from ----

  /** Every job somewhere between Submit and its answer. */
  ghost function Present(s: State): set<Job> {
    (set j | j in s.queue) + (set j | j in WorkerJobs(s.worker)) + (if s.holder.Some? then {s.holder.value} else {})
  }

  lemma ReceiveInventsNothing(s: State)
    requires Receive(s).Some?
    ensures Present(Receive(s).value) <= Present(s)
  {
    hide WorkerJobs;
    ReceiveFacts(s);
  }

  lemma CountInventsNothing(c: Config, s: State)
    requires Count(c, s).Some?
    ensures Present(Count(c, s).value) <= Present(s)
  {
    hide Absorb;
    if s.worker.Received? {
      AbsorbKeepsJobs(c, s.worker.batch, s.worker.job, s.worker.draining);
    }
  }

  lemma ResolveInventsNothing(c: Config, s: State)
    requires Resolve(c, s).Some?
    ensures Present(Resolve(c, s).value) <= Present(s)
  {
    hide Continue;
    var rest, next := s.worker.rest, s.worker.next;
    ContinueKeepsJobs(c, next);
    assert WorkerJobs(Resolve(c, s).value.worker) == (rest + NextJobs(next))[1..];
  }

  lemma OtherEventsInventNothing(c: Config, s: State, e: Event)
    requires IsWorkerEvent(e) && !e.Receives? && !e.Counts? && !e.Resolves? && WorkerStep(c, s, e).Some?
    ensures Present(WorkerStep(c, s, e).value) <= Present(s)
  {
    hide Choose, WorkerJobs;
    ChoiceFacts(c, s.worker, e, s.stopping, s.cancelled, s.queue == []);
  }

  lemma ClientsInvent(c: Config, s: State, e: Event)
    requires Flags(s) && !IsWorkerEvent(e) && ClientStep(c, s, e).Some?
    ensures Present(ClientStep(c, s, e).value) <= Present(s) + (if e.Enters? then {Job(s.issued, e.request)} else {})
  {
    hide Accepted;
  }

  /** No step invents a job: only Submit brings one in. */
  lemma StepInventsNothing(c: Config, s: State, e: Event)
    requires Flags(s) && Step(c, s, e).Some?
    ensures Present(Step(c, s, e).value) <= Present(s) + (if e.Enters? then {Job(s.issued, e.request)} else {})
  {
    hide Receive, Count, Resolve, ClientStep, Choose, Present, Flags;
    if !IsWorkerEvent(e) {
      ClientsInvent(c, s, e);
    } else if e.Receives? {
      ReceiveInventsNothing(s);
    } else if e.Counts? {
      CountInventsNothing(c, s);
    } else if e.Resolves? {
      ResolveInventsNothing(c, s);
    } else {
      OtherEventsInventNothing(c, s, e);
    }
  }

  lemma FlushedJobsArePresent(s: State)
    requires s.worker.Flushing?
    ensures forall i :: 0 <= i < |s.worker.batch| ==> s.worker.batch[i] in Present(s)
  {
    var jobs := WorkerJobs(s.worker);
    forall i | 0 <= i < |s.worker.batch|
      ensures s.worker.batch[i] in Present(s)
    {
      assert jobs[i] == s.worker.batch[i];
      assert s.worker.batch[i] in jobs;
    }
  }
}
