/**
 Exactly-once accounting over every run: which requests were applied for each answer, and
 that every unexpired counter holds its initial value plus exactly the applied requests.
 */
module LedgerTheorems {
  import opened Wrappers
  import opened GoTypes
  import opened Redis
  import opened CounterScript
  import opened RedisStore
  import opened Batch
  import opened Merge
  import opened Flush
  import opened Ledger
  import P = Protocol
  import S = ProtocolSafety
  import D = Decimal

  // ---- Which results have been or are being sent ----

  /** What an outcome says about the store: written for sure, possibly written, never written. */
  datatype Kind = Sure | Possible | Never

  predicate Says(outcome: P.Outcome, kind: Kind) {
    match kind
    case Sure => outcome.Acknowledged?
    case Possible => outcome.Acknowledged? || outcome.Unknown?
    case Never => outcome.NotWritten? || outcome.Stopped?
  }

  ghost function Sent(answers: seq<P.Answer>, kind: Kind): multiset<nat> {
    if answers == [] then multiset{}
    else
      var last := answers[|answers| - 1];
      Sent(answers[..|answers| - 1], kind) + if Says(last.outcome, kind) then multiset{last.job.id} else multiset{}
  }

  /** Jobs the worker is answering with one of these outcomes. */
  ghost function Held(w: P.Worker, kind: Kind): multiset<nat> {
    if w.Resolving? && Says(w.outcome, kind) then multiset(P.Ids(w.rest)) else multiset{}
  }

  ghost function Told(s: P.State, kind: Kind): multiset<nat> {
    Held(s.worker, kind) + Sent(s.answers, kind)
  }

  lemma {:induction false} SentSplits(answers: seq<P.Answer>)
    ensures Sent(answers, Possible) + Sent(answers, Never) == multiset(P.AnsweredIds(answers))
  {
    if answers != [] {
      var front, last := answers[..|answers| - 1], answers[|answers| - 1];
      SentSplits(front);
      assert P.AnsweredIds(answers) == P.AnsweredIds(front) + [last.job.id];
      assert Says(last.outcome, Possible) <==> !Says(last.outcome, Never);
    } else {
      assert P.AnsweredIds(answers) == [];
    }
  }

  lemma SentAppends(answers: seq<P.Answer>, a: P.Answer, kind: Kind)
    ensures Sent(answers + [a], kind) == Sent(answers, kind) + if Says(a.outcome, kind) then multiset{a.job.id} else multiset{}
  {
    assert (answers + [a])[..|answers|] == answers;
  }

  /** Jobs told a possible success, jobs told they were never written, and nothing counted twice. */
  lemma ToldWithinCensus(s: P.State)
    ensures Told(s, Possible) + Told(s, Never) <= P.Census(s)
  {
    hide P.Ids, P.AnsweredIds, Sent;
    SentSplits(s.answers);
    if s.worker.Resolving? {
      S.IdsAppend(s.worker.rest, P.NextJobs(s.worker.next));
    }
  }

  lemma ResolveKeepsTold(c: Config, s: P.State, kind: Kind)
    requires P.Resolve(c, s).Some?
    ensures Told(P.Resolve(c, s).value, kind) == Told(s, kind)
  {
    hide P.Continue, P.Ids, Sent;
    var rest, outcome, next := s.worker.rest, s.worker.outcome, s.worker.next;
    ContinueResolvesNothing(c, next);
    SentAppends(s.answers, P.Answer(rest[0], outcome), kind);
    S.IdsAppend([rest[0]], rest[1..]);
    assert rest == [rest[0]] + rest[1..];
    SingleId(rest[0]);
    if |rest| == 1 {
      assert rest[1..] == [];
      NoIds();
    }
  }

  lemma SingleId(job: Job)
    ensures P.Ids([job]) == [job.id]
  {}

  lemma NoIds()
    ensures P.Ids([]) == []
  {}

  lemma ContinueResolvesNothing(c: Config, next: P.Next)
    ensures !P.Continue(c, next).Resolving?
  {}

  lemma AbsorbResolvesNothing(c: Config, batch: seq<Job>, job: Job, draining: bool)
    ensures !P.Absorb(c, batch, job, draining).Resolving?
  {
    hide IsFull, Fits;
  }

  lemma ChoiceTells(w: P.Worker, e: P.Event, stopping: bool, cancelled: bool, empty: bool, kind: Kind)
    requires P.Choose(w, e, stopping, cancelled, empty).Some? && kind != Never
    ensures Held(P.Choose(w, e, stopping, cancelled, empty).value, kind) ==
            if e.FlushReturns? && Says(e.outcome, kind) then multiset(P.Ids(w.batch)) else multiset{}
    ensures Held(w, kind) == multiset{}
  {
    hide P.Ids;
  }

  lemma ClientTells(c: Config, s: P.State, e: P.Event, kind: Kind)
    requires P.Flags(s) && !P.IsWorkerEvent(e) && P.ClientStep(c, s, e).Some?
    ensures Told(P.ClientStep(c, s, e).value, kind) == Told(s, kind)
  {
    hide P.Ids, Sent, Accepted;
  }

  lemma ReceiveTells(s: P.State, kind: Kind)
    requires P.Receive(s).Some?
    ensures Told(P.Receive(s).value, kind) == Told(s, kind)
  {
    hide P.Ids, Sent;
  }

  lemma CountTells(c: Config, s: P.State, kind: Kind)
    requires P.Count(c, s).Some? && kind != Never
    ensures Told(P.Count(c, s).value, kind) == Told(s, kind)
  {
    hide P.Ids, Sent, P.Absorb;
    if s.worker.Received? {
      AbsorbResolvesNothing(c, s.worker.batch, s.worker.job, s.worker.draining);
    }
  }

  lemma OtherTells(c: Config, s: P.State, e: P.Event, kind: Kind)
    requires P.IsWorkerEvent(e) && !e.Receives? && !e.Counts? && !e.Resolves?
    requires P.WorkerStep(c, s, e).Some? && kind != Never
    ensures e.FlushReturns? ==> s.worker.Flushing?
    ensures Told(P.WorkerStep(c, s, e).value, kind) ==
            Told(s, kind) + if e.FlushReturns? && Says(e.outcome, kind) then multiset(P.Ids(s.worker.batch)) else multiset{}
  {
    hide P.Choose, P.Ids, Sent, Held;
    ChoiceTells(s.worker, e, s.stopping, s.cancelled, s.queue == [], kind);
    if e.FlushReturns? {
      FlushReturnsFromFlushing(s.worker, e, s.stopping, s.cancelled, s.queue == []);
    }
  }

  /** Only a returning flush tells anyone anything new about the store. */
  lemma StepTells(c: Config, s: P.State, e: P.Event, kind: Kind)
    requires P.Flags(s) && P.Step(c, s, e).Some? && kind != Never
    ensures e.FlushReturns? ==> s.worker.Flushing?
    ensures Told(P.Step(c, s, e).value, kind) ==
            Told(s, kind) + if e.FlushReturns? && Says(e.outcome, kind) then multiset(P.Ids(s.worker.batch)) else multiset{}
  {
    hide P.Choose, P.Receive, P.Count, P.Resolve, P.ClientStep, P.Ids, P.Flags, Told;
    if !P.IsWorkerEvent(e) {
      ClientTells(c, s, e, kind);
    } else if e.Resolves? {
      ResolveKeepsTold(c, s, kind);
    } else if e.Counts? {
      CountTells(c, s, kind);
    } else if e.Receives? {
      ReceiveTells(s, kind);
    } else {
      OtherTells(c, s, e, kind);
    }
  }

  lemma FlushReturnsFromFlushing(w: P.Worker, e: P.Event, stopping: bool, cancelled: bool, empty: bool)
    requires P.Choose(w, e, stopping, cancelled, empty).Some? && e.FlushReturns?
    ensures w.Flushing?
  {}

  // ---- The invariant ----

  /** The requests posted to one process. */
  ghost function IdsAt(posted: seq<Posted>, host: nat): multiset<nat> {
    if posted == [] then multiset{}
    else
      var last := posted[|posted| - 1];
      IdsAt(posted[..|posted| - 1], host) + if last.host == host then multiset{last.job.id} else multiset{}
  }

  /** Per process: wholly written at least what was told so, written at all at most what was told to be possible. */
  ghost predicate Sandwich(b: Book, host: nat)
    requires host < |b.fleet|
  {
    && Told(b.fleet[host].s, Sure) <= IdsAt(b.applied, host)
    && IdsAt(b.applied, host) + IdsAt(b.torn, host) <= Told(b.fleet[host].s, Possible)
  }

  ghost predicate Balanced(b: Book, db0: Db, now0: int) {
    b.exact ==>
      && b.torn == []
      && forall k: string :: k !in b.expired && Counter(db0, now0, k).Some? ==>
           Counter(b.db, b.now, k) == Some(Counter(db0, now0, k).value + KeyTotal(Flat(JobsOf(b.applied)), k))
  }

  ghost predicate FleetInv(b: Book) {
    && (forall p :: 0 <= p < |b.fleet| ==> P.Inv(b.fleet[p].config, b.fleet[p].s) && Sandwich(b, p))
    && (forall p :: p >= |b.fleet| ==> IdsAt(b.applied, p) == multiset{} && IdsAt(b.torn, p) == multiset{})
  }

  ghost predicate BookInv(b: Book, db0: Db, now0: int) {
    FleetInv(b) && Balanced(b, db0, now0)
  }

  // ---- Preservation ----

  lemma {:induction false} FlatConcat(a: seq<Job>, b: seq<Job>)
    ensures Flat(a + b) == Flat(a) + Flat(b)
  {
    if b == [] {
      assert a + b == a;
    } else {
      FlatConcat(a, b[..|b| - 1]);
      assert (a + b)[..|a + b| - 1] == a + b[..|b| - 1];
    }
  }

  lemma {:induction false} KeyTotalConcat(a: seq<Increment>, b: seq<Increment>, k: string)
    ensures KeyTotal(a + b, k) == KeyTotal(a, k) + KeyTotal(b, k)
  {
    if b == [] {
      assert a + b == a;
    } else {
      KeyTotalConcat(a, b[..|b| - 1], k);
      assert (a + b)[..|a + b| - 1] == a + b[..|b| - 1];
    }
  }

  /** The counter a committed batch leaves, unless its expiry has already passed. */
  lemma CommittedCounter(flat: seq<Increment>, db: Db, db': Db, now: int, k: string)
    requires KeyCommitted(flat, db, db', now, k)
    requires k in KeySet(flat) ==> k in db'
    requires Counter(db, now, k).Some?
    ensures Counter(db', now, k) == Some(Counter(db, now, k).value + KeyTotal(flat, k))
  {
    hide KeyTotal, D.ValidUint, D.Render;
    if k in KeySet(flat) {
      var e :| HoldsSum(flat, db, db', now, k, e);
      var n := Counter(db, now, k).value + KeyTotal(flat, k);
      D.ValidUintOfRender(n);
      D.RenderIsCanonical(n);
    } else {
      KeyTotalOutside(flat, k);
    }
  }

  lemma IdsAtAppends(posted: seq<Posted>, last: Posted, p: nat)
    ensures IdsAt(posted + [last], p) == IdsAt(posted, p) + if last.host == p then multiset{last.job.id} else multiset{}
  {
    assert (posted + [last])[..|posted|] == posted;
  }

  lemma IdsOfMore(front: seq<Job>, last: Job)
    ensures multiset(P.Ids(front + [last])) == multiset(P.Ids(front)) + multiset{last.id}
  {
    S.IdsAppend(front, [last]);
    SingleId(last);
  }

  lemma {:induction false} IdsAtTagged(posted: seq<Posted>, host: nat, jobs: seq<Job>, p: nat)
    ensures IdsAt(posted + Tag(host, jobs), p) == IdsAt(posted, p) + if p == host then multiset(P.Ids(jobs)) else multiset{}
  {
    hide P.Ids, IdsAt;
    if jobs == [] {
      assert posted + Tag(host, jobs) == posted;
      NoIds();
    } else {
      var front, last := jobs[..|jobs| - 1], jobs[|jobs| - 1];
      IdsAtTagged(posted, host, front, p);
      assert posted + Tag(host, jobs) == (posted + Tag(host, front)) + [Posted(host, last)];
      IdsAtAppends(posted + Tag(host, front), Posted(host, last), p);
      IdsOfMore(front, last);
      assert jobs == front + [last];
    }
  }

  lemma JobsOfTagged(posted: seq<Posted>, host: nat, jobs: seq<Job>)
    ensures JobsOf(posted + Tag(host, jobs)) == JobsOf(posted) + jobs
  {}

  /** The batch in Apply consists of validated requests. */
  lemma BatchAccepted(c: Config, s: P.State)
    requires P.Inv(c, s) && s.worker.Flushing?
    ensures P.AllAccepted(c, s.worker.batch) && P.Within(c, s.worker.batch) && s.worker.batch != []
  {
    hide P.Census, P.InTransit, P.Flags, P.Histories, Accepted, Events, Flat;
    var batch, jobs := s.worker.batch, P.WorkerJobs(s.worker);
    forall i | 0 <= i < |batch|
      ensures Accepted(c, batch[i].request)
    {
      assert jobs[i] == batch[i];
    }
  }

  lemma WriteKeepsBalance(b: Book, m: Move, db0: Db, now0: int)
    requires BookInv(b, db0, now0) && m.Flushes? && m.wrote && Take(b, m).Some?
    ensures Balanced(Take(b, m).value, db0, now0)
  {
    hide CounterScript.Run, Lists, Encodes, Counter, KeySet, Flat, KeyTotal, P.Step, P.Inv, Sandwich, Exact, KeyCommitted, JobsOf, Tag;
    var c, s := b.fleet[m.host].config, b.fleet[m.host].s;
    var batch := s.worker.batch;
    var flat, b' := Flat(batch), Take(b, m).value;
    if b'.exact {
      BatchAccepted(c, s);
      FlatPositive(c, batch);
      CommitExact(flat, m.increments, m.command, b.db, b.now);
      JobsOfTagged(b.applied, m.host, batch);
      FlatConcat(JobsOf(b.applied), batch);
      forall k: string | k !in b'.expired && Counter(db0, now0, k).Some?
        ensures Counter(b'.db, b'.now, k) == Some(Counter(db0, now0, k).value + KeyTotal(Flat(JobsOf(b'.applied)), k))
      {
        assert KeyCommitted(flat, b.db, b'.db, b.now, k);
        CommittedCounter(flat, b.db, b'.db, b.now, k);
        KeyTotalConcat(Flat(JobsOf(b.applied)), flat, k);
      }
    }
  }

  lemma {:induction false} EventsPositive(c: Config, jobs: seq<Job>)
    requires P.AllAccepted(c, jobs)
    ensures Events(jobs) >= |jobs|
  {
    if jobs != [] {
      EventsPositive(c, jobs[..|jobs| - 1]);
      assert Accepted(c, jobs[|jobs| - 1].request);
    }
  }

  lemma PassKeepsBalance(b: Book, delay: nat, db0: Db, now0: int)
    requires Balanced(b, db0, now0)
    ensures Balanced(b.(now := b.now + delay, expired := b.expired + Gone(b.db, b.now + delay)), db0, now0)
  {
    hide KeyTotal, Flat, D.ValidUint, JobsOf;
  }

  /** A step of one process that tells nothing about the store. */
  lemma InternalKeepsFleet(b: Book, m: Move)
    requires FleetInv(b) && m.Internal? && Take(b, m).Some?
    ensures FleetInv(Take(b, m).value)
  {
    hide P.Step, P.Inv, Told, IdsAt;
    var c, s := b.fleet[m.host].config, b.fleet[m.host].s;
    FlagsOf(c, s);
    StepTells(c, s, m.e, Sure);
    StepTells(c, s, m.e, Possible);
    S.StepKeepsInv(c, s, m.e);
    var b' := Take(b, m).value;
    forall p | 0 <= p < |b'.fleet|
      ensures P.Inv(b'.fleet[p].config, b'.fleet[p].s) && Sandwich(b', p)
    {
      assert P.Inv(b.fleet[p].config, b.fleet[p].s) && Sandwich(b, p);
    }
  }

  lemma FlagsOf(c: Config, s: P.State)
    requires P.Inv(c, s)
    ensures P.Flags(s)
  {}

  /** Only one process moved. */
  lemma OneMoved(b: Book, b': Book, host: nat, s': P.State)
    requires FleetInv(b) && host < |b.fleet| && b'.fleet == b.fleet[host := b.fleet[host].(s := s')]
    requires P.Inv(b.fleet[host].config, s') && Sandwich(b', host)
    requires forall p: nat :: p != host ==> IdsAt(b'.applied, p) == IdsAt(b.applied, p) && IdsAt(b'.torn, p) == IdsAt(b.torn, p)
    ensures FleetInv(b')
  {
    hide P.Inv, IdsAt, Told;
    forall p | 0 <= p < |b'.fleet|
      ensures P.Inv(b'.fleet[p].config, b'.fleet[p].s) && Sandwich(b', p)
    {
      assert P.Inv(b.fleet[p].config, b.fleet[p].s) && Sandwich(b, p);
    }
  }

  /** What a returning flush tells its process. */
  lemma FlushTells(c: Config, s: P.State, outcome: P.Outcome)
    requires P.Inv(c, s) && P.Step(c, s, P.FlushReturns(outcome)).Some?
    ensures s.worker.Flushing?
    ensures var s', ids := P.Step(c, s, P.FlushReturns(outcome)).value, multiset(P.Ids(s.worker.batch));
            && P.Inv(c, s')
            && Told(s', Sure) == Told(s, Sure) + (if outcome.Acknowledged? then ids else multiset{})
            && Told(s', Possible) == Told(s, Possible) + (if outcome.Acknowledged? || outcome.Unknown? then ids else multiset{})
  {
    hide P.Step, P.Inv, Told, P.Ids;
    FlagsOf(c, s);
    StepTells(c, s, P.FlushReturns(outcome), Sure);
    StepTells(c, s, P.FlushReturns(outcome), Possible);
    S.StepKeepsInv(c, s, P.FlushReturns(outcome));
  }

  lemma FlushKeepsFleet(b: Book, m: Move)
    requires FleetInv(b) && m.Flushes? && Take(b, m).Some?
    ensures FleetInv(Take(b, m).value)
  {
    hide P.Step, P.Inv, Told, IdsAt, CounterScript.Run, Lists, Encodes, P.Ids, Flat, KeySet, Exact, Tag;
    var host, b' := m.host, Take(b, m).value;
    var c, s := b.fleet[host].config, b.fleet[host].s;
    assert P.Inv(c, s) && Sandwich(b, host);
    FlushTells(c, s, m.outcome);
    var batch := s.worker.batch;
    forall p: nat
      ensures IdsAt(b.applied + Tag(host, batch), p) == IdsAt(b.applied, p) + if p == host then multiset(P.Ids(batch)) else multiset{}
      ensures IdsAt(b.torn + Tag(host, batch), p) == IdsAt(b.torn, p) + if p == host then multiset(P.Ids(batch)) else multiset{}
    {
      IdsAtTagged(b.applied, host, batch, p);
      IdsAtTagged(b.torn, host, batch, p);
    }
    OneMoved(b, b', host, b'.fleet[host].s);
  }

  lemma StartKeepsFleet(b: Book, config: Config)
    requires FleetInv(b)
    ensures FleetInv(b.(fleet := b.fleet + [Updater(config, P.Initial)]))
  {
    var b' := b.(fleet := b.fleet + [Updater(config, P.Initial)]);
    hide P.Inv, IdsAt, Told;
    S.InitialInv(config);
    NothingTold();
    forall p | 0 <= p < |b'.fleet|
      ensures P.Inv(b'.fleet[p].config, b'.fleet[p].s) && Sandwich(b', p)
    {
      if p < |b.fleet| {
        assert P.Inv(b.fleet[p].config, b.fleet[p].s) && Sandwich(b, p);
      }
    }
  }

  lemma NothingTold()
    ensures Told(P.Initial, Sure) == Told(P.Initial, Possible) == multiset{}
  {}

  /** Every move keeps the books: nothing is written twice, lost to an answer, or miscounted. */
  lemma MoveKeepsBookInv(b: Book, m: Move, db0: Db, now0: int)
    requires BookInv(b, db0, now0) && Take(b, m).Some?
    ensures BookInv(Take(b, m).value, db0, now0)
  {
    hide BookInv, FlushEffect, Write, P.Step;
    match m
    case Starts(config) =>
      StartKeepsBookInv(b, config, db0, now0);
    case Internal(_, _) =>
      InternalKeepsBookInv(b, m, db0, now0);
    case Flushes(_, _, _, _, _) =>
      FlushKeepsBookInv(b, m, db0, now0);
    case Passes(delay) =>
      PassKeepsBookInv(b, delay, db0, now0);
  }

  lemma StartKeepsBookInv(b: Book, config: Config, db0: Db, now0: int)
    requires BookInv(b, db0, now0)
    ensures BookInv(b.(fleet := b.fleet + [Updater(config, P.Initial)]), db0, now0)
  {
    hide FleetInv, Balanced;
    StartKeepsFleet(b, config);
    SameBalance(b, b.(fleet := b.fleet + [Updater(config, P.Initial)]), db0, now0);
  }

  lemma InternalKeepsBookInv(b: Book, m: Move, db0: Db, now0: int)
    requires BookInv(b, db0, now0) && m.Internal? && Take(b, m).Some?
    ensures BookInv(Take(b, m).value, db0, now0)
  {
    hide FleetInv, Balanced, P.Step;
    InternalKeepsFleet(b, m);
    SameBalance(b, Take(b, m).value, db0, now0);
  }

  lemma FlushKeepsBookInv(b: Book, m: Move, db0: Db, now0: int)
    requires BookInv(b, db0, now0) && m.Flushes? && Take(b, m).Some?
    ensures BookInv(Take(b, m).value, db0, now0)
  {
    hide FleetInv, Balanced, P.Step, FlushEffect, Write;
    FlushKeepsFleet(b, m);
    if m.wrote {
      WriteKeepsBalance(b, m, db0, now0);
    } else {
      SameBalance(b, Take(b, m).value, db0, now0);
    }
  }

  lemma PassKeepsBookInv(b: Book, delay: nat, db0: Db, now0: int)
    requires BookInv(b, db0, now0)
    ensures BookInv(b.(now := b.now + delay, expired := b.expired + Gone(b.db, b.now + delay)), db0, now0)
  {
    hide Balanced, Gone, P.Inv;
    PassKeepsBalance(b, delay, db0, now0);
    SameFleet(b, b.(now := b.now + delay, expired := b.expired + Gone(b.db, b.now + delay)));
  }

  lemma SameFleet(b: Book, b': Book)
    requires FleetInv(b) && b'.fleet == b.fleet && b'.applied == b.applied && b'.torn == b.torn
    ensures FleetInv(b')
  {
    hide P.Inv, IdsAt, Told;
    forall p | 0 <= p < |b'.fleet|
      ensures Sandwich(b', p)
    {
      assert Sandwich(b, p);
    }
  }

  lemma SameBalance(b: Book, b': Book, db0: Db, now0: int)
    requires Balanced(b, db0, now0) && b' == b.(fleet := b'.fleet)
    ensures Balanced(b', db0, now0)
  {}

  lemma OpeningInv(db0: Db, now0: int)
    ensures BookInv(Opening(db0, now0), db0, now0)
  {
    assert JobsOf([]) == [];
  }

  lemma {:induction false} PlayKeepsBookInv(db0: Db, now0: int, moves: seq<Move>)
    requires Play(db0, now0, moves).Some?
    ensures BookInv(Play(db0, now0, moves).value, db0, now0)
  {
    hide BookInv, Take;
    if moves == [] {
      OpeningInv(db0, now0);
    } else {
      PlayKeepsBookInv(db0, now0, moves[..|moves| - 1]);
      MoveKeepsBookInv(Play(db0, now0, moves[..|moves| - 1]).value, moves[|moves| - 1], db0, now0);
    }
  }

  // ---- What every run guarantees ----

  lemma {:induction false} SentContains(answers: seq<P.Answer>, i: nat, kind: Kind)
    requires i < |answers| && Says(answers[i].outcome, kind)
    ensures Sent(answers, kind)[answers[i].job.id] >= 1
  {
    if i < |answers| - 1 {
      SentContains(answers[..|answers| - 1], i, kind);
    }
  }

  /** How often a request of one process was written, wholly or in part. */
  ghost function TimesApplied(b: Book, host: nat, id: nat): nat {
    IdsAt(b.applied, host)[id]
  }

  ghost function TimesTorn(b: Book, host: nat, id: nat): nat {
    IdsAt(b.torn, host)[id]
  }

  /**
   Exactly once, and wholly, for an acknowledged request; not at all for one that was refused,
   turned away, stopped or answered with an error that is not ambiguous; at most once, if only
   in part, for any other. No request Submit accepts is left out.
   */
  lemma ExactlyOnce(db0: Db, now0: int, moves: seq<Move>, host: nat, id: nat)
    requires Play(db0, now0, moves).Some? && host < |Play(db0, now0, moves).value.fleet|
    ensures var b := Play(db0, now0, moves).value;
            var responses := b.fleet[host].s.responses;
            && TimesApplied(b, host, id) + TimesTorn(b, host, id) <= 1
            && (id in responses ==>
                  match responses[id]
                  case Answered(Acknowledged) => TimesApplied(b, host, id) == 1
                  case Answered(Unknown) => true
                  case GaveUp => true
                  case _ => TimesApplied(b, host, id) == 0 && TimesTorn(b, host, id) == 0)
  {
    hide Play, Sent, Held, P.Ids, Balanced, P.Inv, IdsAt, P.Census, Told;
    PlayKeepsBookInv(db0, now0, moves);
    var b := Play(db0, now0, moves).value;
    var s := b.fleet[host].s;
    assert P.Inv(b.fleet[host].config, s) && Sandwich(b, host);
    ToldAtMostOnce(b.fleet[host].config, s, id);
  }

  /** What one process told about one request. */
  lemma ToldAtMostOnce(c: Config, s: P.State, id: nat)
    requires P.Inv(c, s)
    ensures Told(s, Possible)[id] <= 1
    ensures id in s.responses ==>
              match s.responses[id]
              case Answered(Acknowledged) => Told(s, Sure)[id] >= 1
              case Answered(Unknown) => true
              case GaveUp => true
              case _ => Told(s, Possible)[id] == 0
  {
    hide Sent, Held, P.Ids, P.WorkerShape, P.Flags, P.InTransit, P.AllAccepted;
    ToldWithinCensus(s);
    assert P.Census(s)[id] == multiset(s.accepted)[id] <= 1;
    hide P.Census;
    if id in s.responses && s.responses[id].Answered? {
      var i :| 0 <= i < |s.answers| && s.answers[i].job.id == id && s.answers[i].outcome == s.responses[id].outcome;
      match s.answers[i].outcome
      case Acknowledged => SentContains(s.answers, i, Sure);
      case Unknown =>
      case NotWritten => SentContains(s.answers, i, Never);
      case Stopped => SentContains(s.answers, i, Never);
    }
  }

  /**
   Every counter that never expired holds its initial value plus the deltas of exactly the
   applied requests, as long as every batch the script wrote was an exact one.
   */
  lemma CountersHoldAppliedRequests(db0: Db, now0: int, moves: seq<Move>, key: string)
    requires Play(db0, now0, moves).Some? && Play(db0, now0, moves).value.exact && Counter(db0, now0, key).Some?
    requires key !in Play(db0, now0, moves).value.expired
    ensures var b := Play(db0, now0, moves).value;
            b.torn == [] && Counter(b.db, b.now, key) == Some(Counter(db0, now0, key).value + KeyTotal(Flat(JobsOf(b.applied)), key))
  {
    hide Play, FleetInv, Counter, KeyTotal, Flat, JobsOf;
    PlayKeepsBookInv(db0, now0, moves);
  }

  // ---- Runs whose requests all have a property ----

  /** Every request posted during the run has the property. */
  ghost predicate Posts(db0: Db, now0: int, moves: seq<Move>, good: (nat, Job) -> bool) {
    moves == [] ||
    (Posts(db0, now0, moves[..|moves| - 1], good) &&
     match Play(db0, now0, moves[..|moves| - 1])
     case None => true
     case Some(b) =>
       var m := moves[|moves| - 1];
       m.Internal? && m.e.Enters? && m.host < |b.fleet| ==> good(m.host, Job(b.fleet[m.host].s.issued, m.e.request)))
  }

  ghost predicate AllGood(b: Book, good: (nat, Job) -> bool) {
    && (forall p, j :: 0 <= p < |b.fleet| && j in S.Present(b.fleet[p].s) ==> good(p, j))
    && (forall i :: 0 <= i < |b.applied| ==> good(b.applied[i].host, b.applied[i].job))
  }

  lemma InternalKeepsGood(b: Book, m: Move, good: (nat, Job) -> bool)
    requires FleetInv(b) && AllGood(b, good) && m.Internal? && Take(b, m).Some?
    requires m.e.Enters? ==> good(m.host, Job(b.fleet[m.host].s.issued, m.e.request))
    ensures AllGood(Take(b, m).value, good)
  {
    hide P.Step, P.Inv, S.Present, Sandwich;
    var c, s := b.fleet[m.host].config, b.fleet[m.host].s;
    FlagsOf(c, s);
    S.StepInventsNothing(c, s, m.e);
  }

  lemma FlushKeepsGood(b: Book, m: Move, good: (nat, Job) -> bool)
    requires FleetInv(b) && AllGood(b, good) && m.Flushes? && Take(b, m).Some?
    ensures AllGood(Take(b, m).value, good)
  {
    hide P.Step, P.Inv, S.Present, Sandwich, CounterScript.Run, Lists, Encodes, Flat, KeySet, Exact;
    var c, s := b.fleet[m.host].config, b.fleet[m.host].s;
    FlagsOf(c, s);
    S.StepInventsNothing(c, s, P.FlushReturns(m.outcome));
    S.FlushedJobsArePresent(s);
  }

  lemma NobodyPresent()
    ensures S.Present(P.Initial) == {}
  {}

  lemma {:induction false} PlayKeepsGood(db0: Db, now0: int, moves: seq<Move>, good: (nat, Job) -> bool)
    requires Play(db0, now0, moves).Some? && Posts(db0, now0, moves, good)
    ensures AllGood(Play(db0, now0, moves).value, good)
  {
    hide FleetInv, Balanced, S.Present, P.Step, FlushEffect, Write;
    if moves != [] {
      var front, m := moves[..|moves| - 1], moves[|moves| - 1];
      var b := Play(db0, now0, front).value;
      PlayKeepsGood(db0, now0, front, good);
      PlayKeepsBookInv(db0, now0, front);
      match m
      case Internal(_, _) => InternalKeepsGood(b, m, good);
      case Flushes(_, _, _, _, _) => FlushKeepsGood(b, m, good);
      case Starts(_) => NobodyPresent();
      case Passes(_) =>
    }
  }

  ghost predicate OnlyTimely(good: (nat, Job) -> bool) {
    forall p: nat, j: Job :: good(p, j) ==> Timely(j.request)
  }

  lemma GoodBatchIsExact(b: Book, host: nat, good: (nat, Job) -> bool)
    requires FleetInv(b) && AllGood(b, good) && OnlyTimely(good) && host < |b.fleet| && b.fleet[host].s.worker.Flushing?
    ensures Exact(Flat(b.fleet[host].s.worker.batch))
  {
    hide P.Inv, S.Present, Sandwich, Timely, Exact, Events, Flat, Counted;
    var c, s := b.fleet[host].config, b.fleet[host].s;
    BatchAccepted(c, s);
    S.FlushedJobsArePresent(s);
    TimelyJobs(c, s.worker.batch);
    TimelyIsExact(s.worker.batch);
  }

  /** Where all requests are like ingest's, every batch is exact: no counter is ever off. */
  lemma {:induction false} TimelyRunsAreExact(db0: Db, now0: int, moves: seq<Move>, good: (nat, Job) -> bool)
    requires Play(db0, now0, moves).Some? && Posts(db0, now0, moves, good) && OnlyTimely(good)
    ensures Play(db0, now0, moves).value.exact
  {
    hide FleetInv, Balanced, AllGood, OnlyTimely, P.Step, FlushEffect, Exact, CounterScript.Run, Flat, KeySet;
    if moves != [] {
      var front, m := moves[..|moves| - 1], moves[|moves| - 1];
      TimelyRunsAreExact(db0, now0, front, good);
      PlayKeepsGood(db0, now0, front, good);
      PlayKeepsBookInv(db0, now0, front);
      if m.Flushes? {
        GoodBatchIsExact(Play(db0, now0, front).value, m.host, good);
      }
    }
  }

  // ---- The imperative flush is such a move ----

  /** What a job is told for each answer of Apply: never that it was stopped. */
  function OutcomeOf(r: Result<(), ApplyError>): (o: P.Outcome)
    ensures (o.Acknowledged? <==> r.Ok?) && (o.Unknown? <==> r == Err(Ambiguous)) && !o.Stopped?
  {
    match r
    case Ok(_) => P.Acknowledged
    case Err(Ambiguous) => P.Unknown
    case Err(_) => P.NotWritten
  }

  /** Whatever Apply does with a batch is a move of the ledger. */
  lemma ApplyIsAMove(host: nat, jobs: seq<Job>, increments: seq<Increment>, r: Result<(), ApplyError>, db: Db, db': Db, now: int)
    returns (m: Move)
    requires Lists(increments, MergeAll(Flat(jobs))) && ApplyEffect(r, db, db', now, increments)
    ensures m.Flushes? && m.host == host && FlushEffect(jobs, m) && m.outcome == OutcomeOf(r)
    ensures (m.outcome.Acknowledged? <==> r.Ok?) && (m.outcome.Unknown? <==> r == Err(Ambiguous))
    ensures m.wrote ==>
              var (reply, end) := CounterScript.Run(db, now, m.command.keys, m.command.argv);
              end == db' && !reply.Rejected? && (r.Ok? ==> reply.Done?)
    ensures !m.wrote ==> db' == db
  {
    hide Flat, MergeAll, Lists, D.Render, CounterScript.Run;
    var wrote := db' != db || r.Ok?;
    var command := Command([], []);
    if wrote {
      command := WritingCommand(increments, r, db, db', now);
      RejectedWritesNothing(increments, db, now, command);
    }
    m := Flushes(host, OutcomeOf(r), wrote, command, increments);
  }

  lemma WritingCommand(increments: seq<Increment>, r: Result<(), ApplyError>, db: Db, db': Db, now: int) returns (command: Command)
    requires ApplyEffect(r, db, db', now, increments) && (db' != db || r.Ok?)
    ensures Encodes(command, increments) && EncodedRun(r, db, db', now, command)
  {
    hide D.Render, CounterScript.Run, Unix;
    match r
    case Ok(_) =>
      command :| Encodes(command, increments) && CounterScript.Run(db, now, command.keys, command.argv) == (Done(|command.keys|), db');
    case Err(_) =>
      command :| Encodes(command, increments) && CounterScript.Run(db, now, command.keys, command.argv).1 == db';
  }

  ghost predicate EncodedRun(r: Result<(), ApplyError>, db: Db, db': Db, now: int, command: Command) {
    && |command.argv| == 2 * |command.keys|
    && CounterScript.Run(db, now, command.keys, command.argv).1 == db'
    && (r.Ok? ==> CounterScript.Run(db, now, command.keys, command.argv).0 == Done(|command.keys|))
  }

  lemma RejectedWritesNothing(increments: seq<Increment>, db: Db, now: int, command: Command)
    requires Encodes(command, increments)
    ensures CounterScript.Run(db, now, command.keys, command.argv).0.Rejected? ==>
              CounterScript.Run(db, now, command.keys, command.argv).1 == db
  {}
}
