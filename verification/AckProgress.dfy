/**
 The clocked batcher never gets stuck: with nobody calling it any more it can always go on, time
 passes, and every enqueued request is answered.
 */
module AckProgress {
  import opened Batch
  import opened AckTiming
  import P = Protocol
  import S = ProtocolSafety
  import T = ProtocolTheorems

  /** Time, the worker's own events, and the end of a Submit already under way. */
  ghost predicate Unprompted(ticks: seq<Tick>) {
    forall i :: 0 <= i < |ticks| ==>
      ticks[i].Delay? || P.IsWorkerEvent(ticks[i].e) || ticks[i].e.Sends? || ticks[i].e.FindsFull?
  }

  /** A reachable state of the clocked batcher. */
  ghost predicate Sound(c: Config, t: Clocked) {
    P.Inv(c, t.s) && ClocksSet(c, t)
  }

  /** More records than two requests of one batch can have. */
  const MANY: nat := MAX_SETTING + 1

  lemma WatchedIsSound(c: Config, ticks: seq<Tick>)
    requires Watch(c, ticks).Some?
    ensures Sound(c, Watch(c, ticks).value) && !Roomy(c, MANY)
  {
    hide P.Inv, ClocksSet, Watch, OnlySmall, AllSmall, BatchOnTime, HandOnTime, QueueOnTime;
    WatchKeepsTime(c, MANY, ticks);
  }

  /** In every reachable state time may pass, or something is to be done that is possible. */
  lemma NextMove(c: Config, t: Clocked) returns (k: Tick)
    requires Sound(c, t)
    ensures Unprompted([k]) && Elapse(c, t, k).Some?
    ensures if k.Delay? then k.d == 1 else t.s.holder.Some? || P.IsWorkerEvent(k.e)
    ensures t.s.holder.Some? ==> k == Act(P.Sends) || k == Act(P.FindsFull)
  {
    hide P.Census, P.Histories, P.AllAccepted, P.Absorb, P.Continue, P.Growing, P.Within, P.InTransit, Accepted;
    var s := t.s;
    if s.holder.Some? {
      k := Act(if |s.queue| < c.queueSize then P.Sends else P.FindsFull);
    } else if MayWait(t, 1) {
      k := Delay(1);
    } else {
      match s.worker
      case Idle => k := Act(if s.stopping then P.SeesStop else P.Receives);
      case Collecting(_) => k := Act(if s.stopping then P.SeesStop else if s.queue != [] then P.Receives else P.TimerFires);
      case Received(_, _, _) => k := Act(P.Counts);
      case Flushing(_, _) => k := Act(P.FlushReturns(P.Unknown));
      case Resolving(_, _, _) => k := Act(P.Resolves);
      case Draining(_) => k := Act(P.ChecksContext);
      case DrainSelect(_) => k := Act(if s.queue == [] then P.FindsEmpty else P.Receives);
      case Aborting => k := Act(if s.queue == [] then P.FindsEmpty else P.Receives);
      case AbortReceived(_) => k := Act(P.Counts);
    }
  }

  lemma Later(c: Config, ticks: seq<Tick>, k: Tick)
    requires Watch(c, ticks).Some?
    ensures Watch(c, ticks + [k]) == Elapse(c, Watch(c, ticks).value, k)
  {
    assert (ticks + [k])[..|ticks|] == ticks;
  }

  /** Nothing forgets an enqueued request or when it was enqueued. */
  lemma MoveKeepsEntry(c: Config, t: Clocked, k: Tick, id: nat)
    requires P.Inv(c, t.s) && Elapse(c, t, k).Some? && id in t.s.accepted
    ensures var t' := Elapse(c, t, k).value;
            && id in t'.s.accepted && t'.now >= t.now
            && (id in t.entered ==> id in t'.entered && t'.entered[id] == t.entered[id])
  {
    hide P.WorkerStep, P.Census, P.WorkerShape, P.AllAccepted, P.InTransit, Accepted;
    if k.Act? && P.IsWorkerEvent(k.e) {
      S.WorkerFrame(c, t.s, k.e);
    }
  }

  /** What is left to do before time can pass. */
  function Pending(s: P.State): nat {
    if s.holder.Some? then 1 else 0
  }

  lemma MoveUsesUpWork(c: Config, t: Clocked, k: Tick)
    requires P.Inv(c, t.s) && k.Act? && Elapse(c, t, k).Some?
    requires t.s.holder.Some? ==> k.e.Sends? || k.e.FindsFull?
    requires t.s.holder.None? ==> P.IsWorkerEvent(k.e)
    ensures var t' := Elapse(c, t, k).value;
            && t'.now == t.now
            && (Pending(t'.s) < Pending(t.s) || (Pending(t'.s) == Pending(t.s) && T.Work(t'.s) < T.Work(t.s)))
  {
    hide P.Inv, P.WorkerStep, T.Work;
    if t.s.holder.None? {
      S.WorkerFrame(c, t.s, k.e);
      T.WorkerEventsUseUpWork(c, t.s, k.e);
    }
  }

  /** A continuation in which nobody enters Submit and nothing enqueued is forgotten. */
  ghost predicate GoesOn(c: Config, ticks: seq<Tick>, more: seq<Tick>) {
    && Unprompted(more) && Watch(c, ticks).Some? && Watch(c, ticks + more).Some?
    && var t, t' := Watch(c, ticks).value, Watch(c, ticks + more).value;
       forall id :: id in t.s.accepted ==>
         id in t'.s.accepted && (id in t.entered ==> id in t'.entered && t'.entered[id] == t.entered[id])
  }

  lemma StaysPut(c: Config, ticks: seq<Tick>)
    requires Watch(c, ticks).Some?
    ensures GoesOn(c, ticks, [])
  {
    assert ticks + [] == ticks;
  }

  lemma GoesOneOn(c: Config, ticks: seq<Tick>, k: Tick)
    requires Watch(c, ticks).Some? && Sound(c, Watch(c, ticks).value)
    requires Unprompted([k]) && Elapse(c, Watch(c, ticks).value, k).Some?
    ensures GoesOn(c, ticks, [k]) && Watch(c, ticks + [k]) == Elapse(c, Watch(c, ticks).value, k)
  {
    hide P.Inv, Elapse, Watch;
    Later(c, ticks, k);
    var t := Watch(c, ticks).value;
    forall id | id in t.s.accepted
      ensures var t' := Elapse(c, t, k).value;
              id in t'.s.accepted && (id in t.entered ==> id in t'.entered && t'.entered[id] == t.entered[id])
    {
      MoveKeepsEntry(c, t, k, id);
    }
  }

  lemma GoesFurther(c: Config, ticks: seq<Tick>, first: seq<Tick>, second: seq<Tick>)
    requires GoesOn(c, ticks, first) && GoesOn(c, ticks + first, second)
    ensures GoesOn(c, ticks, first + second) && ticks + (first + second) == (ticks + first) + second
  {
    hide Watch;
    assert ticks + (first + second) == (ticks + first) + second;
  }

  /** Time always goes on, after finitely many events that need no new caller. */
  lemma {:induction false} TimeGoesOn(c: Config, ticks: seq<Tick>) returns (more: seq<Tick>)
    requires Watch(c, ticks).Some?
    ensures GoesOn(c, ticks, more) && Watch(c, ticks + more).value.now == Watch(c, ticks).value.now + 1
    decreases Pending(Watch(c, ticks).value.s), T.Work(Watch(c, ticks).value.s)
  {
    hide Watch, P.Inv, ClocksSet, Elapse, GoesOn, T.Work, Pending;
    var t := Watch(c, ticks).value;
    WatchedIsSound(c, ticks);
    var k := NextMove(c, t);
    GoesOneOn(c, ticks, k);
    if k.Delay? {
      DelayMeans(c, t, 1);
      more := [k];
    } else {
      MoveUsesUpWork(c, t, k);
      var rest := TimeGoesOn(c, ticks + [k]);
      GoesFurther(c, ticks, [k], rest);
      more := [k] + rest;
    }
  }

  /** From every reachable state every enqueued request can still be answered, without help from any caller. */
  lemma EveryRequestIsAnswered(c: Config, ticks: seq<Tick>, id: nat) returns (more: seq<Tick>)
    requires Watch(c, ticks).Some? && id in Watch(c, ticks).value.s.accepted
    ensures Unprompted(more) && Watch(c, ticks + more).Some?
    ensures id in P.AnsweredIds(Watch(c, ticks + more).value.s.answers)
  {
    hide Watch, P.AnsweredIds, Bound;
    StaysPut(c, ticks);
    if id in P.AnsweredIds(Watch(c, ticks).value.s.answers) {
      more := [];
      assert ticks + more == ticks;
    } else {
      WatchedIsSound(c, ticks);
      AcknowledgedInTime(c, MANY, ticks, id);
      more := WaitForAnswer(c, ticks, id, Watch(c, ticks).value.entered[id]);
    }
  }

  lemma {:induction false} WaitForAnswer(c: Config, ticks: seq<Tick>, id: nat, at: int) returns (more: seq<Tick>)
    requires Watch(c, ticks).Some? && id in Watch(c, ticks).value.s.accepted
    requires id in Watch(c, ticks).value.entered && Watch(c, ticks).value.entered[id] == at
    ensures GoesOn(c, ticks, more) && id in P.AnsweredIds(Watch(c, ticks + more).value.s.answers)
    decreases at + Bound(c, MANY) - Watch(c, ticks).value.now
  {
    hide Watch, P.AnsweredIds, Bound, Unprompted;
    if id in P.AnsweredIds(Watch(c, ticks).value.s.answers) {
      more := [];
      StaysPut(c, ticks);
      assert ticks + more == ticks;
    } else {
      WatchedIsSound(c, ticks);
      AcknowledgedInTime(c, MANY, ticks, id);
      var first := TimeGoesOn(c, ticks);
      var rest := WaitForAnswer(c, ticks + first, id, at);
      GoesFurther(c, ticks, first, rest);
      more := first + rest;
    }
  }
}
