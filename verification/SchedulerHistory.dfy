/** What the events of a run decide for later: who can be resumed, when the event loop has the thread, and
    when a deadline ends a wait. */
module SchedulerHistory {
  import opened Sequences
  import opened TimerWheel
  import opened Scheduler
  import opened SchedulerSafety
  import opened SchedulerRuns

  // ----- coroutines that rest: new, yielded or finished

  predicate Resting(st: CoState) {
    st.Fresh? || st.Parked? || st.Done?
  }

  lemma {:induction false} BatchCos(s: State, batch: seq<int>)
    ensures PrepareAll(s, batch).cos == s.cos
    decreases |batch|
  {
    if batch != [] { BatchCos(PrepareOne(s, batch[0]), batch[1..]); }
  }

  lemma {:induction false} SignalCos(s: State, q: nat, n: nat)
    ensures SignalAll(s, q, n).cos == s.cos
    decreases n
  {
    if n > 0 { SignalCos(SignalOne(s, q), q, n - 1); }
  }

  lemma TopIsActive(s: State)
    requires Inv(s)
    ensures s.stack != [] && Top(s) in s.cos && s.cos[Top(s)] == Active
    ensures forall id :: id in s.items ==> s.items[id].owner in s.cos && s.cos[s.items[id].owner] == Waiting(id)
    ensures forall c :: c in s.stack ==> c in s.cos && s.cos[c] == Active
  {
  }

  lemma BeginResting(s: State, e: Event, c: CoId)
    requires Can(s, e) && (e.Poll? || e.CondWait?) && c in s.cos && Resting(s.cos[c])
    requires Top(s) in s.cos && s.cos[Top(s)] == Active
    ensures c in Do(s, e).cos && Do(s, e).cos[c] == s.cos[c]
  {
    hide Can, InsertStable, Register, AddCode;
  }

  lemma DispatchResting(s: State, c: CoId)
    requires Can(s, Dispatch) && c in s.cos && Resting(s.cos[c]) && s.items[s.active[0].id].owner != c
    ensures c in Do(s, Dispatch).cos && Do(s, Dispatch).cos[c] == s.cos[c]
  {
    hide RegsAfter, CondsAfter, ResultOf;
  }

  lemma StepResting(s: State, e: Event, c: CoId)
    requires Inv(s) && Can(s, e) && c in s.cos && Resting(s.cos[c]) && e != Resume(c)
    ensures c in Do(s, e).cos && Do(s, e).cos[c] == s.cos[c]
  {
    TopIsActive(s);
    hide Inv, InsertStable, Register, AddCode, DueCount, MarkExpired, ClockOk, NoDup, DoPoll, DoCondWait, Wake;
    match e
    case Poll(_, _, _, _) => BeginResting(s, e, c);
    case CondWait(_, _, _) => BeginResting(s, e, c);
    case Dispatch => DispatchResting(s, c);
    case Signal(q) => SignalCos(s, q, 1); assert SignalAll(s, q, 1) == SignalOne(s, q);
    case Broadcast(q) => SignalCos(s, q, |Waiters(s.conds, q)|);
    case EpollWait(batch) => BatchCos(s.(phase := Batched, hits := multiset{}), batch);
    case _ =>
  }

  /** A resting coroutine rests until it is resumed. */
  lemma {:induction false} RestsUntilResumed(s: State, evs: seq<Event>, c: CoId)
    requires Inv(s) && Run(s, evs) && c in s.cos && Resting(s.cos[c]) && Resume(c) !in evs
    ensures Inv(After(s, evs)) && c in After(s, evs).cos && After(s, evs).cos[c] == s.cos[c] && c !in After(s, evs).stack
    decreases |evs|
  {
    TopIsActive(s);
    hide Inv, Can, Do;
    if evs != [] {
      assert evs[0] in evs && forall e :: e in evs[1..] ==> e in evs;
      StepResting(s, evs[0], c);
      StepKeeps(s, evs[0]);
      RestsUntilResumed(Do(s, evs[0]), evs[1..], c);
    }
  }

  lemma {:induction false} DoneForGood(s: State, evs: seq<Event>, c: CoId)
    requires Inv(s) && Run(s, evs) && c in s.cos && s.cos[c] == Done
    ensures Resume(c) !in evs
    decreases |evs|
  {
    if evs != [] {
      NoResume(s, c);
      hide Inv, Can, Do;
      StepResting(s, evs[0], c);
      StepKeeps(s, evs[0]);
      DoneForGood(Do(s, evs[0]), evs[1..], c);
    }
  }

  lemma NoResume(s: State, c: CoId)
    requires c in s.cos && s.cos[c] == Done
    ensures !Can(s, Resume(c))
  {
  }

  lemma Leaves(s: State, e: Event)
    requires Inv(s) && Can(s, e) && (e.Yield? || e.Finish?)
    ensures Inv(Do(s, e)) && Top(s) in Do(s, e).cos && Resting(Do(s, e).cos[Top(s)])
    ensures Do(s, e).cos[Top(s)] == if e.Finish? then Done else Parked
  {
    StepKeeps(s, e);
    hide Inv;
  }

  /** A coroutine that has finished is never resumed again, by user code or by the event loop. */
  lemma FinishedForGood(s: State, evs: seq<Event>)
    requires Reachable(s) && Can(s, Finish) && Run(Do(s, Finish), evs)
    ensures Resume(Top(s)) !in evs && Top(s) !in After(Do(s, Finish), evs).stack
  {
    ReachableInv(s);
    Leaves(s, Finish);
    hide Inv, Can, Do;
    DoneForGood(Do(s, Finish), evs, Top(s));
    RestsUntilResumed(Do(s, Finish), evs, Top(s));
  }

  lemma ResumeIff(s: State, c: CoId)
    requires s.stack != [] && c in s.cos && (s.cos[c].Fresh? || s.cos[c].Parked?)
    ensures Can(s, Resume(c)) <==> UserCode(s) && |s.stack| < MAX_DEPTH
  {
  }

  /** A coroutine that has yielded stays where it is until user code resumes it, which it can do
      whenever it runs, while there is room on the call stack. */
  lemma YieldedCanBeResumed(s: State, evs: seq<Event>)
    requires Reachable(s) && Can(s, Yield) && Run(Do(s, Yield), evs) && Resume(Top(s)) !in evs
    ensures var c, t := Top(s), After(Do(s, Yield), evs);
      && c !in t.stack
      && (Can(t, Resume(c)) <==> UserCode(t) && |t.stack| < MAX_DEPTH)
  {
    ReachableInv(s);
    Leaves(s, Yield);
    hide Inv, Can, Do;
    RestsUntilResumed(Do(s, Yield), evs, Top(s));
    TopIsActive(After(Do(s, Yield), evs));
    ResumeIff(After(Do(s, Yield), evs), Top(s));
  }

  lemma Created(s: State, c: CoId)
    requires Inv(s) && Can(s, Create(c))
    ensures Inv(Do(s, Create(c))) && c in Do(s, Create(c)).cos && Do(s, Create(c)).cos[c] == Fresh
  {
    StepKeeps(s, Create(c));
    hide Inv;
  }

  /** And so can a coroutine that has been created and never resumed. */
  lemma CreatedCanBeResumed(s: State, c: CoId, evs: seq<Event>)
    requires Reachable(s) && Can(s, Create(c)) && Run(Do(s, Create(c)), evs) && Resume(c) !in evs
    ensures var t := After(Do(s, Create(c)), evs);
      && c !in t.stack
      && (Can(t, Resume(c)) <==> UserCode(t) && |t.stack| < MAX_DEPTH)
  {
    ReachableInv(s);
    Created(s, c);
    hide Inv, Can, Do;
    RestsUntilResumed(Do(s, Create(c)), evs, c);
    TopIsActive(After(Do(s, Create(c)), evs));
    ResumeIff(After(Do(s, Create(c)), evs), c);
  }

  // ----- when the event loop has the thread

  /** Whether the main coroutine is outside its event loop after a run: it goes in by calling it and
      comes out when the callback of a round says so. */
  function OutsideLoop(evs: seq<Event>, outside: bool): bool {
    if evs == [] then outside
    else
      OutsideLoop(evs[1..], match evs[0] case EnterLoop => false case EndRound(stop) => stop case _ => outside)
  }

  lemma {:induction false} SignalPhase(s: State, q: nat, n: nat)
    ensures SignalAll(s, q, n).phase == s.phase
    decreases n
  {
    if n > 0 { SignalPhase(SignalOne(s, q), q, n - 1); }
  }

  lemma {:induction false} BatchPhase(s: State, batch: seq<int>)
    ensures PrepareAll(s, batch).phase == s.phase
    decreases |batch|
  {
    if batch != [] { BatchPhase(PrepareOne(s, batch[0]), batch[1..]); }
  }

  lemma StepPhase(s: State, e: Event)
    requires Can(s, e)
    ensures Do(s, e).phase == Phase.Outside <==> OutsideLoop([e], s.phase == Phase.Outside)
  {
    assert [e][1..] == [];
    hide InsertStable, Register, AddCode, DueCount, MarkExpired, ClockOk, NoDup;
    match e
    case Broadcast(q) => SignalPhase(s, q, |Waiters(s.conds, q)|);
    case EpollWait(batch) => BatchPhase(s.(phase := Batched, hits := multiset{}), batch);
    case _ =>
  }

  lemma {:induction false} RunPhase(s: State, evs: seq<Event>)
    requires Run(s, evs)
    ensures After(s, evs).phase == Phase.Outside <==> OutsideLoop(evs, s.phase == Phase.Outside)
    decreases |evs|
  {
    hide Can, Do;
    if evs != [] {
      assert [evs[0]][1..] == [];
      StepPhase(s, evs[0]);
      RunPhase(Do(s, evs[0]), evs[1..]);
    }
  }

  lemma MainRuns(s: State)
    requires s.stack != [] && Top(s) == MAIN
    ensures UserCode(s) <==> s.phase == Phase.Outside
    ensures Can(s, EnterLoop) <==> s.phase == Phase.Outside
  {
  }

  lemma RoundEnds(s: State, stop: bool)
    requires Can(s, EndRound(stop))
    ensures Can(Do(s, EndRound(stop)), EpollWait([])) <==> !stop
    ensures UserCode(Do(s, EndRound(stop))) <==> stop
  {
  }

  /** The main coroutine runs its own code exactly when it has not called the event loop or a callback has
      ended the call since; and a round is followed by the next one exactly when its callback does
      not end the loop. */
  lemma LoopEndsOnRequest(now: nat, evs: seq<Event>)
    requires 0 < now && Run(Init(now), evs)
    ensures var t := After(Init(now), evs);
      && t.stack != []
      && (Top(t) == MAIN ==> (UserCode(t) <==> OutsideLoop(evs, true)) && (Can(t, EnterLoop) <==> OutsideLoop(evs, true)))
      && forall stop :: Can(t, EndRound(stop)) ==>
           && (Can(Do(t, EndRound(stop)), EpollWait([])) <==> !stop)
           && (UserCode(Do(t, EndRound(stop))) <==> stop)
  {
    InitOk(now);
    assert Init(now).phase == Phase.Outside;
    hide Inv, Can, Do, Init, UserCode;
    RunKeeps(Init(now), evs);
    RunPhase(Init(now), evs);
    var t := After(Init(now), evs);
    TopIsActive(t);
    if Top(t) == MAIN { MainRuns(t); }
    forall stop | Can(t, EndRound(stop)) ensures
      && (Can(Do(t, EndRound(stop)), EpollWait([])) <==> !stop)
      && (UserCode(Do(t, EndRound(stop))) <==> stop)
    {
      RoundEnds(t, stop);
    }
  }

  predicate ByEvent(s: State, id: ItemId) {
    id in s.items && s.items[id].kind.PollItem? && s.items[id].kind.raiseCnt > 0
  }

  predicate ByDeadline(s: State, id: ItemId) {
    id in s.items && s.items[id].kind.PollItem? && s.items[id].kind.raiseCnt == 0
  }

  lemma ActiveByEvent(s: State, now: nat)
    requires Inv(s) && Can(s, SweepWheel(now))
    ensures forall e :: e in s.active ==> !ByDeadline(s, e.id)
    ensures forall e :: e in s.timer ==> !ByEvent(s, e.id)
    ensures Sorted(s.timer)
  {
  }

  lemma SweepAndJoin(s: State, now: nat)
    requires Can(s, SweepWheel(now)) && Sorted(s.timer)
    ensures var u := Do(s, SweepWheel(now));
      && Can(u, JoinExpired) && Do(u, JoinExpired).active == s.active + u.expired
      && (forall e :: e in u.expired ==> e in s.timer)
      && forall id :: (ByEvent(Do(u, JoinExpired), id) <==> ByEvent(s, id)) && (ByDeadline(Do(u, JoinExpired), id) <==> ByDeadline(s, id))
  {
    SweepMarks(s, now);
    hide DueCount, Sorted, ClockOk;
  }

  /** Among the polls a round serves, those that the kernel reported come before those whose deadline
      has passed. */
  lemma EventsFirst(s: State, now: nat)
    requires Reachable(s) && Can(s, SweepWheel(now))
    ensures Can(Do(s, SweepWheel(now)), JoinExpired)
    ensures var t := Do(Do(s, SweepWheel(now)), JoinExpired);
      forall i, j :: 0 <= i < |t.active| && 0 <= j < |t.active| && ByEvent(t, t.active[i].id) && ByDeadline(t, t.active[j].id) ==> i < j
  {
    hide Inv, Reachable, Can, Do, ByEvent, ByDeadline, Sorted;
    ReachableInv(s);
    ActiveByEvent(s, now);
    SweepAndJoin(s, now);
    var u := Do(s, SweepWheel(now));
    var t := Do(u, JoinExpired);
    assert forall k :: 0 <= k < |t.active| && t.active[k] in s.active ==> !ByDeadline(t, t.active[k].id);
    assert forall k :: 0 <= k < |t.active| && t.active[k] in u.expired ==> !ByEvent(t, t.active[k].id);
    assert forall k :: 0 <= k < |t.active| ==> t.active[k] in if k < |s.active| then s.active else u.expired;
  }

  // ----- when a deadline ends a wait

  /** The deadline of a poll: what it asks for, but never more than 40 seconds. */
  function PollDeadline(timeout: nat, now: nat): nat {
    if timeout < 40000 then now + timeout else now + 40000
  }

  /** The wait exists and hangs in some timer list, or it has been ended. */
  ghost predicate Tracked(s: State, x: Entry) {
    && x.id < s.next && x.id !in s.refused
    && (x.id in s.items ==> s.items[x.id].expire == x.expire && (x in s.timer || x in s.expired || x in s.active))
  }

  /** No deadline has ended the wait, or is about to. */
  ghost predicate NotTimedOut(s: State, id: ItemId, poll: bool) {
    && id < s.next
    && (id in s.items ==> !s.items[id].timedOut && (s.items[id].kind.PollItem? <==> poll))
    && (id !in s.items ==> id in s.results && !s.results[id].timedOut && (poll ==> s.results[id].ret > 0))
  }

  lemma PollBegins(s: State, e: Event)
    requires Inv(s) && Can(s, e) && e.Poll?
    ensures e.timeout >= 0 && s.next in Do(s, e).items
    ensures Tracked(Do(s, e), Entry(s.next, PollDeadline(e.timeout, e.now))) && NotTimedOut(Do(s, e), s.next, true)
  {
    NextNotRefused(s);
    hide Inv, Register, InsertStable, AddCode, ClockOk;
    Inserted(s.timer, Entry(s.next, PollExpire(e.timeout, e.now)));
  }

  lemma NextNotRefused(s: State)
    requires Inv(s)
    ensures s.next !in s.refused && s.next !in s.items
  {
    Basics(s);
  }

  lemma Inserted(q: seq<Entry>, e: Entry)
    ensures forall x :: x in InsertStable(q, e) <==> x in q || x == e
  {
    InsertMembers(q, e);
    forall x ensures x in InsertStable(q, e) <==> x in q || x == e {
      assert x in multiset(InsertStable(q, e)) <==> x in multiset(q) || x == e;
    }
  }

  lemma {:induction false} InsertMembers(q: seq<Entry>, e: Entry)
    ensures multiset(InsertStable(q, e)) == multiset(q) + multiset{e}
  {
    if q != [] && q[|q| - 1].expire > e.expire {
      assert q == q[..|q| - 1] + [q[|q| - 1]];
      InsertMembers(q[..|q| - 1], e);
    }
  }

  lemma WaitParts(s: State, e: Event)
    requires Can(s, e) && e.CondWait? && s.next !in s.items && s.next in Do(s, e).items
    ensures var t := Do(s, e);
      && t.next == s.next + 1 && t.refused == s.refused
      && t.items[s.next].kind.CondItem? && !t.items[s.next].timedOut
      && (e.ms > 0 ==> t.items[s.next].expire == e.now + e.ms && t.timer == InsertStable(s.timer, Entry(s.next, e.now + e.ms)))
      && (e.ms <= 0 ==> t.timer == s.timer)
  {
    hide InsertStable, AddCode, ClockOk;
  }

  lemma WaitBegins(s: State, e: Event)
    requires Inv(s) && Can(s, e) && e.CondWait? && s.next in Do(s, e).items
    ensures NotTimedOut(Do(s, e), s.next, false)
    ensures e.ms > 0 ==> Tracked(Do(s, e), Entry(s.next, e.now + e.ms))
    ensures e.ms <= 0 ==> forall x :: x in Do(s, e).timer ==> x.id != s.next
  {
    NextNotRefused(s);
    NotYetTimed(s);
    hide Inv, Can, Do, InsertStable;
    WaitParts(s, e);
    if e.ms > 0 { Inserted(s.timer, Entry(s.next, e.now + e.ms)); }
  }

  lemma NotYetTimed(s: State)
    requires Inv(s)
    ensures forall x :: x in s.timer ==> x.id != s.next
  {
    Basics(s);
    assert forall x :: x in s.timer ==> x in Linked(s);
  }

  lemma ActivateTracked(s: State, e: Entry, x: Entry)
    requires Tracked(s, x)
    ensures Tracked(Activate(s, e), x)
  {
    WithoutIn(s.timer, e);
    WithoutIn(s.expired, e);
    WithoutIn(s.active, e);
  }

  lemma {:induction false} BatchTracked(s: State, batch: seq<int>, x: Entry)
    requires Tracked(s, x)
    ensures Tracked(PrepareAll(s, batch), x)
    decreases |batch|
  {
    if batch != [] {
      var t := PrepareOne(s, batch[0]);
      if t != s {
        var r := Raised(s, s.regs[batch[0]]);
        assert Tracked(r, x);
        ActivateTracked(r, EntryOf(s.items, s.regs[batch[0]]), x);
      }
      hide PrepareOne, Tracked;
      BatchTracked(t, batch[1..], x);
    }
  }

  lemma {:induction false} SignalsTracked(s: State, q: nat, n: nat, x: Entry)
    requires Tracked(s, x)
    ensures Tracked(SignalAll(s, q, n), x)
    decreases n
  {
    if n > 0 {
      if q in s.conds && s.conds[q] != [] && s.conds[q][0] in s.items {
        ActivateTracked(s, EntryOf(s.items, s.conds[q][0]), x);
      }
      assert Tracked(SignalOne(s, q), x);
      hide SignalOne, Tracked;
      SignalsTracked(SignalOne(s, q), q, n - 1, x);
    }
  }

  lemma BeginTracked(s: State, e: Event, x: Entry)
    requires Can(s, e) && Tracked(s, x) && (e.Poll? || e.CondWait? || e.PollRefused?)
    ensures Tracked(Do(s, e), x)
  {
    if e.Poll? { Inserted(s.timer, Entry(s.next, PollExpire(e.timeout, e.now))); }
    if e.CondWait? && e.ms > 0 { Inserted(s.timer, Entry(s.next, e.now + e.ms)); }
    hide Register, InsertStable, AddCode, ClockOk;
  }

  lemma SweepTracked(s: State, now: nat, x: Entry)
    requires Tracked(s, x) && s.expired == [] && Sorted(s.timer)
    ensures Tracked(DoSweep(s, now), x)
    ensures x.expire <= now ==> Served(DoSweep(s, now), x)
  {
    hide DueCount, Sorted;
    QueueDelivers(s.timer, now);
    var n := DueCount(s.timer, now);
    assert s.timer == s.timer[..n] + s.timer[n..];
  }

  lemma SweepReady(s: State, now: nat)
    requires Inv(s) && Can(s, SweepWheel(now))
    ensures s.expired == [] && Sorted(s.timer) && Do(s, SweepWheel(now)) == DoSweep(s, now)
  {
    Basics(s);
    hide DoSweep;
  }

  lemma StepTracked(s: State, e: Event, x: Entry)
    requires Inv(s) && Can(s, e) && Tracked(s, x)
    ensures Tracked(Do(s, e), x)
  {
    hide Inv, InsertStable, Register, AddCode, DueCount, MarkExpired, ClockOk, NoDup, DoPoll, DoPollRefused, DoCondWait, DoSweep;
    match e
    case Poll(_, _, _, _) => BeginTracked(s, e, x);
    case PollRefused(_, _, _, _) => BeginTracked(s, e, x);
    case CondWait(_, _, _) => BeginTracked(s, e, x);
    case Signal(q) => SignalsTracked(s, q, 1, x); assert SignalAll(s, q, 1) == SignalOne(s, q);
    case Broadcast(q) => SignalsTracked(s, q, |Waiters(s.conds, q)|, x);
    case EpollWait(batch) =>
      assert Tracked(s.(phase := Batched, hits := multiset{}), x);
      BatchTracked(s.(phase := Batched, hits := multiset{}), batch, x);
    case SweepWheel(now) => SweepReady(s, now); SweepTracked(s, now, x);
    case Dispatch => assert s.active == [s.active[0]] + s.active[1..];
    case _ =>
  }

  /** Once a sweep has found the deadline passed, the wait is about to be served. */
  lemma {:induction false} SweepEnds(s: State, evs: seq<Event>, x: Entry, now: nat)
    requires Inv(s) && Run(s, evs) && Tracked(s, x) && SweepWheel(now) in evs && x.expire <= now
    ensures Inv(After(s, evs)) && Served(After(s, evs), x)
    decreases |evs|
  {
    hide Inv, Can, Do, Tracked, Served, DoSweep;
    StepKeeps(s, evs[0]);
    if evs[0] == SweepWheel(now) {
      SweepReady(s, now);
      SweepTracked(s, now, x);
      RunServed(Do(s, evs[0]), evs[1..], x);
      RunKeeps(Do(s, evs[0]), evs[1..]);
    } else {
      assert evs == [evs[0]] + evs[1..];
      StepTracked(s, evs[0], x);
      SweepEnds(Do(s, evs[0]), evs[1..], x, now);
    }
  }

  lemma {:induction false} BatchUntimed(s: State, batch: seq<int>, id: ItemId, poll: bool)
    requires NotTimedOut(s, id, poll)
    ensures var t := PrepareAll(s, batch);
      NotTimedOut(t, id, poll) && (id in t.items <==> id in s.items) && (id in s.items ==> t.items[id].expire == s.items[id].expire)
    decreases |batch|
  {
    if batch != [] {
      var t := PrepareOne(s, batch[0]);
      assert NotTimedOut(t, id, poll);
      assert id in s.items ==> id in t.items && t.items[id].expire == s.items[id].expire;
      hide PrepareOne, NotTimedOut;
      BatchUntimed(t, batch[1..], id, poll);
      PrepareSame(s, batch[0]);
    }
  }

  lemma {:induction false} SignalsUntimed(s: State, q: nat, n: nat)
    ensures SignalAll(s, q, n).items == s.items && SignalAll(s, q, n).results == s.results && SignalAll(s, q, n).next == s.next
    decreases n
  {
    if n > 0 { SignalsUntimed(SignalOne(s, q), q, n - 1); }
  }

  lemma BeginUntimed(s: State, e: Event, id: ItemId, poll: bool)
    requires Can(s, e) && NotTimedOut(s, id, poll) && (e.Poll? || e.CondWait? || e.PollRefused?)
    ensures NotTimedOut(Do(s, e), id, poll) && (id in Do(s, e).items <==> id in s.items)
    ensures id in s.items ==> Do(s, e).items[id].expire == s.items[id].expire
  {
    hide Register, InsertStable, AddCode, ClockOk;
  }

  /** A sweep marks the wait only if it finds its deadline in the wheel, and passed. */
  lemma SweepUntimed(s: State, now: nat, id: ItemId, poll: bool)
    requires Sorted(s.timer) && NotTimedOut(s, id, poll)
    requires id in s.items && EntryOf(s.items, id) in s.timer ==> now < s.items[id].expire
    ensures NotTimedOut(DoSweep(s, now), id, poll) && (id in DoSweep(s, now).items <==> id in s.items)
    ensures id in s.items ==> DoSweep(s, now).items[id].expire == s.items[id].expire
  {
    SweepMarks(s, now);
    SweepLeaves(s, now, id);
    hide DoSweep;
  }

  lemma SweepLeaves(s: State, now: nat, id: ItemId)
    ensures var t := DoSweep(s, now);
      && t.next == s.next && t.results == s.results && t.items.Keys == s.items.Keys
      && (id in s.items ==> t.items[id].kind == s.items[id].kind && t.items[id].expire == s.items[id].expire)
  {
    hide DueCount;
  }

  /** A poll that is served without having timed out returns a positive number. */
  lemma ServedByEvent(s: State)
    requires Inv(s) && Can(s, Dispatch)
    ensures var it := s.items[s.active[0].id]; it.kind.PollItem? && !it.timedOut ==> it.kind.raiseCnt > 0
  {
    HeadEntry(s);
    assert PollsOk(s.items, s.hits, s.active, s.expired, s.next);
  }

  lemma DispatchUntimed(s: State, id: ItemId, poll: bool)
    requires Can(s, Dispatch) && NotTimedOut(s, id, poll)
    requires var it := s.items[s.active[0].id]; it.kind.PollItem? && !it.timedOut ==> it.kind.raiseCnt > 0
    ensures NotTimedOut(Do(s, Dispatch), id, poll) && (id in Do(s, Dispatch).items ==> id in s.items)
    ensures id in Do(s, Dispatch).items ==> Do(s, Dispatch).items[id].expire == s.items[id].expire
  {
    hide RegsAfter, CondsAfter;
  }

  lemma StepUntimed(s: State, e: Event, id: ItemId, poll: bool)
    requires Inv(s) && Can(s, e) && NotTimedOut(s, id, poll)
    requires e.SweepWheel? && id in s.items && EntryOf(s.items, id) in s.timer ==> e.now < s.items[id].expire
    ensures NotTimedOut(Do(s, e), id, poll) && (id in Do(s, e).items ==> id in s.items)
    ensures id in Do(s, e).items ==> Do(s, e).items[id].expire == s.items[id].expire
  {
    hide Inv, InsertStable, Register, AddCode, DueCount, MarkExpired, ClockOk, NoDup, DoPoll, DoPollRefused, DoCondWait, DoSweep;
    match e
    case Poll(_, _, _, _) => BeginUntimed(s, e, id, poll);
    case PollRefused(_, _, _, _) => BeginUntimed(s, e, id, poll);
    case CondWait(_, _, _) => BeginUntimed(s, e, id, poll);
    case Signal(q) => SignalsUntimed(s, q, 1); assert SignalAll(s, q, 1) == SignalOne(s, q);
    case Broadcast(q) => SignalsUntimed(s, q, |Waiters(s.conds, q)|);
    case EpollWait(batch) =>
      assert NotTimedOut(s.(phase := Batched, hits := multiset{}), id, poll);
      BatchUntimed(s.(phase := Batched, hits := multiset{}), batch, id, poll);
    case SweepWheel(now) => SweepReady(s, now); SweepUntimed(s, now, id, poll);
    case Dispatch => ServedByEvent(s); DispatchUntimed(s, id, poll);
    case _ =>
  }

  /** While every sweep comes before the deadline, it does not end the wait. */
  lemma {:induction false} NotBeforeDeadline(s: State, evs: seq<Event>, id: ItemId, poll: bool)
    requires Inv(s) && Run(s, evs) && NotTimedOut(s, id, poll)
    requires forall now: nat :: SweepWheel(now) in evs && id in s.items ==> now < s.items[id].expire
    ensures NotTimedOut(After(s, evs), id, poll)
    decreases |evs|
  {
    hide Inv, Can, Do, NotTimedOut;
    if evs != [] {
      assert evs == [evs[0]] + evs[1..];
      assert evs[0].SweepWheel? ==> SweepWheel(evs[0].now) in evs;
      StepUntimed(s, evs[0], id, poll);
      StepKeeps(s, evs[0]);
      NotBeforeDeadline(Do(s, evs[0]), evs[1..], id, poll);
    }
  }

  /** Nothing but a new wait gets into the wheel. */
  ghost predicate NoNewer(s: State, t: State) {
    t.next >= s.next && forall x :: x in t.timer ==> x in s.timer || x.id == s.next
  }

  lemma {:induction false} BatchNoNewer(s: State, batch: seq<int>)
    ensures PrepareAll(s, batch).next == s.next && forall x :: x in PrepareAll(s, batch).timer ==> x in s.timer
    decreases |batch|
  {
    if batch != [] {
      var t := PrepareOne(s, batch[0]);
      if t != s { WithoutIn(s.timer, EntryOf(s.items, s.regs[batch[0]])); }
      WithoutSubset(s.timer, if batch[0] in s.regs && s.regs[batch[0]] in s.items then EntryOf(s.items, s.regs[batch[0]]) else Entry(0, 0));
      assert t.next == s.next && forall x :: x in t.timer ==> x in s.timer;
      hide PrepareOne;
      BatchNoNewer(t, batch[1..]);
    }
  }

  lemma {:induction false} SignalsNoNewer(s: State, q: nat, n: nat)
    ensures SignalAll(s, q, n).next == s.next && forall x :: x in SignalAll(s, q, n).timer ==> x in s.timer
    decreases n
  {
    if n > 0 {
      var t := SignalOne(s, q);
      if t != s { WithoutSubset(s.timer, EntryOf(s.items, s.conds[q][0])); }
      assert t.next == s.next && forall x :: x in t.timer ==> x in s.timer;
      hide SignalOne;
      SignalsNoNewer(t, q, n - 1);
    }
  }

  lemma BeginNoNewer(s: State, e: Event)
    requires Can(s, e) && (e.Poll? || e.CondWait? || e.PollRefused?)
    ensures NoNewer(s, Do(s, e))
  {
    if e.Poll? { Inserted(s.timer, Entry(s.next, PollExpire(e.timeout, e.now))); }
    if e.CondWait? && e.ms > 0 { Inserted(s.timer, Entry(s.next, e.now + e.ms)); }
    hide Register, InsertStable, AddCode, ClockOk;
  }

  lemma StepNoNewer(s: State, e: Event)
    requires Can(s, e)
    ensures NoNewer(s, Do(s, e))
  {
    hide InsertStable, Register, AddCode, MarkExpired, ClockOk, NoDup, DoPoll, DoPollRefused, DoCondWait, Wake;
    match e
    case Poll(_, _, _, _) => BeginNoNewer(s, e);
    case PollRefused(_, _, _, _) => BeginNoNewer(s, e);
    case CondWait(_, _, _) => BeginNoNewer(s, e);
    case Signal(q) => SignalsNoNewer(s, q, 1); assert SignalAll(s, q, 1) == SignalOne(s, q);
    case Broadcast(q) => SignalsNoNewer(s, q, |Waiters(s.conds, q)|);
    case EpollWait(batch) => BatchNoNewer(s.(phase := Batched, hits := multiset{}), batch);
    case Dispatch => WakeNext(s);
    case _ =>
  }

  lemma WakeNext(s: State)
    requires Can(s, Dispatch)
    ensures Do(s, Dispatch).next == s.next && Do(s, Dispatch).timer == s.timer
  {
  }

  /** A wait that is in no timer list never times out. */
  lemma {:induction false} NeverTimesOut(s: State, evs: seq<Event>, id: ItemId, poll: bool)
    requires Inv(s) && Run(s, evs) && NotTimedOut(s, id, poll) && forall x :: x in s.timer ==> x.id != id
    ensures NotTimedOut(After(s, evs), id, poll)
    decreases |evs|
  {
    assert id < s.next;
    hide Inv, Can, Do, NotTimedOut;
    if evs != [] {
      StepUntimed(s, evs[0], id, poll);
      StepNoNewer(s, evs[0]);
      StepKeeps(s, evs[0]);
      NeverTimesOut(Do(s, evs[0]), evs[1..], id, poll);
    }
  }

  /** What it means that a wait with this deadline has ended on time, after the events `evs`. */
  ghost predicate OnTime(t: State, evs: seq<Event>, id: ItemId, poll: bool, deadline: nat) {
    && ((forall now: nat :: SweepWheel(now) in evs ==> now < deadline) ==> NotTimedOut(t, id, poll))
    && ((exists now: nat :: SweepWheel(now) in evs && now >= deadline) && Can(t, EndRound(true)) ==>
          id !in t.items && t.wakes[id] == 1)
  }

  lemma EndsOnTime(s: State, evs: seq<Event>, x: Entry, poll: bool)
    requires Inv(s) && Run(s, evs) && Tracked(s, x) && NotTimedOut(s, x.id, poll)
    ensures OnTime(After(s, evs), evs, x.id, poll, x.expire)
  {
    assert x.id in s.items ==> s.items[x.id].expire == x.expire;
    hide Inv, Can, Tracked, NotTimedOut;
    var t := After(s, evs);
    if forall now: nat :: SweepWheel(now) in evs ==> now < x.expire { NotBeforeDeadline(s, evs, x.id, poll); }
    if now: nat :| SweepWheel(now) in evs && now >= x.expire {
      SweepEnds(s, evs, x, now);
      if Can(t, EndRound(true)) { Ended(t, x); }
    }
  }

  /** An accepted poll waits for what it asks, up to 40 seconds: no sweep before that moment ends it, so
      that what it returns until then is the number of its events; and when the first round is over
      that has swept at that moment or later, it has been ended. */
  lemma PollEndsOnTime(s: State, e: Event, evs: seq<Event>)
    requires Reachable(s) && e.Poll? && Can(s, e) && Run(Do(s, e), evs)
    ensures e.timeout >= 0
    ensures OnTime(After(Do(s, e), evs), evs, s.next, true, if e.timeout < 40000 then e.now + e.timeout else e.now + 40000)
  {
    ReachableInv(s);
    StepKeeps(s, e);
    PollBegins(s, e);
    hide Inv, Can, Do, Tracked, NotTimedOut, OnTime;
    EndsOnTime(Do(s, e), evs, Entry(s.next, PollDeadline(e.timeout, e.now)), true);
  }

  /** A condition wait of `ms` milliseconds ends in the same way `ms` milliseconds after it has begun. */
  lemma TimedWaitEndsOnTime(s: State, e: Event, evs: seq<Event>)
    requires Reachable(s) && e.CondWait? && e.ms > 0 && Can(s, e) && s.next in Do(s, e).items && Run(Do(s, e), evs)
    ensures OnTime(After(Do(s, e), evs), evs, s.next, false, e.now + e.ms)
  {
    ReachableInv(s);
    StepKeeps(s, e);
    WaitBegins(s, e);
    hide Inv, Can, Do, Tracked, NotTimedOut, OnTime;
    EndsOnTime(Do(s, e), evs, Entry(s.next, e.now + e.ms), false);
  }

  /** And without one, no deadline ever ends it. */
  lemma UntimedWaitNeverTimesOut(s: State, e: Event, evs: seq<Event>)
    requires Reachable(s) && e.CondWait? && e.ms <= 0 && Can(s, e) && Run(Do(s, e), evs)
    ensures NotTimedOut(After(Do(s, e), evs), s.next, false)
  {
    ReachableInv(s);
    StepKeeps(s, e);
    UntimedBegins(s, e);
    WaitBegins(s, e);
    hide Inv, Can, Do, NotTimedOut;
    NeverTimesOut(Do(s, e), evs, s.next, false);
  }

  lemma UntimedBegins(s: State, e: Event)
    requires Can(s, e) && e.CondWait? && e.ms <= 0
    ensures s.next in Do(s, e).items
  {
  }
}
