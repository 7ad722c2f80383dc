/** The scheduler's promises, over every run. */
module SchedulerRuns {
  import opened Sequences
  import opened TimerWheel
  import opened Scheduler
  import opened SchedulerSafety

  ghost predicate Run(s: State, evs: seq<Event>)
    decreases |evs|
  {
    evs == [] || (Can(s, evs[0]) && Run(Do(s, evs[0]), evs[1..]))
  }

  ghost function After(s: State, evs: seq<Event>): State
    requires Run(s, evs)
    decreases |evs|
  {
    if evs == [] then s else After(Do(s, evs[0]), evs[1..])
  }

  ghost predicate Reachable(s: State) {
    exists now: nat, evs :: 0 < now && Run(Init(now), evs) && After(Init(now), evs) == s
  }

  lemma InitOk(now: nat)
    requires 0 < now
    ensures Inv(Init(now))
  {
    assert Linked(Init(now)) == multiset{};
  }

  lemma {:induction false} RunKeeps(s: State, evs: seq<Event>)
    requires Inv(s) && Run(s, evs)
    ensures Inv(After(s, evs))
    decreases |evs|
  {
    hide Inv, Can, Do;
    if evs != [] {
      StepKeeps(s, evs[0]);
      RunKeeps(Do(s, evs[0]), evs[1..]);
    }
  }

  lemma ReachableInv(s: State)
    requires Reachable(s)
    ensures Inv(s)
  {
    hide Inv, Can, Do;
    var now: nat, evs :| 0 < now && Run(Init(now), evs) && After(Init(now), evs) == s;
    InitOk(now);
    RunKeeps(Init(now), evs);
  }

  /** Exactly one wake-up per suspension. A suspended coroutine has one wait, which hangs at most
      once in all timer lists together and is never out of reach of an event, a deadline or a
      signal; and of the waits ever begun, those still there were never resumed and all others
      were resumed exactly once. */
  lemma OneWakePerSuspension(s: State, c: CoId)
    requires Reachable(s) && c in s.cos
    ensures s.cos[c].Waiting? ==>
      var id := s.cos[c].item;
      && id in s.items && s.items[id].owner == c && s.wakes[id] == 0
      && (forall j :: j in s.items && s.items[j].owner == c ==> j == id)
      && Linked(s)[EntryOf(s.items, id)] <= 1
      && (s.items[id].kind.PollItem? ==> Linked(s)[EntryOf(s.items, id)] == 1)
      && (s.items[id].kind.CondItem? ==> id in Waiters(s.conds, s.items[id].kind.cond) || EntryOf(s.items, id) in s.active)
    ensures !s.cos[c].Waiting? ==> forall j :: j in s.items ==> s.items[j].owner != c
    ensures forall id :: 0 <= id < s.next && id !in s.refused ==> s.wakes[id] == if id in s.items then 0 else 1
    ensures forall id :: id in s.refused ==> s.wakes[id] == 0 && id !in s.items
  {
    ReachableInv(s);
    if s.cos[c].Waiting? && s.items[s.cos[c].item].kind.PollItem? {
      assert EntryOf(s.items, s.cos[c].item) in Linked(s);
    }
  }

  /** What epoll can name is a poll some coroutine is suspended in, on that descriptor, or a poll
      that was refused. */
  lemma NoStaleRegistration(s: State, fd: int)
    requires Reachable(s) && fd in s.regs
    ensures s.regs[fd] in s.items <==> s.regs[fd] !in s.refused
    ensures s.regs[fd] in s.items ==>
      var it := s.items[s.regs[fd]];
      it.kind.PollItem? && fd in it.kind.fds && it.owner in s.cos && s.cos[it.owner] == Waiting(s.regs[fd])
  {
    ReachableInv(s);
  }

  /** Between rounds of the drain somebody is always served, until nobody is left: in the event loop
      with the active list not empty the next item can be dispatched, and otherwise the round ends. */
  lemma DrainNeverSticks(s: State, stop: bool)
    requires Reachable(s) && s.phase == Draining && s.stack != [] && Top(s) == MAIN
    ensures if s.active != [] then Can(s, Dispatch) && !Can(s, EndRound(stop)) else Can(s, EndRound(stop)) && !Can(s, Dispatch)
  {
    ReachableInv(s);
    if s.active != [] { HeadEntry(s); }
  }

  // ----- runs of one coroutine

  lemma Cons(s: State, e: Event, rest: seq<Event>)
    requires Can(s, e) && Run(Do(s, e), rest)
    ensures Run(s, [e] + rest) && After(s, [e] + rest) == After(Do(s, e), rest)
  {
    assert ([e] + rest)[1..] == rest;
    hide Can, Do;
  }

  ghost predicate Running1(s: State, now: nat, regs: map<int, ItemId>) {
    && s.stack == [MAIN, 1] && s.cos == map[MAIN := Active, 1 := Active] && s.phase == Outside
    && s.start == now && s.clock == now && s.regs == regs && s.items == map[]
  }

  lemma FirstRuns(now: nat)
    requires now > 0
    ensures Can(Init(now), Create(1)) && Can(Do(Init(now), Create(1)), Resume(1))
    ensures var s := Do(Do(Init(now), Create(1)), Resume(1)); Running1(s, now, map[]) && s.next == 0
  {
  }

  // ----- what a poll returns

  function CountFor(regs: map<int, ItemId>, batch: seq<int>, id: ItemId): nat {
    if batch == [] then 0
    else (if batch[0] in regs && regs[batch[0]] == id then 1 else 0) + CountFor(regs, batch[1..], id)
  }

  lemma PrepareSame(s: State, fd: int)
    ensures PrepareOne(s, fd).regs == s.regs && PrepareOne(s, fd).items.Keys == s.items.Keys
  {
  }

  lemma {:induction false} BatchHits(s: State, batch: seq<int>, id: ItemId)
    requires Inv(s) && s.phase == Batched && forall fd :: fd in batch ==> fd in s.regs && s.regs[fd] in s.items
    ensures PrepareAll(s, batch).hits[id] == s.hits[id] + CountFor(s.regs, batch, id)
    decreases |batch|
  {
    hide Inv;
    if batch != [] {
      assert batch[0] in batch && forall fd :: fd in batch[1..] ==> fd in batch;
      PrepareSame(s, batch[0]);
      Registered(s, batch[0]);
      PrepareKeeps(s, batch[0]);
      BatchHits(PrepareOne(s, batch[0]), batch[1..], id);
    }
  }

  lemma {:induction false} HitsKept(s: State, evs: seq<Event>)
    requires Run(s, evs) && forall i :: 0 <= i < |evs| ==> !evs[i].EpollWait?
    ensures After(s, evs).hits == s.hits
    decreases |evs|
  {
    hide Can;
    if evs != [] {
      StepHits(s, evs[0]);
      hide Do;
      HitsKept(Do(s, evs[0]), evs[1..]);
    }
  }

  lemma StepHits(s: State, e: Event)
    requires Can(s, e) && !e.EpollWait?
    ensures Do(s, e).hits == s.hits
  {
    hide Can;
    if e.Broadcast? { BroadcastHits(s, e.cond, |Waiters(s.conds, e.cond)|); }
  }

  lemma {:induction false} BroadcastHits(s: State, q: nat, n: nat)
    ensures SignalAll(s, q, n).hits == s.hits
    decreases n
  {
    if n > 0 { BroadcastHits(SignalOne(s, q), q, n - 1); }
  }

  /** A poll resumed after the epoll batch `batch` returns the number of its descriptors that
      `batch` named, and returns 0 exactly when its deadline ended the wait. */
  lemma PollReturns(s: State, batch: seq<int>, evs: seq<Event>)
    requires Reachable(s) && Can(s, EpollWait(batch))
    requires Run(Do(s, EpollWait(batch)), evs) && forall i :: 0 <= i < |evs| ==> !evs[i].EpollWait?
    ensures var t := After(Do(s, EpollWait(batch)), evs);
      Can(t, Dispatch) && t.items[t.active[0].id].kind.PollItem? ==>
        var id := t.active[0].id;
        var r := Do(t, Dispatch).results[id];
        r.ret == CountFor(s.regs, batch, id) && (r.ret == 0 <==> r.timedOut)
  {
    hide Inv;
    ReachableInv(s);
    var t0 := s.(phase := Batched, hits := multiset{});
    var t1 := Do(s, EpollWait(batch));
    var t := After(t1, evs);
    BatchCan(s, batch);
    hide Can, Do, PrepareAll;
    StepKeeps(s, EpollWait(batch));
    RunKeeps(t1, evs);
    HitsKept(t1, evs);
    BatchBegins(s);
    if Can(t, Dispatch) && t.items[t.active[0].id].kind.PollItem? {
      BatchHits(t0, batch, t.active[0].id);
      DispatchResult(t);
    }
  }

  lemma BatchCan(s: State, batch: seq<int>)
    requires Can(s, EpollWait(batch))
    ensures s.phase == AtWait && forall fd :: fd in batch ==> fd in s.regs && s.regs[fd] in s.items
    ensures Do(s, EpollWait(batch)) == PrepareAll(s.(phase := Batched, hits := multiset{}), batch)
  {
  }

  lemma BatchBegins(s: State)
    requires Inv(s) && s.phase == AtWait
    ensures Inv(s.(phase := Batched, hits := multiset{}))
  {
    EpollWaitKeeps(s, []);
  }

  lemma DispatchResult(t: State)
    requires Inv(t) && Can(t, Dispatch) && t.items[t.active[0].id].kind.PollItem?
    ensures var id := t.active[0].id; var r := Do(t, Dispatch).results[id];
      r.ret == t.hits[id] && (r.ret == 0 <==> r.timedOut)
  {
    var id := t.active[0].id;
    HeadEntry(t);
    assert PollOk(t.items[id], EntryOf(t.items, id), t.hits[id], t.active, t.expired);
  }

  // ----- the call stack

  /** An event pushes one coroutine, pops one, or leaves the call stack alone. */
  lemma StepStack(s: State, e: Event)
    requires Can(s, e)
    ensures var t := Do(s, e).stack;
      t == s.stack || t == s.stack[..|s.stack| - 1] || (|t| == |s.stack| + 1 && t[..|s.stack|] == s.stack)
    ensures e.EpollWait? || e.Broadcast? || e.Signal? ==> Do(s, e).stack == s.stack
  {
    if e.Broadcast? { BroadcastStack(s, e.cond, |Waiters(s.conds, e.cond)|); }
    if e.EpollWait? { PrepareStack(s.(phase := Batched, hits := multiset{}), e.batch); }
  }

  lemma {:induction false} BroadcastStack(s: State, q: nat, n: nat)
    ensures SignalAll(s, q, n).stack == s.stack
    decreases n
  {
    if n > 0 { BroadcastStack(SignalOne(s, q), q, n - 1); }
  }

  lemma {:induction false} PrepareStack(s: State, batch: seq<int>)
    ensures PrepareAll(s, batch).stack == s.stack
    decreases |batch|
  {
    if batch != [] { PrepareStack(PrepareOne(s, batch[0]), batch[1..]); }
  }

  ghost predicate StaysAbove(s: State, evs: seq<Event>, d: nat)
    requires Run(s, evs)
    decreases |evs|
  {
    d <= |s.stack| && (evs == [] || StaysAbove(Do(s, evs[0]), evs[1..], d))
  }

  /** As long as the call stack is at least `d` deep, its lowest `d` places do not change. So a
      resume comes back to the very coroutine that made it, at the depth it was made at, however
      the resumed one gives up control: by yielding, by waiting or by finishing. */
  lemma {:induction false} ResumeReturns(s: State, evs: seq<Event>, d: nat)
    requires Run(s, evs) && StaysAbove(s, evs, d)
    ensures |After(s, evs).stack| >= d && After(s, evs).stack[..d] == s.stack[..d]
    decreases |evs|
  {
    if evs != [] {
      StepStack(s, evs[0]);
      var t := Do(s, evs[0]);
      hide Can, Do;
      ResumeReturns(t, evs[1..], d);
      if |t.stack| == |s.stack| + 1 { assert t.stack[..d] == t.stack[..|s.stack|][..d]; }
    }
  }

  /** In every reachable state the main coroutine is at the bottom of a stack without repetition,
      the running one is on top and active, whoever yields has someone to go back to, and the
      event loop has the thread exactly when the stack is back at depth one. */
  lemma CallStackDiscipline(s: State)
    requires Reachable(s)
    ensures 0 < |s.stack| <= MAX_DEPTH && s.stack[0] == MAIN && NoDup(s.stack)
    ensures forall c :: c in s.cos ==> (s.cos[c] == Active <==> c in s.stack)
    ensures Can(s, Yield) || Can(s, Finish) ==> |s.stack| >= 2
    ensures Top(s) == MAIN <==> |s.stack| == 1
    ensures s.phase == AtWait || s.phase == Batched || s.phase == Swept ==> s.stack == [MAIN]
  {
    ReachableInv(s);
    Basics(s);
  }

  // ----- deadlines

  /** `x` is not waiting in the wheel any more: if its wait still exists it is about to be served. */
  ghost predicate Served(s: State, x: Entry) {
    x.id < s.next && x.id !in s.refused && (x.id in s.items ==> x in s.expired || x in s.active)
  }

  lemma ActivateServed(s: State, e: Entry, x: Entry)
    requires Served(s, x)
    ensures Served(Activate(s, e), x)
  {
    WithoutIn(s.expired, e);
    WithoutIn(s.active, e);
  }

  lemma PrepareServed(s: State, fd: int, x: Entry)
    requires Served(s, x)
    ensures Served(PrepareOne(s, fd), x)
  {
    if fd in s.regs && s.regs[fd] in s.items && s.items[s.regs[fd]].kind.PollItem? {
      var t := Raised(s, s.regs[fd]);
      assert Served(t, x);
      ActivateServed(t, EntryOf(s.items, s.regs[fd]), x);
    }
  }

  lemma {:induction false} BatchServed(s: State, batch: seq<int>, x: Entry)
    requires Served(s, x)
    ensures Served(PrepareAll(s, batch), x)
    decreases |batch|
  {
    hide PrepareOne, Served;
    if batch != [] {
      PrepareServed(s, batch[0], x);
      BatchServed(PrepareOne(s, batch[0]), batch[1..], x);
    }
  }

  lemma SignalServed(s: State, q: nat, x: Entry)
    requires Served(s, x)
    ensures Served(SignalOne(s, q), x)
  {
    if q in s.conds && s.conds[q] != [] && s.conds[q][0] in s.items {
      ActivateServed(s, EntryOf(s.items, s.conds[q][0]), x);
    }
  }

  lemma {:induction false} BroadcastServed(s: State, q: nat, n: nat, x: Entry)
    requires Served(s, x)
    ensures Served(SignalAll(s, q, n), x)
    decreases n
  {
    hide SignalOne, Served;
    if n > 0 {
      SignalServed(s, q, x);
      BroadcastServed(SignalOne(s, q), q, n - 1, x);
    }
  }

  lemma BeginServed(s: State, e: Event, x: Entry)
    requires Can(s, e) && Served(s, x) && (e.Poll? || e.CondWait?)
    ensures Served(Do(s, e), x)
  {
    hide Can, Register, InsertStable;
  }

  lemma DispatchServed(s: State, x: Entry)
    requires s.active != [] && s.active[0].id in s.items && Served(s, x)
    ensures Served(Wake(s.(active := s.active[1..]), s.active[0].id), x)
  {
    assert s.active == [s.active[0]] + s.active[1..];
  }

  lemma StepServed(s: State, e: Event, x: Entry)
    requires Inv(s) && Can(s, e) && Served(s, x)
    ensures Served(Do(s, e), x)
  {
    hide Inv;
    match e
    case Poll(_, _, _, _) => BeginServed(s, e, x);
    case CondWait(_, _, _) => BeginServed(s, e, x);
    case Signal(q) => SignalServed(s, q, x);
    case Broadcast(q) => BroadcastServed(s, q, |Waiters(s.conds, q)|, x);
    case EpollWait(batch) =>
      assert Served(s.(phase := Batched, hits := multiset{}), x);
      BatchServed(s.(phase := Batched, hits := multiset{}), batch, x);
    case SweepWheel(_) => Basics(s);
    case Dispatch => DispatchServed(s, x);
    case _ =>
  }

  lemma {:induction false} RunServed(s: State, evs: seq<Event>, x: Entry)
    requires Inv(s) && Run(s, evs) && Served(s, x)
    ensures Served(After(s, evs), x)
    decreases |evs|
  {
    hide Inv, Can, Do, Served;
    if evs != [] {
      StepServed(s, evs[0], x);
      StepKeeps(s, evs[0]);
      RunServed(Do(s, evs[0]), evs[1..], x);
    }
  }

  /** Deadlines are met: every wait whose deadline the sweep at `now` finds passed has been ended,
      by exactly one resume, when the round of the event loop that made the sweep ends. */
  lemma DeadlinesServed(s: State, now: nat, evs: seq<Event>, x: Entry)
    requires Reachable(s) && Can(s, SweepWheel(now)) && Run(Do(s, SweepWheel(now)), evs)
    requires x in s.timer && x.expire <= now
    ensures var t := After(Do(s, SweepWheel(now)), evs);
      Can(t, EndRound(true)) ==> x.id !in t.items && t.wakes[x.id] == 1
  {
    ReachableInv(s);
    var t1 := Do(s, SweepWheel(now));
    assert Served(t1, x) by { SweepServes(s, now, x); }
    StepKeeps(s, SweepWheel(now));
    RunKeeps(t1, evs);
    RunServed(t1, evs, x);
    var t := After(t1, evs);
    if Can(t, EndRound(true)) { Ended(t, x); }
  }

  lemma SweepServes(s: State, now: nat, x: Entry)
    requires Inv(s) && Can(s, SweepWheel(now)) && x in s.timer && x.expire <= now
    ensures Served(Do(s, SweepWheel(now)), x)
  {
    QueueDelivers(s.timer, now);
    assert x in Linked(s);
  }

  lemma Ended(t: State, x: Entry)
    requires Inv(t) && Can(t, EndRound(true)) && Served(t, x)
    ensures x.id !in t.items && t.wakes[x.id] == 1
  {
  }

  /** A sweep sets the start of the wheel to its clock reading, and every coroutine the event loop
      resumes runs after a sweep; from then on a poll is accepted exactly when its timeout is not
      negative and its clamped deadline lies within one turn of the wheel, in particular always
      within 20 seconds of the sweep. */
  lemma PollsAreAdmitted(s: State, fds: seq<int>, timeout: int, now: nat, failing: set<int>)
    requires Reachable(s) && MayWait(s) && ClockOk(s, now) && 0 <= now + timeout
    ensures Can(s, Poll(fds, timeout, now, failing)) <==>
            0 <= timeout && now - s.start + (if timeout < 40000 then timeout else 40000) < 60000
    ensures 0 <= timeout && now < s.start + 20000 ==> Can(s, Poll(fds, timeout, now, failing))
    ensures Can(s, SweepWheel(now)) ==> Do(s, SweepWheel(now)).start == now
  {
    ReachableInv(s);
    PollAdmission(s.start, now, timeout);
  }
}
