/** Registrations with epoll over every run: when a refused poll leaves one behind that leads to
    nothing, and how long a suspended poll keeps its own. */
module SchedulerRefusals {
  import opened TimerWheel
  import opened Scheduler
  import opened SchedulerSafety
  import opened SchedulerRuns

  /** Every registration leads to a wait that exists. */
  ghost predicate NoDangling(s: State) {
    forall fd :: fd in s.regs ==> s.regs[fd] in s.items
  }

  /** A caller can tell beforehand whether a poll would register anything. */
  predicate RegistersNothing(regs: map<int, ItemId>, fds: seq<int>, failing: set<int>) {
    forall fd :: fd in fds ==> fd < 0 || fd in regs || fd in failing
  }

  lemma {:induction false} RegisterNothing(regs: map<int, ItemId>, fds: seq<int>, id: ItemId, failing: set<int>)
    ensures Register(regs, fds, id, failing) == regs <==> RegistersNothing(regs, fds, failing)
    decreases |fds|
  {
    if fds != [] {
      var fd, rest := fds[0], fds[1..];
      assert fds == [fd] + rest;
      if fd > -1 && fd !in regs && fd !in failing {
        assert fd in Register(regs[fd := id], rest, id, failing);
      } else {
        RegisterNothing(regs, rest, id, failing);
      }
    }
  }

  // ----- one call

  /** What a call of co_poll_inner is: accepted or refused. */
  function Call(s: State, fds: seq<int>, timeout: int, now: nat, failing: set<int>): Event {
    if 0 <= timeout && now - s.start + Clamp(timeout) < WHEEL_SIZE then Poll(fds, timeout, now, failing)
    else PollRefused(fds, timeout, now, failing)
  }

  lemma CallCan(s: State, fds: seq<int>, timeout: int, now: nat, failing: set<int>)
    requires Inv(s) && MayWait(s) && ClockOk(s, now) && 0 <= now + timeout
    ensures Can(s, Call(s, fds, timeout, now, failing))
    ensures Can(s, Poll(fds, timeout, now, failing)) <==> Call(s, fds, timeout, now, failing).Poll?
    ensures Can(s, PollRefused(fds, timeout, now, failing)) <==> Call(s, fds, timeout, now, failing).PollRefused?
  {
    hide StackOk, WaitsOk, LinksOk, CondsOk, RegsOk, PollsOk, PhaseOk, WakesOk;
    PollAdmission(s.start, now, timeout);
  }

  lemma {:induction false} RegistersRest(regs: map<int, ItemId>, fds: seq<int>, id: ItemId, failing: set<int>, fd: int)
    requires fd in fds && fd >= 0 && fd !in failing
    ensures fd in Register(regs, fds, id, failing)
    decreases |fds|
  {
    var first, rest := fds[0], fds[1..];
    var regs' := if first > -1 && first !in regs && first !in failing then regs[first := id] else regs;
    if fd != first {
      assert fds == [first] + rest;
      RegistersRest(regs', rest, id, failing, fd);
    }
  }

  lemma RefusedDangles(s: State, fds: seq<int>, now: nat, failing: set<int>)
    requires Inv(s)
    ensures NoDangling(DoPollRefused(s, fds, now, failing)) <==> NoDangling(s) && RegistersNothing(s.regs, fds, failing)
  {
    Basics(s);
    hide Inv, Register;
    RegisterNothing(s.regs, fds, s.next, failing);
    if !RegistersNothing(s.regs, fds, failing) {
      var fd :| fd in fds && fd >= 0 && fd !in s.regs && fd !in failing;
      RegistersRest(s.regs, fds, s.next, failing, fd);
      assert Register(s.regs, fds, s.next, failing)[fd] == s.next;
    }
  }

  lemma AcceptedDangles(s: State, fds: seq<int>, timeout: int, now: nat, failing: set<int>)
    requires Inv(s) && Can(s, Poll(fds, timeout, now, failing))
    ensures NoDangling(Do(s, Poll(fds, timeout, now, failing))) <==> NoDangling(s)
  {
    var t := Do(s, Poll(fds, timeout, now, failing));
    PollParts(s, fds, timeout, now, failing);
    DeadIds(s);
    hide Inv, Can, Do, Register;
    if NoDangling(t) {
      forall fd | fd in s.regs ensures s.regs[fd] in s.items { assert t.regs[fd] == s.regs[fd]; }
    }
  }

  lemma PollParts(s: State, fds: seq<int>, timeout: int, now: nat, failing: set<int>)
    requires Can(s, Poll(fds, timeout, now, failing))
    ensures var t := Do(s, Poll(fds, timeout, now, failing));
      && t.regs == Register(s.regs, fds, s.next, failing)
      && t.items.Keys == s.items.Keys + {s.next} && t.refused == s.refused
  {
    hide Register, InsertStable, AddCode;
  }

  /** What a registration leads to is a wait that exists or is long gone. */
  lemma DeadIds(s: State)
    requires Inv(s)
    ensures forall fd :: fd in s.regs ==> s.regs[fd] < s.next && (s.regs[fd] in s.items <==> s.regs[fd] !in s.refused)
  {
  }

  /** For every reachable state and every call of co_poll_inner: afterwards every registration leads
      to a wait that exists if and only if that was so before and the call is accepted or has
      nothing to register. */
  lemma PollLeavesNothingIff(s: State, fds: seq<int>, timeout: int, now: nat, failing: set<int>)
    requires Reachable(s) && MayWait(s) && ClockOk(s, now) && 0 <= now + timeout
    ensures Can(s, Call(s, fds, timeout, now, failing))
    ensures NoDangling(Do(s, Call(s, fds, timeout, now, failing))) <==>
            NoDangling(s) && (
              || (0 <= timeout && now - s.start + (if timeout < 40000 then timeout else 40000) < 60000)
              || forall fd :: fd in fds ==> fd < 0 || fd in s.regs || fd in failing)
  {
    ReachableInv(s);
    CallCan(s, fds, timeout, now, failing);
    hide Inv, Reachable, Can, NoDangling, Register;
    if Call(s, fds, timeout, now, failing).Poll? {
      AcceptedDangles(s, fds, timeout, now, failing);
    } else {
      RefusedDangles(s, fds, now, failing);
    }
  }

  // ----- every run

  /** The events that may leave a dangling registration: refused polls with something to register. */
  predicate LeavesSome(s: State, e: Event) {
    e.PollRefused? && !RegistersNothing(s.regs, e.fds, e.failing)
  }

  ghost predicate Harmless(s: State, evs: seq<Event>)
    requires Run(s, evs)
    decreases |evs|
  {
    evs == [] || (!LeavesSome(s, evs[0]) && Harmless(Do(s, evs[0]), evs[1..]))
  }

  ghost predicate NeverDangles(s: State, evs: seq<Event>)
    requires Run(s, evs)
    decreases |evs|
  {
    NoDangling(s) && (evs == [] || NeverDangles(Do(s, evs[0]), evs[1..]))
  }

  lemma {:induction false} BatchRegs(s: State, batch: seq<int>)
    ensures var t := PrepareAll(s, batch);
            t.regs == s.regs && t.items.Keys == s.items.Keys && t.refused == s.refused && t.next == s.next
    decreases |batch|
  {
    if batch != [] {
      PrepareSame(s, batch[0]);
      BatchRegs(PrepareOne(s, batch[0]), batch[1..]);
    }
  }

  lemma {:induction false} SignalRegs(s: State, q: nat, n: nat)
    ensures var t := SignalAll(s, q, n);
            t.regs == s.regs && t.items == s.items && t.refused == s.refused && t.next == s.next
    decreases n
  {
    if n > 0 { SignalRegs(SignalOne(s, q), q, n - 1); }
  }

  /** The poll that an event ends, if it does, names the descriptor. */
  predicate EndsPollOn(s: State, e: Event, fd: int) {
    e.Dispatch? && s.active != [] && s.active[0].id in s.items && s.items[s.active[0].id].kind.PollItem?
    && fd in s.items[s.active[0].id].kind.fds
  }

  lemma BeginRegsAfter(s: State, e: Event, fd: int)
    requires Can(s, e) && (e.Poll? || e.PollRefused? || e.CondWait?)
    ensures var t := Do(s, e);
      && (fd in s.regs ==> fd in t.regs && t.regs[fd] == s.regs[fd])
      && (fd in t.regs ==> (fd in s.regs && t.regs[fd] == s.regs[fd]) || (t.regs[fd] == s.next && !e.CondWait?))
      && (!e.PollRefused? ==> t.refused == s.refused)
  {
    hide InsertStable, AddCode, ClockOk;
  }

  /** What an event does to one registration. */
  lemma StepRegs(s: State, e: Event, fd: int)
    requires Can(s, e)
    ensures var t := Do(s, e);
      && (fd in s.regs ==> (fd in t.regs && t.regs[fd] == s.regs[fd] <==> !EndsPollOn(s, e, fd)))
      && (fd in t.regs ==> (fd in s.regs && t.regs[fd] == s.regs[fd]) || (t.regs[fd] == s.next && (e.Poll? || e.PollRefused?)))
      && (!e.PollRefused? ==> t.refused == s.refused)
  {
    match e
    case Poll(_, _, _, _) => BeginRegsAfter(s, e, fd);
    case PollRefused(_, _, _, _) => BeginRegsAfter(s, e, fd);
    case CondWait(_, _, _) => BeginRegsAfter(s, e, fd);
    case Signal(q) => SignalRegs(s, q, 1); assert SignalAll(s, q, 1) == SignalOne(s, q);
    case Broadcast(q) => SignalRegs(s, q, |Waiters(s.conds, q)|);
    case EpollWait(batch) => BatchRegs(s.(phase := Batched, hits := multiset{}), batch);
    case Create(_) => case Resume(_) => case Yield => case Finish => case EnterLoop =>
    case SweepWheel(_) => case JoinExpired => case Dispatch => case EndRound(_) =>
  }

  lemma StepDangles(s: State, e: Event)
    requires Inv(s) && Can(s, e) && NoDangling(s)
    ensures NoDangling(Do(s, e)) <==> !LeavesSome(s, e)
  {
    if e.PollRefused? {
      RefusedDangles(s, e.fds, e.now, e.failing);
    } else {
      StepKeeps(s, e);
      var t := Do(s, e);
      DeadIds(s);
      DeadIds(t);
      NextIsNew(s);
      forall fd | fd in t.regs ensures t.regs[fd] in t.items {
        hide Inv, Can, Do;
        StepRegs(s, e, fd);
      }
    }
  }

  lemma NextIsNew(s: State)
    requires Inv(s)
    ensures s.next !in s.refused
  {
  }

  /** On a run from a state without dangling registrations none ever dangles if and only if the run
      has no refused poll with something to register. */
  lemma {:induction false} NeverDanglesIff(s: State, evs: seq<Event>)
    requires Inv(s) && NoDangling(s) && Run(s, evs)
    ensures NeverDangles(s, evs) <==> Harmless(s, evs)
    decreases |evs|
  {
    hide Inv, Can, Do, NoDangling, LeavesSome;
    if evs != [] {
      StepKeeps(s, evs[0]);
      StepDangles(s, evs[0]);
      if !LeavesSome(s, evs[0]) {
        NeverDanglesIff(Do(s, evs[0]), evs[1..]);
      } else if evs[1..] == [] {
        assert !NeverDangles(Do(s, evs[0]), []);
      }
    }
  }

  /** In particular on every run of a thread. */
  lemma ThreadNeverDanglesIff(now: nat, evs: seq<Event>)
    requires 0 < now && Run(Init(now), evs)
    ensures NeverDangles(Init(now), evs) <==> Harmless(Init(now), evs)
  {
    InitOk(now);
    NeverDanglesIff(Init(now), evs);
  }

  // ----- a run that goes wrong

  /** Coroutine 1 polls descriptor 7 with a negative timeout, is refused, and yields. */
  function BadRun(now: nat): seq<Event> {
    [Create(1), Resume(1), PollRefused([7], -1, now, {}), Yield, EnterLoop]
  }

  lemma BadPoll(s: State, now: nat)
    requires now > 0 && Running1(s, now, map[]) && s.next == 0
    ensures Can(s, PollRefused([7], -1, now, {}))
    ensures Running1(Do(s, PollRefused([7], -1, now, {})), now, map[7 := 0])
    ensures 0 in Do(s, PollRefused([7], -1, now, {})).refused
  {
    assert [7][1..] == [];
  }

  lemma BadEnd(s: State, now: nat)
    requires Running1(s, now, map[7 := 0]) && 0 in s.refused
    ensures Can(s, Yield) && Can(Do(s, Yield), EnterLoop)
    ensures var t := Do(Do(s, Yield), EnterLoop);
            t.phase == AtWait && Reportable(t, [7]) && t.regs == map[7 := 0] && t.items == map[] && 0 in t.refused
  {
  }

  /** After that the kernel may report an event for descriptor 7, and what the code takes for the
      poll does not exist. */
  lemma RefusedPollGoesWrong(now: nat)
    requires now > 0
    ensures Run(Init(now), BadRun(now))
    ensures var s := After(Init(now), BadRun(now));
            s.phase == AtWait && Reportable(s, [7]) && s.regs[7] !in s.items && s.regs[7] in s.refused
  {
    var p := PollRefused([7], -1, now, {});
    var s0 := Init(now);
    FirstRuns(now);
    var s1 := Do(s0, Create(1));
    var s2 := Do(s1, Resume(1));
    BadPoll(s2, now);
    var s3 := Do(s2, p);
    BadEnd(s3, now);
    var s4 := Do(s3, Yield);
    hide Can, Do, Init, Running1;
    Cons(s4, EnterLoop, []);
    Cons(s3, Yield, [EnterLoop]);
    Cons(s2, p, [Yield] + [EnterLoop]);
    Cons(s1, Resume(1), [p] + ([Yield] + [EnterLoop]));
    Cons(s0, Create(1), [Resume(1)] + ([p] + ([Yield] + [EnterLoop])));
    assert BadRun(now) == [Create(1)] + ([Resume(1)] + ([p] + ([Yield] + [EnterLoop])));
    assert [EnterLoop] + [] == [EnterLoop];
  }

  // ----- how long a suspended poll keeps its registrations

  /** No event of the run ends a poll on the descriptor. */
  ghost predicate NoPollEndsOn(s: State, evs: seq<Event>, fd: int)
    requires Run(s, evs)
    decreases |evs|
  {
    evs == [] || (!EndsPollOn(s, evs[0], fd) && NoPollEndsOn(Do(s, evs[0]), evs[1..], fd))
  }

  /** A registration lasts exactly until a poll on its descriptor ends, be it this poll or another. */
  lemma {:induction false} RegistrationLasts(s: State, evs: seq<Event>, fd: int)
    requires Run(s, evs) && fd in s.regs && NoPollEndsOn(s, evs, fd)
    ensures fd in After(s, evs).regs && After(s, evs).regs[fd] == s.regs[fd]
    decreases |evs|
  {
    hide Can, Do, EndsPollOn;
    if evs != [] {
      StepRegs(s, evs[0], fd);
      RegistrationLasts(Do(s, evs[0]), evs[1..], fd);
    }
  }

  lemma RegistrationEnds(s: State, e: Event, fd: int)
    requires Can(s, e) && fd in s.regs
    ensures fd in Do(s, e).regs && Do(s, e).regs[fd] == s.regs[fd] <==> !EndsPollOn(s, e, fd)
  {
    StepRegs(s, e, fd);
  }
}
