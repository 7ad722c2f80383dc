/** The scheduler on its wheel: every event does to the timing wheel what the code does to it, and
    the queue of the transition system is at all times what the wheel's slots hold. */
module SchedulerWheel {
  import opened Sequences
  import opened TimerWheel
  import opened Scheduler
  import opened SchedulerSafety
  import opened SchedulerRuns

  /** The slots of the wheel, one after the other, are the scheduler's timer. */
  ghost predicate Matches(s: State, w: Wheel<Entry>) {
    && OnTime(w) && |w.slots| == WHEEL_SIZE && w.start == s.start > 0
    && Flatten(w.slots) == s.timer && NoDup(s.timer)
  }

  function Unhook(w: Wheel<Entry>, e: Entry): (v: Wheel<Entry>)
    ensures |v.slots| == |w.slots| && v.start == w.start
  {
    w.(slots := Cancel(w.slots, e))
  }

  /** What a batch of epoll events does to the wheel: the first event of a poll takes it out. */
  function PrepareOnWheel(s: State, batch: seq<int>, w: Wheel<Entry>): (v: Wheel<Entry>)
    ensures |v.slots| == |w.slots| && v.start == w.start
    decreases |batch|
  {
    if batch == [] then w
    else
      var fd := batch[0];
      var first := fd in s.regs && s.regs[fd] in s.items && s.items[s.regs[fd]].kind.PollItem?
                   && !s.items[s.regs[fd]].kind.detached;
      PrepareOnWheel(PrepareOne(s, fd), batch[1..], if first then Unhook(w, EntryOf(s.items, s.regs[fd])) else w)
  }

  /** And a number of signals. */
  function SignalOnWheel(s: State, q: nat, n: nat, w: Wheel<Entry>): (v: Wheel<Entry>)
    ensures |v.slots| == |w.slots| && v.start == w.start
    decreases n
  {
    if n == 0 then w
    else
      var some := q in s.conds && s.conds[q] != [] && s.conds[q][0] in s.items;
      SignalOnWheel(SignalOne(s, q), q, n - 1, if some then Unhook(w, EntryOf(s.items, s.conds[q][0])) else w)
  }

  /** What an event does to the wheel. */
  function WheelDo(s: State, e: Event, w: Wheel<Entry>): Wheel<Entry>
    requires Can(s, e) && w.start == s.start > 0 && |w.slots| == WHEEL_SIZE
  {
    match e
    case Poll(_, timeout, now, _) => Add(w, Entry(s.next, PollExpire(timeout, now)), PollExpire(timeout, now), now).1
    case CondWait(_, ms, now) => if ms > 0 then Add(w, Entry(s.next, now + ms), now + ms, now).1 else w
    case Signal(q) => SignalOnWheel(s, q, 1, w)
    case Broadcast(q) => SignalOnWheel(s, q, |Waiters(s.conds, q)|, w)
    case EpollWait(batch) => PrepareOnWheel(s.(phase := Batched, hits := multiset{}), batch, w)
    case SweepWheel(now) => Take(w, now).1
    case _ => w
  }

  lemma UnhookMatches(s: State, w: Wheel<Entry>, e: Entry)
    requires Matches(s, w)
    ensures Matches(Activate(s, e), Unhook(w, e))
  {
    CancelIsWithout(w.slots, e);
    CancelOnTime(w, e);
    if k :| 0 <= k < |s.timer| && s.timer[k] == e { WithoutAt(s.timer, e, k); } else { WithoutAbsent(s.timer, e); }
  }

  lemma {:induction false} BatchMatches(s: State, batch: seq<int>, w: Wheel<Entry>)
    requires Matches(s, w)
    ensures Matches(PrepareAll(s, batch), PrepareOnWheel(s, batch, w))
    decreases |batch|
  {
    if batch != [] {
      var fd := batch[0];
      if fd in s.regs && s.regs[fd] in s.items && s.items[s.regs[fd]].kind.PollItem? && !s.items[s.regs[fd]].kind.detached {
        var e := EntryOf(s.items, s.regs[fd]);
        UnhookMatches(Raised(s, s.regs[fd]), w, e);
        BatchMatches(PrepareOne(s, fd), batch[1..], Unhook(w, e));
      } else {
        BatchMatches(PrepareOne(s, fd), batch[1..], w);
      }
    }
  }

  lemma {:induction false} SignalMatches(s: State, q: nat, n: nat, w: Wheel<Entry>)
    requires Matches(s, w)
    ensures Matches(SignalAll(s, q, n), SignalOnWheel(s, q, n, w))
    decreases n
  {
    if n > 0 {
      if q in s.conds && s.conds[q] != [] && s.conds[q][0] in s.items {
        var e := EntryOf(s.items, s.conds[q][0]);
        UnhookMatches(s, w, e);
        SignalMatches(SignalOne(s, q), q, n - 1, Unhook(w, e));
      } else {
        SignalMatches(SignalOne(s, q), q, n - 1, w);
      }
    }
  }

  lemma AddMatches(s: State, w: Wheel<Entry>, e: Entry, now: nat)
    requires Matches(s, w) && 0 < now && Add(w, e, e.expire, now).0 == 0 && e !in s.timer
    ensures Matches(s.(timer := InsertStable(s.timer, e)), Add(w, e, e.expire, now).1) <==> e.expire < w.start + |w.slots|
  {
    AddIsInsert(w, e, now);
    InsertNoDup(s.timer, e);
    hide OnTime, InsertStable, Flatten;
  }

  lemma NewInTimer(s: State, expire: nat)
    requires Inv(s)
    ensures Entry(s.next, expire) !in s.timer
  {
    assert forall x :: x in s.timer ==> x in Linked(s);
  }

  lemma SweepMatches(s: State, w: Wheel<Entry>, now: nat)
    requires Matches(s, w) && Can(s, SweepWheel(now)) && s.start <= s.clock
    ensures Matches(Do(s, SweepWheel(now)), WheelDo(s, SweepWheel(now), w)) && Take(w, now).0 == Do(s, SweepWheel(now)).expired
  {
    TakeIsDue(w, now);
    ShortGapSweepsRight(w, now);
    hide Take, OnTime, DueCount;
  }

  /** Matching is about the wheel and the timer alone. */
  lemma OnlyTimer(s: State, t: State, w: Wheel<Entry>)
    requires t.timer == s.timer && t.start == s.start
    ensures Matches(t, w) <==> Matches(s, w)
  {
  }

  lemma PollMatches(s: State, w: Wheel<Entry>, fds: seq<int>, timeout: int, now: nat, failing: set<int>)
    requires Inv(s) && Matches(s, w) && Can(s, Poll(fds, timeout, now, failing))
    ensures Matches(Do(s, Poll(fds, timeout, now, failing)), WheelDo(s, Poll(fds, timeout, now, failing), w))
  {
    var e := Entry(s.next, PollExpire(timeout, now));
    NewInTimer(s, e.expire);
    AddMatches(s, w, e, now);
    hide Matches, Register, InsertStable;
    OnlyTimer(s.(timer := InsertStable(s.timer, e)), Do(s, Poll(fds, timeout, now, failing)), Add(w, e, e.expire, now).1);
  }

  predicate Timed(s: State, ms: int, now: nat) {
    ms > 0 && AddCode(s.start, WHEEL_SIZE, now + ms, now) == 0
  }

  lemma CondWaitTimer(s: State, q: nat, ms: int, now: nat)
    requires Can(s, CondWait(q, ms, now))
    ensures var t := Do(s, CondWait(q, ms, now));
            t.start == s.start && t.timer == if Timed(s, ms, now) then InsertStable(s.timer, Entry(s.next, now + ms)) else s.timer
  {
    hide InsertStable, AddCode;
  }

  /** A refused insertion leaves the wheel alone. */
  lemma RefusedAdd(w: Wheel<Entry>, e: Entry, now: nat)
    requires w.start > 0 && |w.slots| > 0 && AddCode(w.start, |w.slots|, e.expire, now) != 0
    ensures Add(w, e, e.expire, now).1 == w
  {
  }

  /** A wait whose deadline is 2^31 ms or more after the last sweep. The wheel accepts it, and by
      `WaitAdmission` puts it elsewhere than the queue would. */
  predicate FarWait(s: State, e: Event) {
    e.CondWait? && e.ms > 0 && e.now - s.start + e.ms >= HALF
  }

  lemma TimedAdd(s: State, w: Wheel<Entry>, q: nat, ms: int, now: nat)
    requires Matches(s, w) && Can(s, CondWait(q, ms, now)) && Timed(s, ms, now)
    ensures 0 < ms && 0 <= now + ms
    ensures var e := Entry(s.next, now + ms);
            && WheelDo(s, CondWait(q, ms, now), w) == Add(w, e, e.expire, now).1 && Add(w, e, e.expire, now).0 == 0
            && (e.expire < w.start + |w.slots| <==> !FarWait(s, CondWait(q, ms, now)))
  {
    hide Do, OnTime, InsertStable;
  }

  lemma TimedMatches(s: State, w: Wheel<Entry>, q: nat, ms: int, now: nat)
    requires Inv(s) && Matches(s, w) && Can(s, CondWait(q, ms, now)) && Timed(s, ms, now)
    ensures Matches(Do(s, CondWait(q, ms, now)), WheelDo(s, CondWait(q, ms, now), w)) <==> !FarWait(s, CondWait(q, ms, now))
  {
    assert 0 < now && w.start == s.start > 0;
    hide Do, Inv, Matches, InsertStable, WheelDo, Add, Timed, FarWait;
    TimedAdd(s, w, q, ms, now);
    CondWaitTimer(s, q, ms, now);
    var e := Entry(s.next, now + ms);
    NewInTimer(s, e.expire);
    hide Can;
    AddMatches(s, w, e, now);
    OnlyTimer(s.(timer := InsertStable(s.timer, e)), Do(s, CondWait(q, ms, now)), Add(w, e, e.expire, now).1);
  }

  lemma UntimedWaitMatches(s: State, w: Wheel<Entry>, q: nat, ms: int, now: nat)
    requires Matches(s, w) && Can(s, CondWait(q, ms, now)) && !Timed(s, ms, now)
    ensures Matches(Do(s, CondWait(q, ms, now)), WheelDo(s, CondWait(q, ms, now), w))
  {
    CondWaitTimer(s, q, ms, now);
    if ms > 0 { RefusedAdd(w, Entry(s.next, now + ms), now); }
    OnlyTimer(s, Do(s, CondWait(q, ms, now)), w);
    hide Do, Matches, Add;
  }

  lemma FarIsTimed(s: State, e: Event)
    requires Inv(s) && Can(s, e) && FarWait(s, e)
    ensures Timed(s, e.ms, e.now)
  {
    assert s.start <= s.clock <= e.now;
    hide Inv;
  }

  lemma CondWaitMatches(s: State, w: Wheel<Entry>, q: nat, ms: int, now: nat)
    requires Inv(s) && Matches(s, w) && Can(s, CondWait(q, ms, now))
    ensures Matches(Do(s, CondWait(q, ms, now)), WheelDo(s, CondWait(q, ms, now), w)) <==> !FarWait(s, CondWait(q, ms, now))
  {
    if FarWait(s, CondWait(q, ms, now)) { FarIsTimed(s, CondWait(q, ms, now)); }
    hide Inv, Matches, Can, Do, WheelDo, Timed, FarWait;
    if Timed(s, ms, now) { TimedMatches(s, w, q, ms, now); } else { UntimedWaitMatches(s, w, q, ms, now); }
  }

  lemma KernelMatches(s: State, w: Wheel<Entry>, e: Event)
    requires Matches(s, w) && Can(s, e) && (e.Signal? || e.Broadcast? || e.EpollWait?)
    ensures Matches(Do(s, e), WheelDo(s, e, w))
  {
    hide Can;
    match e
    case Signal(q) => SignalMatches(s, q, 1, w); hide Matches; assert SignalAll(s, q, 1) == SignalOne(s, q);
    case Broadcast(q) => SignalMatches(s, q, |Waiters(s.conds, q)|, w);
    case EpollWait(batch) =>
      OnlyTimer(s, s.(phase := Batched, hits := multiset{}), w);
      BatchMatches(s.(phase := Batched, hits := multiset{}), batch, w);
  }

  predicate Untimed(e: Event) {
    !e.Poll? && !e.CondWait? && !e.Signal? && !e.Broadcast? && !e.EpollWait? && !e.SweepWheel?
  }

  lemma UntimedMatches(s: State, w: Wheel<Entry>, e: Event)
    requires Matches(s, w) && Can(s, e) && Untimed(e)
    ensures Matches(Do(s, e), WheelDo(s, e, w))
  {
    hide Can, Matches;
    OnlyTimer(s, Do(s, e), w);
  }

  /** An event keeps the timer equal to what the wheel holds if and only if it is not a far wait; the
      code's wheel operations and the queue's answer alike, so a poll or a timed wait is refused by
      the one when it is by the other. */
  lemma StepMatches(s: State, w: Wheel<Entry>, e: Event)
    requires Inv(s) && Matches(s, w) && Can(s, e)
    ensures Matches(Do(s, e), WheelDo(s, e, w)) <==> !FarWait(s, e)
    ensures e.SweepWheel? ==> Take(w, e.now).0 == Do(s, e).expired
  {
    assert s.start <= s.clock;
    assert !e.CondWait? ==> !FarWait(s, e);
    hide Inv, Matches, Can, Do, WheelDo, Take, FarWait;
    if Untimed(e) {
      UntimedMatches(s, w, e);
    } else {
      match e
      case Poll(fds, timeout, now, failing) => PollMatches(s, w, fds, timeout, now, failing);
      case CondWait(q, ms, now) => CondWaitMatches(s, w, q, ms, now);
      case SweepWheel(now) => SweepMatches(s, w, now);
      case Signal(_) => KernelMatches(s, w, e);
      case Broadcast(_) => KernelMatches(s, w, e);
      case EpollWait(_) => KernelMatches(s, w, e);
    }
  }

  // ----- every run

  /** What holds of the wheel on every run, in step with the timer or not. */
  ghost predicate SameStart(s: State, w: Wheel<Entry>) {
    w.start == s.start > 0 && |w.slots| == WHEEL_SIZE
  }

  lemma StepStart(s: State, w: Wheel<Entry>, e: Event)
    requires Inv(s) && SameStart(s, w) && Can(s, e)
    ensures SameStart(Do(s, e), WheelDo(s, e, w))
  {
    assert s.start <= s.clock;
    TimerStart(s, e);
    hide Inv, Take, Add, Do;
    if e.SweepWheel? { ShortGapSweepsRight(w, e.now); }
  }

  lemma {:induction false} BatchStart(s: State, batch: seq<int>)
    ensures PrepareAll(s, batch).start == s.start
    decreases |batch|
  {
    if batch != [] { BatchStart(PrepareOne(s, batch[0]), batch[1..]); }
  }

  lemma {:induction false} SignalStart(s: State, q: nat, n: nat)
    ensures SignalAll(s, q, n).start == s.start
    decreases n
  {
    if n > 0 { SignalStart(SignalOne(s, q), q, n - 1); }
  }

  lemma TimerStart(s: State, e: Event)
    requires Can(s, e)
    ensures Do(s, e).start == if e.SweepWheel? then e.now else s.start
  {
    hide InsertStable, Register, AddCode;
    match e
    case EpollWait(batch) => BatchStart(s.(phase := Batched, hits := multiset{}), batch);
    case Broadcast(q) => SignalStart(s, q, |Waiters(s.conds, q)|);
    case _ =>
  }

  /** What a run does to the wheel. */
  ghost function WheelAfter(s: State, evs: seq<Event>, w: Wheel<Entry>): Wheel<Entry>
    requires Run(s, evs) && Inv(s) && SameStart(s, w)
    decreases |evs|
  {
    if evs == [] then w
    else
      StepKeeps(s, evs[0]);
      StepStart(s, w, evs[0]);
      WheelAfter(Do(s, evs[0]), evs[1..], WheelDo(s, evs[0], w))
  }

  /** The timer is what the wheel holds, at all times. */
  ghost predicate InStep(s: State, evs: seq<Event>, w: Wheel<Entry>)
    requires Run(s, evs) && Inv(s) && SameStart(s, w)
    decreases |evs|
  {
    && Matches(s, w)
    && (evs == [] ||
        (StepKeeps(s, evs[0]);
         StepStart(s, w, evs[0]);
         InStep(Do(s, evs[0]), evs[1..], WheelDo(s, evs[0], w))))
  }

  ghost predicate NoFarWait(s: State, evs: seq<Event>)
    requires Run(s, evs)
    decreases |evs|
  {
    evs == [] || (!FarWait(s, evs[0]) && NoFarWait(Do(s, evs[0]), evs[1..]))
  }

  lemma {:induction false} InStepIff(s: State, evs: seq<Event>, w: Wheel<Entry>)
    requires Run(s, evs) && Inv(s) && Matches(s, w)
    ensures InStep(s, evs, w) <==> NoFarWait(s, evs)
    ensures NoFarWait(s, evs) ==> Matches(After(s, evs), WheelAfter(s, evs, w))
    decreases |evs|
  {
    assert SameStart(s, w);
    hide Can, Do, Inv, Matches, FarWait, SameStart, WheelDo;
    if evs != [] {
      StepKeeps(s, evs[0]);
      StepStart(s, w, evs[0]);
      StepMatches(s, w, evs[0]);
      var t, v := Do(s, evs[0]), WheelDo(s, evs[0], w);
      if FarWait(s, evs[0]) { assert !InStep(t, evs[1..], v); } else { InStepIff(t, evs[1..], v); }
    }
  }

  /** On a run from a fresh thread the scheduler's timer is at all times what the slots of its wheel
      hold, in order, each item in the slot of its deadline, if and only if the run has no far wait. */
  lemma TimerIsTheWheel(now: nat, evs: seq<Event>)
    requires 0 < now && Run(Init(now), evs)
    ensures Inv(Init(now)) && SameStart(Init(now), Wheel(now, Empties(WHEEL_SIZE)))
    ensures InStep(Init(now), evs, Wheel(now, Empties(WHEEL_SIZE))) <==> NoFarWait(Init(now), evs)
    ensures NoFarWait(Init(now), evs) ==>
      var w := WheelAfter(Init(now), evs, Wheel(now, Empties(WHEEL_SIZE)));
      && Flatten(w.slots) == After(Init(now), evs).timer && w.start == After(Init(now), evs).start
      && SlotsOnTime(w.slots, w.start) && |w.slots| == WHEEL_SIZE
  {
    InitOk(now);
    FlattenEmpty<Entry>(Empties(WHEEL_SIZE));
    InStepIff(Init(now), evs, Wheel(now, Empties(WHEEL_SIZE)));
  }

  // ----- a run that goes wrong

  /** Coroutine 1 waits for condition 0 as long as an `int` can say, one millisecond after the start. */
  function LongWaitRun(now: nat): seq<Event> {
    [Create(1), Resume(1), CondWait(0, MAX_INT, now + 1)]
  }

  lemma LongWait(s: State, now: nat)
    requires now > 0 && Running1(s, now, map[])
    ensures Can(s, CondWait(0, MAX_INT, now + 1)) && FarWait(s, CondWait(0, MAX_INT, now + 1))
  {
  }

  lemma FarLater(s: State, e: Event, rest: seq<Event>)
    requires Can(s, e) && Run(Do(s, e), rest) && (FarWait(s, e) || !NoFarWait(Do(s, e), rest))
    ensures Run(s, [e] + rest) && !NoFarWait(s, [e] + rest)
  {
    assert ([e] + rest)[1..] == rest;
    hide Can, Do, FarWait;
  }

  /** It is accepted, and the timer is not what the wheel holds any more. */
  lemma LongWaitGoesWrong(now: nat)
    requires now > 0
    ensures Run(Init(now), LongWaitRun(now)) && Inv(Init(now)) && SameStart(Init(now), Wheel(now, Empties(WHEEL_SIZE)))
    ensures !InStep(Init(now), LongWaitRun(now), Wheel(now, Empties(WHEEL_SIZE)))
  {
    var e := CondWait(0, MAX_INT, now + 1);
    FirstRuns(now);
    var s0 := Init(now);
    var s1 := Do(s0, Create(1));
    var s2 := Do(s1, Resume(1));
    LongWait(s2, now);
    hide Can, Do, Init, Running1, FarWait, Inv, SameStart, InStep;
    FarLater(s2, e, []);
    FarLater(s1, Resume(1), [e]);
    FarLater(s0, Create(1), [Resume(1)] + [e]);
    assert LongWaitRun(now) == [Create(1)] + ([Resume(1)] + [e]) && [e] + [] == [e];
    TimerIsTheWheel(now, LongWaitRun(now));
  }
}
