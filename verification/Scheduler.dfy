/** The scheduler of libco/co_routine.cpp for one thread: the resume/yield call stack, the event
    loop, suspension in co_poll_inner and co_cond_timedwait, and condition signals, as a
    transition system. Nondeterminism (kernel events, clock readings, what the running
    coroutine does next) is in the events, so a run is a sequence of events. The timing wheel
    appears as a stable priority queue; SchedulerWheel.TimerIsTheWheel says on which runs it is one. */
module Scheduler {
  import opened Sequences
  import opened TimerWheel

  const MAIN := 0
  const MAX_DEPTH := 128
  const EPOLL_SIZE := 10240

  type CoId = nat
  type ItemId = nat

  datatype CoState = Fresh | Active | Parked | Waiting(item: ItemId) | Done

  /** A wait: the stPoll_t of a poll, or the stCoCondItem_t of a condition wait. */
  datatype Kind =
    | PollItem(fds: seq<int>, raiseCnt: nat, detached: bool)
    | CondItem(cond: nat)

  datatype Item = Item(owner: CoId, expire: nat, timedOut: bool, kind: Kind)

  datatype Phase = Outside | AtWait | Batched | Swept | Draining

  /** What the resumed coroutine gets back. */
  datatype Result = Result(ret: nat, timedOut: bool)

  datatype State = State(
    cos: map<CoId, CoState>,
    stack: seq<CoId>,
    start: nat,                  // ullStart of the wheel
    timer: seq<Entry>,           // what the wheel holds, as a queue
    expired: seq<Entry>,         // pstTimeoutList
    active: seq<Entry>,          // pstActiveList
    items: map<ItemId, Item>,    // the waits that exist
    conds: map<nat, seq<ItemId>>,
    regs: map<int, ItemId>,      // epoll: descriptor to the poll it wakes
    next: ItemId,                // number of waits ever begun
    clock: nat,
    phase: Phase,
    hits: multiset<ItemId>,      // polls named by the latest epoll batch, once per event
    wakes: multiset<ItemId>,     // how often each wait was ended by a resume
    results: map<ItemId, Result>,
    refused: set<ItemId>)        // polls that the wheel refused; what they were kept in is freed

  datatype Event =
    | Create(c: CoId)
    | Resume(c: CoId)
    | Yield
    | Finish
    | Poll(fds: seq<int>, timeout: int, now: nat, failing: set<int>)
    | PollRefused(fds: seq<int>, timeout: int, now: nat, failing: set<int>)
    | CondWait(cond: nat, ms: int, now: nat)
    | Signal(cond: nat)
    | Broadcast(cond: nat)
    | EnterLoop
    | EpollWait(batch: seq<int>)
    | SweepWheel(now: nat)
    | JoinExpired
    | Dispatch
    | EndRound(stop: bool)

  function Top(s: State): CoId
    requires s.stack != []
  {
    s.stack[|s.stack| - 1]
  }

  function EntryOf(items: map<ItemId, Item>, id: ItemId): Entry
    requires id in items
  {
    Entry(id, items[id].expire)
  }

  /** Everything that hangs in some list, with multiplicity. */
  ghost function Linked(s: State): multiset<Entry> {
    multiset(s.timer) + multiset(s.expired) + multiset(s.active)
  }

  // ----- the operations

  /** RemoveFromLink: out of whichever list holds it. */
  function Unlink(s: State, e: Entry): State {
    s.(timer := Without(s.timer, e),
       expired := Without(s.expired, e),
       active := Without(s.active, e))
  }

  /** Taken out of its list, if any, and appended to the active list. */
  function Activate(s: State, e: Entry): State {
    var u := Unlink(s, e);
    u.(active := u.active + [e])
  }

  /** An event for a poll is counted, whether or not the poll has been activated before. */
  function Raised(s: State, id: ItemId): State
    requires id in s.items && s.items[id].kind.PollItem?
  {
    var k := s.items[id].kind;
    s.(items := s.items[id := s.items[id].(kind := k.(raiseCnt := k.raiseCnt + 1, detached := true))],
       hits := s.hits + multiset{id})
  }

  /** OnPollPreparePfn for an event on `fd`. */
  function PrepareOne(s: State, fd: int): State {
    if fd in s.regs && s.regs[fd] in s.items && s.items[s.regs[fd]].kind.PollItem? then
      var id := s.regs[fd];
      if s.items[id].kind.detached then Raised(s, id) else Activate(Raised(s, id), EntryOf(s.items, id))
    else s
  }

  function PrepareAll(s: State, batch: seq<int>): State
    decreases |batch|
  {
    if batch == [] then s else PrepareAll(PrepareOne(s, batch[0]), batch[1..])
  }

  /** EPOLL_CTL_ADD for every descriptor; it fails for one that is registered already. */
  function Register(regs: map<int, ItemId>, fds: seq<int>, id: ItemId, failing: set<int>): (r: map<int, ItemId>)
    ensures forall fd :: fd in regs ==> fd in r && r[fd] == regs[fd]
    ensures forall fd :: fd in r && fd !in regs ==> r[fd] == id && fd in fds
    decreases |fds|
  {
    if fds == [] then regs
    else
      var fd := fds[0];
      Register(if fd > -1 && fd !in regs && fd !in failing then regs[fd := id] else regs, fds[1..], id, failing)
  }

  /** co_cond_signal. */
  function SignalOne(s: State, q: nat): State {
    if q in s.conds && s.conds[q] != [] && s.conds[q][0] in s.items then
      Activate(s, EntryOf(s.items, s.conds[q][0])).(conds := s.conds[q := s.conds[q][1..]])
    else s
  }

  /** co_cond_broadcast. */
  function SignalAll(s: State, q: nat, n: nat): State
    decreases n
  {
    if n == 0 then s else SignalAll(SignalOne(s, q), q, n - 1)
  }

  function Waiters(conds: map<nat, seq<ItemId>>, q: nat): seq<ItemId> {
    if q in conds then conds[q] else []
  }

  /** The running coroutine becomes `st` and control goes back to the one that resumed it. */
  function Suspend(s: State, st: CoState): State
    requires s.stack != []
  {
    s.(cos := s.cos[Top(s) := st], stack := s.stack[..|s.stack| - 1])
  }

  /** co_resume. */
  function Push(s: State, c: CoId): State {
    s.(cos := s.cos[c := Active], stack := s.stack + [c])
  }

  /** Beginning a wait. */
  function Begin(s: State, it: Item, now: nat): State
    requires s.stack != []
  {
    Suspend(s.(items := s.items[s.next := it], next := s.next + 1, clock := now), Waiting(s.next))
  }

  function PollExpire(timeout: int, now: nat): int {
    now + Clamp(timeout)
  }

  /** What a wait leaves behind in epoll and in the condition queues when it ends. */
  function RegsAfter(regs: map<int, ItemId>, k: Kind): map<int, ItemId> {
    if k.PollItem? then regs - (set fd | fd in k.fds) else regs
  }

  function CondsAfter(conds: map<nat, seq<ItemId>>, k: Kind, id: ItemId): map<nat, seq<ItemId>> {
    if k.CondItem? then conds[k.cond := Without(Waiters(conds, k.cond), id)] else conds
  }

  function ResultOf(it: Item): Result {
    Result(if it.kind.PollItem? then it.kind.raiseCnt else 0, it.timedOut)
  }

  /** Resuming the owner of wait `id`: the part of co_poll_inner after its yield, or of
      co_cond_timedwait. */
  function Wake(s: State, id: ItemId): State
    requires id in s.items
  {
    var it := s.items[id];
    Push(s.(regs := RegsAfter(s.regs, it.kind), conds := CondsAfter(s.conds, it.kind, id),
            items := s.items - {id}, wakes := s.wakes + multiset{id}, results := s.results[id := ResultOf(it)]),
         it.owner)
  }

  // ----- what may happen, and what it does

  /** The clock never runs back and the event loop is never idle for 2^31 ms. */
  predicate ClockOk(s: State, now: nat) {
    0 < now && s.clock <= now && now + MAX_TIMEOUT < s.start + HALF
  }

  /** Some coroutine, or the main one outside its event loop, is running its own code. */
  predicate UserCode(s: State) {
    s.stack != [] && (Top(s) != MAIN || s.phase == Outside)
  }

  predicate MayWait(s: State) {
    UserCode(s) && Top(s) != MAIN
  }

  /** What the kernel may report: registered descriptors, each once. */
  ghost predicate Reportable(s: State, batch: seq<int>) {
    |batch| <= EPOLL_SIZE && NoDup(batch) && forall fd :: fd in batch ==> fd in s.regs
  }

  /** When an event can happen. A report for a poll that no longer exists is none: the code would
      then work on freed memory. */
  ghost predicate Can(s: State, e: Event) {
    s.stack != [] &&
    match e
    case Create(c) => UserCode(s) && c !in s.cos
    case Resume(c) => UserCode(s) && |s.stack| < MAX_DEPTH && c in s.cos && (s.cos[c].Fresh? || s.cos[c].Parked?)
    case Yield => MayWait(s)
    case Finish => MayWait(s)
    case Poll(fds, timeout, now, _) =>
      MayWait(s) && ClockOk(s, now) && 0 <= timeout &&
      AddCode(s.start, WHEEL_SIZE, PollExpire(timeout, now), now) == 0
    case PollRefused(_, timeout, now, _) =>
      MayWait(s) && ClockOk(s, now) && 0 <= now + timeout &&
      (timeout < 0 || AddCode(s.start, WHEEL_SIZE, PollExpire(timeout, now), now) != 0)
    case CondWait(q, ms, now) => MayWait(s) && ClockOk(s, now) && ms <= MAX_INT
    case Signal(_) => UserCode(s)
    case Broadcast(_) => UserCode(s)
    case EnterLoop => s.phase == Outside && Top(s) == MAIN
    case EpollWait(batch) =>
      s.phase == AtWait && Reportable(s, batch) && forall fd :: fd in batch ==> s.regs[fd] in s.items
    case SweepWheel(now) => s.phase == Batched && ClockOk(s, now)
    case JoinExpired => s.phase == Swept
    case Dispatch => s.phase == Draining && Top(s) == MAIN && s.active != [] && s.active[0].id in s.items
    case EndRound(_) => s.phase == Draining && Top(s) == MAIN && s.active == []
  }

  function MarkExpired(items: map<ItemId, Item>, expired: seq<Entry>): map<ItemId, Item> {
    map id | id in items :: if Entry(id, items[id].expire) in expired then items[id].(timedOut := true) else items[id]
  }

  /** co_poll_inner up to its yield. */
  function DoPoll(s: State, fds: seq<int>, expire: nat, now: nat, failing: set<int>): State
    requires s.stack != []
  {
    var t := s.(regs := Register(s.regs, fds, s.next, failing), timer := InsertStable(s.timer, Entry(s.next, expire)));
    Begin(t, Item(Top(s), expire, false, PollItem(fds, 0, false)), now)
  }

  /** co_poll_inner when AddTimeout refuses: what it has registered stays registered. */
  function DoPollRefused(s: State, fds: seq<int>, now: nat, failing: set<int>): State {
    s.(regs := Register(s.regs, fds, s.next, failing), refused := s.refused + {s.next}, next := s.next + 1, clock := now)
  }

  /** co_cond_timedwait up to its yield; without a deadline the wait hangs in no timer list. */
  function DoCondWait(s: State, q: nat, ms: int, now: nat): State
    requires s.stack != []
  {
    var expire := if ms > 0 then now + ms else 0;
    var t := s.(conds := s.conds[q := Waiters(s.conds, q) + [s.next]],
                timer := if ms > 0 then InsertStable(s.timer, Entry(s.next, expire)) else s.timer);
    Begin(t, Item(Top(s), expire, false, CondItem(q)), now)
  }

  /** TakeAllTimeout and the marking loop of co_eventloop. */
  function DoSweep(s: State, now: nat): State {
    var n := DueCount(s.timer, now);
    s.(start := now, timer := s.timer[n..], expired := s.timer[..n], items := MarkExpired(s.items, s.timer[..n]),
       clock := now, phase := Swept)
  }

  function Do(s: State, e: Event): State
    requires Can(s, e)
  {
    match e
    case Create(c) => s.(cos := s.cos[c := Fresh])
    case Resume(c) => Push(s, c)
    case Yield => Suspend(s, Parked)
    case Finish => Suspend(s, Done)
    case Poll(fds, timeout, now, failing) => DoPoll(s, fds, PollExpire(timeout, now), now, failing)
    case PollRefused(fds, _, now, failing) => DoPollRefused(s, fds, now, failing)
    case CondWait(q, ms, now) =>
      if ms > 0 && AddCode(s.start, WHEEL_SIZE, now + ms, now) != 0 then s.(clock := now)
      else DoCondWait(s, q, ms, now)
    case Signal(q) => SignalOne(s, q)
    case Broadcast(q) => SignalAll(s, q, |Waiters(s.conds, q)|)
    case EnterLoop => s.(phase := AtWait)
    case EpollWait(batch) => PrepareAll(s.(phase := Batched, hits := multiset{}), batch)
    case SweepWheel(now) => DoSweep(s, now)
    case JoinExpired => s.(active := s.active + s.expired, expired := [], phase := Draining)
    case Dispatch => Wake(s.(active := s.active[1..]), s.active[0].id)
    case EndRound(stop) => s.(phase := if stop then Outside else AtWait)
  }

  /** A thread as co_init_curr_thread_env sets it up at clock reading `now`. */
  function Init(now: nat): State {
    State(map[MAIN := Active], [MAIN], now, [], [], [], map[], map[], map[],
          0, now, Outside, multiset{}, multiset{}, map[], {})
  }
}
