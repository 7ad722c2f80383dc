/** What holds in every state the scheduler can reach. */
module SchedulerSafety {
  import opened Sequences
  import opened TimerWheel
  import opened Scheduler

  // ----- the invariant

  /** The main coroutine is at the bottom, nobody is on the call stack twice, and exactly the
      coroutines on it are active; the event loop proper runs at depth one. */
  ghost predicate StackOk(cos: map<CoId, CoState>, stack: seq<CoId>, phase: Phase) {
    && 0 < |stack| <= MAX_DEPTH && stack[0] == MAIN && NoDup(stack)
    && (forall c :: c in stack ==> c in cos && cos[c] == Active)
    && (forall c :: c in cos && cos[c] == Active ==> c in stack)
    && (phase == AtWait || phase == Batched || phase == Swept ==> |stack| == 1)
  }

  /** Waits and suspended coroutines correspond one to one. */
  ghost predicate WaitsOk(cos: map<CoId, CoState>, items: map<ItemId, Item>, next: ItemId) {
    && (forall id :: id in items ==> id < next && items[id].owner in cos && cos[items[id].owner] == Waiting(id))
    && (forall c :: c in cos && cos[c].Waiting? ==> cos[c].item in items && items[cos[c].item].owner == c)
  }

  /** A wait hangs in at most one list, at most once, and is never out of reach. */
  ghost predicate LinksOk(linked: multiset<Entry>, items: map<ItemId, Item>, conds: map<nat, seq<ItemId>>, active: seq<Entry>) {
    && Once(linked)
    && (forall e :: e in linked ==> e.id in items && e == EntryOf(items, e.id))
    && (forall id :: id in items && items[id].kind.PollItem? ==> EntryOf(items, id) in linked)
    && (forall id :: id in items && items[id].kind.CondItem? ==>
          id in Waiters(conds, items[id].kind.cond) || EntryOf(items, id) in active)
  }

  ghost predicate CondsOk(conds: map<nat, seq<ItemId>>, items: map<ItemId, Item>) {
    && (forall q :: q in conds ==> NoDup(conds[q]))
    && (forall q, id :: q in conds && id in conds[q] ==> id in items && items[id].kind == CondItem(q))
  }

  /** Epoll knows only polls that are still waiting, and polls that were refused. */
  ghost predicate RegsOk(regs: map<int, ItemId>, items: map<ItemId, Item>, refused: set<ItemId>) {
    forall fd :: fd in regs ==>
      || (regs[fd] in items && items[regs[fd]].kind.PollItem? && fd in items[regs[fd]].kind.fds)
      || regs[fd] in refused
  }

  /** A poll is in the wheel until an event or its deadline moves it, and never both. */
  ghost predicate PollOk(it: Item, e: Entry, n: nat, active: seq<Entry>, expired: seq<Entry>)
    requires it.kind.PollItem?
  {
    && it.kind.raiseCnt == n
    && (it.kind.detached <==> n > 0)
    && (it.kind.detached ==> e in active)
    && (it.timedOut <==> (e in active || e in expired) && !it.kind.detached)
  }

  ghost predicate PollsOk(items: map<ItemId, Item>, hits: multiset<ItemId>, active: seq<Entry>, expired: seq<Entry>, next: ItemId) {
    && (forall id :: id in items && items[id].kind.PollItem? ==> PollOk(items[id], EntryOf(items, id), hits[id], active, expired))
    && (forall id :: id in hits ==> id < next)
  }

  /** Outside a round no poll is active: each was resumed before the round ended. */
  ghost predicate PhaseOk(items: map<ItemId, Item>, active: seq<Entry>, expired: seq<Entry>, phase: Phase) {
    && (phase == Outside || phase == AtWait ==>
          forall id :: id in items && items[id].kind.PollItem? ==> EntryOf(items, id) !in active)
    && (phase == Outside || phase == AtWait || phase == Batched ==>
          forall id :: id in items && items[id].kind.PollItem? ==> !items[id].timedOut)
    && (phase != Swept ==> expired == [])
  }

  /** Every wait ever begun is either still there or was ended by exactly one resume; one that was
      refused never began. */
  ghost predicate WakesOk(wakes: multiset<ItemId>, items: map<ItemId, Item>, next: ItemId, refused: set<ItemId>) {
    && (forall id :: id in wakes ==> id < next)
    && (forall id :: id in refused ==> id < next && id !in items)
    && (forall id :: 0 <= id < next ==> wakes[id] == if id in items || id in refused then 0 else 1)
  }

  ghost predicate TimerOk(start: nat, timer: seq<Entry>, clock: nat) {
    Sorted(timer) && 0 < start <= clock
  }

  ghost predicate Inv(s: State) {
    && StackOk(s.cos, s.stack, s.phase)
    && WaitsOk(s.cos, s.items, s.next)
    && LinksOk(Linked(s), s.items, s.conds, s.active)
    && CondsOk(s.conds, s.items)
    && RegsOk(s.regs, s.items, s.refused)
    && PollsOk(s.items, s.hits, s.active, s.expired, s.next)
    && PhaseOk(s.items, s.active, s.expired, s.phase)
    && WakesOk(s.wakes, s.items, s.next, s.refused)
    && TimerOk(s.start, s.timer, s.clock)
  }

  // ----- lists as multisets

  ghost predicate Once<T(!new)>(m: multiset<T>) {
    forall x :: m[x] <= 1
  }

  lemma CountedOnce<T(!new)>(s: seq<T>)
    requires Once(multiset(s))
    ensures NoDup(s)
  {
    forall i, j | 0 <= i < j < |s| ensures s[i] != s[j] {
      var p, q := s[..j], s[j..];
      assert s == p + q;
      assert multiset(s)[s[i]] == multiset(p)[s[i]] + multiset(q)[s[i]];
      assert p[i] == s[i] && q[0] == s[j];
      assert s[i] in multiset(p) && s[j] in multiset(q);
    }
  }

  lemma OnceApart<T(!new)>(a: seq<T>, b: seq<T>, c: seq<T>)
    requires Once(multiset(a) + multiset(b) + multiset(c))
    ensures NoDup(a) && NoDup(b) && NoDup(c)
    ensures forall x :: x in c ==> x !in a && x !in b
    ensures forall x :: x in b ==> x !in a
  {
    var m := multiset(a) + multiset(b) + multiset(c);
    forall x ensures multiset(a)[x] <= 1 && multiset(b)[x] <= 1 && multiset(c)[x] <= 1 { assert m[x] <= 1; }
    CountedOnce(a);
    CountedOnce(b);
    CountedOnce(c);
    forall x | x in c ensures x !in a && x !in b { assert x in multiset(c) && m[x] <= 1; }
    forall x | x in b ensures x !in a { assert x in multiset(b) && m[x] <= 1; }
  }

  lemma MinusOnce<T(!new)>(a: multiset<T>, b: multiset<T>, c: multiset<T>, e: T)
    requires (a + b + c)[e] <= 1
    ensures (a - multiset{e}) + (b - multiset{e}) + (c - multiset{e}) == a + b + c - multiset{e}
  {
  }

  lemma WithoutInAll<T(!new)>(a: seq<T>, b: seq<T>, c: seq<T>, e: T)
    requires Once(multiset(a) + multiset(b) + multiset(c))
    ensures multiset(Without(a, e)) + multiset(Without(b, e)) + multiset(Without(c, e))
         == multiset(a) + multiset(b) + multiset(c) - multiset{e}
  {
    WithoutMembers(a, e);
    WithoutMembers(b, e);
    WithoutMembers(c, e);
    MinusOnce(multiset(a), multiset(b), multiset(c), e);
  }

  lemma PlusFirst<T>(a: multiset<T>, b: multiset<T>, c: multiset<T>, d: multiset<T>)
    ensures (a + d) + b + c == (a + b + c) + d
  {
  }

  lemma {:induction false} WithoutSorted(q: seq<Entry>, e: Entry)
    requires Sorted(q)
    ensures Sorted(Without(q, e))
  {
    if q != [] {
      SortedHead(q);
      hide Sorted;
      if q[0] != e {
        WithoutSorted(q[1..], e);
        WithoutSubset(q[1..], e);
        HeadSorted(q[0], Without(q[1..], e));
      }
    }
  }

  lemma SortedHead(q: seq<Entry>)
    requires Sorted(q) && q != []
    ensures Sorted(q[1..]) && forall x :: x in q[1..] ==> q[0].expire <= x.expire
  {
  }

  lemma HeadSorted(h: Entry, t: seq<Entry>)
    requires Sorted(t) && forall x :: x in t ==> h.expire <= x.expire
    ensures Sorted([h] + t)
  {
    forall i | 0 <= i < |t| ensures h.expire <= t[i].expire { assert t[i] in t; }
  }

  /** Unlinking takes one entry out of the lists. */
  lemma Unlinked(s: State, e: Entry)
    requires Once(Linked(s)) && Sorted(s.timer)
    ensures Linked(Unlink(s, e)) == Linked(s) - multiset{e} && Sorted(Unlink(s, e).timer)
  {
    WithoutInAll(s.timer, s.expired, s.active, e);
    WithoutSorted(s.timer, e);
  }

  // ----- the call stack

  lemma PushStack(cos: map<CoId, CoState>, stack: seq<CoId>, phase: Phase, c: CoId)
    requires StackOk(cos, stack, phase) && |stack| < MAX_DEPTH && (phase == Outside || phase == Draining)
    requires c in cos && cos[c] != Active
    ensures StackOk(cos[c := Active], stack + [c], phase)
  {
  }

  lemma PopStack(cos: map<CoId, CoState>, stack: seq<CoId>, phase: Phase, st: CoState)
    requires StackOk(cos, stack, phase) && stack[|stack| - 1] != MAIN && st != Active
    ensures |stack| >= 2 && StackOk(cos[stack[|stack| - 1] := st], stack[..|stack| - 1], phase)
  {
    var t := stack[..|stack| - 1];
    assert stack == t + [stack[|stack| - 1]];
    assert forall c :: c in t ==> c in stack;
  }

  /** What the control part of the invariant says of the running coroutine. */
  lemma Basics(s: State)
    requires Inv(s)
    ensures s.next !in s.items && s.next !in s.hits && s.next !in s.wakes
    ensures Top(s) in s.cos && s.cos[Top(s)] == Active && (Top(s) == MAIN <==> |s.stack| == 1)
    ensures UserCode(s) ==> s.phase == Outside || s.phase == Draining
    ensures Once(Linked(s)) && forall e :: e in Linked(s) ==> e.id != s.next
    ensures s.phase != Swept ==> s.expired == []
  {
    assert Top(s) in s.stack;
  }

  lemma StateChange(cos: map<CoId, CoState>, items: map<ItemId, Item>, next: ItemId, c: CoId, st: CoState)
    requires WaitsOk(cos, items, next) && !st.Waiting? && (c in cos ==> !cos[c].Waiting?)
    ensures WaitsOk(cos[c := st], items, next)
  {
  }

  // ----- control moves

  lemma ControlKeeps(s: State, e: Event)
    requires Inv(s) && Can(s, e)
    requires e.Create? || e.Resume? || e.Yield? || e.Finish?
    ensures Inv(Do(s, e))
  {
    Basics(s);
    hide StackOk, WaitsOk, LinksOk, CondsOk, RegsOk, PollsOk, PhaseOk, WakesOk;
    match e
    case Create(c) =>
      CreateStack(s.cos, s.stack, s.phase, c);
      StateChange(s.cos, s.items, s.next, c, Fresh);
    case Resume(c) =>
      PushStack(s.cos, s.stack, s.phase, c);
      StateChange(s.cos, s.items, s.next, c, Active);
    case Yield =>
      PopStack(s.cos, s.stack, s.phase, Parked);
      StateChange(s.cos, s.items, s.next, Top(s), Parked);
    case Finish =>
      PopStack(s.cos, s.stack, s.phase, Done);
      StateChange(s.cos, s.items, s.next, Top(s), Done);
  }

  lemma CreateStack(cos: map<CoId, CoState>, stack: seq<CoId>, phase: Phase, c: CoId)
    requires StackOk(cos, stack, phase) && c !in cos
    ensures StackOk(cos[c := Fresh], stack, phase)
  {
  }

  lemma LoopKeeps(s: State, e: Event)
    requires Inv(s) && Can(s, e) && (e.EnterLoop? || e.EndRound?)
    ensures Inv(Do(s, e))
  {
    Basics(s);
    LoopPhase(s.items, s.hits, s.active, s.expired, s.next, s.phase, AtWait);
    LoopPhase(s.items, s.hits, s.active, s.expired, s.next, s.phase, Outside);
    assert StackOk(s.cos, s.stack, AtWait) && StackOk(s.cos, s.stack, Outside);
    hide StackOk, WaitsOk, LinksOk, CondsOk, RegsOk, PollsOk, PhaseOk, WakesOk;
  }

  /** A round ends with no poll left over. */
  lemma LoopPhase(items: map<ItemId, Item>, hits: multiset<ItemId>, active: seq<Entry>, expired: seq<Entry>, next: ItemId, phase: Phase, phase': Phase)
    requires PollsOk(items, hits, active, expired, next) && PhaseOk(items, active, expired, phase)
    requires phase == Outside || (phase == Draining && active == [])
    ensures phase' == AtWait || phase' == Outside ==> PhaseOk(items, active, expired, phase')
  {
  }

  // ----- beginning a wait

  lemma BeginWaits(cos: map<CoId, CoState>, items: map<ItemId, Item>, next: ItemId, it: Item)
    requires WaitsOk(cos, items, next) && it.owner in cos && cos[it.owner] == Active
    ensures WaitsOk(cos[it.owner := Waiting(next)], items[next := it], next + 1)
  {
  }

  lemma BeginLinks(linked: multiset<Entry>, items: map<ItemId, Item>, conds: map<nat, seq<ItemId>>, active: seq<Entry>, id: ItemId, it: Item, timed: bool)
    requires LinksOk(linked, items, conds, active) && id !in items
    requires it.kind.PollItem? ==> timed
    ensures var c := if it.kind.CondItem? then conds[it.kind.cond := Waiters(conds, it.kind.cond) + [id]] else conds;
            LinksOk(if timed then linked + multiset{Entry(id, it.expire)} else linked, items[id := it], c, active)
  {
    assert Entry(id, it.expire) !in linked;
  }

  lemma BeginConds(conds: map<nat, seq<ItemId>>, items: map<ItemId, Item>, id: ItemId, it: Item)
    requires CondsOk(conds, items) && id !in items
    ensures var c := if it.kind.CondItem? then conds[it.kind.cond := Waiters(conds, it.kind.cond) + [id]] else conds;
            CondsOk(c, items[id := it])
  {
  }

  lemma BeginRegs(regs: map<int, ItemId>, items: map<ItemId, Item>, refused: set<ItemId>, fds: seq<int>, id: ItemId,
                  failing: set<int>, it: Item)
    requires RegsOk(regs, items, refused) && id !in items
    ensures RegsOk(regs, items[id := it], refused)
    ensures it.kind.PollItem? && it.kind.fds == fds ==> RegsOk(Register(regs, fds, id, failing), items[id := it], refused)
  {
  }

  lemma BeginPolls(s: State, it: Item)
    requires PollsOk(s.items, s.hits, s.active, s.expired, s.next) && PhaseOk(s.items, s.active, s.expired, s.phase)
    requires WakesOk(s.wakes, s.items, s.next, s.refused) && s.next !in s.items && s.next !in s.hits && s.next !in s.wakes
    requires Entry(s.next, it.expire) !in s.active && Entry(s.next, it.expire) !in s.expired && !it.timedOut
    requires it.kind.PollItem? ==> it.kind.raiseCnt == 0 && !it.kind.detached
    ensures PollsOk(s.items[s.next := it], s.hits, s.active, s.expired, s.next + 1)
    ensures PhaseOk(s.items[s.next := it], s.active, s.expired, s.phase)
    ensures WakesOk(s.wakes, s.items[s.next := it], s.next + 1, s.refused)
  {
  }

  /** What a new wait is entered in. */
  function Entered(s: State, it: Item, fds: seq<int>, failing: set<int>, timed: bool): State {
    s.(regs := if it.kind.PollItem? then Register(s.regs, fds, s.next, failing) else s.regs,
       conds := if it.kind.CondItem? then s.conds[it.kind.cond := Waiters(s.conds, it.kind.cond) + [s.next]] else s.conds,
       timer := if timed then InsertStable(s.timer, Entry(s.next, it.expire)) else s.timer)
  }

  lemma EnteredLinks(s: State, it: Item, fds: seq<int>, failing: set<int>, timed: bool)
    requires Sorted(s.timer)
    ensures var t := Entered(s, it, fds, failing, timed);
            Sorted(t.timer) && Linked(t) == if timed then Linked(s) + multiset{Entry(s.next, it.expire)} else Linked(s)
  {
    var e := Entry(s.next, it.expire);
    InsertSorted(s.timer, e);
    PlusFirst(multiset(s.timer), multiset(s.expired), multiset(s.active), multiset{e});
  }

  lemma BegunFields(s: State, it: Item, now: nat, fds: seq<int>, failing: set<int>, timed: bool)
    requires s.stack != []
    ensures var t, u := Begin(Entered(s, it, fds, failing, timed), it, now), Entered(s, it, fds, failing, timed);
      && t.cos == s.cos[Top(s) := Waiting(s.next)] && t.stack == s.stack[..|s.stack| - 1] && t.phase == s.phase
      && t.items == s.items[s.next := it] && t.next == s.next + 1 && t.clock == now && t.start == s.start
      && t.regs == u.regs && t.conds == u.conds && t.timer == u.timer && t.active == s.active && t.expired == s.expired
      && t.hits == s.hits && t.wakes == s.wakes && t.refused == s.refused && Linked(t) == Linked(u)
  {
  }

  lemma EnteredFields(s: State, it: Item, fds: seq<int>, failing: set<int>, timed: bool)
    requires RegsOk(s.regs, s.items, s.refused) && CondsOk(s.conds, s.items) && s.next !in s.items
    requires it.kind.PollItem? ==> it.kind.fds == fds
    ensures var u := Entered(s, it, fds, failing, timed);
      && u.conds == (if it.kind.CondItem? then s.conds[it.kind.cond := Waiters(s.conds, it.kind.cond) + [s.next]] else s.conds)
      && RegsOk(u.regs, s.items[s.next := it], s.refused) && CondsOk(u.conds, s.items[s.next := it])
  {
    BeginConds(s.conds, s.items, s.next, it);
    BeginRegs(s.regs, s.items, s.refused, fds, s.next, failing, it);
    hide RegsOk, CondsOk, Register;
  }

  lemma NewEntry(s: State, expire: nat)
    requires Inv(s)
    ensures Entry(s.next, expire) !in s.active && Entry(s.next, expire) !in s.expired && Sorted(s.timer)
  {
    var e := Entry(s.next, expire);
    Basics(s);
    assert e !in multiset(s.active) && e !in multiset(s.expired) by { assert e !in Linked(s); }
  }

  /** Beginning any wait. */
  lemma BeginKeeps(s: State, it: Item, now: nat, fds: seq<int>, failing: set<int>, timed: bool)
    requires Inv(s) && MayWait(s) && s.clock <= now && it.owner == Top(s) && !it.timedOut
    requires it.kind.PollItem? ==> timed && it.kind == PollItem(fds, 0, false)
    ensures Inv(Begin(Entered(s, it, fds, failing, timed), it, now))
  {
    hide StackOk, WaitsOk, LinksOk, CondsOk, RegsOk, PollsOk, PhaseOk, WakesOk, Sorted, Linked, Begin, Entered;
    Basics(s);
    NewEntry(s, it.expire);
    PopStack(s.cos, s.stack, s.phase, Waiting(s.next));
    BeginWaits(s.cos, s.items, s.next, it);
    BeginLinks(Linked(s), s.items, s.conds, s.active, s.next, it, timed);
    BeginPolls(s, it);
    EnteredFields(s, it, fds, failing, timed);
    EnteredLinks(s, it, fds, failing, timed);
    BegunFields(s, it, now, fds, failing, timed);
  }

  lemma PollKeeps(s: State, fds: seq<int>, expire: nat, now: nat, failing: set<int>)
    requires Inv(s) && MayWait(s) && s.clock <= now
    ensures Inv(DoPoll(s, fds, expire, now, failing))
  {
    hide Inv;
    BeginKeeps(s, Item(Top(s), expire, false, PollItem(fds, 0, false)), now, fds, failing, true);
  }

  lemma CondWaitKeeps(s: State, q: nat, ms: int, now: nat)
    requires Inv(s) && MayWait(s) && s.clock <= now
    ensures Inv(DoCondWait(s, q, ms, now))
  {
    hide Inv;
    BeginKeeps(s, Item(Top(s), if ms > 0 then now + ms else 0, false, CondItem(q)), now, [], {}, ms > 0);
  }

  /** A refusal leaves registrations to what was refused, and nothing else. */
  lemma RefusedKeeps(s: State, fds: seq<int>, now: nat, failing: set<int>)
    requires Inv(s) && s.clock <= now
    ensures Inv(DoPollRefused(s, fds, now, failing))
  {
    hide StackOk, WaitsOk, LinksOk, CondsOk, RegsOk, PollsOk, PhaseOk, WakesOk;
    Basics(s);
    RefusedParts(s, fds, failing);
    assert Linked(DoPollRefused(s, fds, now, failing)) == Linked(s);
  }

  lemma RefusedParts(s: State, fds: seq<int>, failing: set<int>)
    requires WaitsOk(s.cos, s.items, s.next) && PollsOk(s.items, s.hits, s.active, s.expired, s.next)
    requires RegsOk(s.regs, s.items, s.refused) && WakesOk(s.wakes, s.items, s.next, s.refused)
    requires s.next !in s.items && s.next !in s.wakes
    ensures WaitsOk(s.cos, s.items, s.next + 1) && PollsOk(s.items, s.hits, s.active, s.expired, s.next + 1)
    ensures RegsOk(Register(s.regs, fds, s.next, failing), s.items, s.refused + {s.next})
    ensures WakesOk(s.wakes, s.items, s.next + 1, s.refused + {s.next})
  {
  }

  // ----- moving an entry to the active list

  lemma WithoutIn<T(!new)>(s: seq<T>, x: T)
    ensures forall y :: y != x ==> (y in Without(s, x) <==> y in s)
  {
    WithoutMembers(s, x);
    forall y | y != x ensures y in Without(s, x) <==> y in s {
      assert multiset(Without(s, x))[y] == multiset(s)[y];
      assert y in multiset(s) <==> y in s;
      assert y in multiset(Without(s, x)) <==> y in Without(s, x);
    }
  }

  lemma MoveLinks(linked: multiset<Entry>, items: map<ItemId, Item>, conds: map<nat, seq<ItemId>>, active: seq<Entry>, e: Entry)
    requires LinksOk(linked, items, conds, active) && e.id in items && e == EntryOf(items, e.id)
    ensures LinksOk(linked - multiset{e} + multiset{e}, items, conds, Without(active, e) + [e])
  {
    WithoutIn(active, e);
    assert linked[e] <= 1;
  }

  /** The lists may change as long as every poll stays where it is. */
  lemma SamePolls(s: State, active: seq<Entry>, expired: seq<Entry>)
    requires PollsOk(s.items, s.hits, s.active, s.expired, s.next) && PhaseOk(s.items, s.active, s.expired, s.phase)
    requires forall id :: id in s.items && s.items[id].kind.PollItem? ==>
               (EntryOf(s.items, id) in active <==> EntryOf(s.items, id) in s.active) &&
               (EntryOf(s.items, id) in expired <==> EntryOf(s.items, id) in s.expired)
    requires s.expired == [] ==> expired == []
    ensures PollsOk(s.items, s.hits, active, expired, s.next) && PhaseOk(s.items, active, expired, s.phase)
  {
  }

  lemma SignalConds(conds: map<nat, seq<ItemId>>, items: map<ItemId, Item>, q: nat)
    requires CondsOk(conds, items) && q in conds && conds[q] != []
    ensures conds[q][0] in items && items[conds[q][0]].kind == CondItem(q)
    ensures CondsOk(conds[q := conds[q][1..]], items)
  {
    assert conds[q] == [conds[q][0]] + conds[q][1..];
    assert conds[q][0] in conds[q];
  }

  lemma SignalLinks(linked: multiset<Entry>, items: map<ItemId, Item>, conds: map<nat, seq<ItemId>>, active: seq<Entry>, q: nat)
    requires LinksOk(linked, items, conds, active)
    requires q in conds && conds[q] != [] && conds[q][0] in items && EntryOf(items, conds[q][0]) in active
    ensures LinksOk(linked, items, conds[q := conds[q][1..]], active)
  {
    var w := conds[q];
    assert w == [w[0]] + w[1..];
    assert forall id :: id in w ==> id == w[0] || id in w[1..];
  }

  /** Unlinking `e` and appending it to the active list. */
  lemma Moved(s: State, e: Entry)
    requires Once(Linked(s)) && Sorted(s.timer)
    ensures var t := Activate(s, e); Linked(t) == Linked(s) - multiset{e} + multiset{e} && Sorted(t.timer)
  {
    Unlinked(s, e);
    var u := Unlink(s, e);
    assert multiset(u.active + [e]) == multiset(u.active) + multiset{e};
  }

  lemma SignalKeeps(s: State, q: nat)
    requires Inv(s) && UserCode(s)
    ensures Inv(SignalOne(s, q)) && UserCode(SignalOne(s, q))
  {
    hide StackOk, WaitsOk, LinksOk, CondsOk, RegsOk, PollsOk, PhaseOk, WakesOk;
    Basics(s);
    if q in s.conds && s.conds[q] != [] {
      SignalConds(s.conds, s.items, q);
      var e := EntryOf(s.items, s.conds[q][0]);
      var active := Without(s.active, e) + [e];
      Moved(s, e);
      MoveLinks(Linked(s), s.items, s.conds, s.active, e);
      SignalLinks(Linked(s) - multiset{e} + multiset{e}, s.items, s.conds, active, q);
      WithoutIn(s.active, e);
      WithoutIn(s.expired, e);
      SamePolls(s, active, Without(s.expired, e));
    }
  }

  lemma {:induction false} BroadcastKeeps(s: State, q: nat, n: nat)
    requires Inv(s) && UserCode(s)
    ensures Inv(SignalAll(s, q, n))
    decreases n
  {
    hide Inv;
    if n > 0 {
      SignalKeeps(s, q);
      BroadcastKeeps(SignalOne(s, q), q, n - 1);
    }
  }

  // ----- one round of the event loop

  /** Changing what is recorded about waits, but not whose they are, what they wait for or until when. */
  ghost predicate SameWaits(items: map<ItemId, Item>, items': map<ItemId, Item>) {
    && items'.Keys == items.Keys
    && forall id :: id in items ==>
         && items'[id].owner == items[id].owner && items'[id].expire == items[id].expire
         && (items[id].kind.CondItem? ==> items'[id].kind == items[id].kind)
         && (items[id].kind.PollItem? ==> items'[id].kind.PollItem? && items'[id].kind.fds == items[id].kind.fds)
  }

  lemma SameWaitsLinks(linked: multiset<Entry>, items: map<ItemId, Item>, conds: map<nat, seq<ItemId>>, active: seq<Entry>, items': map<ItemId, Item>)
    requires LinksOk(linked, items, conds, active) && SameWaits(items, items')
    ensures LinksOk(linked, items', conds, active)
  {
    forall id | id in items' ensures id in items && EntryOf(items', id) == EntryOf(items, id) { assert id in items'.Keys; }
  }

  lemma SameWaitsKeeps(s: State, items': map<ItemId, Item>)
    requires WaitsOk(s.cos, s.items, s.next) && LinksOk(Linked(s), s.items, s.conds, s.active)
    requires CondsOk(s.conds, s.items) && RegsOk(s.regs, s.items, s.refused) && WakesOk(s.wakes, s.items, s.next, s.refused)
    requires SameWaits(s.items, items')
    ensures WaitsOk(s.cos, items', s.next) && LinksOk(Linked(s), items', s.conds, s.active)
    ensures CondsOk(s.conds, items') && RegsOk(s.regs, items', s.refused) && WakesOk(s.wakes, items', s.next, s.refused)
  {
    hide LinksOk;
    SameWaitsLinks(Linked(s), s.items, s.conds, s.active, items');
  }

  lemma RaiseSame(items: map<ItemId, Item>, id: ItemId)
    requires id in items && items[id].kind.PollItem?
    ensures SameWaits(items, items[id := items[id].(kind := items[id].kind.(raiseCnt := items[id].kind.raiseCnt + 1, detached := true))])
  {
  }

  lemma MarkSame(items: map<ItemId, Item>, expired: seq<Entry>)
    ensures SameWaits(items, MarkExpired(items, expired))
  {
  }

  /** A batch begins with no poll reported: the last one's were all resumed. */
  lemma BatchStarts(s: State)
    requires PollsOk(s.items, s.hits, s.active, s.expired, s.next) && PhaseOk(s.items, s.active, s.expired, s.phase) && s.phase == AtWait
    ensures PollsOk(s.items, multiset{}, s.active, s.expired, s.next) && PhaseOk(s.items, s.active, s.expired, Batched)
  {
  }

  /** An event for poll `id`. */
  lemma RaisePolls(s: State, id: ItemId, items': map<ItemId, Item>, active: seq<Entry>, expired: seq<Entry>)
    requires PollsOk(s.items, s.hits, s.active, s.expired, s.next) && PhaseOk(s.items, s.active, s.expired, s.phase)
    requires s.phase == Batched && id in s.items && s.items[id].kind.PollItem? && WaitsOk(s.cos, s.items, s.next)
    requires var k := s.items[id].kind;
             items' == s.items[id := s.items[id].(kind := k.(raiseCnt := k.raiseCnt + 1, detached := true))]
    requires EntryOf(s.items, id) in active && expired == []
    requires forall e :: e != EntryOf(s.items, id) ==> (e in active <==> e in s.active)
    ensures PollsOk(items', s.hits + multiset{id}, active, expired, s.next) && PhaseOk(items', active, expired, s.phase)
  {
    assert EntryOf(items', id) == EntryOf(s.items, id);
  }

  /** A descriptor whose registration leads to a wait leads to a poll. */
  lemma Registered(s: State, fd: int)
    requires Inv(s) && fd in s.regs && s.regs[fd] in s.items
    ensures var id := s.regs[fd];
      && id in s.items && s.items[id].kind.PollItem? && id < s.next
      && (s.items[id].kind.detached ==> EntryOf(s.items, id) in s.active)
  {
    var id := s.regs[fd];
    assert PollOk(s.items[id], EntryOf(s.items, id), s.hits[id], s.active, s.expired);
  }

  lemma RaisedKeeps(s: State, id: ItemId)
    requires Inv(s) && s.phase == Batched && id in s.items && s.items[id].kind.PollItem? && s.items[id].kind.detached
    requires EntryOf(s.items, id) in s.active
    ensures Inv(Raised(s, id))
  {
    hide StackOk, WaitsOk, LinksOk, CondsOk, RegsOk, PollsOk, PhaseOk, WakesOk, SameWaits;
    var t := Raised(s, id);
    Basics(s);
    RaiseSame(s.items, id);
    SameWaitsKeeps(s, t.items);
    RaisePolls(s, id, t.items, s.active, s.expired);
    assert Linked(t) == Linked(s);
  }

  /** Activating an entry of `t` when `t` is in order but for its polls. */
  lemma ActivateAssembles(t: State, e: Entry)
    requires StackOk(t.cos, t.stack, t.phase) && WaitsOk(t.cos, t.items, t.next) && LinksOk(Linked(t), t.items, t.conds, t.active)
    requires CondsOk(t.conds, t.items) && RegsOk(t.regs, t.items, t.refused) && WakesOk(t.wakes, t.items, t.next, t.refused)
    requires TimerOk(t.start, t.timer, t.clock) && t.expired == [] && Once(Linked(t))
    requires e.id in t.items && e == EntryOf(t.items, e.id)
    requires PollsOk(t.items, t.hits, Without(t.active, e) + [e], [], t.next)
    requires PhaseOk(t.items, Without(t.active, e) + [e], [], t.phase)
    ensures Inv(Activate(t, e))
  {
    hide StackOk, WaitsOk, LinksOk, CondsOk, RegsOk, PollsOk, PhaseOk, WakesOk, SameWaits;
    Moved(t, e);
    MoveLinks(Linked(t), t.items, t.conds, t.active, e);
    assert Activate(t, e).expired == [];
  }

  lemma ActivatedKeeps(s: State, id: ItemId)
    requires Inv(s) && s.phase == Batched && id in s.items && s.items[id].kind.PollItem?
    ensures Inv(Activate(Raised(s, id), EntryOf(s.items, id)))
  {
    hide StackOk, WaitsOk, LinksOk, CondsOk, RegsOk, PollsOk, PhaseOk, WakesOk, SameWaits, Activate;
    var t, e := Raised(s, id), EntryOf(s.items, id);
    Basics(s);
    RaiseSame(s.items, id);
    SameWaitsKeeps(s, t.items);
    assert Linked(t) == Linked(s);
    WithoutIn(s.active, e);
    RaisePolls(s, id, t.items, Without(s.active, e) + [e], []);
    ActivateAssembles(t, e);
  }

  lemma PrepareKeeps(s: State, fd: int)
    requires Inv(s) && s.phase == Batched
    ensures Inv(PrepareOne(s, fd)) && PrepareOne(s, fd).phase == Batched
  {
    hide Inv;
    if fd in s.regs && s.regs[fd] in s.items {
      Registered(s, fd);
      if s.items[s.regs[fd]].kind.detached { RaisedKeeps(s, s.regs[fd]); } else { ActivatedKeeps(s, s.regs[fd]); }
    }
  }

  lemma {:induction false} BatchKeeps(s: State, batch: seq<int>)
    requires Inv(s) && s.phase == Batched
    ensures Inv(PrepareAll(s, batch)) && PrepareAll(s, batch).phase == Batched
    decreases |batch|
  {
    hide Inv;
    if batch != [] {
      PrepareKeeps(s, batch[0]);
      BatchKeeps(PrepareOne(s, batch[0]), batch[1..]);
    }
  }

  lemma EpollWaitKeeps(s: State, batch: seq<int>)
    requires Inv(s) && s.phase == AtWait
    ensures Inv(PrepareAll(s.(phase := Batched, hits := multiset{}), batch))
  {
    BatchStarts(s);
    assert StackOk(s.cos, s.stack, Batched);
    var t := s.(phase := Batched, hits := multiset{});
    assert Inv(t) by {
      hide StackOk, WaitsOk, LinksOk, CondsOk, RegsOk, PollsOk, PhaseOk, WakesOk;
      assert Linked(t) == Linked(s);
    }
    BatchKeeps(t, batch);
  }

  lemma SweepPolls(s: State, taken: seq<Entry>)
    requires PollsOk(s.items, s.hits, s.active, s.expired, s.next) && PhaseOk(s.items, s.active, s.expired, s.phase)
    requires s.phase == Batched && forall e :: e in taken ==> e !in s.active
    ensures PollsOk(MarkExpired(s.items, taken), s.hits, s.active, taken, s.next)
    ensures PhaseOk(MarkExpired(s.items, taken), s.active, taken, Swept)
  {
    var items' := MarkExpired(s.items, taken);
    forall id | id in items' && items'[id].kind.PollItem?
      ensures PollOk(items'[id], EntryOf(items', id), s.hits[id], s.active, taken)
    {
      assert PollOk(s.items[id], EntryOf(s.items, id), s.hits[id], s.active, s.expired);
    }
  }

  lemma SplitOnce<T(!new)>(q: seq<T>, n: nat, active: seq<T>)
    requires n <= |q| && Once(multiset(q) + multiset([]) + multiset(active))
    ensures multiset(q[n..]) + multiset(q[..n]) == multiset(q)
    ensures forall e :: e in q[..n] ==> e !in active
  {
    assert q == q[..n] + q[n..];
    OnceApart(q, [], active);
    assert forall e :: e in q[..n] ==> e in q;
  }

  lemma LoopStack(cos: map<CoId, CoState>, stack: seq<CoId>, phase: Phase, phase': Phase)
    requires StackOk(cos, stack, phase) && phase == Batched
    ensures StackOk(cos, stack, phase')
  {
  }

  lemma SweepKeeps(s: State, now: nat)
    requires Inv(s) && s.phase == Batched && s.clock <= now
    ensures Inv(DoSweep(s, now))
  {
    hide StackOk, WaitsOk, LinksOk, CondsOk, RegsOk, PollsOk, PhaseOk, WakesOk, SameWaits;
    Basics(s);
    LoopStack(s.cos, s.stack, s.phase, Swept);
    var n := DueCount(s.timer, now);
    SplitOnce(s.timer, n, s.active);
    QueueDelivers(s.timer, now);
    MarkSame(s.items, s.timer[..n]);
    SameWaitsKeeps(s, MarkExpired(s.items, s.timer[..n]));
    SweepPolls(s, s.timer[..n]);
    assert Linked(DoSweep(s, now)) == Linked(s);
  }

  lemma JoinLists(s: State)
    requires LinksOk(Linked(s), s.items, s.conds, s.active)
    requires PollsOk(s.items, s.hits, s.active, s.expired, s.next) && PhaseOk(s.items, s.active, s.expired, s.phase)
    ensures LinksOk(Linked(s), s.items, s.conds, s.active + s.expired)
    ensures PollsOk(s.items, s.hits, s.active + s.expired, [], s.next)
    ensures PhaseOk(s.items, s.active + s.expired, [], Draining)
  {
    var active := s.active + s.expired;
    assert forall e :: e in active <==> e in s.active || e in s.expired;
    forall id | id in s.items && s.items[id].kind.PollItem?
      ensures PollOk(s.items[id], EntryOf(s.items, id), s.hits[id], active, [])
    {
      assert PollOk(s.items[id], EntryOf(s.items, id), s.hits[id], s.active, s.expired);
    }
  }

  lemma JoinKeeps(s: State)
    requires Inv(s) && s.phase == Swept
    ensures Inv(s.(active := s.active + s.expired, expired := [], phase := Draining))
  {
    JoinLists(s);
    assert StackOk(s.cos, s.stack, Draining);
    hide StackOk, WaitsOk, LinksOk, CondsOk, RegsOk, PollsOk, PhaseOk, WakesOk;
    assert Linked(s.(active := s.active + s.expired, expired := [], phase := Draining)) == Linked(s);
  }

  // ----- ending a wait

  lemma EndWaits(cos: map<CoId, CoState>, items: map<ItemId, Item>, next: ItemId, id: ItemId)
    requires WaitsOk(cos, items, next) && id in items
    ensures WaitsOk(cos[items[id].owner := Active], items - {id}, next)
    ensures items[id].owner in cos && cos[items[id].owner] != Active
  {
  }

  lemma WithoutNoDup<T>(s: seq<T>, x: T)
    requires NoDup(s)
    ensures NoDup(Without(s, x)) && x !in Without(s, x)
  {
    if k :| 0 <= k < |s| && s[k] == x {
      WithoutAt(s, x, k);
      assert forall i :: 0 <= i < |Without(s, x)| ==> Without(s, x)[i] != x;
    } else {
      WithoutAbsent(s, x);
    }
  }

  lemma EndConds(conds: map<nat, seq<ItemId>>, items: map<ItemId, Item>, id: ItemId)
    requires CondsOk(conds, items) && id in items
    ensures CondsOk(CondsAfter(conds, items[id].kind, id), items - {id})
  {
    var k := items[id].kind;
    if k.CondItem? {
      WithoutNoDup(Waiters(conds, k.cond), id);
      WithoutIn(Waiters(conds, k.cond), id);
    }
  }

  /** The other condition waits stay within reach. */
  lemma EndReach(items: map<ItemId, Item>, conds: map<nat, seq<ItemId>>, active: seq<Entry>, id: ItemId, j: ItemId)
    requires id in items && j in items && j != id && items[j].kind.CondItem?
    requires active != [] && active[0] == EntryOf(items, id)
    requires j in Waiters(conds, items[j].kind.cond) || EntryOf(items, j) in active
    ensures j in Waiters(CondsAfter(conds, items[id].kind, id), items[j].kind.cond) || EntryOf(items, j) in active[1..]
  {
    var k := items[id].kind;
    if k.CondItem? { WithoutIn(Waiters(conds, k.cond), id); }
    assert active == [active[0]] + active[1..];
  }

  lemma EndLinks(linked: multiset<Entry>, items: map<ItemId, Item>, conds: map<nat, seq<ItemId>>, active: seq<Entry>, id: ItemId)
    requires LinksOk(linked, items, conds, active) && id in items && active != [] && active[0] == EntryOf(items, id)
    ensures LinksOk(linked - multiset{active[0]}, items - {id}, CondsAfter(conds, items[id].kind, id), active[1..])
  {
    assert linked[active[0]] <= 1;
    var m := linked - multiset{active[0]};
    assert forall e :: e != active[0] ==> m[e] == linked[e];
    hide CondsAfter, Waiters;
    forall j | j in items && j != id && items[j].kind.CondItem?
      ensures j in Waiters(CondsAfter(conds, items[id].kind, id), items[j].kind.cond) || EntryOf(items, j) in active[1..]
    {
      EndReach(items, conds, active, id, j);
    }
  }

  lemma EndRegs(regs: map<int, ItemId>, items: map<ItemId, Item>, refused: set<ItemId>, id: ItemId)
    requires RegsOk(regs, items, refused) && id in items
    ensures RegsOk(RegsAfter(regs, items[id].kind), items - {id}, refused)
  {
  }

  lemma EndPolls(s: State, id: ItemId)
    requires PollsOk(s.items, s.hits, s.active, s.expired, s.next) && PhaseOk(s.items, s.active, s.expired, s.phase) && s.phase == Draining
    requires WakesOk(s.wakes, s.items, s.next, s.refused) && WaitsOk(s.cos, s.items, s.next)
    requires id in s.items && s.active != [] && s.active[0] == EntryOf(s.items, id)
    ensures PollsOk(s.items - {id}, s.hits, s.active[1..], s.expired, s.next)
    ensures PhaseOk(s.items - {id}, s.active[1..], s.expired, s.phase)
    ensures WakesOk(s.wakes + multiset{id}, s.items - {id}, s.next, s.refused)
  {
    assert s.active == [s.active[0]] + s.active[1..];
    assert forall e :: e in s.active <==> e == s.active[0] || e in s.active[1..];
  }

  lemma HeadEntry(s: State)
    requires LinksOk(Linked(s), s.items, s.conds, s.active) && s.active != []
    ensures s.active[0].id in s.items && s.active[0] == EntryOf(s.items, s.active[0].id)
    ensures Linked(s.(active := s.active[1..])) == Linked(s) - multiset{s.active[0]}
  {
    assert s.active[0] in s.active && s.active[0] in Linked(s);
    assert s.active == [s.active[0]] + s.active[1..];
  }

  lemma DispatchKeeps(s: State)
    requires Inv(s) && s.phase == Draining && Top(s) == MAIN && s.active != [] && s.active[0].id in s.items
    ensures Inv(Wake(s.(active := s.active[1..]), s.active[0].id))
  {
    hide StackOk, WaitsOk, LinksOk, CondsOk, RegsOk, PollsOk, PhaseOk, WakesOk;
    Basics(s);
    HeadEntry(s);
    var id := s.active[0].id;
    EndWaits(s.cos, s.items, s.next, id);
    EndConds(s.conds, s.items, id);
    EndLinks(Linked(s), s.items, s.conds, s.active, id);
    EndRegs(s.regs, s.items, s.refused, id);
    EndPolls(s, id);
    PushStack(s.cos, s.stack, s.phase, s.items[id].owner);
  }

  // ----- every run

  /** One event keeps the invariant. */
  lemma StepKeeps(s: State, e: Event)
    requires Inv(s) && Can(s, e)
    ensures Inv(Do(s, e))
  {
    hide Inv;
    match e
    case Create(_) => ControlKeeps(s, e);
    case Resume(_) => ControlKeeps(s, e);
    case Yield => ControlKeeps(s, e);
    case Finish => ControlKeeps(s, e);
    case EnterLoop => LoopKeeps(s, e);
    case EndRound(_) => LoopKeeps(s, e);
    case Poll(fds, timeout, now, failing) => PollKeeps(s, fds, PollExpire(timeout, now), now, failing);
    case PollRefused(fds, _, now, failing) => RefusedKeeps(s, fds, now, failing);
    case CondWait(q, ms, now) =>
      ClockKeeps(s, now);
      CondWaitKeeps(s, q, ms, now);
    case Signal(q) => SignalKeeps(s, q);
    case Broadcast(q) => BroadcastKeeps(s, q, |Waiters(s.conds, q)|);
    case EpollWait(batch) => EpollWaitKeeps(s, batch);
    case SweepWheel(now) => SweepKeeps(s, now);
    case JoinExpired => JoinKeeps(s);
    case Dispatch => DispatchKeeps(s);
  }

  lemma ClockKeeps(s: State, now: nat)
    requires Inv(s) && s.clock <= now
    ensures Inv(s.(clock := now))
  {
    assert Linked(s.(clock := now)) == Linked(s);
  }

  /** What a sweep marks: the waits that it moves, and it moves those in the wheel whose time is over. */
  lemma SweepMarks(s: State, now: nat)
    requires Sorted(s.timer)
    ensures var t := DoSweep(s, now);
      && t.expired + t.timer == s.timer
      && (forall e :: e in t.expired <==> e in s.timer && e.expire <= now)
      && t.items.Keys == s.items.Keys
      && forall id :: id in s.items ==>
           (t.items[id].timedOut <==> s.items[id].timedOut || EntryOf(s.items, id) in t.expired)
  {
    QueueDelivers(s.timer, now);
    hide DueCount, Sorted;
  }

  lemma WakeParts(s: State, id: ItemId)
    requires id in s.items
    ensures var t := Wake(s, id);
      && t.items == s.items - {id} && t.refused == s.refused && t.wakes == s.wakes + multiset{id}
      && t.stack == s.stack + [s.items[id].owner] && t.cos == s.cos[s.items[id].owner := Active]
  {
  }

  /** What does not exist is in no list, no queue and no registration. */
  lemma Gone(s: State, id: ItemId)
    requires Inv(s) && id !in s.items && id !in s.refused
    ensures forall e :: e in Linked(s) ==> e.id != id
    ensures forall q :: q in s.conds ==> id !in s.conds[q]
    ensures forall fd :: fd in s.regs ==> s.regs[fd] != id
  {
    hide StackOk, WaitsOk, PollsOk, PhaseOk, WakesOk;
  }

  lemma DispatchStart(s: State, id: ItemId)
    requires Inv(s) && s.phase == Draining && s.stack != [] && Top(s) == MAIN && id in s.items
    ensures s.stack == [MAIN] && id !in s.refused && s.wakes[id] == 0
  {
    hide WaitsOk, LinksOk, CondsOk, RegsOk, PollsOk, PhaseOk;
    WaitsInTime(s, id);
  }

  lemma WaitsInTime(s: State, id: ItemId)
    requires Inv(s) && id in s.items
    ensures id < s.next
  {
  }

  /** Serving an item ends its wait: it is in no list, no queue and no registration any more, it was
      ended once, and the coroutine that waited is running. */
  lemma DispatchEnds(s: State)
    requires Inv(s) && s.phase == Draining && s.stack != [] && Top(s) == MAIN && s.active != [] && s.active[0].id in s.items
    ensures var id, t := s.active[0].id, Wake(s.(active := s.active[1..]), s.active[0].id);
      && t.items == s.items - {id} && t.wakes[id] == 1
      && (forall e :: e in Linked(t) ==> e.id != id)
      && (forall q :: q in t.conds ==> id !in t.conds[q])
      && (forall fd :: fd in t.regs ==> t.regs[fd] != id)
      && t.stack == [MAIN, s.items[id].owner] && t.cos[s.items[id].owner] == Active
  {
    var id := s.active[0].id;
    hide Inv, Wake;
    DispatchStart(s, id);
    DispatchKeeps(s);
    WakeParts(s.(active := s.active[1..]), id);
    Gone(Wake(s.(active := s.active[1..]), id), id);
  }
}
