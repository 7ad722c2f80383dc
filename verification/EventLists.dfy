/** The lists of the event loop as sequences of items, against the state of Scheduler: what each
    list operation does to the one is what the event does to the other. */
module EventLists {
  import opened Sequences
  import opened IntrusiveList
  import opened TimerWheel
  import opened TimeoutWheel
  import opened EventLoop
  import Scheduler
  import SchedulerSafety
  import SchedulerWheel

  // ----- what the lists show

  /** What a suspended coroutine keeps: its stPoll_t, or its stCoCondItem_t. */
  datatype Wait = PollWait(poll: Poll) | CondWait(cond: nat, timeout: Item)

  function ItemOf(w: Wait): Item {
    match w
    case PollWait(poll) => poll.item
    case CondWait(_, timeout) => timeout
  }

  datatype Lists = Lists(wheel: Wheel<Item>, timeout: seq<Item>, active: seq<Item>)

  function EntryAt(x: Item): Entry {
    Entry(x.id, x.expireTime)
  }

  function Entries(q: seq<Item>): (r: seq<Entry>)
    ensures |r| == |q| && forall i :: 0 <= i < |q| ==> r[i] == EntryAt(q[i])
  {
    seq(|q|, i requires 0 <= i < |q| => EntryAt(q[i]))
  }

  function Slots(a: seq<seq<Item>>): (r: seq<seq<Entry>>)
    ensures |r| == |a| && forall i :: 0 <= i < |a| ==> r[i] == Entries(a[i])
  {
    seq(|a|, i requires 0 <= i < |a| => Entries(a[i]))
  }

  function Shown(w: Wheel<Item>): Wheel<Entry> {
    Wheel(w.start, Slots(w.slots))
  }

  lemma {:induction false} EntriesWithout(q: seq<Item>, x: Item)
    requires forall y :: y in q && y.id == x.id ==> y == x
    ensures Entries(Without(q, x)) == Without(Entries(q), EntryAt(x))
  {
    if q != [] {
      assert q[0] in q && forall y :: y in q[1..] ==> y in q;
      EntriesWithout(q[1..], x);
      assert Entries(q)[1..] == Entries(q[1..]);
      assert Entries([q[0]] + Without(q[1..], x)) == [EntryAt(q[0])] + Entries(Without(q[1..], x));
    }
  }

  lemma {:induction false} EntriesFlatten(a: seq<seq<Item>>)
    ensures Entries(Flatten(a)) == Flatten(Slots(a))
  {
    if a != [] {
      EntriesFlatten(a[1..]);
      assert Slots(a)[1..] == Slots(a[1..]);
      assert Entries(a[0] + Flatten(a[1..])) == Entries(a[0]) + Entries(Flatten(a[1..]));
    }
  }

  lemma ShownCancel(w: Wheel<Item>, x: Item)
    requires forall y :: y in Flatten(w.slots) && y.id == x.id ==> y == x
    ensures Shown(w.(slots := Cancel(w.slots, x))) == SchedulerWheel.Unhook(Shown(w), EntryAt(x))
  {
    var a: seq<seq<Item>>, e := w.slots, EntryAt(x);
    forall i | 0 <= i < |a| ensures Slots(Cancel(a, x))[i] == Cancel(Slots(a), e)[i] {
      forall y | y in a[i] && y.id == x.id ensures y == x {
        var k :| 0 <= k < |a[i]| && a[i][k] == y;
        InFlatten(a, i, k);
      }
      EntriesWithout(a[i], x);
    }
    assert Slots(Cancel(a, x)) == Cancel(Slots(a), e);
  }

  lemma ShownAdd(w: Wheel<Item>, x: Item, now: nat)
    requires |w.slots| > 0
    ensures var (code, v) := Add(w, x, x.expireTime, now);
            Add(Shown(w), EntryAt(x), x.expireTime, now) == (code, Shown(v))
  {
    var v := Restarted(w, now);
    if AddCode(v.start, |v.slots|, x.expireTime, now) == 0 {
      var p := ToInt32(x.expireTime - v.start) % |v.slots|;
      assert Entries(v.slots[p] + [x]) == Entries(v.slots[p]) + [EntryAt(x)];
      assert Slots(v.slots[p := v.slots[p] + [x]]) == Slots(v.slots)[p := Entries(v.slots[p]) + [EntryAt(x)]];
    }
  }

  lemma ShownTake(w: Wheel<Item>, now: nat)
    requires |w.slots| > 0 && w.start > 0 && now >= w.start && TakeCount(w.start, |w.slots|, now) > 0
    ensures Take(Shown(w), now) == (Entries(Take(w, now).0), Shown(Take(w, now).1))
  {
    var a: seq<seq<Item>>, cnt := w.slots, TakeCount(w.start, |w.slots|, now);
    EntriesFlatten(a[..cnt]);
    assert Slots(a[..cnt]) == Slots(a)[..cnt];
    assert Entries([]) == [];
    assert Slots([[]] + a[cnt..] + Empties(cnt - 1)) == [[]] + Slots(a)[cnt..] + Empties(cnt - 1);
  }

  // ----- the lists against the state

  function Members(l: Lists): seq<Item> {
    l.active + l.timeout + Flatten(l.wheel.slots)
  }

  function MemberSet(l: Lists): set<Item> {
    set x | x in Members(l)
  }

  ghost predicate Agrees(id: nat, w: Wait, it: Scheduler.Item) {
    && ItemOf(w).id == id && ItemOf(w).expireTime == it.expire
    && match w
       case PollWait(poll) => it.kind.PollItem? && poll.fds == it.kind.fds
       case CondWait(q, _) => it.kind == Scheduler.CondItem(q)
  }

  /** The lists hold the waits of the state, each its own item, in the order of the state. */
  ghost predicate Mirrors(l: Lists, waits: map<nat, Wait>, s: Scheduler.State) {
    Lined(l, s) && Owned(l, waits) && AllAgree(waits, s.items)
  }

  ghost predicate Lined(l: Lists, s: Scheduler.State) {
    && Entries(l.active) == s.active && Entries(l.timeout) == s.expired
    && SchedulerWheel.Matches(s, Shown(l.wheel))
  }

  ghost predicate Owned(l: Lists, waits: map<nat, Wait>) {
    forall x :: x in Members(l) ==> x.id in waits && ItemOf(waits[x.id]) == x
  }

  ghost predicate AllAgree(waits: map<nat, Wait>, items: map<nat, Scheduler.Item>) {
    waits.Keys == items.Keys && forall id :: id in waits ==> Agrees(id, waits[id], items[id])
  }

  lemma InitMirrors(now: nat)
    requires 0 < now
    ensures Mirrors(Lists(Wheel(now, Empties(WHEEL_SIZE)), [], []), map[], Scheduler.Init(now))
  {
    FlattenEmpty<Item>(Empties(WHEEL_SIZE));
    FlattenEmpty<Entry>(Empties(WHEEL_SIZE));
    assert Slots(Empties(WHEEL_SIZE)) == Empties(WHEEL_SIZE);
    assert Entries([]) == [];
  }

  function Activated(l: Lists, x: Item): Lists {
    Lists(l.wheel.(slots := Cancel(l.wheel.slots, x)), Without(l.timeout, x), Without(l.active, x) + [x])
  }

  lemma CancelMembers(a: seq<seq<Item>>, x: Item)
    ensures forall y :: y in Flatten(Cancel(a, x)) ==> y in Flatten(a)
  {
    forall y | y in Flatten(Cancel(a, x)) ensures y in Flatten(a) {
      var i := FlattenFrom(Cancel(a, x), y);
      WithoutSubset(a[i], x);
      assert y in a[i];
      var j :| 0 <= j < |a[i]| && a[i][j] == y;
      InFlatten(a, i, j);
    }
  }

  lemma WithoutKeeps<T>(s: seq<T>, x: T)
    ensures forall y :: y in s && y != x ==> y in Without(s, x)
  {
    WithoutMembers(s, x);
    forall y | y in s && y != x ensures y in Without(s, x) {
      assert y in multiset(s) - multiset{x};
      assert y in multiset(Without(s, x));
    }
  }

  lemma CancelKeeps(a: seq<seq<Item>>, x: Item)
    ensures forall y :: y in Flatten(a) && y != x ==> y in Flatten(Cancel(a, x))
  {
    forall y | y in Flatten(a) && y != x ensures y in Flatten(Cancel(a, x)) {
      var i := FlattenFrom(a, y);
      WithoutKeeps(a[i], x);
      var c := Cancel(a, x);
      var j :| 0 <= j < |c[i]| && c[i][j] == y;
      InFlatten(c, i, j);
    }
  }

  lemma ActivatedMembers(l: Lists, x: Item)
    ensures forall y :: y in Members(Activated(l, x)) ==> y in Members(l) || y == x
    ensures forall y :: y in Members(l) ==> y in Members(Activated(l, x))
    ensures x in Members(Activated(l, x))
  {
    CancelMembers(l.wheel.slots, x);
    CancelKeeps(l.wheel.slots, x);
    WithoutSubset(l.timeout, x);
    WithoutSubset(l.active, x);
    WithoutKeeps(l.timeout, x);
    WithoutKeeps(l.active, x);
    hide Cancel, Flatten, Sequences.Without;
  }

  lemma ActivatedSet(l: Lists, x: Item)
    ensures MemberSet(Activated(l, x)) == MemberSet(l) + {x}
  {
    ActivatedMembers(l, x);
    hide Activated, Members;
  }

  lemma ActivateLined(l: Lists, s: Scheduler.State, x: Item)
    requires Lined(l, s) && forall y :: y in Members(l) && y.id == x.id ==> y == x
    ensures Lined(Activated(l, x), Scheduler.Activate(s, EntryAt(x)))
  {
    hide SchedulerWheel.Matches, Sequences.Without, Flatten;
    EntriesWithout(l.active, x);
    EntriesWithout(l.timeout, x);
    ShownCancel(l.wheel, x);
    SchedulerWheel.UnhookMatches(s, Shown(l.wheel), EntryAt(x));
    hide Shown, Cancel;
    assert Entries(Without(l.active, x) + [x]) == Entries(Without(l.active, x)) + [EntryAt(x)];
  }

  lemma ActivateMirrors(l: Lists, waits: map<nat, Wait>, s: Scheduler.State, id: nat)
    requires Mirrors(l, waits, s) && id in waits
    ensures Mirrors(Activated(l, ItemOf(waits[id])), waits, Scheduler.Activate(s, Scheduler.EntryOf(s.items, id)))
  {
    var x := ItemOf(waits[id]);
    assert Agrees(id, waits[id], s.items[id]) && x.id == id && EntryAt(x) == Scheduler.EntryOf(s.items, id);
    hide Lined, Sequences.Without, Agrees, Members, Activated;
    ActivateLined(l, s, x);
    ActivatedMembers(l, x);
  }

  lemma RaisedMirrors(l: Lists, waits: map<nat, Wait>, s: Scheduler.State, id: nat)
    requires Mirrors(l, waits, s) && id in waits && waits[id].PollWait?
    ensures s.items[id].kind.PollItem? && Mirrors(l, waits, Scheduler.Raised(s, id))
    ensures forall j :: j in waits && waits[j].PollWait? && j != id ==> waits[j].poll != waits[id].poll
  {
    assert Agrees(id, waits[id], s.items[id]);
    forall j | j in waits ensures Agrees(j, waits[j], Scheduler.Raised(s, id).items[j]) { assert Agrees(j, waits[j], s.items[j]); }
  }

  lemma PreparedMirrors(l: Lists, waits: map<nat, Wait>, s: Scheduler.State, fd: int)
    requires Mirrors(l, waits, s) && fd in s.regs && s.regs[fd] in waits && waits[s.regs[fd]].PollWait?
    ensures var id, t := s.regs[fd], Scheduler.PrepareOne(s, fd);
      && s.items[id].kind.PollItem? && t.items == Scheduler.Raised(s, id).items
      && t.conds == s.conds && t.regs == s.regs && t.next == s.next
      && Mirrors(if s.items[id].kind.detached then l else Activated(l, waits[id].poll.item), waits, t)
      && forall j :: j in waits && waits[j].PollWait? && j != id ==> waits[j].poll != waits[id].poll
  {
    var id := s.regs[fd];
    RaisedMirrors(l, waits, s, id);
    hide Mirrors, Activated;
    ActivateMirrors(l, waits, Scheduler.Raised(s, id), id);
  }

  function Swept(l: Lists, now: nat): Lists
    requires |l.wheel.slots| > 0
  {
    var (out, w) := Take(l.wheel, now);
    Lists(w, out, l.active)
  }

  lemma SweptSet(l: Lists, now: nat)
    requires |l.wheel.slots| > 0 && 0 < l.wheel.start <= now && TakeCount(l.wheel.start, |l.wheel.slots|, now) > 0
    requires l.timeout == []
    ensures MemberSet(Swept(l, now)) == MemberSet(l)
  {
    var a: seq<seq<Item>>, cnt := l.wheel.slots, TakeCount(l.wheel.start, |l.wheel.slots|, now);
    assert a == a[..cnt] + a[cnt..];
    FlattenConcat(a[..cnt], a[cnt..]);
    PaddedFlatten(a[cnt..], cnt - 1);
    TakeFrom(l.wheel, now, cnt);
    hide Take, Flatten;
  }

  lemma SweepTimes(s: Scheduler.State, now: nat)
    requires SchedulerSafety.Inv(s) && Scheduler.Can(s, Scheduler.SweepWheel(now))
    ensures s.expired == [] && 0 < s.start <= s.clock <= now && now + 1 < s.start + HALF
  {
  }

  lemma SweptLined(l: Lists, s: Scheduler.State, now: nat)
    requires Lined(l, s) && Scheduler.Can(s, Scheduler.SweepWheel(now)) && 0 < s.start <= s.clock
    requires |l.wheel.slots| > 0 && l.wheel.start == s.start <= now && TakeCount(l.wheel.start, |l.wheel.slots|, now) > 0
    ensures Lined(Swept(l, now), Scheduler.DoSweep(s, now))
  {
    SchedulerWheel.SweepMatches(s, Shown(l.wheel), now);
    ShownTake(l.wheel, now);
    hide SchedulerWheel.Matches, Scheduler.Can, Take, TakeCount, Shown;
  }

  lemma SameMembers(l: Lists, m: Lists, waits: map<nat, Wait>)
    requires Owned(l, waits) && MemberSet(l) == MemberSet(m)
    ensures Owned(m, waits)
  {
    forall x | x in Members(m) ensures x.id in waits && ItemOf(waits[x.id]) == x { assert x in MemberSet(m); }
  }

  lemma SweptMirrors(l: Lists, waits: map<nat, Wait>, s: Scheduler.State, now: nat)
    requires Mirrors(l, waits, s) && SchedulerSafety.Inv(s) && Scheduler.Can(s, Scheduler.SweepWheel(now))
    ensures l.timeout == [] && TakeCount(l.wheel.start, |l.wheel.slots|, now) > 0 && 0 < l.wheel.start <= now
    ensures Mirrors(Swept(l, now), waits, Scheduler.DoSweep(s, now))
    ensures MemberSet(Swept(l, now)) == MemberSet(l)
  {
    hide SchedulerSafety.Inv, Scheduler.Can, Scheduler.Do, Lined, Owned, AllAgree, Swept, TakeCount, MemberSet;
    SweepTimes(s, now);
    LinedSizes(l, s);
    ShortGapSweepsRight(Shown(l.wheel), now);
    SweptLined(l, s, now);
    SweptSet(l, now);
    SameMembers(l, Swept(l, now), waits);
    MarkedAgree(waits, s, now);
  }

  lemma LinedSizes(l: Lists, s: Scheduler.State)
    requires Lined(l, s)
    ensures |l.active| == |s.active| && |l.timeout| == |s.expired|
    ensures |l.wheel.slots| == WHEEL_SIZE && l.wheel.start == s.start > 0
  {
  }

  lemma MarkedAgree(waits: map<nat, Wait>, s: Scheduler.State, now: nat)
    requires AllAgree(waits, s.items) && Scheduler.Can(s, Scheduler.SweepWheel(now))
    ensures AllAgree(waits, Scheduler.DoSweep(s, now).items)
  {
    hide Scheduler.Can;
    var items := Scheduler.DoSweep(s, now).items;
    forall id | id in waits ensures Agrees(id, waits[id], items[id]) { assert Agrees(id, waits[id], s.items[id]); }
  }

  /** A wait is marked by the one exactly when it is by the other. */
  lemma MarkedAlike(l: Lists, waits: map<nat, Wait>, s: Scheduler.State, id: nat)
    requires Mirrors(l, waits, s) && id in waits
    ensures ItemOf(waits[id]) in l.timeout <==> Scheduler.EntryOf(s.items, id) in s.expired
  {
    var x := ItemOf(waits[id]);
    assert Agrees(id, waits[id], s.items[id]);
    assert EntryAt(x) == Scheduler.EntryOf(s.items, id);
    if EntryAt(x) in s.expired {
      var k :| 0 <= k < |l.timeout| && EntryAt(l.timeout[k]) == EntryAt(x);
      assert l.timeout[k] in Members(l);
    }
    if x in l.timeout {
      var k :| 0 <= k < |l.timeout| && l.timeout[k] == x;
      assert Entries(l.timeout)[k] == EntryAt(x);
    }
  }

  lemma AllMarkedAlike(l: Lists, waits: map<nat, Wait>, s: Scheduler.State)
    requires Mirrors(l, waits, s)
    ensures waits.Keys == s.items.Keys
    ensures forall id {:trigger waits[id]} :: id in waits ==>
              (ItemOf(waits[id]) in l.timeout <==> Scheduler.EntryOf(s.items, id) in s.expired)
  {
    forall id | id in waits ensures ItemOf(waits[id]) in l.timeout <==> Scheduler.EntryOf(s.items, id) in s.expired {
      hide Mirrors;
      MarkedAlike(l, waits, s, id);
    }
  }

  function JoinExpired(s: Scheduler.State): Scheduler.State {
    s.(active := s.active + s.expired, expired := [], phase := Scheduler.Draining)
  }

  function Joined(l: Lists): Lists {
    Lists(l.wheel, [], l.active + l.timeout)
  }

  lemma JoinedSet(l: Lists)
    ensures MemberSet(Joined(l)) == MemberSet(l)
  {
    assert forall x :: x in Members(l) ==> x in Members(Joined(l));
    assert forall x :: x in Members(Joined(l)) ==> x in Members(l);
  }

  lemma JoinedMirrors(l: Lists, waits: map<nat, Wait>, s: Scheduler.State)
    requires Mirrors(l, waits, s)
    ensures Mirrors(Joined(l), waits, JoinExpired(s))
  {
    assert Entries(l.active + l.timeout) == Entries(l.active) + Entries(l.timeout);
    assert Entries([]) == [];
    hide SchedulerWheel.Matches;
    SchedulerWheel.OnlyTimer(s, JoinExpired(s), Shown(l.wheel));
    assert forall x :: x in Members(Joined(l)) ==> x in Members(l);
  }

  function Popped(l: Lists): Lists
    requires l.active != []
  {
    Lists(l.wheel, l.timeout, l.active[1..])
  }

  lemma PoppedSet(l: Lists)
    requires l.active != []
    ensures l.active[0] in MemberSet(l)
    ensures MemberSet(Popped(l)) <= MemberSet(l) <= MemberSet(Popped(l)) + {l.active[0]}
  {
    assert l.active == [l.active[0]] + l.active[1..];
    assert forall x :: x in Members(l) ==> x in Members(Popped(l)) || x == l.active[0];
    assert forall x :: x in Members(Popped(l)) ==> x in Members(l);
  }

  function Serve(s: Scheduler.State): Scheduler.State
    requires s.active != [] && s.active[0].id in s.items
  {
    Scheduler.Wake(s.(active := s.active[1..]), s.active[0].id)
  }

  lemma HeadAgrees(l: Lists, waits: map<nat, Wait>, s: Scheduler.State)
    requires Mirrors(l, waits, s) && s.active != []
    ensures l.active != [] && l.active[0].id == s.active[0].id
    ensures var id := s.active[0].id; id in waits && ItemOf(waits[id]) == l.active[0] && Agrees(id, waits[id], s.items[id])
  {
    LinedSizes(l, s);
    assert EntryAt(l.active[0]) == s.active[0] && l.active[0] in Members(l);
    hide Agrees;
  }

  lemma PoppedLined(l: Lists, s: Scheduler.State)
    requires Lined(l, s) && l.active != [] && s.active != [] && s.active[0].id in s.items
    ensures Lined(Popped(l), Serve(s))
  {
    assert Entries(l.active[1..]) == Entries(l.active)[1..];
    hide SchedulerWheel.Matches;
    SchedulerWheel.OnlyTimer(s, Serve(s), Shown(l.wheel));
  }

  /** Serving the head of the active list, which is then in no list, and forgetting its wait. */
  lemma PoppedMirrors(l: Lists, waits: map<nat, Wait>, s: Scheduler.State)
    requires Mirrors(l, waits, s) && s.active != [] && s.active[0].id in s.items
    requires l.active != [] ==> l.active[0] !in Members(Popped(l))
    ensures l.active != [] && Mirrors(Popped(l), waits - {l.active[0].id}, Serve(s))
  {
    HeadAgrees(l, waits, s);
    PoppedLined(l, s);
    PoppedSet(l);
    hide Lined, Agrees, Popped, Members;
    forall y | y in Members(Popped(l)) ensures y.id in waits - {l.active[0].id} && ItemOf(waits[y.id]) == y {
      assert y in MemberSet(Popped(l)) && y in MemberSet(l);
    }
  }

  function Scheduled(l: Lists, x: Item, now: nat): Lists
    requires |l.wheel.slots| > 0
  {
    l.(wheel := Add(l.wheel, x, x.expireTime, now).1)
  }

  lemma ScheduledSet(l: Lists, x: Item, now: nat)
    requires |l.wheel.slots| > 0 && Add(l.wheel, x, x.expireTime, now).0 == 0
    ensures MemberSet(Scheduled(l, x, now)) == MemberSet(l) + {x}
  {
    var v := Restarted(l.wheel, now);
    var a: seq<seq<Item>>, p := v.slots, ToInt32(x.expireTime - v.start) % |v.slots|;
    Around(a, p, a[p] + [x]);
    FlattenAround(a[..p], a[p], a[p + 1..]);
    FlattenAround(a[..p], a[p] + [x], a[p + 1..]);
    var f, g, m, r := Flatten(a), Flatten(a[p := a[p] + [x]]), a[p], Flatten(a[..p]);
    assert Scheduled(l, x, now).wheel.slots == a[p := a[p] + [x]];
    hide Flatten, Add;
    assert f == r + m + Flatten(a[p + 1..]) && g == r + (m + [x]) + Flatten(a[p + 1..]);
    assert forall y :: y in g ==> y in f || y == x;
    assert forall y :: y in f ==> y in g;
    assert (m + [x])[|m|] == x && x in g;
  }

  /** A new wait is begun: its item is mirrored if and only if the wheel puts it in its place. */
  lemma ScheduledMirrors(l: Lists, waits: map<nat, Wait>, s: Scheduler.State, w: Wait, now: nat, t: Scheduler.State)
    requires Mirrors(l, waits, s) && ItemOf(w).id !in waits && Add(l.wheel, ItemOf(w), ItemOf(w).expireTime, now).0 == 0
    requires t.active == s.active && t.expired == s.expired
    requires var id := ItemOf(w).id; id in t.items && t.items == s.items[id := t.items[id]] && Agrees(id, w, t.items[id])
    ensures Mirrors(Scheduled(l, ItemOf(w), now), waits[ItemOf(w).id := w], t) <==>
            SchedulerWheel.Matches(t, Add(Shown(l.wheel), EntryAt(ItemOf(w)), ItemOf(w).expireTime, now).1)
  {
    var x := ItemOf(w);
    ShownAdd(l.wheel, x, now);
    ScheduledSet(l, x, now);
    hide Agrees, SchedulerWheel.Matches, Add, Shown;
    var m := Scheduled(l, x, now);
    forall y | y in Members(m) ensures y.id in waits[x.id := w] && ItemOf(waits[x.id := w][y.id]) == y {
      assert y in MemberSet(m) && (y in MemberSet(l) || y == x);
    }
  }

  lemma BeginFacts(l: Lists, waits: map<nat, Wait>, s: Scheduler.State)
    requires SchedulerSafety.Inv(s) && Mirrors(l, waits, s)
    ensures s.next !in waits && l.wheel.start == s.start > 0 && |l.wheel.slots| == WHEEL_SIZE && s.start <= s.clock
  {
    assert forall id :: id in s.items ==> id < s.next;
  }

  lemma AcceptedPoll(l: Lists, waits: map<nat, Wait>, s: Scheduler.State, poll: Poll, timeout: int, now: nat, failing: set<int>)
    requires SchedulerSafety.Inv(s) && Mirrors(l, waits, s) && Scheduler.Can(s, Scheduler.Poll(poll.fds, timeout, now, failing))
    requires poll.item.id == s.next && poll.item.expireTime == Scheduler.PollExpire(timeout, now)
    ensures |l.wheel.slots| > 0 && Add(l.wheel, poll.item, poll.item.expireTime, now).0 == 0
    ensures var t := Scheduler.DoPoll(s, poll.fds, poll.item.expireTime, now, failing);
            && Mirrors(Scheduled(l, poll.item, now), waits[s.next := PollWait(poll)], t)
            && t.items == s.items[s.next := Scheduler.Item(Scheduler.Top(s), poll.item.expireTime, false, Scheduler.PollItem(poll.fds, 0, false))]
            && t.conds == s.conds && t.regs == Scheduler.Register(s.regs, poll.fds, s.next, failing) && t.next == s.next + 1
  {
    var e := Scheduler.Poll(poll.fds, timeout, now, failing);
    var t := Scheduler.DoPoll(s, poll.fds, poll.item.expireTime, now, failing);
    BeginFacts(l, waits, s);
    PollOnWheel(l, s, poll.item, e);
    assert t.active == s.active && t.expired == s.expired;
    assert t.items == s.items[s.next := t.items[s.next]] && Agrees(s.next, PollWait(poll), t.items[s.next]);
    hide SchedulerSafety.Inv, Mirrors, Scheduler.Can, SchedulerWheel.Matches, Scheduler.DoPoll;
    ScheduledMirrors(l, waits, s, PollWait(poll), now, t);
  }

  lemma PollOnWheel(l: Lists, s: Scheduler.State, x: Item, e: Scheduler.Event)
    requires SchedulerSafety.Inv(s) && Lined(l, s) && e.Poll? && Scheduler.Can(s, e)
    requires x.id == s.next && x.expireTime == Scheduler.PollExpire(e.timeout, e.now)
    ensures Add(l.wheel, x, x.expireTime, e.now).0 == 0
    ensures SchedulerWheel.Matches(Scheduler.DoPoll(s, e.fds, x.expireTime, e.now, e.failing),
                                   Add(Shown(l.wheel), EntryAt(x), x.expireTime, e.now).1)
  {
    hide SchedulerSafety.Inv;
    SchedulerWheel.PollMatches(s, Shown(l.wheel), e.fds, e.timeout, e.now, e.failing);
  }

  lemma RefusedPoll(l: Lists, waits: map<nat, Wait>, s: Scheduler.State, x: Item, e: Scheduler.Event)
    requires SchedulerSafety.Inv(s) && Mirrors(l, waits, s) && e.PollRefused? && Scheduler.Can(s, e)
    requires x.expireTime == Scheduler.PollExpire(e.timeout, e.now)
    ensures |l.wheel.slots| > 0 && Add(l.wheel, x, x.expireTime, e.now).0 != 0
    ensures var t := Scheduler.DoPollRefused(s, e.fds, e.now, e.failing);
            && Mirrors(l, waits, t) && t.items == s.items && t.conds == s.conds
            && t.regs == Scheduler.Register(s.regs, e.fds, s.next, e.failing) && t.next == s.next + 1
  {
    BeginFacts(l, waits, s);
    OtherConds(l, waits, s, Scheduler.DoPollRefused(s, e.fds, e.now, e.failing));
    hide SchedulerSafety.Inv, Mirrors, Scheduler.DoPollRefused;
  }

  ghost predicate MayPoll(s: Scheduler.State, fds: seq<int>, timeout: int, now: nat, failing: set<int>) {
    || Scheduler.Can(s, Scheduler.Poll(fds, timeout, now, failing))
    || Scheduler.Can(s, Scheduler.PollRefused(fds, timeout, now, failing))
  }

  lemma PollTimes(s: Scheduler.State, fds: seq<int>, timeout: int, now: nat, failing: set<int>)
    requires MayPoll(s, fds, timeout, now, failing)
    ensures 0 < now && 0 <= Scheduler.PollExpire(timeout, now) < s.start + HALF && s.stack != []
    ensures Scheduler.Can(s, Scheduler.Poll(fds, timeout, now, failing)) <==> !Scheduler.Can(s, Scheduler.PollRefused(fds, timeout, now, failing))
  {
  }

  function PollWaitOf(s: Scheduler.State, poll: Poll): Scheduler.Item
    requires s.stack != []
  {
    Scheduler.Item(Scheduler.Top(s), poll.item.expireTime, false, Scheduler.PollItem(poll.fds, 0, false))
  }

  /** What co_poll_inner leaves behind, `ret` being what AddTimeout returned. */
  function Polled(s: Scheduler.State, poll: Poll, now: nat, failing: set<int>, ret: int): Scheduler.State
    requires s.stack != []
  {
    if ret == 0 then Scheduler.DoPoll(s, poll.fds, poll.item.expireTime, now, failing)
    else Scheduler.DoPollRefused(s, poll.fds, now, failing)
  }

  /** The wheel accepts a poll exactly when the state does. */
  lemma PollOutcome(l: Lists, waits: map<nat, Wait>, s: Scheduler.State, poll: Poll, timeout: int, now: nat, failing: set<int>)
    requires SchedulerSafety.Inv(s) && Mirrors(l, waits, s) && MayPoll(s, poll.fds, timeout, now, failing)
    requires poll.item.id == s.next && poll.item.expireTime == Scheduler.PollExpire(timeout, now)
    ensures s.next !in waits && l.wheel.start == s.start > 0 && |l.wheel.slots| > 0 && s.stack != []
    ensures var ret := Add(l.wheel, poll.item, poll.item.expireTime, now).0;
            var t := Polled(s, poll, now, failing, ret);
            && (ret == 0 <==> Scheduler.Can(s, Scheduler.Poll(poll.fds, timeout, now, failing)))
            && t.conds == s.conds && t.regs == Scheduler.Register(s.regs, poll.fds, s.next, failing) && t.next == s.next + 1
            && if ret == 0 then
                 Mirrors(Scheduled(l, poll.item, now), waits[s.next := PollWait(poll)], t) && t.items == s.items[s.next := PollWaitOf(s, poll)]
               else
                 Mirrors(l, waits, t) && t.items == s.items
  {
    BeginFacts(l, waits, s);
    PollTimes(s, poll.fds, timeout, now, failing);
    hide SchedulerSafety.Inv, Mirrors, Scheduler.DoPoll, Scheduler.DoPollRefused, Scheduler.Register, Scheduled, Add, Scheduler.Can;
    if Scheduler.Can(s, Scheduler.Poll(poll.fds, timeout, now, failing)) {
      AcceptedPoll(l, waits, s, poll, timeout, now, failing);
    } else {
      RefusedPoll(l, waits, s, poll.item, Scheduler.PollRefused(poll.fds, timeout, now, failing));
    }
  }

  function TimedWait(s: Scheduler.State, q: nat, ms: int, now: nat): Scheduler.State
    requires s.stack != []
  {
    if ms > 0 && AddCode(s.start, WHEEL_SIZE, now + ms, now) != 0 then s.(clock := now)
    else Scheduler.DoCondWait(s, q, ms, now)
  }

  lemma WaitTimes(s: Scheduler.State, q: nat, ms: int, now: nat)
    requires Scheduler.Can(s, Scheduler.CondWait(q, ms, now))
    ensures s.stack != [] && 0 < now
    ensures Scheduler.Do(s, Scheduler.CondWait(q, ms, now)) == TimedWait(s, q, ms, now)
  {
    hide AddCode, Scheduler.DoCondWait;
  }

  lemma WaitParts(s: Scheduler.State, q: nat, ms: int, now: nat)
    requires s.stack != []
    ensures var t := Scheduler.DoCondWait(s, q, ms, now);
      && t.active == s.active && t.expired == s.expired && t.start == s.start && t.regs == s.regs && t.next == s.next + 1
      && t.conds == s.conds[q := Scheduler.Waiters(s.conds, q) + [s.next]]
      && t.items == s.items[s.next := CondWaitOf(s, q, if ms > 0 then now + ms else 0)]
      && (ms <= 0 ==> t.timer == s.timer)
  {
    hide InsertStable;
  }

  function CondWaitOf(s: Scheduler.State, q: nat, expire: nat): Scheduler.Item
    requires s.stack != []
  {
    Scheduler.Item(Scheduler.Top(s), expire, false, Scheduler.CondItem(q))
  }

  lemma AcceptedWait(l: Lists, waits: map<nat, Wait>, s: Scheduler.State, w: Wait, ms: int, now: nat)
    requires SchedulerSafety.Inv(s) && Mirrors(l, waits, s) && w.CondWait? && Scheduler.Can(s, Scheduler.CondWait(w.cond, ms, now))
    requires ms > 0 && w.timeout.id == s.next && w.timeout.expireTime == now + ms
    requires AddCode(s.start, WHEEL_SIZE, now + ms, now) == 0 && s.stack != []
    ensures |l.wheel.slots| > 0
    ensures Mirrors(Scheduled(l, w.timeout, now), waits[s.next := w], Scheduler.DoCondWait(s, w.cond, ms, now)) <==>
            !SchedulerWheel.FarWait(s, Scheduler.CondWait(w.cond, ms, now))
  {
    var t := Scheduler.DoCondWait(s, w.cond, ms, now);
    hide SchedulerSafety.Inv, Mirrors, Scheduler.Can, Scheduler.Do, Scheduler.DoCondWait, SchedulerWheel.FarWait;
    WaitTimes(s, w.cond, ms, now);
    BeginFacts(l, waits, s);
    WaitOnWheel(l, waits, s, w.timeout, w.cond, ms, now);
    WaitParts(s, w.cond, ms, now);
    assert Agrees(s.next, w, t.items[s.next]);
    hide SchedulerWheel.Matches, AddCode, Add;
    ScheduledMirrors(l, waits, s, w, now, t);
  }

  /** The wheel accepts a wait with a deadline exactly when the state does, and then the lists go on
      mirroring the state if and only if the wait is not a far one. */
  lemma TimedWaitOutcome(l: Lists, waits: map<nat, Wait>, s: Scheduler.State, w: Wait, ms: int, now: nat)
    requires SchedulerSafety.Inv(s) && Mirrors(l, waits, s) && w.CondWait? && Scheduler.Can(s, Scheduler.CondWait(w.cond, ms, now))
    requires ms > 0 && w.timeout.id == s.next && w.timeout.expireTime == now + ms
    ensures l.wheel.start == s.start > 0 && |l.wheel.slots| == WHEEL_SIZE && s.next !in waits && s.stack != []
    ensures var t := TimedWait(s, w.cond, ms, now);
            if Add(l.wheel, w.timeout, now + ms, now).0 == 0 then
              && t == Scheduler.DoCondWait(s, w.cond, ms, now)
              && (Mirrors(Scheduled(l, w.timeout, now), waits[s.next := w], t) <==>
                  !SchedulerWheel.FarWait(s, Scheduler.CondWait(w.cond, ms, now)))
            else
              t == s.(clock := now) && Mirrors(l, waits, t)
  {
    hide SchedulerSafety.Inv, Mirrors, Scheduler.Can, Scheduler.Do, Scheduler.DoCondWait, AddCode, Scheduled, SchedulerWheel.FarWait;
    BeginFacts(l, waits, s);
    WaitTimes(s, w.cond, ms, now);
    AddAnswers(l.wheel, w.timeout, now);
    hide Add;
    if AddCode(s.start, WHEEL_SIZE, now + ms, now) == 0 {
      AcceptedWait(l, waits, s, w, ms, now);
    } else {
      OtherConds(l, waits, s, s.(clock := now));
    }
  }

  lemma AddAnswers(w: Wheel<Item>, x: Item, now: nat)
    requires w.start > 0 && |w.slots| > 0
    ensures Add(w, x, x.expireTime, now).0 == AddCode(w.start, |w.slots|, x.expireTime, now)
  {
  }

  lemma WaitOnWheel(l: Lists, waits: map<nat, Wait>, s: Scheduler.State, x: Item, q: nat, ms: int, now: nat)
    requires SchedulerSafety.Inv(s) && Mirrors(l, waits, s) && Scheduler.Can(s, Scheduler.CondWait(q, ms, now))
    requires ms > 0 && x.id == s.next && x.expireTime == now + ms && AddCode(s.start, WHEEL_SIZE, now + ms, now) == 0
    ensures s.stack != [] && Add(l.wheel, x, x.expireTime, now).0 == 0
    ensures SchedulerWheel.Matches(Scheduler.DoCondWait(s, q, ms, now), Add(Shown(l.wheel), EntryAt(x), x.expireTime, now).1) <==>
            !SchedulerWheel.FarWait(s, Scheduler.CondWait(q, ms, now))
  {
    hide SchedulerSafety.Inv, Scheduler.Can, Scheduler.Do, Scheduler.DoCondWait, Owned, AllAgree, InsertStable, SchedulerWheel.FarWait;
    WaitTimes(s, q, ms, now);
    SchedulerWheel.CondWaitMatches(s, Shown(l.wheel), q, ms, now);
  }

  /** A wait that is in no list begins. */
  lemma BegunMirrors(l: Lists, waits: map<nat, Wait>, s: Scheduler.State, w: Wait, t: Scheduler.State)
    requires Mirrors(l, waits, s) && ItemOf(w).id !in waits
    requires t.active == s.active && t.expired == s.expired && t.timer == s.timer && t.start == s.start
    requires var id := ItemOf(w).id; id in t.items && t.items == s.items[id := t.items[id]] && Agrees(id, w, t.items[id])
    ensures Mirrors(l, waits[ItemOf(w).id := w], t)
  {
    hide SchedulerWheel.Matches, Members, Agrees;
    SchedulerWheel.OnlyTimer(s, t, Shown(l.wheel));
  }

  /** A wait without a deadline is in no list. */
  lemma UntimedWaitMirrors(l: Lists, waits: map<nat, Wait>, s: Scheduler.State, w: Wait, ms: int, now: nat)
    requires SchedulerSafety.Inv(s) && Mirrors(l, waits, s) && w.CondWait? && s.stack != []
    requires ms <= 0 && w.timeout.id == s.next && w.timeout.expireTime == 0
    ensures s.next !in waits && Mirrors(l, waits[s.next := w], Scheduler.DoCondWait(s, w.cond, ms, now))
  {
    hide SchedulerSafety.Inv, Mirrors, Scheduler.DoCondWait;
    BeginFacts(l, waits, s);
    WaitParts(s, w.cond, ms, now);
    BegunMirrors(l, waits, s, w, Scheduler.DoCondWait(s, w.cond, ms, now));
  }

  /** Mirroring is about the lists, the wheel's start and the waits alone. */
  lemma OtherConds(l: Lists, waits: map<nat, Wait>, s: Scheduler.State, t: Scheduler.State)
    requires Mirrors(l, waits, s) && t.active == s.active && t.expired == s.expired && t.timer == s.timer
    requires t.start == s.start && t.items == s.items
    ensures Mirrors(l, waits, t)
  {
  }
}
