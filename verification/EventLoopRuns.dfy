/** The event loop on its linked lists: a thread that keeps its waits in intrusive lists goes, event by
    event, through the states of Scheduler. */
module EventLoopRuns {
  import opened Sequences
  import opened IntrusiveList
  import opened TimerWheel
  import opened TimeoutWheel
  import opened EventLoop
  import opened EventLists
  import Scheduler
  import SchedulerSafety
  import SchedulerWheel

  // ----- the mutable parts of a wait

  function PollsOf(w: Wait): set<Poll> {
    if w.PollWait? then {w.poll} else {}
  }

  ghost predicate Flag(w: Wait, it: Scheduler.Item)
    reads ItemOf(w)`bTimeout, PollsOf(w)
  {
    && ItemOf(w).bTimeout == it.timedOut
    && (w.PollWait? ==>
          it.kind.PollItem? && w.poll.iRaiseCnt == it.kind.raiseCnt && w.poll.iAllEventDetach == it.kind.detached)
  }

  // ----- the thread

  class Thread {
    const epoll: Epoll
    var waits: map<nat, Wait>  // the waits that exist
    var regs: map<int, nat>    // what epoll holds
    var next: nat              // number of waits ever begun

    ghost function Links(): set<Link>
      reads epoll.pTimeout`ring
    {
      (set l | l in epoll.pTimeout.ring) + {epoll.active, epoll.timeout}
    }

    ghost function Items(): set<Item>
      reads this`waits
    {
      set id | id in waits :: ItemOf(waits[id])
    }

    ghost function Polls(): set<Poll>
      reads this`waits
    {
      set id | id in waits && waits[id].PollWait? :: waits[id].poll
    }

    ghost function Contents(): Lists
      reads epoll.pTimeout, epoll.active`nodes, epoll.timeout`nodes
    {
      Lists(epoll.pTimeout.View(), epoll.timeout.nodes, epoll.active.nodes)
    }

    /** The mutable parts of each wait are what the state says. */
    ghost predicate Flags(items: map<nat, Scheduler.Item>)
      reads this`waits, Items()`bTimeout, Polls()
    {
      forall id {:trigger waits[id]} :: id in waits ==>
        && id in items
        && (assert ItemOf(waits[id]) in Items() && PollsOf(waits[id]) <= Polls(); Flag(waits[id], items[id]))
    }

    /** The items that are in some list. */
    ghost function Placed(): set<Item>
      reads epoll.pTimeout, epoll.active`nodes, epoll.timeout`nodes
    {
      MemberSet(Contents())
    }

    /** Only waits are in lists, and one that is in none has no links. */
    ghost predicate Sound()
      reads this`waits, epoll.pTimeout, epoll.pTimeout.pItems, epoll.pTimeout.ring, epoll.pTimeout.AllNodes()
      reads epoll.active, epoll.active.nodes, epoll.timeout, epoll.timeout.nodes, Items()
    {
      epoll.Valid() && Placed() <= Items() && forall x :: x in Items() && x !in Placed() ==> x.Detached()
    }

    ghost predicate Shows(s: Scheduler.State)
      reads this, epoll.pTimeout, epoll.pTimeout.pItems, epoll.pTimeout.ring, epoll.pTimeout.AllNodes()
      reads epoll.active, epoll.active.nodes, epoll.timeout, epoll.timeout.nodes, Items(), Polls()
    {
      && Sound() && Mirrors(Contents(), waits, s) && Flags(s.items)
      && regs == s.regs && next == s.next
    }

    constructor (now: nat)
      requires 0 < now
      ensures Shows(Scheduler.Init(now)) && fresh(epoll.pTimeout) && fresh(Links()) && Items() == {} && Polls() == {}
    {
      epoll := new Epoll(now);
      waits, regs, next := map[], map[], 0;
      new;
      hide Mirrors, Epoll.Valid, Empties, Flatten;
      InitMirrors(now);
    }

    lemma WheelMembers()
      requires epoll.pTimeout.Separate()
      ensures forall x :: x in epoll.pTimeout.AllNodes() ==> x in Flatten(epoll.pTimeout.slots)
      ensures forall x :: x in Flatten(epoll.pTimeout.slots) ==> x in epoll.pTimeout.AllNodes()
    {
      var a: seq<seq<Item>>, r: seq<Link> := epoll.pTimeout.slots, epoll.pTimeout.ring;
      forall x | x in epoll.pTimeout.AllNodes() ensures x in Flatten(a) {
        var i :| 0 <= i < |r| && x in r[i].nodes;
        assert r[i].nodes == a[i];
        var k :| 0 <= k < |a[i]| && a[i][k] == x;
        InFlatten(a, i, k);
      }
      forall x | x in Flatten(a) ensures x in epoll.pTimeout.AllNodes() {
        var i := FlattenFrom(a, x);
        assert r[i].nodes == a[i];
      }
    }

    lemma PlacedAre()
      requires epoll.Valid()
      ensures Placed() == Nodes(epoll.active) + Nodes(epoll.timeout) + epoll.pTimeout.AllNodes()
    {
      WheelMembers();
      hide Flatten, Timeout.AllNodes;
    }

    lemma ListPlaced(l: Link?)
      requires epoll.Valid() && (l != null ==> l in Links())
      ensures Nodes(l) <= Placed()
    {
      PlacedAre();
      if l in epoll.pTimeout.ring { assert Nodes(l) <= epoll.pTimeout.AllNodes(); }
    }

    /** An item that is in some list names it. */
    lemma Located(x: Item)
      requires epoll.Valid() && x in Placed()
      ensures x.pLink != null && x in x.pLink.nodes && x.pLink in Links()
    {
      PlacedAre();
      if x in epoll.pTimeout.AllNodes() {
        var i :| 0 <= i < |epoll.pTimeout.ring| && x in epoll.pTimeout.ring[i].nodes;
        assert epoll.pTimeout.ring[i].nodes == epoll.pTimeout.slots[i];
      }
    }

    /** Every wait is in the list it names, or in none. */
    lemma Known(x: Item)
      requires Sound() && x in Items()
      ensures epoll.Knows(x) && (x.pLink != null ==> x.pLink in Links()) && Nodes(x.pLink) <= Placed()
    {
      hide Epoll.Valid, Members;
      if x in Placed() { Located(x); }
      ListPlaced(x.pLink);
    }

    /** RemoveFromLink and AddTail. */
    method MoveToActive(x: Item)
      requires Sound() && x in Items()
      modifies epoll.pTimeout`slots, Links(), Items()`pPrev, Items()`pNext, Items()`pLink
      ensures Sound() && Contents() == Activated(old(Contents()), x)
    {
      Known(x);
      ListPlaced(epoll.active);
      ActivatedSet(Contents(), x);
      hide Members, MemberSet, Epoll.Valid, Sequences.Without, Cancel, Nodes, Timeout.AllNodes;
      epoll.Activate(x);
      assert Contents() == Activated(old(Contents()), x);
      hide Activated;
      assert Placed() == old(Placed()) + {x};
      hide Contents, Placed;
      forall y | y in Items() && y !in Placed() ensures y.Detached() {
        assert old(y.Detached()) && y != x;
      }
    }

    method ActivateWait(id: nat, ghost s: Scheduler.State)
      requires Shows(s) && id in waits
      modifies epoll.pTimeout`slots, Links(), Items()`pPrev, Items()`pNext, Items()`pLink
      ensures Shows(Scheduler.Activate(s, Scheduler.EntryOf(s.items, id)))
    {
      hide Mirrors, Sound, Activated, Contents;
      ActivateMirrors(Contents(), waits, s, id);
      MoveToActive(ItemOf(waits[id]));
    }

    /** OnPollPreparePfn. */
    method RaiseItem(poll: Poll)
      requires Sound() && poll.item in Items()
      modifies poll, epoll.pTimeout`slots, Links(), Items()`pPrev, Items()`pNext, Items()`pLink
      ensures Sound() && poll.iRaiseCnt == old(poll.iRaiseCnt) + 1 && poll.iAllEventDetach
      ensures Contents() == if old(poll.iAllEventDetach) then old(Contents()) else Activated(old(Contents()), poll.item)
    {
      var x := poll.item;
      Known(x);
      ListPlaced(epoll.active);
      ActivatedSet(Contents(), x);
      hide Members, MemberSet, Epoll.Valid, Sequences.Without, Cancel, Nodes, Timeout.AllNodes;
      ghost var before, moved := Placed(), !poll.iAllEventDetach;
      epoll.OnPollPreparePfn(poll);
      assert Contents() == if moved then Activated(old(Contents()), x) else old(Contents());
      hide Activated;
      assert Placed() == if moved then before + {x} else before;
      hide Contents, Placed;
      forall y | y in Items() && y !in Placed() ensures y.Detached() {
        assert old(y.Detached());
      }
    }

    twostate lemma OthersFlagged(id: nat)
      requires waits == old(waits) && id in waits && waits[id].PollWait?
      requires forall j :: j in waits && waits[j].PollWait? && j != id ==> waits[j].poll != waits[id].poll
      requires forall x :: x in Items() ==> x.bTimeout == old(x.bTimeout)
      requires forall p :: p in Polls() && p != waits[id].poll ==>
                 p.iRaiseCnt == old(p.iRaiseCnt) && p.iAllEventDetach == old(p.iAllEventDetach)
      ensures forall j, it {:trigger Flag(waits[j], it)} :: j in waits && j != id && old(Flag(waits[j], it)) ==> Flag(waits[j], it)
    {
      forall j, it | j in waits && j != id && old(Flag(waits[j], it)) ensures Flag(waits[j], it) {
        assert ItemOf(waits[j]) in Items();
        assert waits[j].PollWait? ==> waits[j].poll in Polls();
      }
    }

    /** Raising a poll changes nothing that is said of the other waits. */
    method RaiseOne(id: nat)
      requires Sound() && id in waits && waits[id].PollWait?
      requires forall j :: j in waits && waits[j].PollWait? && j != id ==> waits[j].poll != waits[id].poll
      modifies waits[id].poll, epoll.pTimeout`slots, Links(), Items()`pPrev, Items()`pNext, Items()`pLink
      ensures Sound() && waits[id].poll.iRaiseCnt == old(waits[id].poll.iRaiseCnt) + 1 && waits[id].poll.iAllEventDetach
      ensures Contents() == if old(waits[id].poll.iAllEventDetach) then old(Contents()) else Activated(old(Contents()), ItemOf(waits[id]))
      ensures ItemOf(waits[id]).bTimeout == old(ItemOf(waits[id]).bTimeout)
      ensures forall j, it {:trigger Flag(waits[j], it)} :: j in waits && j != id && old(Flag(waits[j], it)) ==> Flag(waits[j], it)
    {
      hide Sound, Activated, Contents, Flag;
      RaiseItem(waits[id].poll);
      OthersFlagged(id);
    }

    method RaiseWait(id: nat, ghost s: Scheduler.State)
      requires Sound() && Flags(s.items) && id in waits && waits[id].PollWait? && s.items[id].kind.PollItem?
      requires forall j :: j in waits && waits[j].PollWait? && j != id ==> waits[j].poll != waits[id].poll
      modifies Polls(), epoll.pTimeout`slots, Links(), Items()`pPrev, Items()`pNext, Items()`pLink
      ensures Sound() && Flags(Scheduler.Raised(s, id).items)
      ensures Contents() == if s.items[id].kind.detached then old(Contents()) else Activated(old(Contents()), ItemOf(waits[id]))
    {
      hide Sound, Activated, Contents;
      assert Flag(waits[id], s.items[id]);
      RaiseOne(id);
      assert Flag(waits[id], Scheduler.Raised(s, id).items[id]);
    }

    /** What the loop over the events does with one of them. */
    method PreparePoll(fd: int, ghost s: Scheduler.State)
      requires Shows(s) && fd in regs && regs[fd] in waits && waits[regs[fd]].PollWait?
      modifies Polls(), epoll.pTimeout`slots, Links(), Items()`pPrev, Items()`pNext, Items()`pLink
      ensures Shows(Scheduler.PrepareOne(s, fd))
    {
      PreparedMirrors(Contents(), waits, s, fd);
      hide Mirrors, Sound, Activated, Contents, Flags, Scheduler.PrepareOne, Scheduler.Raised;
      RaiseWait(regs[fd], s);
    }

    /** The loop over the events of one co_epoll_wait. */
    method Prepare(batch: seq<int>, ghost s: Scheduler.State)
      requires Shows(s) && forall fd :: fd in batch ==> fd in regs && regs[fd] in waits && waits[regs[fd]].PollWait?
      modifies Polls(), epoll.pTimeout`slots, Links(), Items()`pPrev, Items()`pNext, Items()`pLink
      ensures Shows(Scheduler.PrepareAll(s, batch))
    {
      ghost var t := s;
      hide Shows;
      for i := 0 to |batch|
        invariant Shows(t) && Scheduler.PrepareAll(t, batch[i..]) == Scheduler.PrepareAll(s, batch)
      {
        assert batch[i..][0] == batch[i] && batch[i..][1..] == batch[i + 1..];
        PreparePoll(batch[i], t);
        t := Scheduler.PrepareOne(t, batch[i]);
      }
    }

    /** TakeAllTimeout into the timeout list. */
    method CollectExpired(now: nat)
      requires Sound() && Contents().timeout == [] && 0 < Contents().wheel.start <= now && |Contents().wheel.slots| > 0
      requires TakeCount(Contents().wheel.start, |Contents().wheel.slots|, now) > 0
      modifies epoll.pTimeout, Links(), Items()`pPrev, Items()`pNext, Items()`pLink
      ensures Sound() && Contents() == Swept(old(Contents()), now) && Links() == old(Links())
    {
      assert |epoll.pTimeout.slots| == epoll.pTimeout.pItems.Length;
      hide Members, MemberSet, Epoll.Valid, Take, TakeCount, Flatten;
      SweptSet(Contents(), now);
      PlacedAre();
      epoll.Collect(now);
      assert Contents() == Swept(old(Contents()), now);
      hide Swept;
      assert Placed() == old(Placed());
      hide Contents, Placed;
      forall y | y in Items() && y !in Placed() ensures y.Detached() { assert old(y.Detached()); }
    }

    method MarkExpired()
      requires Sound()
      modifies Items()`bTimeout
      ensures Sound() && Contents() == old(Contents())
      ensures forall x :: x in Items() ==> x.bTimeout == (old(x.bTimeout) || x in epoll.timeout.nodes)
    {
      ListPlaced(epoll.timeout);
      hide Members, MemberSet, Epoll.Valid;
      epoll.Mark();
    }

    method MergeExpired()
      requires Sound()
      modifies Links(), Items()`pPrev, Items()`pNext, Items()`pLink
      ensures Sound() && Contents() == Joined(old(Contents()))
    {
      JoinedSet(Contents());
      ListPlaced(epoll.active);
      ListPlaced(epoll.timeout);
      hide Members, MemberSet, Epoll.Valid;
      epoll.Merge();
      assert Contents() == Joined(old(Contents()));
      hide Joined;
      assert Placed() == old(Placed());
      hide Contents, Placed;
      forall y | y in Items() && y !in Placed() ensures y.Detached() { assert old(y.Detached()); }
    }

    /** The marking loop marks the waits that the state marks. */
    method MarkWaits(ghost items: map<nat, Scheduler.Item>, ghost t: Scheduler.State)
      requires Sound() && Flags(items) && Mirrors(Contents(), waits, t)
      requires t.items == Scheduler.MarkExpired(items, t.expired)
      modifies Items()`bTimeout
      ensures Sound() && Contents() == old(Contents()) && Flags(t.items)
    {
      hide Mirrors, Sound, Flags;
      AllMarkedAlike(Contents(), waits, t);
      MarkExpired();
      hide Contents;
      MarkedFlags(items, t.expired);
    }

    twostate lemma MarkedFlags(items: map<nat, Scheduler.Item>, new expired: seq<Entry>)
      requires old(Flags(items)) && waits == old(waits) && waits.Keys == items.Keys
      requires forall id {:trigger waits[id]} :: id in waits ==>
                 (ItemOf(waits[id]).bTimeout <==> old(ItemOf(waits[id]).bTimeout) || Scheduler.EntryOf(items, id) in expired)
      requires forall p :: p in Polls() ==> p.iRaiseCnt == old(p.iRaiseCnt) && p.iAllEventDetach == old(p.iAllEventDetach)
      ensures Flags(Scheduler.MarkExpired(items, expired))
    {
      var t := Scheduler.MarkExpired(items, expired);
      forall id | id in waits ensures Flag(waits[id], t[id]) {
        assert old(Flag(waits[id], items[id]));
        assert waits[id].PollWait? ==> waits[id].poll in Polls();
      }
    }

    /** From reading the clock to marking what has expired. */
    method SweepWheel(now: nat, ghost s: Scheduler.State)
      requires SchedulerSafety.Inv(s) && Shows(s) && Scheduler.Can(s, Scheduler.SweepWheel(now))
      modifies epoll.pTimeout, Links(), Items()`pPrev, Items()`pNext, Items()`pLink, Items()`bTimeout
      ensures Shows(Scheduler.DoSweep(s, now)) && Links() == old(Links())
    {
      hide SchedulerSafety.Inv, Scheduler.Can, Mirrors, Sound, Swept, Contents, TakeCount, Flags, Flag;
      ghost var t := Scheduler.DoSweep(s, now);
      SweptMirrors(Contents(), waits, s, now);
      SweptState(Contents(), s, now);
      hide Scheduler.DoSweep;
      CollectExpired(now);
      KeptFlags(s.items);
      MarkWaits(s.items, t);
    }

    lemma SweptState(l: Lists, s: Scheduler.State, now: nat)
      requires Mirrors(l, waits, s) && Scheduler.Can(s, Scheduler.SweepWheel(now))
      ensures |l.wheel.slots| > 0
      ensures var t := Scheduler.DoSweep(s, now);
        t.items == Scheduler.MarkExpired(s.items, t.expired) && t.conds == s.conds && t.regs == s.regs && t.next == s.next
    {
      LinedSizes(l, s);
      hide Lined, Scheduler.Can;
    }

    /** What is said of the waits depends on their mutable parts alone. */
    twostate lemma KeptFlags(items: map<nat, Scheduler.Item>)
      requires old(Flags(items)) && waits == old(waits)
      requires forall x :: x in Items() ==> x.bTimeout == old(x.bTimeout)
      requires forall p :: p in Polls() ==> p.iRaiseCnt == old(p.iRaiseCnt) && p.iAllEventDetach == old(p.iAllEventDetach)
      ensures Flags(items)
    {
      forall id | id in waits ensures Flag(waits[id], items[id]) {
        assert old(Flag(waits[id], items[id])) && ItemOf(waits[id]) in Items();
        assert waits[id].PollWait? ==> waits[id].poll in Polls();
      }
    }

    method JoinExpiredList(ghost s: Scheduler.State)
      requires Shows(s)
      modifies Links(), Items()`pPrev, Items()`pNext, Items()`pLink
      ensures Shows(JoinExpired(s))
    {
      hide Mirrors, Sound, Joined, Contents, Flags, Flag;
      JoinedMirrors(Contents(), waits, s);
      MergeExpired();
      KeptFlags(s.items);
    }

    /** A detached item is in no list. */
    lemma NotMember(x: Item)
      requires epoll.Valid() && x.Detached()
      ensures x !in Members(Contents())
    {
      hide Members, Epoll.Valid;
      if x in Members(Contents()) {
        assert x in Placed();
        Located(x);
      }
    }

    /** PopHead of the active list. */
    method PopActive() returns (x: Item)
      requires Sound() && Contents().active != []
      modifies epoll.active, Items()`pPrev, Items()`pNext, Items()`pLink
      ensures Sound() && x == old(Contents().active[0]) && x.Detached() && Contents() == Popped(old(Contents()))
      ensures x !in Members(Contents()) && x in Items()
    {
      PoppedSet(Contents());
      ListPlaced(epoll.active);
      hide Members, MemberSet, Epoll.Valid;
      var lp := epoll.PopActive();
      x := lp;
      assert Contents() == Popped(old(Contents()));
      NotMember(x);
      hide Popped;
      assert Placed() <= old(Placed()) <= Placed() + {x};
      hide Contents, Placed;
      forall y | y in Items() && y !in Placed() ensures y.Detached() { assert y == x || old(y.Detached()); }
    }

    /** The memory of a wait is given back. */
    method Forget(id: nat, ghost items: map<nat, Scheduler.Item>)
      requires Sound() && Flags(items) && id in waits && ItemOf(waits[id]) !in Placed()
      modifies this`waits
      ensures waits == old(waits) - {id} && Sound() && Contents() == old(Contents()) && Flags(items - {id})
    {
      hide MemberSet;
      ghost var was := waits;
      waits := waits - {id};
      assert epoll.Valid();
      hide Epoll.Valid;
      forall y | y in Placed() ensures y in Items() {
        var j :| j in was && ItemOf(was[j]) == y;
        assert j in waits;
      }
      forall y | y in Items() && y !in Placed() ensures y.Detached() {
        var j :| j in waits && ItemOf(waits[j]) == y;
        assert j in was && old(y in Items() && y !in Placed());
      }
      forall j | j in waits ensures Flag(waits[j], items[j]) { assert old(Flag(waits[j], items[j])); }
    }

    /** PopHead of the active list, and what the coroutine does when it is resumed: the rest of
        co_poll_inner or of co_cond_timedwait. The item is in no list then, and RemoveFromLink
        leaves it alone. */
    method ServeHead(ghost s: Scheduler.State) returns (id: nat, w: Wait, r: Scheduler.Result)
      requires Shows(s) && s.active != [] && s.active[0].id in s.items
      modifies this`waits, this`regs, this`next, epoll.active, Items()`pPrev, Items()`pNext, Items()`pLink
      ensures Shows(Serve(s)) && r == Serve(s).results[s.active[0].id]
      ensures id == s.active[0].id && Agrees(id, w, s.items[id])
      ensures waits == old(waits) - {id}
    {
      hide Mirrors, Sound, Flags, Flag, Contents, Popped;
      HeadAgrees(Contents(), waits, s);
      var x := PopActive();
      PoppedMirrors(old(Contents()), waits, s);
      KeptFlags(s.items);
      id, w := x.id, waits[x.id];
      r := Finish(id, s.items);
      Forget(id, s.items);
    }

    /** The registrations and numbers concern no list. */
    method Set(regs': map<int, nat>, next': nat, ghost items: map<nat, Scheduler.Item>)
      requires Sound() && Flags(items)
      modifies this`regs, this`next
      ensures Sound() && Flags(items) && Contents() == old(Contents()) && regs == regs' && next == next'
    {
      regs, next := regs', next';
    }

    /** What is left of a wait in epoll is removed. */
    method Finish(id: nat, ghost items: map<nat, Scheduler.Item>) returns (r: Scheduler.Result)
      requires Sound() && Flags(items) && id in waits && Agrees(id, waits[id], items[id])
      modifies this`regs, this`next
      ensures Sound() && Flags(items) && Contents() == old(Contents()) && next == old(next)
      ensures r == Scheduler.ResultOf(items[id]) && regs == Scheduler.RegsAfter(old(regs), items[id].kind)
    {
      hide Sound, Contents;
      assert Flag(waits[id], items[id]);
      hide Flags;
      match waits[id] {
        case PollWait(poll) =>
          r := Scheduler.Result(poll.iRaiseCnt, poll.item.bTimeout);
          Set(regs - (set fd | fd in poll.fds), next, items);
        case CondWait(q, timeout) =>
          r := Scheduler.Result(0, timeout.bTimeout);
      }
    }

    /** All the nodes of the lists are items of waits. */
    lemma InItems(s: Scheduler.State)
      requires Shows(s)
      ensures Nodes(epoll.active) + Nodes(epoll.timeout) + epoll.pTimeout.AllNodes() <= Items()
    {
      PlacedAre();
    }

    lemma ShownWaits(s: Scheduler.State)
      requires Shows(s)
      ensures waits.Keys == s.items.Keys && regs == s.regs && next == s.next
    {
    }

    /** The index of an insertion is in the array: distances are not negative. */
    lemma AdmissionInArray(expire: nat, now: nat)
      requires epoll.Valid() && epoll.pTimeout.ullStart > 0 && expire < epoll.pTimeout.ullStart + HALF
      ensures epoll.pTimeout.InArray(expire, now)
    {
    }

    /** AddTimeout. */
    method AddTimeout(x: Item, now: nat) returns (ret: int)
      requires epoll.Valid() && x.Detached() && 0 < now
      requires Contents().wheel.start > 0 && |Contents().wheel.slots| > 0 && x.expireTime < Contents().wheel.start + HALF
      modifies epoll.pTimeout, Links(), Placed()`pNext, x`pPrev, x`pNext, x`pLink
      ensures epoll.Valid() && Links() == old(Links()) && (ret != 0 ==> x.Detached())
      ensures ret == Add(old(Contents()).wheel, x, x.expireTime, now).0
      ensures Contents() == if ret == 0 then Scheduled(old(Contents()), x, now) else old(Contents())
    {
      PlacedAre();
      AdmissionInArray(x.expireTime, now);
      hide Epoll.Valid, Members, MemberSet, Timeout.AllNodes, Nodes, Timeout.InArray;
      ret := epoll.Schedule(x, now);
    }

    /** AddTimeout for a new wait, which begins if it is accepted. */
    method Admit(w: Wait, now: nat, ghost items: map<nat, Scheduler.Item>, ghost it: Scheduler.Item) returns (ret: int)
      requires Sound() && Flags(items) && ItemOf(w).id !in waits && ItemOf(w) !in Items() && ItemOf(w).Detached() && Flag(w, it)
      requires Contents().wheel.start > 0 && |Contents().wheel.slots| > 0
      requires 0 < now && ItemOf(w).expireTime < Contents().wheel.start + HALF
      modifies this`waits, epoll.pTimeout, Links(), Items()`pPrev, Items()`pNext, Items()`pLink
      modifies ItemOf(w)`pPrev, ItemOf(w)`pNext, ItemOf(w)`pLink
      ensures Sound() && Links() == old(Links())
      ensures ret == Add(old(Contents()).wheel, ItemOf(w), ItemOf(w).expireTime, now).0
      ensures if ret == 0 then
                waits == old(waits)[ItemOf(w).id := w] && Contents() == Scheduled(old(Contents()), ItemOf(w), now)
                && Flags(items[ItemOf(w).id := it])
              else waits == old(waits) && Contents() == old(Contents()) && Flags(items)
    {
      var x := ItemOf(w);
      ghost var l := Contents();
      hide Members, MemberSet, Epoll.Valid, Scheduled, Add, Flags;
      ret := AddTimeout(x, now);
      assert Flag(w, it);
      hide Flag;
      assert forall y :: y in Items() && y !in old(Placed()) ==> old(y.Detached()) && y.Detached();
      KeptFlags(items);
      if ret == 0 {
        ScheduledSet(l, x, now);
        assert Placed() == old(Placed()) + {x};
        hide Contents, Placed;
        Begin(w, items, it);
      }
    }

    /** A wait begins. */
    method Begin(w: Wait, ghost items: map<nat, Scheduler.Item>, ghost it: Scheduler.Item)
      requires epoll.Valid() && Placed() <= Items() + {ItemOf(w)} && (ItemOf(w) in Placed() || ItemOf(w).Detached())
      requires forall y :: y in Items() && y !in Placed() ==> y.Detached()
      requires Flags(items) && Flag(w, it) && ItemOf(w).id !in waits
      modifies this`waits
      ensures Sound() && Flags(items[ItemOf(w).id := it])
      ensures waits == old(waits)[ItemOf(w).id := w] && Contents() == old(Contents())
    {
      hide MemberSet;
      ghost var was := waits;
      var x := ItemOf(w);
      waits := waits[x.id := w];
      assert epoll.Valid();
      hide Epoll.Valid;
      assert ItemOf(waits[x.id]) == x;
      forall y | y in Placed() ensures y in Items() {
        if y != x {
          var j :| j in was && ItemOf(was[j]) == y;
          assert waits[j] == was[j];
        }
      }
      forall y | y in Items() && y !in Placed() ensures y.Detached() {
        if y != x {
          var j :| j in waits && ItemOf(waits[j]) == y;
          assert j in was && waits[j] == was[j];
        }
      }
      forall j | j in was ensures Flag(waits[j], items[j]) { assert old(Flag(waits[j], items[j])); }
    }

    /** A new stTimeoutItem_t. */
    method NewItem(expire: nat, id: nat, ghost items: map<nat, Scheduler.Item>) returns (x: Item)
      requires Sound() && Flags(items)
      ensures Sound() && Flags(items) && Contents() == old(Contents())
      ensures fresh(x) && x.Detached() && !x.bTimeout && x.expireTime == expire && x.id == id
    {
      x := new Item(expire, id);
    }

    /** A new stPoll_t. */
    method NewPoll(expire: nat, id: nat, fds: seq<int>, ghost items: map<nat, Scheduler.Item>) returns (poll: Poll)
      requires Sound() && Flags(items)
      ensures Sound() && Flags(items) && Contents() == old(Contents())
      ensures fresh(poll) && fresh(poll.item) && poll.item.Detached() && !poll.item.bTimeout
      ensures poll.item.expireTime == expire && poll.item.id == id
      ensures poll.fds == fds && poll.iRaiseCnt == 0 && !poll.iAllEventDetach
    {
      hide Sound, Flags, Contents;
      var x := NewItem(expire, id, items);
      poll := WrapPoll(x, fds, items);
    }

    method WrapPoll(x: Item, fds: seq<int>, ghost items: map<nat, Scheduler.Item>) returns (poll: Poll)
      requires Sound() && Flags(items)
      ensures Sound() && Flags(items) && Contents() == old(Contents())
      ensures fresh(poll) && poll.item == x && poll.fds == fds && poll.iRaiseCnt == 0 && !poll.iAllEventDetach
    {
      poll := new Poll(x, fds);
    }

    /** co_poll_inner up to its yield, or up to its refusal. */
    method CoPoll(fds: seq<int>, timeout: int, now: nat, failing: set<int>, ghost s: Scheduler.State) returns (ret: int, ghost poll: Poll)
      requires SchedulerSafety.Inv(s) && Shows(s) && MayPoll(s, fds, timeout, now, failing)
      modifies this`waits, this`regs, this`next, epoll.pTimeout, Links()
      modifies Items()`pPrev, Items()`pNext, Items()`pLink
      ensures ret == 0 <==> Scheduler.Can(s, Scheduler.Poll(fds, timeout, now, failing))
      ensures poll.fds == fds && poll.item.expireTime == Scheduler.PollExpire(timeout, now)
      ensures s.stack != [] && Shows(Polled(s, poll, now, failing, ret))
      ensures Links() == old(Links()) && fresh(Items() - old(Items())) && fresh(Polls() - old(Polls()))
    {
      hide SchedulerSafety.Inv, Scheduler.Can, MayPoll, Mirrors, Sound, Flags, Contents, Polled, Scheduler.Register, Scheduled, Add;
      PollTimes(s, fds, timeout, now, failing);
      var t := if timeout > MAX_TIMEOUT then MAX_TIMEOUT else timeout;
      var p := NewPoll(now + t, next, fds, s.items);
      poll := p;
      PollOutcome(Contents(), waits, s, p, timeout, now, failing);
      Set(Scheduler.Register(regs, fds, next, failing), next + 1, s.items);
      ret := Admit(PollWait(p), now, s.items, PollWaitOf(s, p));
    }

    /** AddTimeout for a new wait, which is numbered if that accepts it. */
    method AdmitAndNumber(w: Wait, now: nat, ghost items: map<nat, Scheduler.Item>, ghost it: Scheduler.Item) returns (ret: int)
      requires Sound() && Flags(items) && ItemOf(w).id !in waits && ItemOf(w) !in Items() && ItemOf(w).Detached() && Flag(w, it)
      requires Contents().wheel.start > 0 && |Contents().wheel.slots| > 0
      requires 0 < now && ItemOf(w).expireTime < Contents().wheel.start + HALF
      modifies this`waits, this`regs, this`next, epoll.pTimeout, Links(), Items()`pPrev, Items()`pNext, Items()`pLink
      modifies ItemOf(w)`pPrev, ItemOf(w)`pNext, ItemOf(w)`pLink
      ensures Sound() && Links() == old(Links()) && regs == old(regs)
      ensures ret == Add(old(Contents()).wheel, ItemOf(w), ItemOf(w).expireTime, now).0
      ensures if ret == 0 then
                waits == old(waits)[ItemOf(w).id := w] && Contents() == Scheduled(old(Contents()), ItemOf(w), now)
                && Flags(items[ItemOf(w).id := it]) && next == old(next) + 1
              else
                waits == old(waits) && Contents() == old(Contents()) && Flags(items) && next == old(next)
    {
      hide Sound, Flags, Flag, Contents, Scheduled, Add;
      ret := Admit(w, now, items, it);
      if ret == 0 { Set(regs, next + 1, items[ItemOf(w).id := it]); }
    }

    /** co_cond_timedwait with a deadline, up to AddTail; if the deadline is refused the call ends. */
    method WaitUntil(q: nat, ms: int, now: nat, ghost s: Scheduler.State) returns (ret: int)
      requires SchedulerSafety.Inv(s) && Shows(s) && Scheduler.Can(s, Scheduler.CondWait(q, ms, now)) && ms > 0
      requires !SchedulerWheel.FarWait(s, Scheduler.CondWait(q, ms, now))
      modifies this`waits, this`regs, this`next, epoll.pTimeout, Links()
      modifies Items()`pPrev, Items()`pNext, Items()`pLink
      ensures s.stack != [] && Shows(TimedWait(s, q, ms, now))
      ensures TimedWait(s, q, ms, now) == if ret == 0 then Scheduler.DoCondWait(s, q, ms, now) else s.(clock := now)
      ensures Links() == old(Links()) && fresh(Items() - old(Items())) && fresh(Polls() - old(Polls()))
    {
      hide SchedulerSafety.Inv, Scheduler.Can, Mirrors, Sound, Flags, Contents, Scheduler.DoCondWait, TimedWait, Scheduled, Add;
      WaitTimes(s, q, ms, now);
      WaitParts(s, q, ms, now);
      assert now + ms < s.start + HALF;
      hide SchedulerWheel.FarWait;
      var x := NewItem(now + ms, next, s.items);
      var w := CondWait(q, x);
      TimedWaitOutcome(Contents(), waits, s, w, ms, now);
      ret := AdmitAndNumber(w, now, s.items, CondWaitOf(s, q, now + ms));
    }

    /** And without. */
    method WaitForSignal(q: nat, ms: int, now: nat, ghost s: Scheduler.State)
      requires SchedulerSafety.Inv(s) && Shows(s) && s.stack != [] && ms <= 0
      modifies this`waits, this`regs, this`next
      ensures Shows(Scheduler.DoCondWait(s, q, ms, now))
      ensures Links() == old(Links()) && fresh(Items() - old(Items())) && fresh(Polls() - old(Polls()))
    {
      hide SchedulerSafety.Inv, Mirrors, Sound, Flags, Contents, Scheduler.DoCondWait;
      WaitParts(s, q, ms, now);
      var x := NewItem(0, next, s.items);
      var w := CondWait(q, x);
      UntimedWaitMirrors(Contents(), waits, s, w, ms, now);
      BeginUntimed(w, s.items, CondWaitOf(s, q, 0));
      Set(regs, next + 1, s.items[s.next := CondWaitOf(s, q, 0)]);
    }

    /** co_cond_timedwait up to AddTail; what it returns is 0 if the wait begins. */
    method CondTimedWait(q: nat, ms: int, now: nat, ghost s: Scheduler.State) returns (ret: int)
      requires SchedulerSafety.Inv(s) && Shows(s) && Scheduler.Can(s, Scheduler.CondWait(q, ms, now))
      requires !SchedulerWheel.FarWait(s, Scheduler.CondWait(q, ms, now))
      modifies this`waits, this`regs, this`next, epoll.pTimeout, Links()
      modifies Items()`pPrev, Items()`pNext, Items()`pLink
      ensures s.stack != [] && Shows(Scheduler.Do(s, Scheduler.CondWait(q, ms, now)))
      ensures Scheduler.Do(s, Scheduler.CondWait(q, ms, now)) == if ret == 0 then Scheduler.DoCondWait(s, q, ms, now) else s.(clock := now)
      ensures Links() == old(Links()) && fresh(Items() - old(Items())) && fresh(Polls() - old(Polls()))
    {
      hide SchedulerSafety.Inv, Shows, Scheduler.Can, Scheduler.Do, Scheduler.DoCondWait, SchedulerWheel.FarWait;
      WaitTimes(s, q, ms, now);
      ret := 0;
      if ms > 0 { ret := WaitUntil(q, ms, now, s); } else { WaitForSignal(q, ms, now, s); }
    }

    method BeginUntimed(w: Wait, ghost items: map<nat, Scheduler.Item>, ghost it: Scheduler.Item)
      requires Sound() && Flags(items) && Flag(w, it) && ItemOf(w).id !in waits && ItemOf(w).Detached()
      modifies this`waits
      ensures Sound() && Flags(items[ItemOf(w).id := it])
      ensures waits == old(waits)[ItemOf(w).id := w] && Contents() == old(Contents())
    {
      hide MemberSet, Epoll.Valid, Flags, Flag, Contents;
      Begin(w, items, it);
    }

    // ----- every event

    lemma StillShows(s: Scheduler.State, t: Scheduler.State)
      requires Shows(s) && t.active == s.active && t.expired == s.expired && t.timer == s.timer && t.start == s.start
      requires t.items == s.items && t.regs == s.regs && t.next == s.next
      ensures Shows(t)
    {
      OtherConds(Contents(), waits, s, t);
      hide Mirrors, Sound, Flags, Contents;
    }

    /** What epoll reports are polls that are waiting. */
    lemma ReportedPolls(s: Scheduler.State, batch: seq<int>)
      requires SchedulerSafety.Inv(s) && Shows(s) && Scheduler.Can(s, Scheduler.EpollWait(batch))
      ensures forall fd :: fd in batch ==> fd in regs && regs[fd] in waits && waits[regs[fd]].PollWait?
    {
      forall fd | fd in batch ensures fd in regs && regs[fd] in waits && waits[regs[fd]].PollWait? {
        assert fd in s.regs && s.regs[fd] in s.items && s.items[s.regs[fd]].kind.PollItem?;
        assert Agrees(s.regs[fd], waits[s.regs[fd]], s.items[s.regs[fd]]);
      }
    }

    /** co_epoll_wait returns, and its events are handled. */
    method EpollWait(batch: seq<int>, ghost s: Scheduler.State)
      requires SchedulerSafety.Inv(s) && Shows(s) && Scheduler.Can(s, Scheduler.EpollWait(batch))
      modifies Polls(), epoll.pTimeout`slots, Links(), Items()`pPrev, Items()`pNext, Items()`pLink
      ensures Shows(Scheduler.PrepareAll(s.(phase := Scheduler.Batched, hits := multiset{}), batch))
    {
      hide SchedulerSafety.Inv, Scheduler.Can, Shows, Scheduler.PrepareAll;
      ReportedPolls(s, batch);
      StillShows(s, s.(phase := Scheduler.Batched, hits := multiset{}));
      Prepare(batch, s.(phase := Scheduler.Batched, hits := multiset{}));
    }

    /** A call of co_poll_inner, which is accepted or refused as the event says. */
    method PollEvent(e: Scheduler.Event, ghost s: Scheduler.State)
      requires SchedulerSafety.Inv(s) && Shows(s) && Scheduler.Can(s, e) && (e.Poll? || e.PollRefused?)
      modifies this`waits, this`regs, this`next, epoll.pTimeout, Links()
      modifies Items()`pPrev, Items()`pNext, Items()`pLink
      ensures Shows(Scheduler.Do(s, e))
      ensures Links() == old(Links()) && fresh(Items() - old(Items())) && fresh(Polls() - old(Polls()))
    {
      hide SchedulerSafety.Inv, Shows, Scheduler.DoPoll, Scheduler.DoPollRefused;
      PollTimes(s, e.fds, e.timeout, e.now, e.failing);
      ghost var t := Scheduler.Do(s, e);
      assert t == if e.Poll? then Scheduler.DoPoll(s, e.fds, Scheduler.PollExpire(e.timeout, e.now), e.now, e.failing)
                  else Scheduler.DoPollRefused(s, e.fds, e.now, e.failing);
      hide Scheduler.Can, Scheduler.Do;
      var ret, poll := CoPoll(e.fds, e.timeout, e.now, e.failing, s);
    }

    lemma LoopStates(s: Scheduler.State, e: Scheduler.Event)
      requires Scheduler.Can(s, e)
      ensures e.EpollWait? ==> Scheduler.Do(s, e) == Scheduler.PrepareAll(s.(phase := Scheduler.Batched, hits := multiset{}), e.batch)
      ensures e.SweepWheel? ==> Scheduler.Do(s, e) == Scheduler.DoSweep(s, e.now)
      ensures e.JoinExpired? ==> Scheduler.Do(s, e) == JoinExpired(s)
      ensures e.Dispatch? ==> s.active != [] && s.active[0].id in s.items && Scheduler.Do(s, e) == Serve(s)
      ensures e.Signal? ==> Scheduler.Do(s, e) == Scheduler.SignalOne(s, e.cond)
      ensures e.Broadcast? ==> Scheduler.Do(s, e) == Scheduler.SignalAll(s, e.cond, |Scheduler.Waiters(s.conds, e.cond)|)
    {
      hide Scheduler.PrepareAll, Scheduler.DoSweep, Scheduler.Wake, Scheduler.SignalOne, Scheduler.SignalAll;
    }

    /** What an event that concerns no condition does to the lists. */
    method Step(e: Scheduler.Event, ghost s: Scheduler.State)
      requires SchedulerSafety.Inv(s) && Shows(s) && Scheduler.Can(s, e)
      requires !e.CondWait? && !e.Signal? && !e.Broadcast? && !e.Dispatch?
      modifies this, epoll.pTimeout, Links(), Items(), Polls()
      ensures Shows(Scheduler.Do(s, e)) && Links() == old(Links())
      ensures fresh(Items() - old(Items())) && fresh(Polls() - old(Polls()))
    {
      hide SchedulerSafety.Inv, Shows, Scheduler.Can, Scheduler.Do, Scheduler.PrepareAll, Scheduler.DoSweep, JoinExpired, Serve;
      LoopStates(s, e);
      if e.EpollWait? {
        EpollWait(e.batch, s);
      } else if e.SweepWheel? {
        SweepWheel(e.now, s);
      } else if e.JoinExpired? {
        JoinExpiredList(s);
      } else if e.Poll? || e.PollRefused? {
        PollEvent(e, s);
      } else {
        SameLists(s, e);
        StillShows(s, Scheduler.Do(s, e));
      }
    }

    /** Some events concern the call stack alone. */
    lemma SameLists(s: Scheduler.State, e: Scheduler.Event)
      requires Scheduler.Can(s, e)
      requires e.Create? || e.Resume? || e.Yield? || e.Finish? || e.EnterLoop? || e.EndRound?
      ensures var t := Scheduler.Do(s, e);
        && t.active == s.active && t.expired == s.expired && t.timer == s.timer && t.start == s.start
        && t.items == s.items && t.conds == s.conds && t.regs == s.regs && t.next == s.next
    {
    }
  }
}
