/** One round of co_eventloop on the lists themselves: the wheel's slots, the timeout list and the
    active list, all of them intrusive, with every item in at most one. What the round does to the
    lists is what Scheduler's `Activate`, `DoSweep` and `JoinExpired` say. */
module EventLoop {
  import opened Sequences
  import opened IntrusiveList
  import opened TimerWheel
  import opened TimeoutWheel

  /** stPoll_t, beyond the stTimeoutItem_t it begins with. */
  class Poll {
    const item: Item
    const fds: seq<int>
    var iRaiseCnt: nat
    var iAllEventDetach: bool

    constructor (item: Item, fds: seq<int>)
      ensures this.item == item && this.fds == fds && iRaiseCnt == 0 && !iAllEventDetach
    {
      this.item, this.fds, iRaiseCnt, iAllEventDetach := item, fds, 0, false;
    }
  }

  /** stCoEpoll_t */
  class Epoll {
    const pTimeout: Timeout
    const active: Link
    const timeout: Link

    /** Every list of the thread is well formed, and no two of them share an item. */
    ghost predicate Valid()
      reads pTimeout, pTimeout.pItems, pTimeout.ring, pTimeout.AllNodes(), active, active.nodes, timeout, timeout.nodes
    {
      && pTimeout.Valid() && active.Valid() && timeout.Valid()
      && active !in pTimeout.ring && timeout !in pTimeout.ring && active != timeout
    }

    /** An item is in the list it names, if it names one, and that is a list of this thread. */
    ghost predicate Knows(x: Item)
      reads x, x.pLink, pTimeout
    {
      if x.pLink == null then x.Detached()
      else x in x.pLink.nodes && (x.pLink in pTimeout.ring || x.pLink == active || x.pLink == timeout)
    }

    constructor (now: nat)
      ensures Valid() && fresh(pTimeout) && fresh(pTimeout.ring) && fresh(active) && fresh(timeout)
      ensures active.nodes == [] && timeout.nodes == [] && pTimeout.View() == Wheel(now, Empties(WHEEL_SIZE))
    {
      pTimeout := new Timeout(WHEEL_SIZE, now);
      active := new Link();
      timeout := new Link();
    }

    lemma WheelApart(l: Link)
      requires pTimeout.Separate() && l.Valid() && l !in pTimeout.ring
      ensures Nodes(l) !! pTimeout.AllNodes()
    {
      forall i | 0 <= i < |pTimeout.ring| ensures Nodes(l) !! Nodes(pTimeout.ring[i]) {
        assert pTimeout.ring[i].nodes == pTimeout.slots[i];
        Apart(l, pTimeout.ring[i]);
      }
    }

    /** AddTimeout to the wheel of the thread. */
    method Schedule(x: Item, now: nat) returns (ret: int)
      requires Valid() && x.Detached() && 0 < now && pTimeout.InArray(x.expireTime, now)
      modifies pTimeout, pTimeout.ring, pTimeout.AllNodes()`pNext, x`pPrev, x`pNext, x`pLink
      ensures Valid() && pTimeout.ring == old(pTimeout.ring)
      ensures (ret, pTimeout.View()) == Add(old(pTimeout.View()), x, x.expireTime, now)
      ensures active.nodes == old(active.nodes) && timeout.nodes == old(timeout.nodes)
      ensures ret != 0 ==> x.Detached()
    {
      WheelApart(active);
      WheelApart(timeout);
      Loose(x);
      assert x !in active.nodes;
      hide NoDup, Timeout.Valid, Add;
      ret := pTimeout.AddTimeout(x, now);
    }

    /** The loop that marks what has timed out. */
    method MarkTimedOut(ghost s: seq<Item>)
      requires timeout.Valid() && s == timeout.nodes
      modifies Nodes(timeout)`bTimeout
      ensures forall i {:trigger s[i]} :: 0 <= i < |s| ==> s[i].bTimeout
    {
      ghost var k := 0;
      var lp := timeout.head;
      while lp != null
        invariant 0 <= k <= |s|
        invariant lp == if k == |s| then null else s[k]
        invariant forall i {:trigger s[i]} :: 0 <= i < k ==> s[i].bTimeout
        decreases |s| - k
      {
        lp.bTimeout := true;
        lp := lp.pNext;
        k := k + 1;
      }
    }

    method Mark()
      requires Valid()
      modifies Nodes(timeout)`bTimeout
      ensures Valid() && forall x :: x in timeout.nodes ==> x.bTimeout
    {
      WheelApart(timeout);
      Apart(active, timeout);
      hide NoDup, Timeout.Aligned;
      MarkTimedOut(timeout.nodes);
    }

    /** Join of the timeout list to the active list. */
    method Merge()
      requires Valid()
      modifies active, timeout, Nodes(active)`pNext, Nodes(timeout)`pPrev, Nodes(timeout)`pLink
      ensures Valid() && active.nodes == old(active.nodes + timeout.nodes) && timeout.nodes == []
    {
      WheelApart(active);
      WheelApart(timeout);
      hide NoDup, Timeout.Aligned;
      Join(active, timeout);
    }

    /** TakeAllTimeout into the empty timeout list. */
    method Collect(now: nat)
      requires Valid() && timeout.nodes == [] && 0 < now && pTimeout.KeepsIndex(now)
      modifies pTimeout, pTimeout.ring, timeout
      modifies pTimeout.AllNodes()`pPrev, pTimeout.AllNodes()`pNext, pTimeout.AllNodes()`pLink
      ensures Valid() && active.nodes == old(active.nodes)
      ensures (timeout.nodes, pTimeout.View()) == Take(old(pTimeout.View()), now)
      ensures pTimeout.AllNodes() + Nodes(timeout) <= old(pTimeout.AllNodes())
      ensures forall l :: l in pTimeout.ring <==> l in old(pTimeout.ring)
    {
      hide Take, Restarted, NoDup;
      WheelApart(active);
      ghost var v := pTimeout.View();
      pTimeout.TakeAllTimeout(now, timeout, pTimeout.AllNodes());
      assert [] + Take(v, now).0 == Take(v, now).0;
    }

    /** From reading the clock to merging the lists: everything that is due goes to the end of the
        active list, marked, in the order in which it is due. */
    method Sweep(now: nat)
      requires Valid() && timeout.nodes == [] && 0 < now && pTimeout.KeepsIndex(now)
      modifies pTimeout, pTimeout.ring, timeout, active, Nodes(active)`pNext, pTimeout.AllNodes()
      ensures Valid() && timeout.nodes == []
      ensures var (taken, w) := Take(old(pTimeout.View()), now);
              pTimeout.View() == w && active.nodes == old(active.nodes) + taken && forall x :: x in taken ==> x.bTimeout
    {
      hide Take, Restarted, Valid;
      Collect(now);
      Mark();
      Merge();
    }

    /** PopHead of the active list; the item is what pfnProcess is called on. */
    method PopActive() returns (lp: Item?)
      requires Valid()
      modifies active, Nodes(active)`pPrev, Nodes(active)`pNext, Nodes(active)`pLink
      ensures Valid() && pTimeout.View() == old(pTimeout.View()) && timeout.nodes == old(timeout.nodes)
      ensures if old(active.nodes) == [] then lp == null && active.nodes == []
              else lp == old(active.nodes)[0] && active.nodes == old(active.nodes)[1..] && lp.Detached()
    {
      lp := active.head;
      WheelApart(active);
      Apart(active, timeout);
      PopHead(active);
    }

    /** A list without `x` is as it was. */
    lemma Elsewhere(l: Link, x: Item)
      requires l.Valid() && x.pLink != l
      ensures x !in l.nodes && Without(l.nodes, x) == l.nodes
    {
      WithoutAbsent(l.nodes, x);
    }

    /** The slots of the wheel other than the one an item is in do not concern it. */
    lemma OtherSlots(x: Item)
      requires pTimeout.Separate() && (x.pLink != null ==> x.pLink.Valid())
      ensures forall i {:trigger pTimeout.ring[i]} :: 0 <= i < |pTimeout.ring| && pTimeout.ring[i] != x.pLink ==>
                && Nodes(pTimeout.ring[i]) !! Nodes(x.pLink)
                && Without(pTimeout.slots[i], x) == pTimeout.slots[i]
    {
      var a: seq<seq<Item>>, r: seq<Link> := pTimeout.slots, pTimeout.ring;
      forall i | 0 <= i < |r| && r[i] != x.pLink
        ensures Nodes(r[i]) !! Nodes(x.pLink) && Without(a[i], x) == a[i]
      {
        assert r[i].nodes == a[i];
        if x.pLink != null { Apart(r[i], x.pLink); }
        Elsewhere(r[i], x);
      }
    }

    /** RemoveFromLink, as far as it concerns the wheel. */
    method RemoveFromWheel(x: Item)
      requires pTimeout.Separate() && (x.pLink == null ==> x.Detached())
      requires x.pLink != null ==> x.pLink.Valid() && x in x.pLink.nodes
      modifies pTimeout`slots, x.pLink, Nodes(x.pLink)`pPrev, Nodes(x.pLink)`pNext, Nodes(x.pLink)`pLink
      ensures pTimeout.Separate() && x.Detached()
      ensures pTimeout.slots == Cancel(old(pTimeout.slots), x)
      ensures old(pTimeout.slots) == Empties(|old(pTimeout.slots)|) ==> pTimeout.slots == Empties(|pTimeout.slots|)
      ensures var l := old(x.pLink); l != null ==> l.Valid() && l.nodes == Without(old(l.nodes), x)
    {
      OtherSlots(x);
      assert Without([], x) == [];
      hide NoDup, Sequences.Without;
      RemoveFromLink(x);
      pTimeout.slots := Cancel(pTimeout.slots, x);
    }

    /** RemoveFromLink on any item of the thread: it leaves the one list that has it, if any. */
    method Remove(x: Item)
      requires Valid() && Knows(x)
      modifies pTimeout`slots, x.pLink, Nodes(x.pLink)`pPrev, Nodes(x.pLink)`pNext, Nodes(x.pLink)`pLink
      ensures Valid() && x.Detached()
      ensures pTimeout.View() == old(pTimeout.View()).(slots := Cancel(old(pTimeout.slots), x))
      ensures active.nodes == Without(old(active.nodes), x) && timeout.nodes == Without(old(timeout.nodes), x)
      ensures Nodes(active) <= old(Nodes(active))
    {
      hide NoDup, Sequences.Without, Timeout.Separate, Timeout.Aligned, Cancel, Link.Valid;
      WithoutSubset(active.nodes, x);
      Owner(x);
      Untouched(x);
      RemoveFromWheel(x);
    }

    lemma Untouched(x: Item)
      requires Valid()
      ensures x.pLink != active ==> Without(active.nodes, x) == active.nodes
      ensures x.pLink != timeout ==> Without(timeout.nodes, x) == timeout.nodes
    {
      if x.pLink != active { Elsewhere(active, x); }
      if x.pLink != timeout { Elsewhere(timeout, x); }
    }

    /** The list an item names is well formed and shares no item with the other lists. */
    lemma Owner(x: Item)
      requires Valid() && Knows(x)
      ensures x.pLink != null ==> x.pLink.Valid()
      ensures x.pLink != active ==> Nodes(active) !! Nodes(x.pLink)
      ensures x.pLink != timeout ==> Nodes(timeout) !! Nodes(x.pLink)
    {
      if x.pLink in pTimeout.ring {
        var k :| 0 <= k < |pTimeout.ring| && pTimeout.ring[k] == x.pLink;
        assert pTimeout.ring[k].nodes == pTimeout.slots[k];
      }
      if x.pLink != null {
        if x.pLink != active { Apart(active, x.pLink); }
        if x.pLink != timeout { Apart(timeout, x.pLink); }
      }
    }

    /** RemoveFromLink and AddTail: what an event does to a poll and co_cond_signal to a waiter,
        wherever the item is. */
    method Activate(x: Item)
      requires Valid() && Knows(x)
      modifies pTimeout`slots, x.pLink, Nodes(x.pLink)`pPrev, Nodes(x.pLink)`pNext, Nodes(x.pLink)`pLink
      modifies active, Nodes(active)`pNext, x`pPrev, x`pNext, x`pLink
      ensures Valid()
      ensures pTimeout.View() == old(pTimeout.View()).(slots := Cancel(old(pTimeout.slots), x))
      ensures active.nodes == Without(old(active.nodes), x) + [x] && timeout.nodes == Without(old(timeout.nodes), x)
    {
      hide Sequences.Without, Cancel;
      Remove(x);
      Append(x);
    }

    method Append(x: Item)
      requires Valid() && x.Detached()
      modifies active, Nodes(active)`pNext, x`pPrev, x`pNext, x`pLink
      ensures Valid() && pTimeout.View() == old(pTimeout.View())
      ensures active.nodes == old(active.nodes) + [x] && timeout.nodes == old(timeout.nodes)
    {
      WheelApart(active);
      Apart(active, timeout);
      Loose(x);
      hide NoDup, Timeout.Separate, Timeout.Aligned;
      AddTail(active, x);
    }

    lemma Loose(x: Item)
      requires Valid() && x.pLink == null
      ensures x !in pTimeout.AllNodes() && x !in timeout.nodes
    {
      forall i | 0 <= i < |pTimeout.ring| ensures x !in pTimeout.ring[i].nodes {
        assert pTimeout.ring[i].nodes == pTimeout.slots[i];
      }
    }

    /** OnPollPreparePfn, for one event: it is counted, and the first one activates the poll. */
    method OnPollPreparePfn(poll: Poll)
      requires Valid() && Knows(poll.item)
      modifies poll, pTimeout`slots, poll.item.pLink, active, Nodes(active)`pNext
      modifies Nodes(poll.item.pLink)`pPrev, Nodes(poll.item.pLink)`pNext, Nodes(poll.item.pLink)`pLink
      modifies poll.item`pPrev, poll.item`pNext, poll.item`pLink
      ensures Valid() && poll.iRaiseCnt == old(poll.iRaiseCnt) + 1 && poll.iAllEventDetach
      ensures old(poll.iAllEventDetach && poll.item.Detached()) ==> poll.item.Detached()
      ensures if old(poll.iAllEventDetach) then
                pTimeout.View() == old(pTimeout.View()) && active.nodes == old(active.nodes) && timeout.nodes == old(timeout.nodes)
              else
                && pTimeout.View() == old(pTimeout.View()).(slots := Cancel(old(pTimeout.slots), poll.item))
                && active.nodes == Without(old(active.nodes), poll.item) + [poll.item]
                && timeout.nodes == Without(old(timeout.nodes), poll.item)
    {
      hide Sequences.Without, Cancel, NoDup;
      poll.iRaiseCnt := poll.iRaiseCnt + 1;
      if !poll.iAllEventDetach {
        poll.iAllEventDetach := true;
        Activate(poll.item);
      }
    }
  }
}
