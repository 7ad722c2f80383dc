/** A thread on linked lists over whole runs: the lists of its event loop and the lists of its
    conditions, none of which share a node, go through the states of Scheduler, and what its waits
    return is what they return there. */
module ThreadRuns {
  import opened Sequences
  import opened Options
  import opened IntrusiveList
  import opened EventLists
  import opened EventLoopRuns
  import opened CondQueues
  import Scheduler
  import SchedulerSafety
  import SchedulerRuns
  import SchedulerWheel

  // ----- what a run returns

  /** What an event returns to a coroutine that waited. */
  ghost function Returned(s: Scheduler.State, e: Scheduler.Event): seq<Scheduler.Result>
    requires Scheduler.Can(s, e)
  {
    if e.Dispatch? then [Scheduler.Do(s, e).results[s.active[0].id]] else []
  }

  ghost function Returns(s: Scheduler.State, evs: seq<Scheduler.Event>): seq<Scheduler.Result>
    requires SchedulerRuns.Run(s, evs)
    decreases |evs|
  {
    if evs == [] then [] else Returned(s, evs[0]) + Returns(Scheduler.Do(s, evs[0]), evs[1..])
  }

  // ----- the waits for conditions

  ghost function CondIds(items: map<nat, Scheduler.Item>): set<nat> {
    set id | id in items && items[id].kind.CondItem?
  }

  /** Exactly the waits for conditions keep nodes, and the conditions they wait for exist. */
  ghost predicate Matched(nodes: set<nat>, conds: set<nat>, items: map<nat, Scheduler.Item>) {
    nodes == CondIds(items) && forall id :: id in nodes ==> items[id].kind.cond in conds
  }

  /** Events that concern no condition. */
  predicate Elsewhere(e: Scheduler.Event) {
    !e.CondWait? && !e.Signal? && !e.Broadcast? && !e.Dispatch?
  }

  lemma {:induction false} BatchMatched(nodes: set<nat>, conds: set<nat>, s: Scheduler.State, batch: seq<int>)
    requires Matched(nodes, conds, s.items)
    ensures var t := Scheduler.PrepareAll(s, batch); t.conds == s.conds && Matched(nodes, conds, t.items)
    decreases |batch|
  {
    if batch != [] {
      var t := Scheduler.PrepareOne(s, batch[0]);
      assert CondIds(t.items) == CondIds(s.items);
      BatchMatched(nodes, conds, t, batch[1..]);
    }
  }

  lemma ElsewhereMatched(nodes: set<nat>, conds: set<nat>, s: Scheduler.State, e: Scheduler.Event)
    requires SchedulerSafety.Inv(s) && Scheduler.Can(s, e) && Elsewhere(e) && Matched(nodes, conds, s.items)
    ensures var t := Scheduler.Do(s, e); t.conds == s.conds && Matched(nodes, conds, t.items)
  {
    hide SchedulerSafety.Inv;
    SchedulerSafety.Basics(s);
    var t := Scheduler.Do(s, e);
    if e.EpollWait? {
      BatchMatched(nodes, conds, s.(phase := Scheduler.Batched, hits := multiset{}), e.batch);
    } else {
      assert CondIds(t.items) == CondIds(s.items);
    }
  }

  /** What a condition wait, once it has begun, adds. */
  lemma BegunMatched(nodes: set<nat>, conds: set<nat>, s: Scheduler.State, q: nat, ms: int, now: nat)
    requires s.stack != [] && Matched(nodes, conds, s.items) && s.next !in s.items
    ensures var t := Scheduler.DoCondWait(s, q, ms, now);
      && t.conds == s.conds[q := Queue(s.conds, q) + [s.next]]
      && Matched(nodes + {s.next}, conds + {q}, t.items)
  {
    WaitParts(s, q, ms, now);
    hide Scheduler.DoCondWait;
    var t := Scheduler.DoCondWait(s, q, ms, now);
    assert CondIds(t.items) == CondIds(s.items) + {s.next};
  }

  lemma SignalledMatched(nodes: set<nat>, conds: set<nat>, s: Scheduler.State, q: nat)
    requires Matched(nodes, conds, s.items)
    ensures Matched(nodes, conds, Scheduler.SignalOne(s, q).items)
  {
  }

  lemma ServedMatched(nodes: set<nat>, conds: set<nat>, s: Scheduler.State)
    requires Matched(nodes, conds, s.items) && s.active != [] && s.active[0].id in s.items
    ensures var id := s.active[0].id;
      && Matched(nodes - {id}, conds, Serve(s).items)
      && Serve(s).conds == Scheduler.CondsAfter(s.conds, s.items[id].kind, id)
  {
    assert CondIds(Serve(s).items) == CondIds(s.items) - {s.active[0].id};
  }

  /** A wait is in the queue of no condition but its own. */
  lemma OwnQueue(s: Scheduler.State, id: nat)
    requires SchedulerSafety.Inv(s) && id in s.items && s.items[id].kind.CondItem?
    ensures forall p :: p in s.conds && id in s.conds[p] ==> p == s.items[id].kind.cond
  {
    hide SchedulerSafety.StackOk, SchedulerSafety.WaitsOk, SchedulerSafety.LinksOk, SchedulerSafety.RegsOk, SchedulerSafety.PollsOk;
    hide SchedulerSafety.PhaseOk, SchedulerSafety.WakesOk;
  }

  lemma QueuedWaits(s: Scheduler.State, q: nat)
    requires SchedulerSafety.Inv(s)
    ensures forall id :: id in Queue(s.conds, q) ==> id in s.items
  {
    hide SchedulerSafety.StackOk, SchedulerSafety.WaitsOk, SchedulerSafety.LinksOk, SchedulerSafety.RegsOk, SchedulerSafety.PollsOk;
    hide SchedulerSafety.PhaseOk, SchedulerSafety.WakesOk;
  }

  // ----- the lists of a thread

  /** No node is in a list of the event loop and kept for a condition. */
  ghost predicate Separate(lists: Thread, conditions: Conditions)
    reads lists`waits, lists.epoll.pTimeout`ring, conditions`links, conditions`nodes
  {
    conditions.Lists() !! lists.Links() && conditions.Nodes() !! lists.Items()
  }

  /** The condition lists are those of the state. */
  ghost predicate Queued(conditions: Conditions, s: Scheduler.State)
    reads conditions, conditions.Lists(), conditions.Held(), conditions.Nodes()
  {
    conditions.Valid() && conditions.View() == s.conds && Matched(conditions.nodes.Keys, conditions.links.Keys, s.items)
  }

  lemma NothingQueued(conditions: Conditions, now: nat)
    requires conditions.links == map[] && conditions.nodes == map[] && conditions.held == map[]
    ensures Queued(conditions, Scheduler.Init(now)) && conditions.Lists() == {} && conditions.Nodes() == {}
  {
    conditions.NoConditions();
    assert CondIds(Scheduler.Init(now).items) == {};
  }

  /** The linked lists of a thread are those of the state. */
  ghost predicate Shows(lists: Thread, conditions: Conditions, s: Scheduler.State)
    reads lists, lists.epoll.pTimeout, lists.epoll.pTimeout.pItems, lists.epoll.pTimeout.ring, lists.epoll.pTimeout.AllNodes()
    reads lists.epoll.active, lists.epoll.active.nodes, lists.epoll.timeout, lists.epoll.timeout.nodes, lists.Items(), lists.Polls()
    reads conditions, conditions.Lists(), conditions.Held(), conditions.Nodes()
  {
    lists.Shows(s) && Queued(conditions, s) && Separate(lists, conditions)
  }

  /** An event that concerns no condition. */
  method ListEvent(lists: Thread, conditions: Conditions, e: Scheduler.Event, ghost s: Scheduler.State)
    requires SchedulerSafety.Inv(s) && Scheduler.Can(s, e) && Elsewhere(e)
    requires Shows(lists, conditions, s)
    modifies lists, lists.epoll.pTimeout, lists.Links(), lists.Items(), lists.Polls()
    ensures Shows(lists, conditions, Scheduler.Do(s, e))
    ensures lists.Links() == old(lists.Links())
    ensures fresh(lists.Items() - old(lists.Items())) && fresh(lists.Polls() - old(lists.Polls()))
  {
    hide SchedulerSafety.Inv, Scheduler.Can, Scheduler.Do, Thread.Shows, Conditions.Valid, Conditions.Held, Conditions.View, Matched;
    ElsewhereMatched(conditions.nodes.Keys, conditions.links.Keys, s, e);
    conditions.SameConditions();
    lists.Step(e, s);
  }

  /** What the conditions are made of is no part of the event loop's lists. */
  lemma OtherObjects(lists: Thread, conditions: Conditions, s: Scheduler.State)
    requires lists.Shows(s) && Separate(lists, conditions)
    ensures forall o: object :: o in {conditions} + conditions.Lists() + conditions.Nodes() ==>
      && o != lists && o != lists.epoll.pTimeout && o != lists.epoll.pTimeout.pItems
      && o != lists.epoll.active && o != lists.epoll.timeout && o !in lists.epoll.pTimeout.ring
      && o !in lists.epoll.pTimeout.AllNodes() && o !in lists.epoll.active.nodes && o !in lists.epoll.timeout.nodes
      && o !in lists.Items() && o !in lists.Polls()
  {
    hide Thread.Shows, Conditions.Valid;
    lists.InItems(s);
    assert forall x :: x in lists.epoll.active.nodes ==> x in Nodes(lists.epoll.active);
    assert forall x :: x in lists.epoll.timeout.nodes ==> x in Nodes(lists.epoll.timeout);
  }

  method EnqueueNode(lists: Thread, conditions: Conditions, q: nat, id: nat, ghost t: Scheduler.State)
    requires lists.Shows(t) && conditions.Valid() && id !in conditions.nodes && Separate(lists, conditions)
    modifies conditions, conditions.Lists(), conditions.Nodes()
    ensures lists.Shows(t) && conditions.Valid() && Separate(lists, conditions)
    ensures conditions.View() == old(conditions.View())[q := Queue(old(conditions.View()), q) + [id]]
    ensures conditions.nodes.Keys == old(conditions.nodes.Keys) + {id} && conditions.links.Keys == old(conditions.links.Keys) + {q}
    ensures fresh(conditions.Lists() - old(conditions.Lists())) && fresh(conditions.Nodes() - old(conditions.Nodes()))
  {
    hide Thread.Shows, Conditions.Valid, Conditions.View;
    OtherObjects(lists, conditions, t);
    conditions.Enqueue(q, id);
  }

  /** AddTail of the node of a condition wait that has begun. */
  method EnqueueWait(lists: Thread, conditions: Conditions, q: nat, id: nat, ghost s: Scheduler.State, ghost t: Scheduler.State)
    requires lists.Shows(t) && Queued(conditions, s) && Separate(lists, conditions) && id !in conditions.nodes
    requires t.conds == s.conds[q := Queue(s.conds, q) + [id]]
    requires Matched(conditions.nodes.Keys + {id}, conditions.links.Keys + {q}, t.items)
    modifies conditions, conditions.Lists(), conditions.Nodes()
    ensures Shows(lists, conditions, t)
    ensures fresh(conditions.Lists() - old(conditions.Lists())) && fresh(conditions.Nodes() - old(conditions.Nodes()))
  {
    hide Thread.Shows, Conditions.Valid, Conditions.View, Matched, Separate;
    EnqueueNode(lists, conditions, q, id, t);
  }

  method PopWait(lists: Thread, conditions: Conditions, q: nat, ghost s: Scheduler.State) returns (id: Option<nat>)
    requires lists.Shows(s) && conditions.Valid() && Separate(lists, conditions)
    modifies conditions`held, conditions.Lists(), conditions.Nodes()
    ensures lists.Shows(s) && conditions.Valid() && Separate(lists, conditions)
    ensures conditions.nodes == old(conditions.nodes) && conditions.links == old(conditions.links)
    ensures var view := old(conditions.View());
            if Queue(view, q) == [] then id == None && conditions.View() == view
            else id == Some(view[q][0]) && conditions.View() == view[q := view[q][1..]]
  {
    hide Thread.Shows, Conditions.Valid, Conditions.View;
    OtherObjects(lists, conditions, s);
    id := conditions.PopIfAny(q);
  }

  method RemoveWait(lists: Thread, conditions: Conditions, q: nat, id: nat, ghost s: Scheduler.State)
    requires lists.Shows(s) && conditions.Valid() && Separate(lists, conditions)
    requires q in conditions.links && id in conditions.nodes
    requires forall p :: p in conditions.links && id in conditions.View()[p] ==> p == q
    modifies conditions`nodes, conditions`held, conditions.Lists(), conditions.Nodes()
    ensures lists.Shows(s) && conditions.Valid() && Separate(lists, conditions)
    ensures conditions.nodes == old(conditions.nodes) - {id} && conditions.links == old(conditions.links)
    ensures conditions.View() == old(conditions.View())[q := Without(old(conditions.View())[q], id)]
  {
    hide Thread.Shows, Conditions.Valid, Conditions.View;
    OtherObjects(lists, conditions, s);
    conditions.Remove(q, id);
  }

  method BeginWait(lists: Thread, conditions: Conditions, q: nat, ms: int, now: nat, ghost s: Scheduler.State) returns (ret: int)
    requires SchedulerSafety.Inv(s) && Scheduler.Can(s, Scheduler.CondWait(q, ms, now))
    requires !SchedulerWheel.FarWait(s, Scheduler.CondWait(q, ms, now)) && Shows(lists, conditions, s)
    modifies lists, lists.epoll.pTimeout, lists.Links(), lists.Items()
    ensures s.stack != [] && lists.Shows(Scheduler.Do(s, Scheduler.CondWait(q, ms, now)))
    ensures Scheduler.Do(s, Scheduler.CondWait(q, ms, now)) == if ret == 0 then Scheduler.DoCondWait(s, q, ms, now) else s.(clock := now)
    ensures Queued(conditions, s) && Separate(lists, conditions)
    ensures lists.Links() == old(lists.Links())
    ensures fresh(lists.Items() - old(lists.Items())) && fresh(lists.Polls() - old(lists.Polls()))
  {
    hide SchedulerSafety.Inv, Scheduler.Can, Scheduler.Do, Scheduler.DoCondWait, SchedulerWheel.FarWait;
    hide Thread.Shows, Conditions.Valid, Conditions.Held, Conditions.View, Matched;
    conditions.SameConditions();
    ret := lists.CondTimedWait(q, ms, now, s);
  }

  /** co_cond_timedwait up to its yield. */
  method CondTimedWait(lists: Thread, conditions: Conditions, e: Scheduler.Event, ghost s: Scheduler.State)
    requires SchedulerSafety.Inv(s) && e.CondWait? && Scheduler.Can(s, e) && !SchedulerWheel.FarWait(s, e)
    requires Shows(lists, conditions, s)
    modifies lists, lists.epoll.pTimeout, lists.Links(), lists.Items(), conditions, conditions.Lists(), conditions.Nodes()
    ensures Shows(lists, conditions, Scheduler.Do(s, e))
    ensures lists.Links() == old(lists.Links())
    ensures fresh(lists.Items() - old(lists.Items())) && fresh(lists.Polls() - old(lists.Polls()))
    ensures fresh(conditions.Lists() - old(conditions.Lists())) && fresh(conditions.Nodes() - old(conditions.Nodes()))
  {
    hide SchedulerSafety.Inv, Scheduler.Can, Scheduler.Do, Scheduler.DoCondWait, SchedulerWheel.FarWait;
    hide Thread.Shows, Queued, Matched, Separate;
    NextWait(lists, conditions, s, e);
    var id := lists.next;
    var ret := BeginWait(lists, conditions, e.cond, e.ms, e.now, s);
    if ret == 0 {
      EnqueueWait(lists, conditions, e.cond, id, s, Scheduler.Do(s, e));
    } else {
      OnlyItems(conditions, s, Scheduler.Do(s, e));
    }
  }

  lemma OnlyItems(conditions: Conditions, s: Scheduler.State, t: Scheduler.State)
    requires Queued(conditions, s) && t.conds == s.conds && t.items == s.items
    ensures Queued(conditions, t)
  {
  }

  /** The number of a new wait is free, and its node will be the one that is missing. */
  lemma NextWait(lists: Thread, conditions: Conditions, s: Scheduler.State, e: Scheduler.Event)
    requires SchedulerSafety.Inv(s) && lists.Shows(s) && Queued(conditions, s) && e.CondWait? && Scheduler.Can(s, e)
    ensures s.stack != [] && lists.next == s.next && s.next !in conditions.nodes
    ensures var t := Scheduler.DoCondWait(s, e.cond, e.ms, e.now);
      && t.conds == s.conds[e.cond := Queue(s.conds, e.cond) + [s.next]]
      && Matched(conditions.nodes.Keys + {s.next}, conditions.links.Keys + {e.cond}, t.items)
  {
    WaitTimes(s, e.cond, e.ms, e.now);
    hide Scheduler.DoCondWait, Scheduler.Can;
    SchedulerSafety.Basics(s);
    BegunMatched(conditions.nodes.Keys, conditions.links.Keys, s, e.cond, e.ms, e.now);
  }

  method ActivateWait(lists: Thread, conditions: Conditions, id: nat, ghost s: Scheduler.State)
    requires lists.Shows(s) && id in lists.waits && conditions.Valid() && Separate(lists, conditions)
    modifies lists.epoll.pTimeout`slots, lists.Links(), lists.Items()`pPrev, lists.Items()`pNext, lists.Items()`pLink
    ensures id in s.items && lists.Shows(Scheduler.Activate(s, Scheduler.EntryOf(s.items, id)))
    ensures conditions.Valid() && Separate(lists, conditions)
  {
    hide Thread.Shows, Conditions.Valid, Conditions.Held, Scheduler.Activate;
    lists.ShownWaits(s);
    conditions.SameConditions();
    lists.ActivateWait(id, s);
  }

  /** co_cond_signal; `some` says whether anybody was waiting. */
  method CondSignal(lists: Thread, conditions: Conditions, q: nat, ghost s: Scheduler.State) returns (some: bool)
    requires Shows(lists, conditions, s)
    requires forall id :: id in Queue(s.conds, q) ==> id in s.items
    modifies lists.epoll.pTimeout`slots, lists.Links(), lists.Items()`pPrev, lists.Items()`pNext, lists.Items()`pLink
    modifies conditions`held, conditions.Lists(), conditions.Nodes()
    ensures Shows(lists, conditions, Scheduler.SignalOne(s, q))
    ensures conditions.nodes == old(conditions.nodes) && conditions.links == old(conditions.links)
    ensures some <==> Queue(s.conds, q) != []
  {
    hide Thread.Shows, Conditions.Valid, Conditions.View, Matched, Separate;
    lists.ShownWaits(s);
    SignalledMatched(conditions.nodes.Keys, conditions.links.Keys, s, q);
    var id := PopWait(lists, conditions, q, s);
    some := id.Some?;
    if some {
      ghost var t := s.(conds := s.conds[q := s.conds[q][1..]]);
      lists.StillShows(s, t);
      ActivateWait(lists, conditions, id.value, t);
    }
  }

  /** What is left of a broadcast begun in `s` is a broadcast in `t`. */
  ghost predicate Remains(q: nat, s: Scheduler.State, t: Scheduler.State) {
    && (forall id :: id in Queue(t.conds, q) ==> id in t.items)
    && Scheduler.SignalAll(t, q, |Queue(t.conds, q)|) == Scheduler.SignalAll(s, q, |Queue(s.conds, q)|)
  }

  /** co_cond_broadcast. */
  method CondBroadcast(lists: Thread, conditions: Conditions, q: nat, ghost s: Scheduler.State)
    requires Shows(lists, conditions, s)
    requires forall id :: id in Queue(s.conds, q) ==> id in s.items
    modifies lists.epoll.pTimeout`slots, lists.Links(), lists.Items()`pPrev, lists.Items()`pNext, lists.Items()`pLink
    modifies conditions`held, conditions.Lists(), conditions.Nodes()
    ensures Shows(lists, conditions, Scheduler.SignalAll(s, q, |Scheduler.Waiters(s.conds, q)|))
    ensures conditions.nodes == old(conditions.nodes) && conditions.links == old(conditions.links)
  {
    hide Shows, Remains, Queue, Scheduler.SignalOne, Scheduler.SignalAll, Scheduler.Waiters;
    BroadcastBegins(s, q);
    ghost var t := s;
    var some := true;
    while some
      invariant Shows(lists, conditions, t) && Remains(q, s, t) && (some || Queue(t.conds, q) == [])
      invariant conditions.nodes == old(conditions.nodes) && conditions.links == old(conditions.links)
      decreases |Queue(t.conds, q)|, if some then 1 else 0
    {
      AfterSignal(s, t, q);
      some := CondSignal(lists, conditions, q, t);
      t := Scheduler.SignalOne(t, q);
    }
    BroadcastEnds(s, t, q);
  }

  lemma BroadcastBegins(s: Scheduler.State, q: nat)
    requires forall id :: id in Queue(s.conds, q) ==> id in s.items
    ensures Remains(q, s, s)
  {
  }

  lemma BroadcastEnds(s: Scheduler.State, t: Scheduler.State, q: nat)
    requires Remains(q, s, t) && Queue(t.conds, q) == []
    ensures t == Scheduler.SignalAll(s, q, |Scheduler.Waiters(s.conds, q)|)
  {
    assert Scheduler.Waiters(s.conds, q) == Queue(s.conds, q);
  }

  lemma AfterSignal(s: Scheduler.State, t: Scheduler.State, q: nat)
    requires Remains(q, s, t)
    ensures Remains(q, s, Scheduler.SignalOne(t, q)) && (forall id :: id in Queue(t.conds, q) ==> id in t.items)
    ensures Queue(Scheduler.SignalOne(t, q).conds, q) == if Queue(t.conds, q) == [] then [] else Queue(t.conds, q)[1..]
  {
  }

  method ServeHead(lists: Thread, conditions: Conditions, ghost s: Scheduler.State) returns (id: nat, w: Wait, r: Scheduler.Result)
    requires lists.Shows(s) && s.active != [] && s.active[0].id in s.items && conditions.Valid() && Separate(lists, conditions)
    modifies lists`waits, lists`regs, lists`next, lists.epoll.active
    modifies lists.Items()`pPrev, lists.Items()`pNext, lists.Items()`pLink
    ensures lists.Shows(Serve(s)) && r == Serve(s).results[s.active[0].id]
    ensures id == s.active[0].id && Agrees(id, w, s.items[id])
    ensures conditions.Valid() && Separate(lists, conditions)
    ensures lists.Items() <= old(lists.Items()) && lists.Polls() <= old(lists.Polls())
  {
    hide Thread.Shows, Conditions.Valid, Conditions.Held, Serve, Agrees;
    conditions.SameConditions();
    id, w, r := lists.ServeHead(s);
  }

  /** Serving the head of the active list: PopHead, and the end of co_poll_inner or of
      co_cond_timedwait in the coroutine that is resumed. */
  method Dispatch(lists: Thread, conditions: Conditions, ghost s: Scheduler.State) returns (r: Scheduler.Result)
    requires SchedulerSafety.Inv(s) && s.active != [] && s.active[0].id in s.items
    requires Shows(lists, conditions, s)
    modifies lists`waits, lists`regs, lists`next, lists.epoll.active
    modifies lists.Items()`pPrev, lists.Items()`pNext, lists.Items()`pLink
    modifies conditions`nodes, conditions`held, conditions.Lists(), conditions.Nodes()
    ensures Shows(lists, conditions, Serve(s))
    ensures r == Serve(s).results[s.active[0].id]
    ensures lists.Items() <= old(lists.Items()) && lists.Polls() <= old(lists.Polls())
    ensures conditions.links == old(conditions.links) && conditions.Nodes() <= old(conditions.Nodes())
  {
    hide SchedulerSafety.Inv, Thread.Shows, Conditions.Valid, Conditions.View, Matched, Separate, Serve;
    ServedMatched(conditions.nodes.Keys, conditions.links.Keys, s);
    NodeOf(conditions, s, s.active[0].id);
    var id, w;
    id, w, r := ServeHead(lists, conditions, s);
    match w {
      case PollWait(_) =>
      case CondWait(q, _) => RemoveWait(lists, conditions, q, id, Serve(s));
    }
  }

  /** A wait keeps a node if it is for a condition, in that condition's queue or in none. */
  lemma NodeOf(conditions: Conditions, s: Scheduler.State, id: nat)
    requires SchedulerSafety.Inv(s) && Queued(conditions, s) && id in s.items
    ensures if s.items[id].kind.CondItem? then
              && id in conditions.nodes && s.items[id].kind.cond in conditions.links
              && forall p :: p in conditions.links && id in conditions.View()[p] ==> p == s.items[id].kind.cond
            else conditions.nodes - {id} == conditions.nodes
    ensures conditions.View().Keys == conditions.links.Keys
  {
    hide SchedulerSafety.Inv, Conditions.Valid, Conditions.View;
    conditions.SameConditions();
    if s.items[id].kind.CondItem? { OwnQueue(s, id); }
  }

  // ----- every event

  /** Everything that the lists of a thread are made of. */
  ghost function Objects(lists: Thread, conditions: Conditions): set<object>
    reads lists`waits, lists.epoll.pTimeout`ring, conditions`links, conditions`nodes
  {
    {lists, lists.epoll.pTimeout, conditions} + lists.Links() + lists.Items() + lists.Polls() + conditions.Lists() + conditions.Nodes()
  }

  lemma ConditionEvent(s: Scheduler.State, e: Scheduler.Event)
    requires Scheduler.Can(s, e)
    ensures e.Signal? ==> Scheduler.Do(s, e) == Scheduler.SignalOne(s, e.cond)
    ensures e.Broadcast? ==> Scheduler.Do(s, e) == Scheduler.SignalAll(s, e.cond, |Scheduler.Waiters(s.conds, e.cond)|)
    ensures e.Dispatch? ==> s.active != [] && s.active[0].id in s.items && Scheduler.Do(s, e) == Serve(s)
    ensures Returned(s, e) == if e.Dispatch? then [Serve(s).results[s.active[0].id]] else []
  {
    hide Scheduler.Wake, Scheduler.SignalOne, Scheduler.SignalAll;
  }

  method SignalEvent(lists: Thread, conditions: Conditions, e: Scheduler.Event, ghost s: Scheduler.State)
    requires SchedulerSafety.Inv(s) && Scheduler.Can(s, e) && (e.Signal? || e.Broadcast?) && Shows(lists, conditions, s)
    modifies lists.epoll.pTimeout, lists.Links(), lists.Items(), conditions, conditions.Lists(), conditions.Nodes()
    ensures Shows(lists, conditions, Scheduler.Do(s, e)) && Objects(lists, conditions) == old(Objects(lists, conditions))
  {
    hide SchedulerSafety.Inv, Scheduler.Can, Scheduler.Do, Scheduler.SignalOne, Scheduler.SignalAll, Shows;
    ConditionEvent(s, e);
    QueuedWaits(s, e.cond);
    if e.Signal? {
      var some := CondSignal(lists, conditions, e.cond, s);
    } else {
      CondBroadcast(lists, conditions, e.cond, s);
    }
  }

  /** One event, and what it returns to a coroutine that waited. */
  method Step(lists: Thread, conditions: Conditions, e: Scheduler.Event, ghost s: Scheduler.State) returns (out: seq<Scheduler.Result>)
    requires SchedulerSafety.Inv(s) && Scheduler.Can(s, e) && !SchedulerWheel.FarWait(s, e) && Shows(lists, conditions, s)
    modifies Objects(lists, conditions)
    ensures Shows(lists, conditions, Scheduler.Do(s, e)) && out == Returned(s, e)
    ensures forall o :: o in Objects(lists, conditions) ==> o in old(Objects(lists, conditions)) || fresh(o)
  {
    hide SchedulerSafety.Inv, Scheduler.Can, Scheduler.Do, SchedulerWheel.FarWait, Returned, Serve, Scheduler.SignalOne, Scheduler.SignalAll;
    hide Shows;
    ConditionEvent(s, e);
    out := [];
    if e.CondWait? {
      CondTimedWait(lists, conditions, e, s);
    } else if e.Signal? || e.Broadcast? {
      SignalEvent(lists, conditions, e, s);
    } else if e.Dispatch? {
      var r := Dispatch(lists, conditions, s);
      out := [r];
    } else {
      ListEvent(lists, conditions, e, s);
    }
  }

  /** `t` is reached after `i` events of a run without far waits, and `outs` is what they returned. */
  ghost predicate Rest(s: Scheduler.State, evs: seq<Scheduler.Event>, t: Scheduler.State, i: nat, outs: seq<Scheduler.Result>)
    requires SchedulerRuns.Run(s, evs) && i <= |evs|
  {
    && SchedulerSafety.Inv(t) && SchedulerRuns.Run(t, evs[i..]) && SchedulerWheel.NoFarWait(t, evs[i..])
    && SchedulerRuns.After(t, evs[i..]) == SchedulerRuns.After(s, evs)
    && outs + Returns(t, evs[i..]) == Returns(s, evs)
  }

  lemma RestFirst(s: Scheduler.State, evs: seq<Scheduler.Event>)
    requires SchedulerSafety.Inv(s) && SchedulerRuns.Run(s, evs) && SchedulerWheel.NoFarWait(s, evs)
    ensures Rest(s, evs, s, 0, [])
  {
    hide SchedulerSafety.Inv, SchedulerRuns.Run, SchedulerWheel.NoFarWait, SchedulerRuns.After, Returns;
    assert evs[0..] == evs;
  }

  lemma RestNext(s: Scheduler.State, evs: seq<Scheduler.Event>, t: Scheduler.State, i: nat, outs: seq<Scheduler.Result>)
    requires SchedulerRuns.Run(s, evs) && i < |evs| && Rest(s, evs, t, i, outs)
    ensures SchedulerSafety.Inv(t) && Scheduler.Can(t, evs[i]) && !SchedulerWheel.FarWait(t, evs[i])
    ensures Rest(s, evs, Scheduler.Do(t, evs[i]), i + 1, outs + Returned(t, evs[i]))
  {
    hide SchedulerSafety.Inv, Scheduler.Can, Scheduler.Do, SchedulerWheel.FarWait, Returned;
    assert evs[i..][0] == evs[i] && evs[i..][1..] == evs[i + 1..];
    SchedulerSafety.StepKeeps(t, evs[i]);
  }

  lemma RestLast(s: Scheduler.State, evs: seq<Scheduler.Event>, t: Scheduler.State, outs: seq<Scheduler.Result>)
    requires SchedulerRuns.Run(s, evs) && Rest(s, evs, t, |evs|, outs)
    ensures t == SchedulerRuns.After(s, evs) && outs == Returns(s, evs)
  {
    hide SchedulerSafety.Inv, Scheduler.Can, Scheduler.Do;
    assert evs[|evs|..] == [];
  }

  /** On every run without a far wait the linked lists are at all times those of the state, and every
      wait returns what it returns there. */
  method Execute(lists: Thread, conditions: Conditions, evs: seq<Scheduler.Event>, ghost s: Scheduler.State)
    returns (outs: seq<Scheduler.Result>)
    requires SchedulerSafety.Inv(s) && Shows(lists, conditions, s)
    requires SchedulerRuns.Run(s, evs) && SchedulerWheel.NoFarWait(s, evs)
    modifies Objects(lists, conditions)
    ensures Shows(lists, conditions, SchedulerRuns.After(s, evs)) && outs == Returns(s, evs)
  {
    hide SchedulerSafety.Inv, SchedulerRuns.Run, SchedulerWheel.NoFarWait, SchedulerRuns.After, Returns;
    hide Scheduler.Can, Scheduler.Do, SchedulerWheel.FarWait, Returned, Shows, Rest, Objects;
    ghost var t := s;
    outs := [];
    RestFirst(s, evs);
    for i := 0 to |evs|
      invariant Shows(lists, conditions, t) && Rest(s, evs, t, i, outs)
      invariant forall o :: o in Objects(lists, conditions) ==> o in old(Objects(lists, conditions)) || fresh(o)
    {
      RestNext(s, evs, t, i, outs);
      var out := Step(lists, conditions, evs[i], t);
      t := Scheduler.Do(t, evs[i]);
      outs := outs + out;
    }
    RestLast(s, evs, t, outs);
  }

  /** A thread on linked lists, from its start: each poll and each wait returns, in order, what the
      transition system says. */
  method RunThread(now: nat, evs: seq<Scheduler.Event>) returns (outs: seq<Scheduler.Result>)
    requires 0 < now && SchedulerRuns.Run(Scheduler.Init(now), evs) && SchedulerWheel.NoFarWait(Scheduler.Init(now), evs)
    ensures outs == Returns(Scheduler.Init(now), evs)
  {
    hide SchedulerRuns.Run, SchedulerWheel.NoFarWait, Scheduler.Init, Returns, Thread.Shows, Conditions.Valid;
    SchedulerRuns.InitOk(now);
    var conditions := new Conditions();
    var lists := new Thread(now);
    NothingQueued(conditions, now);
    outs := Execute(lists, conditions, evs, Scheduler.Init(now));
  }
}
