/** Condition variables of the scheduler: first come, first served, over every run. */
module SchedulerConds {
  import opened Sequences
  import opened TimerWheel
  import opened Scheduler
  import opened SchedulerSafety
  import opened SchedulerRuns

  // ----- waits are numbered in the order in which they begin

  ghost predicate Ascending(q: seq<ItemId>, next: ItemId) {
    && (forall i, j :: 0 <= i < j < |q| ==> q[i] < q[j])
    && (forall i :: 0 <= i < |q| ==> q[i] < next)
  }

  /** Every condition queue holds its waits in the order in which they began. */
  ghost predicate InOrder(conds: map<nat, seq<ItemId>>, next: ItemId) {
    forall q :: q in conds ==> Ascending(conds[q], next)
  }

  lemma {:induction false} WithoutAscending(q: seq<ItemId>, x: ItemId, next: ItemId)
    requires Ascending(q, next)
    ensures Ascending(Without(q, x), next)
  {
    if q != [] && q[0] != x {
      var t := q[1..];
      assert forall i :: 0 <= i < |t| ==> t[i] == q[i + 1];
      WithoutAscending(t, x, next);
      WithoutSubset(t, x);
      var r := Without(t, x);
      forall k | 0 <= k < |r| ensures q[0] < r[k] { assert r[k] in t; }
      assert Without(q, x) == [q[0]] + r;
      Prepended(q[0], r, next);
    }
  }

  lemma Prepended(x: ItemId, r: seq<ItemId>, next: ItemId)
    requires Ascending(r, next) && x < next && forall k :: 0 <= k < |r| ==> x < r[k]
    ensures Ascending([x] + r, next)
  {
  }

  lemma {:induction false} BatchConds(s: State, batch: seq<int>)
    ensures PrepareAll(s, batch).conds == s.conds && PrepareAll(s, batch).next == s.next
    decreases |batch|
  {
    if batch != [] { BatchConds(PrepareOne(s, batch[0]), batch[1..]); }
  }

  lemma {:induction false} SignalsInOrder(s: State, q: nat, n: nat)
    requires InOrder(s.conds, s.next)
    ensures InOrder(SignalAll(s, q, n).conds, SignalAll(s, q, n).next)
    decreases n
  {
    if n > 0 {
      assert InOrder(SignalOne(s, q).conds, SignalOne(s, q).next);
      SignalsInOrder(SignalOne(s, q), q, n - 1);
    }
  }

  lemma DispatchInOrder(s: State)
    requires Can(s, Dispatch) && InOrder(s.conds, s.next)
    ensures InOrder(Do(s, Dispatch).conds, Do(s, Dispatch).next)
  {
    var id := s.active[0].id;
    var k := s.items[id].kind;
    if k.CondItem? { WithoutAscending(Waiters(s.conds, k.cond), id, s.next); }
  }

  lemma CondWaitInOrder(s: State, q: nat, ms: int, now: nat)
    requires Can(s, CondWait(q, ms, now)) && InOrder(s.conds, s.next)
    ensures InOrder(Do(s, CondWait(q, ms, now)).conds, Do(s, CondWait(q, ms, now)).next)
  {
    hide InsertStable, AddCode;
  }

  lemma PollInOrder(s: State, e: Event)
    requires Can(s, e) && e.Poll? && InOrder(s.conds, s.next)
    ensures InOrder(Do(s, e).conds, Do(s, e).next)
  {
    hide InsertStable, AddCode, Register;
  }

  lemma RefusedInOrder(s: State, e: Event)
    requires Can(s, e) && e.PollRefused? && InOrder(s.conds, s.next)
    ensures InOrder(Do(s, e).conds, Do(s, e).next)
  {
    hide Register;
  }

  lemma StepInOrder(s: State, e: Event)
    requires Can(s, e) && InOrder(s.conds, s.next)
    ensures InOrder(Do(s, e).conds, Do(s, e).next)
  {
    hide Can, InOrder;
    match e
    case Poll(_, _, _, _) => PollInOrder(s, e);
    case PollRefused(_, _, _, _) => RefusedInOrder(s, e);
    case CondWait(q, ms, now) => CondWaitInOrder(s, q, ms, now);
    case Signal(q) => SignalsInOrder(s, q, 1); assert SignalAll(s, q, 1) == SignalOne(s, q);
    case Broadcast(q) => SignalsInOrder(s, q, |Waiters(s.conds, q)|);
    case EpollWait(batch) => BatchConds(s.(phase := Batched, hits := multiset{}), batch);
    case Dispatch => DispatchInOrder(s);
    case Create(_) => case Resume(_) => case Yield => case Finish =>
    case EnterLoop => case SweepWheel(_) => case JoinExpired => case EndRound(_) =>
  }

  lemma {:induction false} RunInOrder(s: State, evs: seq<Event>)
    requires Run(s, evs) && InOrder(s.conds, s.next)
    ensures InOrder(After(s, evs).conds, After(s, evs).next)
    decreases |evs|
  {
    hide Can, Do, InOrder;
    if evs != [] {
      StepInOrder(s, evs[0]);
      RunInOrder(Do(s, evs[0]), evs[1..]);
    }
  }

  lemma ReachableInOrder(s: State)
    requires Reachable(s)
    ensures InOrder(s.conds, s.next)
  {
    hide Can, Do;
    var now: nat, evs :| 0 < now && Run(Init(now), evs) && After(Init(now), evs) == s;
    RunInOrder(Init(now), evs);
  }

  lemma FirstIsLeast(w: seq<ItemId>, next: ItemId)
    requires Ascending(w, next) && w != []
    ensures forall id :: id in w ==> w[0] <= id
  {
  }

  lemma ActiveCount(s: State, e: Entry)
    requires Once(Linked(s)) && Sorted(s.timer)
    ensures Linked(Activate(s, e))[e] == 1
  {
    Unlinked(s, e);
    var u := Unlink(s, e);
    assert Linked(s)[e] <= 1;
    assert Linked(Activate(s, e))[e] == Linked(u)[e] + 1;
  }

  lemma SignalDoes(s: State, q: nat)
    requires Inv(s) && Waiters(s.conds, q) != []
    ensures var w, t := Waiters(s.conds, q), SignalOne(s, q);
      && w[0] in s.items
      && t == Activate(s, EntryOf(s.items, w[0])).(conds := s.conds[q := w[1..]])
      && Once(Linked(s)) && Sorted(s.timer)
  {
    assert s.conds[q][0] in s.conds[q];
  }

  /** A signal wakes the coroutine that has waited longest, and no other: it alone leaves the queue,
      and goes to the end of the active list from wherever it was. */
  lemma SignalWakesLongest(s: State, q: nat)
    requires Reachable(s) && Can(s, Signal(q))
    ensures var w, t := Waiters(s.conds, q), Do(s, Signal(q));
      if w == [] then t == s
      else
        && w[0] in s.items && (forall id :: id in w ==> w[0] <= id)
        && Waiters(t.conds, q) == w[1..] && (forall r :: r != q ==> Waiters(t.conds, r) == Waiters(s.conds, r))
        && t.active != [] && t.active[|t.active| - 1] == EntryOf(s.items, w[0])
        && Linked(t)[EntryOf(s.items, w[0])] == 1
  {
    hide Reachable, Inv, Once, Sorted, Linked;
    ReachableInv(s);
    ReachableInOrder(s);
    var w := Waiters(s.conds, q);
    if w != [] {
      FirstIsLeast(w, s.next);
      SignalDoes(s, q);
      ActiveCount(s, EntryOf(s.items, w[0]));
      SameLinked(Activate(s, EntryOf(s.items, w[0])), SignalOne(s, q));
    }
  }

  lemma SameLinked(s: State, t: State)
    requires s.timer == t.timer && s.expired == t.expired && s.active == t.active
    ensures Linked(s) == Linked(t)
  {
  }

  lemma WithoutTail<T>(a: seq<T>, b: seq<T>, x: T)
    requires x !in b
    ensures |Without(a + b, x)| >= |b| && Without(a + b, x)[|Without(a + b, x)| - |b|..] == b
  {
    WithoutConcat(a, b, x);
    WithoutAbsent(b, x);
    if x in a {
      assert Without(a, x) + b == Without(a + b, x);
    } else {
      assert a + b == Without(a + b, x);
    }
  }

  lemma WaitersExist(s: State, q: nat)
    requires Inv(s)
    ensures NoDup(Waiters(s.conds, q)) && forall id :: id in Waiters(s.conds, q) ==> id in s.items
  {
  }

  /** The last entries of `active` are those of the waits `ids`. */
  ghost predicate EndsWith(active: seq<Entry>, ids: seq<ItemId>) {
    && |active| >= |ids|
    && forall i :: 0 <= i < |ids| ==> active[|active| - |ids| + i].id == ids[i]
  }

  /** A broadcast wakes everybody: the queue is empty, and its waits are at the end of the active
      list in the order in which they began. */
  lemma BroadcastWakesAll(s: State, q: nat)
    requires Reachable(s) && Can(s, Broadcast(q))
    ensures var w, t := Waiters(s.conds, q), Do(s, Broadcast(q));
      && Waiters(t.conds, q) == [] && t.items == s.items
      && (forall id :: id in w ==> id in s.items)
      && EndsWith(t.active, w)
  {
    hide Reachable, SignalAll, Inv, NoDup, Can;
    ReachableInv(s);
    WaitersExist(s, q);
    var w := Waiters(s.conds, q);
    assert [] + w == w;
    BroadcastInv(s, q, |w|, []);
  }

  /** After some of the signals: the waits of `done` are at the end of the active list. */
  lemma {:induction false} BroadcastInv(s: State, q: nat, n: nat, done: seq<ItemId>)
    requires n == |Waiters(s.conds, q)| && NoDup(done + Waiters(s.conds, q))
    requires forall id :: id in Waiters(s.conds, q) ==> id in s.items
    requires EndsWith(s.active, done)
    ensures var w, t := done + Waiters(s.conds, q), SignalAll(s, q, n);
      Waiters(t.conds, q) == [] && t.items == s.items && EndsWith(t.active, w)
    decreases n
  {
    var w := Waiters(s.conds, q);
    if n == 0 {
      assert done + w == done;
    } else {
      var t := SignalOne(s, q);
      assert w[0] in w;
      assert done + [w[0]] + w[1..] == done + w;
      NoDupParts(done, w);
      hide NoDup, SignalOne, EndsWith;
      SignalShifts(s, q, done);
      BroadcastInv(t, q, n - 1, done + [w[0]]);
    }
  }

  lemma SignalShifts(s: State, q: nat, done: seq<ItemId>)
    requires Waiters(s.conds, q) != [] && Waiters(s.conds, q)[0] in s.items && Waiters(s.conds, q)[0] !in done
    requires EndsWith(s.active, done)
    ensures var w, t, d := Waiters(s.conds, q), SignalOne(s, q), done + [Waiters(s.conds, q)[0]];
      Waiters(t.conds, q) == w[1..] && t.items == s.items && EndsWith(t.active, d)
  {
    var e := EntryOf(s.items, Waiters(s.conds, q)[0]);
    var n := |s.active| - |done|;
    var a, b := s.active[..n], s.active[n..];
    assert s.active == a + b;
    forall k | 0 <= k < |b| ensures b[k] != e { assert b[k].id == done[k]; }
    WithoutTail(a, b, e);
    TailAt(Without(s.active, e), b);
    hide Sequences.Without;
    OneMoreId(Without(s.active, e), done, e);
  }

  lemma OneMoreId(v: seq<Entry>, done: seq<ItemId>, e: Entry)
    requires EndsWith(v, done)
    ensures EndsWith(v + [e], done + [e.id])
  {
  }

  lemma TailAt<T>(v: seq<T>, b: seq<T>)
    requires |v| >= |b| && v[|v| - |b|..] == b
    ensures forall k :: 0 <= k < |b| ==> v[|v| - |b| + k] == b[k]
  {
  }
}
