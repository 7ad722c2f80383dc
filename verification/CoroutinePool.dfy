/** The coroutine pool of CoroutinePool.cpp on the scheduler: workers that wait on one condition,
    a task queue they all serve, and `Run`, which signals idle workers and drives the event loop
    until all are idle again. */
module CoroutinePool {
  import opened Sequences

  /** A channel event. Its handler suspends once for each of `waits`; the k-th suspension lasts at
      most `waits[k]` further rounds of the event loop, less if the kernel reports an event. */
  datatype Task = Task(id: nat, waits: seq<nat>)

  datatype Status =
    | Idle                                   // in co_cond_timedwait, in the condition queue
    | Signalled                              // taken from it, in the active list
    | Suspended(task: Task, waits: seq<nat>) // in a handler, waiting for the kernel
    | Ready(task: Task, waits: seq<nat>)     // in a handler, in the active list
    | Running

  const WORD := 0x1_0000_0000 // the task count is a uint32_t

  // ----- sums over the workers

  function IdleOf(w: Status): nat { if w.Idle? then 1 else 0 }

  function Idles(ws: seq<Status>): nat { Sum(ws, IdleOf) }

  lemma {:induction false} AllIdle(ws: seq<Status>)
    ensures Idles(ws) <= |ws| && (Idles(ws) == |ws| <==> forall i :: 0 <= i < |ws| ==> ws[i].Idle?)
  {
    if ws != [] {
      AllIdle(ws[1..]);
      if forall i :: 0 <= i < |ws| ==> ws[i].Idle? {
        assert forall i :: 0 <= i < |ws[1..]| ==> ws[1..][i] == ws[i + 1];
      }
      if Idles(ws) == |ws| {
        forall i | 0 <= i < |ws| ensures ws[i].Idle? { if i > 0 { assert ws[i] == ws[1..][i - 1]; } }
      }
    }
  }

  function Rounds(waits: seq<nat>): nat {
    if waits == [] then 0 else waits[0] + 2 + Rounds(waits[1..])
  }

  function Effort(w: Status): nat {
    match w
    case Idle => 0
    case Running => 0
    case Signalled => 1
    case Suspended(_, waits) => Rounds(waits)
    case Ready(_, waits) => 1 + Rounds(waits)
  }

  function Efforts(ws: seq<Status>): nat { Sum(ws, Effort) }

  /** The suspensions that a started handler has still to come to. */
  function Left(w: Status): nat {
    match w
    case Suspended(_, waits) => if waits == [] then 0 else |waits| - 1
    case Ready(_, waits) => |waits|
    case _ => 0
  }

  function Lefts(ws: seq<Status>): nat { Sum(ws, Left) }

  function WaitCount(t: Task): nat { |t.waits| }

  function QueueEffort(ts: seq<Task>): nat {
    if ts == [] then 0 else 1 + Rounds(ts[0].waits) + QueueEffort(ts[1..])
  }

  function InHandOf(w: Status): multiset<Task> {
    if w.Suspended? || w.Ready? then multiset{w.task} else multiset{}
  }

  function InHand(ws: seq<Status>): multiset<Task> {
    if ws == [] then multiset{} else InHandOf(ws[0]) + InHand(ws[1..])
  }

  lemma {:induction false} InHandCount(ws: seq<Status>, i: nat, w: Status, t: Task)
    requires i < |ws|
    ensures InHand(ws[i := w])[t] + InHandOf(ws[i])[t] == InHand(ws)[t] + InHandOf(w)[t]
  {
    if i == 0 {
      assert ws[0 := w][1..] == ws[1..];
    } else {
      assert ws[i := w][1..] == ws[1..][i - 1 := w];
      InHandCount(ws[1..], i - 1, w, t);
    }
  }

  lemma InHandUpdate(ws: seq<Status>, i: nat, w: Status)
    requires i < |ws|
    ensures InHand(ws[i := w]) + InHandOf(ws[i]) == InHand(ws) + InHandOf(w)
  {
    hide InHand, InHandOf;
    forall t ensures InHand(ws[i := w])[t] + InHandOf(ws[i])[t] == InHand(ws)[t] + InHandOf(w)[t] {
      InHandCount(ws, i, w, t);
    }
  }

  lemma InHandCases(a: multiset<Task>, b: multiset<Task>, c: multiset<Task>, d: multiset<Task>)
    requires b + c == a + d
    ensures c == d ==> b == a
    ensures c == multiset{} ==> b == a + d
    ensures d == multiset{} ==> a == b + c
  {
    if c == d {
      forall x ensures b[x] == a[x] { assert (b + c)[x] == (a + d)[x]; }
      assert b == a;
    }
    assert c == multiset{} ==> b + c == b;
    assert d == multiset{} ==> a + d == a;
  }

  lemma {:induction false} NothingInHand(ws: seq<Status>)
    requires forall i :: 0 <= i < |ws| ==> ws[i].Idle?
    ensures InHand(ws) == multiset{} && Efforts(ws) == 0 && Lefts(ws) == 0
  {
    if ws != [] { NothingInHand(ws[1..]); }
  }

  lemma TaskStarts(started: seq<Task>, task: seq<Task>)
    requires task != []
    ensures started + task == started + [task[0]] + task[1..]
  {
  }

  lemma StartedInHand(started: seq<Task>, handled: seq<Task>, m: multiset<Task>, t: Task)
    requires multiset(started) == multiset(handled) + m
    ensures multiset(started + [t]) == multiset(handled) + (m + multiset{t})
  {
  }

  lemma HandledStarted(started: seq<Task>, handled: seq<Task>, m: multiset<Task>, t: Task)
    requires multiset(started) == multiset(handled) + m
    ensures multiset(started + [t]) == multiset(handled + [t]) + m
  {
  }

  lemma HandledEnds(started: seq<Task>, handled: seq<Task>, m: multiset<Task>, m': multiset<Task>, t: Task)
    requires multiset(started) == multiset(handled) + m && m == m' + multiset{t}
    ensures multiset(started) == multiset(handled + [t]) + m'
  {
  }

  lemma HeadAndTail<T>(s: seq<T>)
    requires NoDup(s) && s != []
    ensures NoDup(s[1..]) && s[0] !in s[1..] && forall x :: x in s <==> x == s[0] || x in s[1..]
  {
    assert s == [s[0]] + s[1..];
  }

  /** The number of batches of at most `k` needed for `n`. */
  function CeilDiv(n: nat, k: nat): nat
    requires k > 0
  {
    if n == 0 then 0 else 1 + CeilDiv(if n > k then n - k else 0, k)
  }

  lemma {:induction false} CeilDivIsCeiling(n: nat, k: nat)
    requires k > 0
    ensures n <= CeilDiv(n, k) * k < n + k
  {
    if n > 0 {
      var m := if n > k then n - k else 0;
      CeilDivIsCeiling(m, k);
      assert CeilDiv(n, k) * k == CeilDiv(m, k) * k + k;
    }
  }

  // ----- who is in which queue

  /** A worker is in the queue its status says. */
  ghost predicate Placed(cond: seq<nat>, active: seq<nat>, status: seq<Status>) {
    && NoDup(cond) && NoDup(active)
    && (forall w: nat :: w in cond <==> w < |status| && status[w].Idle?)
    && (forall w: nat :: w in active <==> w < |status| && (status[w].Signalled? || status[w].Ready?))
    && (forall w: nat :: w < |status| && status[w].Suspended? ==> status[w].waits != [])
  }

  ghost predicate InNoQueue(st: Status) {
    st.Running? || (st.Suspended? && st.waits != [])
  }

  lemma PlaceBusy(cond: seq<nat>, active: seq<nat>, status: seq<Status>, w: nat, st: Status)
    requires Placed(cond, active, status) && w < |status| && InNoQueue(status[w]) && InNoQueue(st)
    ensures Placed(cond, active, status[w := st])
  {
  }

  lemma PlaceIdle(cond: seq<nat>, active: seq<nat>, status: seq<Status>, w: nat)
    requires Placed(cond, active, status) && w < |status| && InNoQueue(status[w])
    ensures Placed(cond + [w], active, status[w := Idle])
  {
    assert w !in cond;
  }

  lemma PlaceReady(cond: seq<nat>, active: seq<nat>, status: seq<Status>, w: nat, t: Task, waits: seq<nat>)
    requires Placed(cond, active, status) && w < |status| && InNoQueue(status[w])
    ensures Placed(cond, active + [w], status[w := Ready(t, waits)])
  {
    assert w !in active;
  }

  lemma PlacePopped(cond: seq<nat>, active: seq<nat>, status: seq<Status>, st: Status)
    requires Placed(cond, active, status) && active != [] && InNoQueue(st)
    ensures active[0] < |status| && (status[active[0]].Signalled? || status[active[0]].Ready?)
    ensures Placed(cond, active[1..], status[active[0] := st])
  {
    HeadAndTail(active);
    assert active[0] in active;
  }

  lemma PlaceSignalled(cond: seq<nat>, active: seq<nat>, status: seq<Status>)
    requires Placed(cond, active, status) && cond != []
    ensures cond[0] < |status| && status[cond[0]].Idle?
    ensures Placed(cond[1..], active + [cond[0]], status[cond[0] := Signalled])
  {
    HeadAndTail(cond);
    assert cond[0] in cond && cond[0] !in active;
  }

  lemma PlaceNew(cond: seq<nat>, active: seq<nat>, status: seq<Status>)
    requires Placed(cond, active, status)
    ensures Placed(cond, active, status + [Running])
  {
  }

  lemma SumsNew(ws: seq<Status>)
    ensures Idles(ws + [Running]) == Idles(ws)
    ensures Efforts(ws + [Running]) == Efforts(ws) && Lefts(ws + [Running]) == Lefts(ws)
    ensures InHand(ws + [Running]) == InHand(ws)
  {
    SumSnoc(ws, IdleOf, Running);
    SumSnoc(ws, Effort, Running);
    SumSnoc(ws, Left, Running);
    InHandSnoc(ws);
  }

  lemma {:induction false} InHandSnoc(ws: seq<Status>)
    ensures InHand(ws + [Running]) == InHand(ws)
  {
    if ws != [] {
      InHandSnoc(ws[1..]);
      assert (ws + [Running])[1..] == ws[1..] + [Running];
    }
  }

  ghost predicate NoneRunning(status: seq<Status>) {
    forall w: nat :: w < |status| ==> !status[w].Running?
  }

  // ----- the pool

  class Pool {
    const coNum: nat
    var freeCoNum: int
    var task: seq<Task>
    var cond: seq<nat>      // the workers in the condition queue
    var active: seq<nat>    // the workers in the active list
    var status: seq<Status> // of the workers created so far
    ghost var offered: seq<Task>  // every task ever put, in order
    ghost var started: seq<Task>  // every task a worker has taken, in order
    ghost var handled: seq<Task>  // every task whose handler has returned
    ghost var slept: nat          // how often a handler has suspended

    /** Tasks are started in the order they were put, and a started task is either handled or in
        the hands of exactly one worker; a handler suspends once for each wait of its task. */
    ghost predicate Accounted()
      reads this`task, this`status, this`offered, this`started, this`handled, this`slept
    {
      && started + task == offered
      && multiset(started) == multiset(handled) + InHand(status)
      && slept + Lefts(status) == Sum(started, WaitCount)
    }

    /** The counter is the length of the condition queue, but for `owed` decrements to come. */
    ghost predicate Valid(owed: int)
      reads this
    {
      && Placed(cond, active, status) && Accounted() && |status| <= coNum
      && |cond| == Idles(status) && freeCoNum == |cond| + owed
    }

    /** All workers wait and nothing is pending. */
    ghost predicate Quiescent()
      reads this
    {
      Valid(0) && |status| == coNum && freeCoNum == coNum && active == []
    }

    /** What is left to do, in steps of workers and of the event loop. */
    ghost function Work(): nat
      reads this
    {
      Efforts(status) + QueueEffort(task)
    }

    constructor (n: nat)
      ensures coNum == n && Valid(0) && status == [] && active == [] && freeCoNum == 0
      ensures task == [] && offered == [] && handled == []
    {
      hide Idles, InHand, Efforts, Lefts, QueueEffort;
      coNum, freeCoNum := n, 0;
      task, active, cond, status := [], [], [], [];
      offered, started, handled, slept := [], [], [], 0;
      AllIdle([]);
      NothingInHand([]);
    }

    method PutTask(t: Task)
      requires Quiescent()
      modifies this`task, this`offered
      ensures Quiescent() && task == old(task) + [t] && offered == old(offered) + [t]
    {
      assert started + (task + [t]) == started + task + [t];
      task := task + [t];
      offered := offered + [t];
    }

    /** Records a worker's new status, and what that does to the sums over all workers. */
    method SetStatus(w: nat, st: Status)
      requires w < |status|
      modifies this`status
      ensures status == old(status)[w := st]
      ensures Idles(status) + IdleOf(old(status)[w]) == Idles(old(status)) + IdleOf(st)
      ensures Efforts(status) + Effort(old(status)[w]) == Efforts(old(status)) + Effort(st)
      ensures Lefts(status) + Left(old(status)[w]) == Lefts(old(status)) + Left(st)
      ensures InHandOf(old(status)[w]) == InHandOf(st) ==> InHand(status) == InHand(old(status))
      ensures InHandOf(old(status)[w]) == multiset{} ==> InHand(status) == InHand(old(status)) + InHandOf(st)
      ensures InHandOf(st) == multiset{} ==> InHand(old(status)) == InHand(status) + InHandOf(old(status)[w])
    {
      SumUpdate(status, IdleOf, w, st);
      SumUpdate(status, Effort, w, st);
      SumUpdate(status, Left, w, st);
      InHandUpdate(status, w, st);
      InHandCases(InHand(status), InHand(status[w := st]), InHandOf(status[w]), InHandOf(st));
      status := status[w := st];
    }

    /** Lines 55 and 56 of CoroutineFun: the worker counts itself idle and waits. */
    method GoIdle(w: nat)
      requires Valid(0) && w < |status| && status[w].Running?
      modifies this`freeCoNum, this`cond, this`status
      ensures Valid(0) && status == old(status)[w := Idle] && cond == old(cond) + [w] && Work() == old(Work())
    {
      hide Idles, InHand, Efforts, Lefts, QueueEffort, Placed, Sum, NoDup;
      PlaceIdle(cond, active, status, w);
      freeCoNum := freeCoNum + 1;
      cond := cond + [w];
      SetStatus(w, Idle);
    }

    /** Lines 60 to 62 of CoroutineFun: takes the front task and runs its handler to the end or to
        its first suspension. */
    method Serve(w: nat)
      requires Valid(0) && w < |status| && status[w].Running? && task != []
      modifies this`task, this`status, this`started, this`handled, this`slept
      ensures Valid(0) && task == old(task)[1..] && Work() < old(Work())
      ensures var t := old(task)[0];
              && started == old(started) + [t]
              && if t.waits == [] then handled == old(handled) + [t] && status == old(status)
                 else handled == old(handled) && status == old(status)[w := Suspended(t, t.waits)]
    {
      hide Valid, Work;
      if task[0].waits == [] { ServeAtOnce(w); } else { ServeInParts(w); }
    }

    /** A handler that does not suspend. */
    method ServeAtOnce(w: nat)
      requires Valid(0) && w < |status| && status[w].Running? && task != [] && task[0].waits == []
      modifies this`task, this`started, this`handled
      ensures Valid(0) && task == old(task)[1..] && Work() < old(Work())
      ensures started == old(started) + [old(task)[0]] && handled == old(handled) + [old(task)[0]]
    {
      hide Idles, InHand, Efforts, Lefts, Placed, Sum, NoDup;
      var t := task[0];
      SumSnoc(started, WaitCount, t);
      TaskStarts(started, task);
      HandledStarted(started, handled, InHand(status), t);
      task := task[1..];
      started := started + [t];
      handled := handled + [t];
    }

    /** A handler that does. */
    method ServeInParts(w: nat)
      requires Valid(0) && w < |status| && status[w].Running? && task != [] && task[0].waits != []
      modifies this`task, this`status, this`started, this`slept
      ensures Valid(0) && task == old(task)[1..] && Work() < old(Work())
      ensures started == old(started) + [old(task)[0]] && status == old(status)[w := Suspended(old(task)[0], old(task)[0].waits)]
    {
      hide Idles, InHand, Efforts, Lefts, Placed, Sum, NoDup;
      var t := TakeFront();
      Suspend(w, t);
    }

    /** The front task is in somebody's hands, who has not yet begun its handler. */
    ghost predicate InTransit(t: Task)
      reads this
    {
      && Placed(cond, active, status) && |status| <= coNum
      && |cond| == Idles(status) == freeCoNum
      && started + task == offered
      && multiset(started) == multiset(handled) + (InHand(status) + multiset{t})
      && slept + Lefts(status) + |t.waits| == Sum(started, WaitCount)
    }

    method TakeFront() returns (t: Task)
      requires Valid(0) && task != []
      modifies this`task, this`started
      ensures t == old(task)[0] && InTransit(t) && task == old(task)[1..] && started == old(started) + [t]
      ensures QueueEffort(old(task)) == 1 + Rounds(t.waits) + QueueEffort(task)
    {
      hide Idles, InHand, Efforts, Lefts, Placed, Sum, Rounds, NoDup;
      t := task[0];
      SumSnoc(started, WaitCount, t);
      TaskStarts(started, task);
      StartedInHand(started, handled, InHand(status), t);
      task := task[1..];
      started := started + [t];
    }

    method Suspend(w: nat, t: Task)
      requires InTransit(t) && w < |status| && status[w].Running? && t.waits != []
      modifies this`status, this`slept
      ensures Valid(0) && status == old(status)[w := Suspended(t, t.waits)]
      ensures Efforts(status) == old(Efforts(status)) + Rounds(t.waits)
    {
      hide Idles, InHand, Efforts, Lefts, Placed, Sum, Rounds, NoDup;
      PlaceBusy(cond, active, status, w, Suspended(t, t.waits));
      SetStatus(w, Suspended(t, t.waits));
      slept := slept + 1;
    }

    /** CoroutineFun from the loop test on, until the worker suspends. */
    method WorkerLoop(w: nat)
      requires Valid(0) && w < |status| && status[w].Running?
      modifies this`freeCoNum, this`task, this`cond, this`status, this`started, this`handled, this`slept
      ensures Valid(0) && |status| == old(|status|)
      ensures status[w].Suspended? || (status[w].Idle? && task == [])
      ensures forall v: nat :: v < |status| && v != w ==> status[v] == old(status)[v]
      ensures Work() <= old(Work())
    {
      hide Valid, Work;
      while true
        invariant Valid(0) && |status| == old(|status|) && status[w].Running?
        invariant forall v: nat :: v < |status| && v != w ==> status[v] == old(status)[v]
        invariant Work() <= old(Work())
        decreases |task|
      {
        if |task| == 0 {
          GoIdle(w);
          return;
        }
        Serve(w);
        if status[w].Suspended? { return; }
      }
    }

    /** The active list's head is resumed: a worker taken from the condition queue tests the task
        queue again; one inside a handler goes on to its next suspension or to the end. */
    method Dispatch()
      requires Valid(0) && active != [] && NoneRunning(status)
      modifies this`freeCoNum, this`task, this`cond, this`active, this`status, this`started, this`handled, this`slept
      ensures Valid(0) && |status| == old(|status|) && active == old(active)[1..] && Work() < old(Work())
      ensures NoneRunning(status) && (task == [] || Idles(status) < |status|)
    {
      hide Valid, Work, Placed;
      var w := active[0];
      PopActive(w);
      if status[w].Running? {
        WorkerLoop(w);
      }
      AllIdle(status);
    }

    /** What happens before the worker's next test of the task queue or next suspension. */
    method PopActive(w: nat)
      requires Valid(0) && active != [] && w == active[0]
      modifies this`active, this`status, this`handled, this`slept
      ensures Valid(0) && w < old(|status|) && active == old(active)[1..] && Work() < old(Work())
      ensures |status| == old(|status|) && InNoQueue(status[w])
      ensures status == old(status)[w :=
                match old(status)[w]
                case Ready(t, waits) => if waits == [] then Running else Suspended(t, waits)
                case _ => Running]
    {
      hide Valid, Work, Placed;
      HeadPlaced();
      if status[w].Ready? {
        var t, rest := status[w].task, status[w].waits;
        if rest == [] { HandlerEnds(w, t); } else { PopTo(w, Suspended(t, rest)); }
      } else {
        PopTo(w, Running);
      }
    }

    lemma HeadPlaced()
      requires Valid(0) && active != []
      ensures active[0] < |status| && (status[active[0]].Signalled? || status[active[0]].Ready?)
    {
      PlacePopped(cond, active, status, Running);
    }

    /** The head of the active list runs and, if it is inside a handler, suspends again. */
    method PopTo(w: nat, st: Status)
      requires Valid(0) && active != [] && w == active[0] && w < |status| && InNoQueue(st)
      requires (status[w].Signalled? && st.Running?) || (status[w].Ready? && st == Suspended(status[w].task, status[w].waits))
      modifies this`active, this`status, this`slept
      ensures Valid(0) && active == old(active)[1..] && status == old(status)[w := st] && Work() < old(Work())
    {
      hide Idles, InHand, Efforts, Lefts, QueueEffort, Placed, Sum, NoDup;
      PlacePopped(cond, active, status, st);
      active := active[1..];
      SetStatus(w, st);
      if st.Suspended? { slept := slept + 1; }
    }

    method HandlerEnds(w: nat, t: Task)
      requires Valid(0) && active != [] && w == active[0] && w < |status| && status[w] == Ready(t, [])
      modifies this`active, this`status, this`handled
      ensures Valid(0) && active == old(active)[1..] && status == old(status)[w := Running] && Work() < old(Work())
      ensures handled == old(handled) + [t]
    {
      hide Idles, InHand, Efforts, Lefts, QueueEffort, Placed, Sum, NoDup;
      PlacePopped(cond, active, status, Running);
      active := active[1..];
      SetStatus(w, Running);
      HandledEnds(started, handled, old(InHand(status)), InHand(status), t);
      handled := handled + [t];
    }

    /** co_cond_signal. */
    method CondSignal()
      requires Valid(0)
      modifies this`cond, this`active, this`status
      ensures old(cond) == [] ==> unchanged(this)
      ensures old(cond) != [] ==>
                var w := old(cond)[0];
                Valid(1) && w < old(|status|)
                && cond == old(cond)[1..] && active == old(active) + [w] && status == old(status)[w := Signalled]
    {
      if cond != [] {
        MoveHead();
      }
    }

    method MoveHead()
      requires Valid(0) && cond != []
      modifies this`cond, this`active, this`status
      ensures var w := old(cond)[0];
              Valid(1) && w < old(|status|)
              && cond == old(cond)[1..] && active == old(active) + [w] && status == old(status)[w := Signalled]
    {
      hide Idles, InHand, Efforts, Lefts, Placed, Sum, Rounds, NoDup;
      var w := cond[0];
      PlaceSignalled(cond, active, status);
      cond := cond[1..];
      active := active + [w];
      SetStatus(w, Signalled);
    }

    /** One epoll batch and sweep: of the workers suspended in a handler, in any order, the kernel
        makes ready those whose waiting time is over and any others it likes. */
    method KernelRound()
      requires Valid(0) && NoneRunning(status)
      modifies this`active, this`status
      ensures Valid(0) && |status| == old(|status|) && NoneRunning(status)
      ensures Idles(status) == old(Idles(status))
      ensures Work() < old(Work()) || (unchanged(this) && forall w: nat :: w < |status| ==> !status[w].Suspended?)
    {
      hide Idles, InHand, Efforts, QueueEffort, Rounds;
      var pending := set w: nat | w < |status| && status[w].Suspended?;
      while pending != {}
        invariant Valid(0) && |status| == old(|status|) && NoneRunning(status)
        invariant forall w :: w in pending ==> w < |status| && status[w].Suspended?
        invariant Work() <= old(Work()) && Idles(status) == old(Idles(status))
        invariant Work() < old(Work()) || (unchanged(this) && forall w: nat :: w < |status| && status[w].Suspended? ==> w in pending)
        invariant forall w :: w in pending ==> status[w].waits != []
      {
        var w :| w in pending;
        pending := pending - {w};
        var fires: bool := *;
        Tick(w, fires);
      }
    }

    method Tick(w: nat, fires: bool)
      requires Valid(0) && w < |status| && status[w].Suspended? && status[w].waits != []
      modifies this`active, this`status
      ensures Valid(0) && |status| == old(|status|) && !status[w].Running?
      ensures forall v: nat :: v < |status| && v != w ==> status[v] == old(status)[v]
      ensures Work() < old(Work()) && Idles(status) == old(Idles(status))
      ensures var t, waits := old(status)[w].task, old(status)[w].waits;
              if waits[0] == 0 || fires then status[w] == Ready(t, waits[1..]) && active == old(active) + [w]
              else status[w] == Suspended(t, [waits[0] - 1] + waits[1..]) && active == old(active)
    {
      hide Idles, InHand, Efforts, Lefts, QueueEffort, Placed, Sum, NoDup;
      var t, waits := status[w].task, status[w].waits;
      PlaceReady(cond, active, status, w, t, waits[1..]);
      PlaceBusy(cond, active, status, w, Suspended(t, if waits[0] > 0 then [waits[0] - 1] + waits[1..] else waits));
      if waits[0] == 0 || fires {
        active := active + [w];
        SetStatus(w, Ready(t, waits[1..]));
      } else {
        SetStatus(w, Suspended(t, [waits[0] - 1] + waits[1..]));
      }
    }

    lemma NothingPending()
      requires Valid(0) && NoneRunning(status) && active == []
      requires forall w: nat :: w < |status| ==> !status[w].Suspended?
      ensures Idles(status) == |status|
    {
      forall w | 0 <= w < |status| ensures status[w].Idle? { assert w !in active; }
      AllIdle(status);
    }

    /** One turn of co_eventloop: epoll, the sweep, then the active list until it is empty. */
    method Round()
      requires Valid(0) && NoneRunning(status) && freeCoNum < |status| && (task == [] || Idles(status) < |status|)
      modifies this`freeCoNum, this`task, this`cond, this`active, this`status, this`started, this`handled, this`slept
      ensures Valid(0) && |status| == old(|status|) && NoneRunning(status) && active == []
      ensures (task == [] || Idles(status) < |status|) && Work() < old(Work())
    {
      hide Work, Placed, Accounted, Idles;
      KernelRound();
      if active == [] && Work() == old(Work()) { NothingPending(); }
      while active != []
        invariant Valid(0) && |status| == old(|status|) && NoneRunning(status)
        invariant task == [] || Idles(status) < |status|
        invariant Work() < old(Work()) || (Work() == old(Work()) && active != [])
        decreases Work()
      {
        Dispatch();
      }
    }

    /** co_eventloop with CheckFinish as its last call: it ends, and only when all workers wait. */
    method EventLoop()
      requires Valid(0) && NoneRunning(status) && |status| == coNum && freeCoNum < coNum
      modifies this`freeCoNum, this`task, this`cond, this`active, this`status, this`started, this`handled, this`slept
      ensures Quiescent() && task == []
    {
      hide Work, Placed, Accounted, Idles;
      assert Idles(status) < |status|;
      while true
        invariant Valid(0) && NoneRunning(status) && |status| == coNum && freeCoNum < coNum
        invariant task == [] || Idles(status) < |status|
        decreases Work()
      {
        Round();
        AllIdle(status);
        if freeCoNum == coNum { return; }
      }
    }

    method AddWorker()
      requires Valid(0) && task == [] && active == [] && |status| < coNum
      modifies this`status
      ensures Valid(0) && status == old(status) + [Running]
    {
      PlaceNew(cond, active, status);
      SumsNew(status);
      status := status + [Running];
    }

    /** Every worker runs until it waits for its first task. */
    method Start()
      requires Valid(0) && status == [] && active == [] && task == []
      modifies this`freeCoNum, this`task, this`cond, this`status, this`started, this`handled, this`slept
      ensures Quiescent() && task == []
    {
      hide Work, Placed, Accounted;
      for i := 0 to coNum
        invariant Valid(0) && |status| == i && active == [] && task == []
        invariant Idles(status) == i
      {
        SumsNew(status);
        AddWorker();
        label L:
        SumUpdate(status, IdleOf, i, Idle);
        StartWorker(i);
      }
    }

    method StartWorker(w: nat)
      requires Valid(0) && w < |status| && status[w].Running? && task == []
      modifies this`freeCoNum, this`task, this`cond, this`status, this`started, this`handled, this`slept
      ensures Valid(0) && status == old(status)[w := Idle] && task == []
    {
      hide Work, Placed, Accounted, Idles;
      GoIdle(w);
    }

    /** The inner loop of Run: one signal for each task while a worker is idle. Without workers it
        does nothing. */
    method SignalIdle(size: nat) returns (left: nat)
      requires Quiescent() && NoneRunning(status) && size > 0
      modifies this`freeCoNum, this`cond, this`active, this`status
      ensures Valid(0) && NoneRunning(status) && |status| == coNum && (coNum > 0 ==> freeCoNum < coNum)
      ensures left == if size > coNum then size - coNum else 0
      ensures coNum == 0 ==> freeCoNum == 0 && cond == old(cond) && active == old(active) && status == old(status)
    {
      hide Work, Placed, Accounted, Idles;
      left := size;
      while freeCoNum > 0 && left > 0
        invariant Valid(0) && NoneRunning(status) && |status| == coNum
        invariant 0 <= freeCoNum && left <= size && coNum - freeCoNum == size - left
        invariant coNum == 0 ==> cond == old(cond) && active == old(active) && status == old(status)
      {
        CondSignal();
        freeCoNum := freeCoNum - 1;
        left := left - 1;
      }
    }

    lemma QuiescentIsIdle()
      requires Quiescent()
      ensures NoneRunning(status) && InHand(status) == multiset{} && Lefts(status) == 0
    {
      AllIdle(status);
      NothingInHand(status);
    }

    /** Run ends, in ceil(n / coNum) turns of its outer loop, with all workers waiting. The count n
        of tasks is kept in 32 bits: unless it is a positive multiple of 2^32, every task ever put
        has been taken in the order it was put and handled exactly once, with one suspension for each
        of its waits; if it is, no task is. With no workers and a count above 0 the outer loop goes
        on for ever, as its turn changes nothing. */
    method Run() returns (rounds: nat)
      requires Quiescent() && (coNum > 0 || |task| % WORD == 0)
      modifies this`freeCoNum, this`task, this`cond, this`active, this`status, this`started, this`handled, this`slept
      ensures Quiescent()
      ensures if coNum == 0 then rounds == 0 else rounds == CeilDiv(|old(task)| % WORD, coNum)
      ensures task == [] <==> old(task) == [] || |old(task)| % WORD != 0
      ensures task == [] ==> started == offered && multiset(handled) == multiset(offered) && slept == Sum(offered, WaitCount)
      ensures task != [] ==> task == old(task) && handled == old(handled)
    {
      hide Work, Placed, Accounted, Idles, Valid;
      var size: nat := |task| % WORD;
      rounds := 0;
      while size > 0
        invariant Quiescent()
        invariant if coNum == 0 then size == rounds == 0 else rounds + CeilDiv(size, coNum) == CeilDiv(|old(task)| % WORD, coNum)
        invariant if rounds == 0 then size == |task| % WORD && task == old(task) && handled == old(handled) else task == []
      {
        QuiescentIsIdle();
        size := SignalIdle(size);
        if freeCoNum < coNum { EventLoop(); }
        rounds := rounds + 1;
      }
      QuiescentIsIdle();
      Settled();
    }

    lemma Settled()
      requires Quiescent() && InHand(status) == multiset{} && Lefts(status) == 0
      ensures task == [] ==> started == offered && multiset(handled) == multiset(offered) && slept == Sum(offered, WaitCount)
    {
    }
  }
}
