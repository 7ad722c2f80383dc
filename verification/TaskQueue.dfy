/** The bounded double-buffered task queue of Task.cpp: consumers in take_task, producers in
    put_task and the swapper thread, with two mutexes and three condition variables, as a
    transition system over program counters. Any thread asleep on a condition may also wake up
    spuriously. */
module TaskQueue {
  import opened Sequences

  datatype Consumer =
    | COutside       // not in take_task
    | CLock          // at line 15
    | CCheck         // holds the mutex, at the loop test of line 16
    | CWait          // holds the mutex, has signalled, at line 19
    | CAsleep
    | CRelock        // woken, needs the mutex back
    | CUnlock(task: nat)  // holds the mutex, has taken a task, at line 23

  datatype Producer =
    | POutside
    | PLock(rest: seq<nat>)     // at line 29
    | PHold(rest: seq<nat>)     // holds the mutex, `rest` still to push
    | PWait(rest: seq<nat>)     // holds the mutex, has signalled, at line 35
    | PAsleep(rest: seq<nat>)
    | PRelock(rest: seq<nat>)
    | PSignal                   // holds the mutex, at line 39
    | PUnlock

  datatype Swapper =
    | S0                 // at line 48
    | S1                 // holds the consumer mutex, at the loop test of line 49
    | SAsleep1
    | SRelock1
    | S2                 // consumer queue empty, at line 53
    | S3                 // holds both, at the loop test of line 54
    | SAsleep2           // asleep, still holding the consumer mutex
    | SRelock2
    | S4                 // at line 58
    | S5 | S6 | S7 | S8  // at lines 59 to 62

  datatype Holder = Free | BySwapper | ByConsumer(i: nat) | ByProducer(j: nat)

  datatype State = State(
    max: nat,
    product: seq<nat>,
    consum: seq<nat>,
    consumers: seq<Consumer>,
    producers: seq<Producer>,
    swapper: Swapper,
    productMutex: Holder,
    consumerMutex: Holder,
    pushed: seq<nat>,  // every task ever pushed, in order
    taken: seq<nat>,   // every task ever taken, in order
    returned: seq<nat>)  // every task a take_task has returned, in order

  /** A call begins. */
  datatype Call = Take(i: nat) | Put(j: nat, tasks: seq<nat>)

  /** A step of a thread inside a call, or of the swapper. */
  datatype Move = Consume(i: nat) | Produce(j: nat) | Swap

  datatype Event =
    | Begin(c: Call)
    | Internal(m: Move)
    | Spurious(m: Move)

  // ----- condition variables

  /** pthread_cond_signal on Swap_Cond: only the swapper ever waits there. */
  function Signalled(w: Swapper): Swapper {
    match w
    case SAsleep1 => SRelock1
    case SAsleep2 => SRelock2
    case _ => w
  }

  function WokenConsumer(c: Consumer): Consumer {
    if c == CAsleep then CRelock else c
  }

  function WokenProducer(p: Producer): Producer {
    if p.PAsleep? then PRelock(p.rest) else p
  }

  function WokenConsumers(cs: seq<Consumer>): (r: seq<Consumer>)
    ensures |r| == |cs| && forall i :: 0 <= i < |cs| ==> r[i] == WokenConsumer(cs[i])
  {
    seq(|cs|, i requires 0 <= i < |cs| => WokenConsumer(cs[i]))
  }

  function WokenProducers(ps: seq<Producer>): (r: seq<Producer>)
    ensures |r| == |ps| && forall i :: 0 <= i < |ps| ==> r[i] == WokenProducer(ps[i])
  {
    seq(|ps|, i requires 0 <= i < |ps| => WokenProducer(ps[i]))
  }

  // ----- the moves

  predicate CanConsume(s: State, i: nat) {
    i < |s.consumers| &&
    match s.consumers[i]
    case CLock => s.consumerMutex == Free
    case CRelock => s.consumerMutex == Free
    case CCheck => true
    case CWait => true
    case CUnlock(_) => true
    case _ => false
  }

  function Consumed(s: State, i: nat): State
    requires CanConsume(s, i)
  {
    match s.consumers[i]
    case CCheck =>
      if s.consum == [] then s.(consumers := s.consumers[i := CWait], swapper := Signalled(s.swapper))
      else s.(consumers := s.consumers[i := CUnlock(s.consum[0])], taken := s.taken + [s.consum[0]], consum := s.consum[1..])
    case CWait => s.(consumers := s.consumers[i := CAsleep], consumerMutex := Free)
    case CUnlock(task) => s.(consumers := s.consumers[i := COutside], consumerMutex := Free, returned := s.returned + [task])
    case _ => s.(consumers := s.consumers[i := CCheck], consumerMutex := ByConsumer(i))
  }

  predicate CanProduce(s: State, j: nat) {
    j < |s.producers| &&
    match s.producers[j]
    case PLock(_) => s.productMutex == Free
    case PRelock(_) => s.productMutex == Free
    case PHold(_) => true
    case PWait(_) => true
    case PSignal => true
    case PUnlock => true
    case _ => false
  }

  function Produced(s: State, j: nat): State
    requires CanProduce(s, j)
  {
    match s.producers[j]
    case PHold(rest) =>
      if rest == [] then s.(producers := s.producers[j := PSignal])
      else if |s.product| == s.max then s.(producers := s.producers[j := PWait(rest)], swapper := Signalled(s.swapper))
      else s.(producers := s.producers[j := PHold(rest[1..])], product := s.product + [rest[0]], pushed := s.pushed + [rest[0]])
    case PWait(rest) => s.(producers := s.producers[j := PAsleep(rest)], productMutex := Free)
    case PSignal => s.(producers := s.producers[j := PUnlock], swapper := Signalled(s.swapper))
    case PUnlock => s.(producers := s.producers[j := POutside], productMutex := Free)
    case PLock(rest) => s.(producers := s.producers[j := PHold(rest)], productMutex := ByProducer(j))
    case PRelock(rest) => s.(producers := s.producers[j := PHold(rest)], productMutex := ByProducer(j))
    case _ => s
  }

  predicate CanSwap(s: State) {
    match s.swapper
    case S0 => s.consumerMutex == Free
    case SRelock1 => s.consumerMutex == Free
    case S2 => s.productMutex == Free
    case SRelock2 => s.productMutex == Free
    case SAsleep1 => false
    case SAsleep2 => false
    case _ => true
  }

  function Swapped(s: State): State
    requires CanSwap(s)
  {
    match s.swapper
    case S1 => if s.consum != [] then s.(swapper := SAsleep1, consumerMutex := Free) else s.(swapper := S2)
    case S2 => s.(swapper := S3, productMutex := BySwapper)
    case SRelock2 => s.(swapper := S3, productMutex := BySwapper)
    case S3 => if s.product == [] then s.(swapper := SAsleep2, productMutex := Free) else s.(swapper := S4)
    case S4 => s.(swapper := S5, product := s.consum, consum := s.product)
    case S5 => s.(swapper := S6, consumers := WokenConsumers(s.consumers))
    case S6 => s.(swapper := S7, producers := WokenProducers(s.producers))
    case S7 => s.(swapper := S8, productMutex := Free)
    case S8 => s.(swapper := S0, consumerMutex := Free)
    case _ => s.(swapper := S1, consumerMutex := BySwapper)
  }

  predicate CanMove(s: State, m: Move) {
    match m
    case Consume(i) => CanConsume(s, i)
    case Produce(j) => CanProduce(s, j)
    case Swap => CanSwap(s)
  }

  function Moved(s: State, m: Move): State
    requires CanMove(s, m)
  {
    match m
    case Consume(i) => Consumed(s, i)
    case Produce(j) => Produced(s, j)
    case Swap => Swapped(s)
  }

  predicate Can(s: State, e: Event) {
    match e
    case Begin(Take(i)) => i < |s.consumers| && s.consumers[i] == COutside
    case Begin(Put(j, _)) => j < |s.producers| && s.producers[j] == POutside
    case Internal(m) => CanMove(s, m)
    case Spurious(Consume(i)) => i < |s.consumers| && s.consumers[i] == CAsleep
    case Spurious(Produce(j)) => j < |s.producers| && s.producers[j].PAsleep?
    case Spurious(Swap) => s.swapper == SAsleep1 || s.swapper == SAsleep2
  }

  function Do(s: State, e: Event): State
    requires Can(s, e)
  {
    match e
    case Begin(Take(i)) => s.(consumers := s.consumers[i := CLock])
    case Begin(Put(j, tasks)) => s.(producers := s.producers[j := PLock(tasks)])
    case Internal(m) => Moved(s, m)
    case Spurious(Consume(i)) => s.(consumers := s.consumers[i := CRelock])
    case Spurious(Produce(j)) => s.(producers := s.producers[j := PRelock(s.producers[j].rest)])
    case Spurious(Swap) => s.(swapper := Signalled(s.swapper))
  }

  function Init(max: nat, consumers: nat, producers: nat): State {
    State(max, [], [], seq(consumers, _ => COutside), seq(producers, _ => POutside), S0, Free, Free, [], [], [])
  }

  // ----- the invariant

  predicate ConsumerHolds(c: Consumer) { c == CCheck || c == CWait || c.CUnlock? }

  predicate ProducerHolds(p: Producer) { p.PHold? || p.PWait? || p.PSignal? || p.PUnlock? }

  predicate SwapperHoldsConsumer(w: Swapper) { w != S0 && w != SAsleep1 && w != SRelock1 }

  predicate SwapperHoldsProduct(w: Swapper) { w == S3 || w == S4 || w == S5 || w == S6 || w == S7 }

  /** A mutex is held by whom the program counters say. */
  ghost predicate LocksOk(s: State) {
    && (forall i :: 0 <= i < |s.consumers| ==> (ConsumerHolds(s.consumers[i]) <==> s.consumerMutex == ByConsumer(i)))
    && (SwapperHoldsConsumer(s.swapper) <==> s.consumerMutex == BySwapper)
    && (s.consumerMutex.ByConsumer? ==> s.consumerMutex.i < |s.consumers|) && !s.consumerMutex.ByProducer?
    && (forall j :: 0 <= j < |s.producers| ==> (ProducerHolds(s.producers[j]) <==> s.productMutex == ByProducer(j)))
    && (SwapperHoldsProduct(s.swapper) <==> s.productMutex == BySwapper)
    && (s.productMutex.ByProducer? ==> s.productMutex.j < |s.producers|) && !s.productMutex.ByConsumer?
  }

  /** First in, first out, and bounded. */
  ghost predicate QueuesOk(s: State) {
    && s.taken + s.consum + s.product == s.pushed
    && |s.product| <= s.max && |s.consum| <= s.max
    && (s.swapper == S2 || s.swapper == S3 || s.swapper == SAsleep2 || s.swapper == SRelock2 || s.swapper == S4 ==> s.consum == [])
    && (s.swapper == S4 ==> s.product != [])
  }

  /** Who sleeps has a reason to. */
  ghost predicate SleepOk(s: State) {
    && (forall i :: 0 <= i < |s.consumers| && s.consumers[i] == CAsleep ==>
          s.swapper != SAsleep1 && (s.consum == [] || s.swapper == S5))
    && (forall i :: 0 <= i < |s.consumers| && s.consumers[i] == CWait ==> s.swapper != SAsleep1 && s.consum == [])
    && (s.swapper == SAsleep2 && s.product != [] ==>
          s.productMutex.ByProducer? && s.productMutex.j < |s.producers| &&
          (s.producers[s.productMutex.j].PHold? || s.producers[s.productMutex.j].PSignal?))
    && (forall j :: 0 <= j < |s.producers| && s.producers[j].PAsleep? ==>
          |s.product| == s.max || s.swapper == S5 || s.swapper == S6)
    && (forall j :: 0 <= j < |s.producers| && s.producers[j].PWait? ==> |s.product| == s.max)
  }

  /** The task that a take_task is about to return. */
  function InHand(s: State): seq<nat> {
    match s.consumerMutex
    case ByConsumer(i) => if i < |s.consumers| && s.consumers[i].CUnlock? then [s.consumers[i].task] else []
    case _ => []
  }

  ghost predicate Inv(s: State) {
    LocksOk(s) && QueuesOk(s) && SleepOk(s) && s.returned + InHand(s) == s.taken
  }

  lemma ConsumeKeeps(s: State, i: nat)
    requires Inv(s) && CanConsume(s, i)
    ensures Inv(Consumed(s, i))
  {
    if s.consumers[i] == CCheck && s.consum != [] {
      assert s.taken + s.consum == s.taken + [s.consum[0]] + s.consum[1..];
    }
  }

  lemma ProduceLocks(s: State, j: nat)
    requires LocksOk(s) && CanProduce(s, j)
    ensures LocksOk(Produced(s, j)) && InHand(Produced(s, j)) == InHand(s)
  {
  }

  lemma ProduceQueues(s: State, j: nat)
    requires QueuesOk(s) && LocksOk(s) && CanProduce(s, j)
    ensures QueuesOk(Produced(s, j))
  {
    if s.producers[j].PHold? && s.producers[j].rest != [] {
      var x := s.producers[j].rest[0];
      assert s.taken + s.consum + (s.product + [x]) == s.taken + s.consum + s.product + [x];
    }
  }

  lemma ProduceSleep(s: State, j: nat)
    requires SleepOk(s) && LocksOk(s) && QueuesOk(s) && CanProduce(s, j)
    ensures SleepOk(Produced(s, j))
  {
  }

  lemma ProduceKeeps(s: State, j: nat)
    requires Inv(s) && CanProduce(s, j)
    ensures Inv(Produced(s, j))
  {
    hide LocksOk, QueuesOk, SleepOk, InHand;
    ProduceLocks(s, j);
    ProduceQueues(s, j);
    ProduceSleep(s, j);
  }

  lemma SwapLocks(s: State)
    requires LocksOk(s) && CanSwap(s)
    ensures LocksOk(Swapped(s)) && InHand(Swapped(s)) == InHand(s)
  {
  }

  lemma SwapQueues(s: State)
    requires QueuesOk(s) && CanSwap(s)
    ensures QueuesOk(Swapped(s))
  {
    if s.swapper == S4 { assert s.taken + [] + s.product == s.taken + s.product + []; }
  }

  lemma SwapSleep(s: State)
    requires SleepOk(s) && LocksOk(s) && QueuesOk(s) && CanSwap(s)
    ensures SleepOk(Swapped(s))
  {
  }

  lemma SwapKeeps(s: State)
    requires Inv(s) && CanSwap(s)
    ensures Inv(Swapped(s))
  {
    hide LocksOk, QueuesOk, SleepOk, InHand;
    SwapLocks(s);
    SwapQueues(s);
    SwapSleep(s);
  }

  lemma BeginLocks(s: State, e: Event)
    requires LocksOk(s) && Can(s, e) && !e.Internal?
    ensures LocksOk(Do(s, e))
  {
  }

  lemma BeginSleep(s: State, e: Event)
    requires LocksOk(s) && SleepOk(s) && Can(s, e) && !e.Internal?
    ensures SleepOk(Do(s, e))
  {
  }

  lemma BeginInHand(s: State, e: Event)
    requires LocksOk(s) && Can(s, e) && !e.Internal?
    ensures InHand(Do(s, e)) == InHand(s)
  {
  }

  lemma BeginKeeps(s: State, e: Event)
    requires Inv(s) && Can(s, e) && !e.Internal?
    ensures Inv(Do(s, e))
  {
    BeginLocks(s, e);
    BeginSleep(s, e);
    BeginInHand(s, e);
    hide LocksOk, SleepOk, InHand;
  }

  lemma StepKeeps(s: State, e: Event)
    requires Inv(s) && Can(s, e)
    ensures Inv(Do(s, e))
  {
    hide Inv;
    match e
    case Internal(Consume(i)) => ConsumeKeeps(s, i);
    case Internal(Produce(j)) => ProduceKeeps(s, j);
    case Internal(Swap) => SwapKeeps(s);
    case _ => BeginKeeps(s, e);
  }

  // ----- every run

  ghost predicate Run(s: State, evs: seq<Event>)
    decreases |evs|
  {
    evs == [] || (Can(s, evs[0]) && Run(Do(s, evs[0]), evs[1..]))
  }

  ghost function After(s: State, evs: seq<Event>): State
    requires Run(s, evs)
    decreases |evs|
  {
    if evs == [] then s else After(Do(s, evs[0]), evs[1..])
  }

  ghost predicate ReachableFrom(max: nat, consumers: nat, producers: nat, s: State) {
    exists evs :: Run(Init(max, consumers, producers), evs) && After(Init(max, consumers, producers), evs) == s
  }

  ghost predicate Reachable(s: State) {
    exists max: nat, consumers: nat, producers: nat :: ReachableFrom(max, consumers, producers, s)
  }

  lemma {:induction false} RunKeeps(s: State, evs: seq<Event>)
    requires Inv(s) && Run(s, evs)
    ensures Inv(After(s, evs))
    decreases |evs|
  {
    hide Inv, Can, Do;
    if evs != [] {
      StepKeeps(s, evs[0]);
      RunKeeps(Do(s, evs[0]), evs[1..]);
    }
  }

  lemma StepSizes(s: State, e: Event)
    requires Can(s, e)
    ensures var t := Do(s, e);
            t.max == s.max && |t.consumers| == |s.consumers| && |t.producers| == |s.producers|
  {
  }

  lemma {:induction false} RunSizes(s: State, evs: seq<Event>)
    requires Run(s, evs)
    ensures var t := After(s, evs);
            t.max == s.max && |t.consumers| == |s.consumers| && |t.producers| == |s.producers|
    decreases |evs|
  {
    hide Can, Do;
    if evs != [] {
      StepSizes(s, evs[0]);
      RunSizes(Do(s, evs[0]), evs[1..]);
    }
  }

  lemma ReachableFromInv(max: nat, consumers: nat, producers: nat, s: State)
    requires ReachableFrom(max, consumers, producers, s)
    ensures Inv(s) && s.max == max && |s.consumers| == consumers && |s.producers| == producers
  {
    hide Can, Do;
    var evs :| Run(Init(max, consumers, producers), evs) && After(Init(max, consumers, producers), evs) == s;
    RunKeeps(Init(max, consumers, producers), evs);
    RunSizes(Init(max, consumers, producers), evs);
  }

  lemma ReachableInv(s: State)
    requires Reachable(s)
    ensures Inv(s)
  {
    hide ReachableFrom, Inv;
    var max: nat, consumers: nat, producers: nat :| ReachableFrom(max, consumers, producers, s);
    ReachableFromInv(max, consumers, producers, s);
  }

  /** The queue is a bounded FIFO for any number of producers and consumers: the tasks that the calls of
      take_task have returned, the one about to be returned and those in the queues are the tasks
      pushed, in order. */
  lemma BoundedFifo(s: State)
    requires Reachable(s)
    ensures s.taken + s.consum + s.product == s.pushed
    ensures s.returned + InHand(s) == s.taken
    ensures |s.product| <= s.max && |s.consum| <= s.max
  {
    ReachableInv(s);
  }

  // ----- no deadlock, no lost wake-up

  /** No thread can move unless it is called or woken up spuriously. */
  ghost predicate Stuck(s: State) {
    forall m :: !CanMove(s, m)
  }

  /** Nothing left to do: either nobody consumes and every producer inside put_task sleeps on a
      full queue, or nobody produces and there is no task left for the consumers that wait. */
  ghost predicate Quiet(s: State) {
    || ((forall i :: 0 <= i < |s.consumers| ==> s.consumers[i] == COutside)
        && (forall j :: 0 <= j < |s.producers| ==> s.producers[j] == POutside || (s.producers[j].PAsleep? && |s.product| == s.max)))
    || ((forall j :: 0 <= j < |s.producers| ==> s.producers[j] == POutside)
        && s.product == [] && s.consum == [] && s.returned == s.taken == s.pushed)
  }

  /** With room for a task, every reachable state in which no thread can move is one with nothing
      left to do. So a consumer inside take_task and a task in the queue, or a task still to be
      pushed, never wait for each other. */
  lemma StuckIsQuiet(s: State)
    requires Reachable(s) && Stuck(s) && s.max > 0
    ensures Quiet(s)
  {
    ReachableInv(s);
    StuckLocks(s);
    NothingInHand(s);
    forall i | 0 <= i < |s.consumers| && s.swapper == SAsleep1 ensures s.consumers[i] == COutside {
      assert !CanMove(s, Consume(i));
    }
    forall j | 0 <= j < |s.producers|
      ensures s.producers[j] == POutside || (s.producers[j].PAsleep? && |s.product| == s.max)
    {
      assert !CanMove(s, Produce(j));
    }
  }

  /** A stuck state has no mutex held by a caller, and the swapper is asleep. */
  lemma StuckLocks(s: State)
    requires Inv(s) && Stuck(s)
    ensures s.productMutex == Free
    ensures (s.swapper == SAsleep1 && s.consumerMutex == Free) || (s.swapper == SAsleep2 && s.consumerMutex == BySwapper)
  {
    assert s.consumerMutex.ByConsumer? ==> !CanMove(s, Consume(s.consumerMutex.i));
    assert s.productMutex.ByProducer? ==> !CanMove(s, Produce(s.productMutex.j));
    assert !CanMove(s, Swap);
  }

  // ----- termination

  /** Tasks a producer still has to push, each counted twice so that pushing one is progress. */
  function Unpushed(p: Producer): nat {
    if p.PLock? || p.PHold? || p.PWait? || p.PAsleep? || p.PRelock? then 2 * |p.rest| else 0
  }

  /** How far a thread is from going to sleep or leaving; 20 outweighs waking the swapper. */
  function ConsumerRank(c: Consumer): nat {
    match c
    case COutside => 0
    case CAsleep => 20
    case CUnlock(_) => 20
    case CWait => 40
    case CCheck => 60
    case CLock => 80
    case CRelock => 80
  }

  function ProducerRank(p: Producer): nat {
    match p
    case POutside => 0
    case PAsleep(_) => 20
    case PUnlock => 20
    case PWait(_) => 40
    case PSignal => 40
    case PHold(_) => 60
    case PLock(_) => 80
    case PRelock(_) => 80
  }

  function SwapperRank(w: Swapper): nat {
    match w
    case SAsleep1 => 0
    case SAsleep2 => 0
    case S4 => 1
    case S3 => 2
    case SRelock2 => 3
    case S2 => 4
    case S1 => 5
    case SRelock1 => 6
    case S0 => 6
    case S8 => 7
    case S7 => 8
    case S6 => 9
    case S5 => 9
  }

  /** Work left: tasks that have not reached the consumer queue, broadcasts due, tasks in the
      consumer queue, and how far the threads are from resting. */
  datatype Work = Work(upstream: nat, broadcasts: nat, downstream: nat, rank: nat)

  ghost function WorkLeft(s: State): Work {
    Work(Sum(s.producers, Unpushed) + |s.product|,
         if s.swapper == S5 then 2 else if s.swapper == S6 then 1 else 0,
         |s.consum|,
         Sum(s.consumers, ConsumerRank) + Sum(s.producers, ProducerRank) + SwapperRank(s.swapper))
  }

  ghost predicate Less(a: Work, b: Work) {
    || a.upstream < b.upstream
    || (a.upstream == b.upstream && a.broadcasts < b.broadcasts)
    || (a.upstream == b.upstream && a.broadcasts == b.broadcasts && a.downstream < b.downstream)
    || (a.upstream == b.upstream && a.broadcasts == b.broadcasts && a.downstream == b.downstream && a.rank < b.rank)
  }

  lemma ConsumeProgress(s: State, i: nat)
    requires CanConsume(s, i)
    ensures Less(WorkLeft(Consumed(s, i)), WorkLeft(s))
  {
    SumUpdate(s.consumers, ConsumerRank, i, Consumed(s, i).consumers[i]);
  }

  lemma ProduceProgress(s: State, j: nat)
    requires CanProduce(s, j)
    ensures Less(WorkLeft(Produced(s, j)), WorkLeft(s))
  {
    SumUpdate(s.producers, ProducerRank, j, Produced(s, j).producers[j]);
    SumUpdate(s.producers, Unpushed, j, Produced(s, j).producers[j]);
  }

  lemma SwapProgress(s: State)
    requires CanSwap(s) && (s.swapper == S4 ==> s.consum == [] && s.product != [])
    ensures Less(WorkLeft(Swapped(s)), WorkLeft(s))
  {
    SumSame(s.producers, WokenProducers(s.producers), Unpushed);
  }

  /** Every move of every thread, spurious wake-ups aside, leaves less work. With finitely many
      calls in progress the threads cannot go on for ever: every schedule ends in a stuck state. */
  lemma MoveProgress(s: State, m: Move)
    requires Reachable(s) && CanMove(s, m)
    ensures Less(WorkLeft(Moved(s, m)), WorkLeft(s))
  {
    ReachableInv(s);
    match m
    case Consume(i) => ConsumeProgress(s, i);
    case Produce(j) => ProduceProgress(s, j);
    case Swap => SwapProgress(s);
  }

  ghost predicate IsMove(s: State, t: State) {
    exists m :: CanMove(s, m) && t == Moved(s, m)
  }

  lemma ReachableMove(s: State, m: Move)
    requires Reachable(s) && CanMove(s, m)
    ensures Reachable(Moved(s, m))
  {
    hide CanMove, Moved, Run, After;
    var max: nat, consumers: nat, producers: nat :| ReachableFrom(max, consumers, producers, s);
    var i := Init(max, consumers, producers);
    hide Init;
    var evs :| Run(i, evs) && After(i, evs) == s;
    RunSnoc(i, evs, Internal(m));
    assert ReachableFrom(max, consumers, producers, Moved(s, m));
  }

  lemma {:induction false} RunSnoc(s: State, evs: seq<Event>, e: Event)
    requires Run(s, evs) && Can(After(s, evs), e)
    ensures Run(s, evs + [e]) && After(s, evs + [e]) == Do(After(s, evs), e)
    decreases |evs|
  {
    hide Can, Do;
    if evs == [] {
      assert evs + [e] == [e] && [e][1..] == [];
    } else {
      assert (evs + [e])[1..] == evs[1..] + [e];
      RunSnoc(Do(s, evs[0]), evs[1..], e);
    }
  }

  /** There is no endless schedule, fair or not, of the calls in progress. */
  lemma NoEndlessSchedule(f: nat -> State, n: nat)
    requires forall k: nat :: Reachable(f(k)) ==> IsMove(f(k), f(k + 1))
    requires Reachable(f(n))
    ensures false
    decreases WorkLeft(f(n)).upstream, WorkLeft(f(n)).broadcasts, WorkLeft(f(n)).downstream, WorkLeft(f(n)).rank
  {
    hide Reachable, CanMove, Moved, WorkLeft;
    assert IsMove(f(n), f(n + 1));
    var m :| CanMove(f(n), m) && f(n + 1) == Moved(f(n), m);
    MoveProgress(f(n), m);
    ReachableMove(f(n), m);
    NoEndlessSchedule(f, n + 1);
  }

  // ----- delivery

  function Rest(p: Producer): seq<nat> {
    if p.PLock? || p.PHold? || p.PWait? || p.PAsleep? || p.PRelock? then p.rest else []
  }

  function Rests(ps: seq<Producer>): multiset<nat> {
    if ps == [] then multiset{} else multiset(Rest(ps[0])) + Rests(ps[1..])
  }

  /** Every task pushed so far or still in the hands of a producer. */
  ghost function Offered(s: State): multiset<nat> {
    multiset(s.pushed) + Rests(s.producers)
  }

  lemma RestsSwap(h: multiset<nat>, a: multiset<nat>, b: multiset<nat>, c: multiset<nat>, d: multiset<nat>)
    requires b + c == a + d
    ensures (h + b) + c == (h + a) + d
  {
    assert (h + b) + c == h + (b + c) && (h + a) + d == h + (a + d);
  }

  lemma {:induction false} RestsUpdate(ps: seq<Producer>, j: nat, p: Producer)
    requires j < |ps|
    ensures Rests(ps[j := p]) + multiset(Rest(ps[j])) == Rests(ps) + multiset(Rest(p))
  {
    if j == 0 {
      assert ps[0 := p][1..] == ps[1..];
    } else {
      var t := ps[1..];
      assert ps[j := p][1..] == t[j - 1 := p] && ps[j := p][0] == ps[0] && t[j - 1] == ps[j];
      RestsUpdate(t, j - 1, p);
      var h := multiset(Rest(ps[0]));
      assert Rests(ps) == h + Rests(t) && Rests(ps[j := p]) == h + Rests(t[j - 1 := p]);
      RestsSwap(h, Rests(t), Rests(t[j - 1 := p]), multiset(Rest(ps[j])), multiset(Rest(p)));
    }
  }

  lemma {:induction false} RestsSame(ps: seq<Producer>, qs: seq<Producer>)
    requires |ps| == |qs| && forall j :: 0 <= j < |ps| ==> Rest(ps[j]) == Rest(qs[j])
    ensures Rests(ps) == Rests(qs)
  {
    if ps != [] { RestsSame(ps[1..], qs[1..]); }
  }

  /** What leaves a producer's hands is what is pushed. */
  lemma ProduceRest(s: State, j: nat)
    requires CanProduce(s, j)
    ensures var t := Produced(s, j);
      && t.producers == s.producers[j := t.producers[j]]
      && multiset(t.pushed) + multiset(Rest(t.producers[j])) == multiset(s.pushed) + multiset(Rest(s.producers[j]))
  {
    var p := s.producers[j];
    if p.PHold? && p.rest != [] { assert p.rest == [p.rest[0]] + p.rest[1..]; }
  }

  lemma Balance(a: multiset<nat>, b: multiset<nat>, c: multiset<nat>, d: multiset<nat>, e: multiset<nat>, f: multiset<nat>)
    requires a + c == b + d && e + d == f + c
    ensures a + e == b + f
  {
    forall x ensures (a + e)[x] == (b + f)[x] {
      assert (a + c)[x] == (b + d)[x] && (e + d)[x] == (f + c)[x];
    }
  }

  lemma MoveOffered(s: State, m: Move)
    requires CanMove(s, m)
    ensures Offered(Moved(s, m)) == Offered(s)
  {
    match m
    case Consume(_) =>
    case Produce(j) =>
      ProduceRest(s, j);
      var t := Produced(s, j);
      hide Produced, Rest, Rests;
      RestsUpdate(s.producers, j, t.producers[j]);
      Balance(multiset(t.pushed), multiset(s.pushed), multiset(Rest(t.producers[j])), multiset(Rest(s.producers[j])),
              Rests(t.producers), Rests(s.producers));
    case Swap => SwapOffered(s);
  }

  lemma SwapOffered(s: State)
    requires CanSwap(s)
    ensures Offered(Swapped(s)) == Offered(s)
  {
    WokenRests(s.producers);
    hide Rests, WokenProducers;
  }

  lemma WokenRests(ps: seq<Producer>)
    ensures Rests(WokenProducers(ps)) == Rests(ps)
  {
    hide Rests;
    RestsSame(ps, WokenProducers(ps));
  }

  // ----- the order in which a producer's tasks are pushed

  /** What the calls of producer `j` were given, call after call. */
  function Given(evs: seq<Event>, j: nat): seq<nat> {
    if evs == [] then []
    else (match evs[0] case Begin(Put(k, tasks)) => if k == j then tasks else [] case _ => []) + Given(evs[1..], j)
  }

  /** What an event of producer `j` pushes. */
  function Pushes(s: State, e: Event, j: nat): seq<nat>
    requires Can(s, e)
  {
    if e == Internal(Produce(j)) && |s.pushed| <= |Do(s, e).pushed| then Do(s, e).pushed[|s.pushed|..] else []
  }

  ghost function PushedBy(s: State, evs: seq<Event>, j: nat): seq<nat>
    requires Run(s, evs)
    decreases |evs|
  {
    if evs == [] then [] else Pushes(s, evs[0], j) + PushedBy(Do(s, evs[0]), evs[1..], j)
  }

  lemma ProduceGiven(s: State, j: nat)
    requires CanProduce(s, j)
    ensures var t := Produced(s, j);
      && s.pushed <= t.pushed && |t.producers| == |s.producers|
      && (forall k :: 0 <= k < |s.producers| && k != j ==> t.producers[k] == s.producers[k])
      && Rest(s.producers[j]) == t.pushed[|s.pushed|..] + Rest(t.producers[j])
  {
    var p := s.producers[j];
    if p.PHold? && p.rest != [] { assert p.rest == [p.rest[0]] + p.rest[1..]; }
  }

  /** The other threads push nothing and take nothing from a producer. */
  lemma OthersGive(s: State, m: Move, j: nat)
    requires CanMove(s, m) && !m.Produce? && j < |s.producers|
    ensures Moved(s, m).pushed == s.pushed && j < |Moved(s, m).producers|
    ensures Rest(Moved(s, m).producers[j]) == Rest(s.producers[j])
  {
  }

  lemma StepGiven(s: State, e: Event, j: nat)
    requires Can(s, e) && j < |s.producers|
    ensures s.pushed <= Do(s, e).pushed && j < |Do(s, e).producers|
    ensures (forall k :: e != Internal(Produce(k))) ==> Do(s, e).pushed == s.pushed
    ensures Rest(s.producers[j]) + Given([e], j) == Pushes(s, e, j) + Rest(Do(s, e).producers[j])
  {
    hide Produced, Consumed, Swapped, CanProduce, CanConsume, CanSwap;
    assert [e][1..] == [];
    if e.Internal? {
      if e.m.Produce? { ProduceGiven(s, e.m.j); } else { OthersGive(s, e.m, j); }
    }
  }

  /** Every task of a call of put_task is pushed by that call, in the order given: what the calls of a
      producer were given is what it has pushed, followed by what it still has in hand. */
  lemma {:induction false} PushedAsGiven(s: State, evs: seq<Event>, j: nat)
    requires Run(s, evs) && j < |s.producers|
    ensures j < |After(s, evs).producers|
    ensures Rest(s.producers[j]) + Given(evs, j) == PushedBy(s, evs, j) + Rest(After(s, evs).producers[j])
    decreases |evs|
  {
    hide Can, Do, Pushes;
    if evs != [] {
      var e, rest := evs[0], evs[1..];
      StepGiven(s, e, j);
      PushedAsGiven(Do(s, e), rest, j);
      GivenFirst(e, rest, j);
      hide Rest, Given, PushedBy;
      var t := Do(s, e);
      Regrouped(Rest(s.producers[j]), Given([e], j), Given(rest, j), Pushes(s, e, j), Rest(t.producers[j]),
                PushedBy(t, rest, j), Rest(After(t, rest).producers[j]));
      assert PushedBy(s, evs, j) == Pushes(s, e, j) + PushedBy(t, rest, j) by { PushedFirst(s, evs, j); }
    }
  }

  lemma PushedFirst(s: State, evs: seq<Event>, j: nat)
    requires Run(s, evs) && evs != []
    ensures PushedBy(s, evs, j) == Pushes(s, evs[0], j) + PushedBy(Do(s, evs[0]), evs[1..], j)
  {
  }

  lemma GivenFirst(e: Event, rest: seq<Event>, j: nat)
    ensures Given([e] + rest, j) == Given([e], j) + Given(rest, j)
  {
    assert ([e] + rest)[1..] == rest && [e][1..] == [];
  }

  lemma Regrouped(a: seq<nat>, b: seq<nat>, c: seq<nat>, d: seq<nat>, e: seq<nat>, f: seq<nat>, g: seq<nat>)
    requires a + b == d + e && e + c == f + g
    ensures a + (b + c) == (d + f) + g
  {
    assert a + (b + c) == (a + b) + c && (d + e) + c == d + (e + c) && d + (f + g) == (d + f) + g;
  }

  /** All that the calls of put_task were given. */
  function AllGiven(evs: seq<Event>): multiset<nat> {
    if evs == [] then multiset{}
    else (match evs[0] case Begin(Put(_, tasks)) => multiset(tasks) case _ => multiset{}) + AllGiven(evs[1..])
  }

  lemma ReplacedOffered(s: State, j: nat, p: Producer, tasks: multiset<nat>)
    requires j < |s.producers| && multiset(Rest(p)) == multiset(Rest(s.producers[j])) + tasks
    ensures Offered(s.(producers := s.producers[j := p])) == Offered(s) + tasks
  {
    hide Rest, Rests;
    RestsUpdate(s.producers, j, p);
    var a, b, c := Rests(s.producers[j := p]), Rests(s.producers), multiset(Rest(s.producers[j]));
    forall x ensures a[x] == (b + tasks)[x] { assert (a + c)[x] == (b + (c + tasks))[x]; }
    assert a == b + tasks;
    assert multiset(s.pushed) + (b + tasks) == multiset(s.pushed) + b + tasks;
  }

  lemma BeginOffered(s: State, e: Event)
    requires Can(s, e) && !e.Internal?
    ensures Offered(Do(s, e)) == Offered(s) + AllGiven([e])
  {
    assert [e][1..] == [];
    hide Offered;
    match e
    case Begin(Put(j, tasks)) => ReplacedOffered(s, j, PLock(tasks), multiset(tasks));
    case Spurious(Produce(j)) => ReplacedOffered(s, j, PRelock(s.producers[j].rest), multiset{});
    case Begin(Take(_)) => SameOffered(s, Do(s, e));
    case Spurious(Consume(_)) => SameOffered(s, Do(s, e));
    case Spurious(Swap) => SameOffered(s, Do(s, e));
    case Internal(_) =>
  }

  lemma SameOffered(s: State, t: State)
    requires t.pushed == s.pushed && t.producers == s.producers
    ensures Offered(t) == Offered(s)
  {
  }

  /** On every run the tasks pushed or still in the hands of a producer are all those that the calls of
      put_task were given. */
  lemma {:induction false} OfferedIsGiven(s: State, evs: seq<Event>)
    requires Run(s, evs)
    ensures Offered(After(s, evs)) == Offered(s) + AllGiven(evs)
    decreases |evs|
  {
    hide Can, Do, Offered;
    if evs != [] {
      var e := evs[0];
      assert [e][1..] == [];
      if e.Internal? { MoveIsInternal(s, e); } else { BeginOffered(s, e); }
      OfferedIsGiven(Do(s, e), evs[1..]);
    }
  }

  lemma MoveIsInternal(s: State, e: Event)
    requires Can(s, e) && e.Internal?
    ensures Offered(Do(s, e)) == Offered(s) && AllGiven([e]) == multiset{}
  {
    assert [e][1..] == [];
    MoveOffered(s, e.m);
    hide Offered;
  }

  ghost predicate Schedule(s: State, ms: seq<Move>)
    decreases |ms|
  {
    ms == [] || (CanMove(s, ms[0]) && Schedule(Moved(s, ms[0]), ms[1..]))
  }

  ghost function Outcome(s: State, ms: seq<Move>): State
    requires Schedule(s, ms)
    decreases |ms|
  {
    if ms == [] then s else Outcome(Moved(s, ms[0]), ms[1..])
  }

  lemma MoveMax(s: State, m: Move)
    requires CanMove(s, m)
    ensures Moved(s, m).max == s.max
  {
    StepSizes(s, Internal(m));
  }

  lemma {:induction false} OutcomeKeeps(s: State, ms: seq<Move>)
    requires Reachable(s) && Schedule(s, ms)
    ensures Reachable(Outcome(s, ms)) && Offered(Outcome(s, ms)) == Offered(s) && Outcome(s, ms).max == s.max
    decreases |ms|
  {
    hide Reachable, CanMove, Moved, Offered;
    if ms != [] {
      ReachableMove(s, ms[0]);
      MoveOffered(s, ms[0]);
      MoveMax(s, ms[0]);
      OutcomeKeeps(Moved(s, ms[0]), ms[1..]);
    }
  }

  /** Delivery: let the threads run from any reachable state until none can move. If some consumer is
      still waiting for a task then, every task that was offered has been returned to one. */
  lemma EverythingDelivered(s: State, ms: seq<Move>, i: nat)
    requires Reachable(s) && s.max > 0 && Schedule(s, ms) && Stuck(Outcome(s, ms))
    requires i < |Outcome(s, ms).consumers| && Outcome(s, ms).consumers[i] != COutside
    ensures multiset(Outcome(s, ms).returned) == Offered(s)
  {
    hide Reachable, Stuck;
    OutcomeKeeps(s, ms);
    QuietIsReturned(Outcome(s, ms), i);
  }

  /** Told from the calls: after any run, let the threads run until none can move. If some consumer is
      still waiting then, the tasks returned are those that all calls of put_task were given. */
  lemma AllGivenAreReturned(max: nat, consumers: nat, producers: nat, evs: seq<Event>, ms: seq<Move>, i: nat)
    requires max > 0 && Run(Init(max, consumers, producers), evs)
    requires var s := After(Init(max, consumers, producers), evs);
             Schedule(s, ms) && Stuck(Outcome(s, ms)) && i < |Outcome(s, ms).consumers| && Outcome(s, ms).consumers[i] != COutside
    ensures multiset(Outcome(After(Init(max, consumers, producers), evs), ms).returned) == AllGiven(evs)
  {
    var init := Init(max, consumers, producers);
    var s := After(init, evs);
    NoRests(init.producers);
    assert Offered(init) == multiset{};
    hide Run, After, Can, Do, Init, Stuck, Offered, Schedule, Outcome;
    assert ReachableFrom(max, consumers, producers, s);
    ReachableFromInv(max, consumers, producers, s);
    EverythingDelivered(s, ms, i);
    OfferedIsGiven(init, evs);
  }

  lemma QuietIsReturned(t: State, i: nat)
    requires Reachable(t) && t.max > 0 && Stuck(t) && i < |t.consumers| && t.consumers[i] != COutside
    ensures multiset(t.returned) == Offered(t)
  {
    hide Reachable, Stuck;
    StuckIsQuiet(t);
    NoRests(t.producers);
  }

  lemma NothingInHand(s: State)
    requires s.returned + InHand(s) == s.taken && Stuck(s)
    ensures s.returned == s.taken
  {
    if s.consumerMutex.ByConsumer? { assert !CanMove(s, Consume(s.consumerMutex.i)); }
    assert InHand(s) == [];
  }

  lemma {:induction false} NoRests(ps: seq<Producer>)
    requires forall j :: 0 <= j < |ps| ==> ps[j] == POutside
    ensures Rests(ps) == multiset{}
  {
    if ps != [] { NoRests(ps[1..]); }
  }

  // ----- why the capacity must be positive

  /** Without capacity, one consumer and one producer active and all others outside. */
  function Stalled(cs: seq<Consumer>, ps: seq<Producer>, c: Consumer, p: Producer, w: Swapper, product: Holder, consumer: Holder): State
    requires cs != [] && ps != []
  {
    State(0, [], [], cs[0 := c], ps[0 := p], w, product, consumer, [], [], [])
  }

  lemma Step(s: State, evs: seq<Event>, e: Event, t: State) returns (more: seq<Event>)
    requires Run(s, evs) && Can(After(s, evs), e) && Do(After(s, evs), e) == t
    ensures Run(s, more) && After(s, more) == t
  {
    RunSnoc(s, evs, e);
    more := evs + [e];
  }

  lemma Overwrites<T>(s: seq<T>)
    requires s != []
    ensures forall x, y {:trigger s[0 := x][0 := y]} :: s[0 := x][0 := y] == s[0 := y]
  {
  }

  lemma ProducerSleeps(i: State, cs: seq<Consumer>, ps: seq<Producer>) returns (evs: seq<Event>)
    requires cs != [] && ps != [] && i == Stalled(cs, ps, COutside, POutside, S0, Free, Free)
    ensures Run(i, evs) && After(i, evs) == Stalled(cs, ps, COutside, PAsleep([7]), S0, Free, Free)
  {
    Overwrites(ps);
    evs := [];
    assert After(i, evs) == i;
    hide Run, After;
    evs := Step(i, evs, Begin(Put(0, [7])), Stalled(cs, ps, COutside, PLock([7]), S0, Free, Free));
    evs := Step(i, evs, Internal(Produce(0)), Stalled(cs, ps, COutside, PHold([7]), S0, ByProducer(0), Free));
    evs := Step(i, evs, Internal(Produce(0)), Stalled(cs, ps, COutside, PWait([7]), S0, ByProducer(0), Free));
    evs := Step(i, evs, Internal(Produce(0)), Stalled(cs, ps, COutside, PAsleep([7]), S0, Free, Free));
  }

  lemma ConsumerSleeps(i: State, cs: seq<Consumer>, ps: seq<Producer>, before: seq<Event>) returns (evs: seq<Event>)
    requires cs != [] && ps != []
    requires Run(i, before) && After(i, before) == Stalled(cs, ps, COutside, PAsleep([7]), S0, Free, Free)
    ensures Run(i, evs) && After(i, evs) == Stalled(cs, ps, CAsleep, PAsleep([7]), S0, Free, Free)
  {
    Overwrites(cs);
    hide Run, After;
    evs := Step(i, before, Begin(Take(0)), Stalled(cs, ps, CLock, PAsleep([7]), S0, Free, Free));
    evs := Step(i, evs, Internal(Consume(0)), Stalled(cs, ps, CCheck, PAsleep([7]), S0, Free, ByConsumer(0)));
    evs := Step(i, evs, Internal(Consume(0)), Stalled(cs, ps, CWait, PAsleep([7]), S0, Free, ByConsumer(0)));
    evs := Step(i, evs, Internal(Consume(0)), Stalled(cs, ps, CAsleep, PAsleep([7]), S0, Free, Free));
  }

  lemma SwapperSleeps(i: State, cs: seq<Consumer>, ps: seq<Producer>, before: seq<Event>) returns (evs: seq<Event>)
    requires cs != [] && ps != []
    requires Run(i, before) && After(i, before) == Stalled(cs, ps, CAsleep, PAsleep([7]), S0, Free, Free)
    ensures Run(i, evs) && After(i, evs) == Stalled(cs, ps, CAsleep, PAsleep([7]), SAsleep2, Free, BySwapper)
  {
    hide Run, After;
    evs := Step(i, before, Internal(Swap), Stalled(cs, ps, CAsleep, PAsleep([7]), S1, Free, BySwapper));
    evs := Step(i, evs, Internal(Swap), Stalled(cs, ps, CAsleep, PAsleep([7]), S2, Free, BySwapper));
    evs := Step(i, evs, Internal(Swap), Stalled(cs, ps, CAsleep, PAsleep([7]), S3, BySwapper, BySwapper));
    evs := Step(i, evs, Internal(Swap), Stalled(cs, ps, CAsleep, PAsleep([7]), SAsleep2, Free, BySwapper));
  }

  /** With no capacity at all the queue can stall for ever, whatever the number of threads: a
      consumer waits, a producer has a task for it, and no thread can move. */
  lemma NoCapacityStalls(consumers: nat, producers: nat) returns (s: State)
    requires consumers > 0 && producers > 0
    ensures ReachableFrom(0, consumers, producers, s) && Stuck(s) && !Quiet(s)
    ensures |s.consumers| == consumers && s.consumers[0] == CAsleep
    ensures |s.producers| == producers && s.producers[0] == PAsleep([7])
  {
    hide Run, After;
    var i := Init(0, consumers, producers);
    var cs, ps := i.consumers, i.producers;
    assert cs[0 := COutside] == cs && ps[0 := POutside] == ps;
    var evs := ProducerSleeps(i, cs, ps);
    evs := ConsumerSleeps(i, cs, ps, evs);
    evs := SwapperSleeps(i, cs, ps, evs);
    s := Stalled(cs, ps, CAsleep, PAsleep([7]), SAsleep2, Free, BySwapper);
    assert s.consumers[0] == CAsleep && s.producers[0] == PAsleep([7]);
    assert ReachableFrom(0, consumers, producers, s);
  }

  /** The exact condition: with threads on both sides the queue never stalls if and only if it has
      room for at least one task. */
  lemma NeverStallsIffCapacity(max: nat, consumers: nat, producers: nat)
    requires consumers > 0 && producers > 0
    ensures (forall s :: ReachableFrom(max, consumers, producers, s) && Stuck(s) ==> Quiet(s)) <==> max > 0
  {
    hide ReachableFrom, Stuck, Quiet, Inv;
    if max > 0 {
      forall s | ReachableFrom(max, consumers, producers, s) && Stuck(s) ensures Quiet(s) {
        ReachableFromInv(max, consumers, producers, s);
        StuckIsQuiet(s);
      }
    } else {
      var s := NoCapacityStalls(consumers, producers);
    }
  }
}
