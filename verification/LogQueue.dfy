/** The unbounded double-buffered log queue of LogFile.cpp: threads that put messages, the writer
    thread and the swapper thread, with two mutexes and two condition variables, as a transition
    system over program counters. */
module LogQueue {
  import opened Sequences

  datatype Putter = POutside | PLock(msg: nat) | PPush(msg: nat) | PCast | PUnlock

  datatype Writer =
    | W0        // at line 41
    | W1        // holds get_Mutex, at the loop test of line 42
    | W2        // holds it, has broadcast, at line 45
    | WAsleep
    | WRelock
    | W3        // holds it, at the loop test of line 47
    | W4        // at line 56

  datatype Swapper =
    | S0                 // at line 64
    | S1                 // holds get_Mutex, at the loop test of line 65
    | SAsleep1
    | SRelock1
    | S2                 // at line 69
    | S3                 // holds both, at the loop test of line 70
    | SAsleep2           // asleep, still holding get_Mutex
    | SRelock2
    | S4 | S5 | S6 | S7  // at lines 74 to 77

  datatype Holder = Free | BySwapper | ByWriter | ByPutter(j: nat)

  datatype State = State(
    waiting: seq<nat>,  // Wait_WriteTask
    writing: seq<nat>,  // WriteTask
    putters: seq<Putter>,
    writer: Writer,
    swapper: Swapper,
    putMutex: Holder,
    getMutex: Holder,
    put: seq<nat>,      // every message ever put, in order
    written: seq<nat>)  // every message ever written, in order

  datatype Move = Put(j: nat) | Write | Swap

  datatype Event = Begin(j: nat, msg: nat) | Internal(m: Move) | SpuriousWriter | SpuriousSwapper

  /** pthread_cond_broadcast on Swap_Cond: only the swapper ever waits there. */
  function Signalled(w: Swapper): Swapper {
    match w
    case SAsleep1 => SRelock1
    case SAsleep2 => SRelock2
    case _ => w
  }

  predicate CanMove(s: State, m: Move) {
    match m
    case Put(j) =>
      j < |s.putters| && s.putters[j] != POutside && (s.putters[j].PLock? ==> s.putMutex == Free)
    case Write => s.writer != WAsleep && (s.writer == W0 || s.writer == WRelock ==> s.getMutex == Free)
    case Swap =>
      && s.swapper != SAsleep1 && s.swapper != SAsleep2
      && (s.swapper == S0 || s.swapper == SRelock1 ==> s.getMutex == Free)
      && (s.swapper == S2 || s.swapper == SRelock2 ==> s.putMutex == Free)
  }

  function PutMove(s: State, j: nat): State
    requires CanMove(s, Put(j))
  {
    match s.putters[j]
    case PLock(x) => s.(putters := s.putters[j := PPush(x)], putMutex := ByPutter(j))
    case PPush(x) => s.(putters := s.putters[j := PCast], waiting := s.waiting + [x], put := s.put + [x])
    case PCast => s.(putters := s.putters[j := PUnlock], swapper := Signalled(s.swapper))
    case PUnlock => s.(putters := s.putters[j := POutside], putMutex := Free)
    case POutside => s
  }

  function WriteMove(s: State): State
    requires CanMove(s, Write)
  {
    match s.writer
    case W1 => if s.writing == [] then s.(writer := W2, swapper := Signalled(s.swapper)) else s.(writer := W3)
    case W2 => s.(writer := WAsleep, getMutex := Free)
    case W3 =>
      if s.writing == [] then s.(writer := W4)
      else s.(written := s.written + [s.writing[0]], writing := s.writing[1..])
    case W4 => s.(writer := W0, getMutex := Free)
    case _ => s.(writer := W1, getMutex := ByWriter)
  }

  function SwapMove(s: State): State
    requires CanMove(s, Swap)
  {
    match s.swapper
    case S1 => if s.writing != [] then s.(swapper := SAsleep1, getMutex := Free) else s.(swapper := S2)
    case S2 => s.(swapper := S3, putMutex := BySwapper)
    case SRelock2 => s.(swapper := S3, putMutex := BySwapper)
    case S3 => if s.waiting == [] then s.(swapper := SAsleep2, putMutex := Free) else s.(swapper := S4)
    case S4 => s.(swapper := S5, writing := s.waiting, waiting := s.writing)
    case S5 => s.(swapper := S6, writer := if s.writer == WAsleep then WRelock else s.writer)
    case S6 => s.(swapper := S7, getMutex := Free)
    case S7 => s.(swapper := S0, putMutex := Free)
    case _ => s.(swapper := S1, getMutex := BySwapper)
  }

  function Moved(s: State, m: Move): State
    requires CanMove(s, m)
  {
    match m
    case Put(j) => PutMove(s, j)
    case Write => WriteMove(s)
    case Swap => SwapMove(s)
  }

  predicate Can(s: State, e: Event) {
    match e
    case Begin(j, _) => j < |s.putters| && s.putters[j] == POutside
    case Internal(m) => CanMove(s, m)
    case SpuriousWriter => s.writer == WAsleep
    case SpuriousSwapper => s.swapper == SAsleep1 || s.swapper == SAsleep2
  }

  function Do(s: State, e: Event): State
    requires Can(s, e)
  {
    match e
    case Begin(j, msg) => s.(putters := s.putters[j := PLock(msg)])
    case Internal(m) => Moved(s, m)
    case SpuriousWriter => s.(writer := WRelock)
    case SpuriousSwapper => s.(swapper := Signalled(s.swapper))
  }

  function Init(putters: nat): State {
    State([], [], seq(putters, _ => POutside), W0, S0, Free, Free, [], [])
  }

  // ----- the invariant

  ghost predicate LocksOk(s: State) {
    && (s.writer == W1 || s.writer == W2 || s.writer == W3 || s.writer == W4 <==> s.getMutex == ByWriter)
    && (s.swapper != S0 && s.swapper != SAsleep1 && s.swapper != SRelock1 && s.swapper != S7 <==> s.getMutex == BySwapper)
    && !s.getMutex.ByPutter? && !s.putMutex.ByWriter?
    && (forall j :: 0 <= j < |s.putters| ==> (s.putters[j] != POutside && !s.putters[j].PLock? <==> s.putMutex == ByPutter(j)))
    && (s.swapper == S3 || s.swapper == S4 || s.swapper == S5 || s.swapper == S6 || s.swapper == S7 <==> s.putMutex == BySwapper)
    && (s.putMutex.ByPutter? ==> s.putMutex.j < |s.putters|)
  }

  ghost predicate QueuesOk(s: State) {
    && s.written + s.writing + s.waiting == s.put
    && (s.swapper == S2 || s.swapper == S3 || s.swapper == SAsleep2 || s.swapper == SRelock2 || s.swapper == S4 ==> s.writing == [])
    && (s.swapper == S4 ==> s.waiting != [])
    && (s.writer == W4 ==> s.writing == [])
  }

  ghost predicate SleepOk(s: State) {
    && (s.writer == WAsleep ==> s.swapper != SAsleep1 && (s.writing == [] || s.swapper == S5))
    && (s.writer == W2 ==> s.swapper != SAsleep1 && s.writing == [])
    && (s.swapper == SAsleep2 && s.waiting != [] ==>
          s.putMutex.ByPutter? && s.putMutex.j < |s.putters| && s.putters[s.putMutex.j] == PCast)
  }

  ghost predicate Inv(s: State) {
    LocksOk(s) && QueuesOk(s) && SleepOk(s)
  }

  lemma PutKeeps(s: State, j: nat)
    requires Inv(s) && CanMove(s, Put(j))
    ensures Inv(PutMove(s, j))
  {
    if s.putters[j].PPush? {
      var x := s.putters[j].msg;
      assert s.written + s.writing + (s.waiting + [x]) == s.written + s.writing + s.waiting + [x];
    }
  }

  lemma WriteKeeps(s: State)
    requires Inv(s) && CanMove(s, Write)
    ensures Inv(WriteMove(s))
  {
    if s.writer == W3 && s.writing != [] {
      assert s.written + s.writing == s.written + [s.writing[0]] + s.writing[1..];
    }
  }

  lemma SwapKeeps(s: State)
    requires Inv(s) && CanMove(s, Swap)
    ensures Inv(SwapMove(s))
  {
    if s.swapper == S4 { assert s.written + [] + s.waiting == s.written + s.waiting + []; }
  }

  lemma StepKeeps(s: State, e: Event)
    requires Inv(s) && Can(s, e)
    ensures Inv(Do(s, e))
  {
    match e
    case Internal(Put(j)) => PutKeeps(s, j);
    case Internal(Write) => WriteKeeps(s);
    case Internal(Swap) => SwapKeeps(s);
    case _ =>
  }

  // ----- every run

  ghost predicate Run(s: State, evs: seq<Event>)
    decreases |evs|
  {
    evs == [] || (Can(s, evs[0]) && Run(Do(s, evs[0]), evs[1..]))
  }

  ghost function After(s: State, evs: seq<Event>): State
    requires Run(s, evs)
    decreases |evs|
  {
    if evs == [] then s else After(Do(s, evs[0]), evs[1..])
  }

  ghost predicate Reachable(s: State) {
    exists putters: nat, evs :: Run(Init(putters), evs) && After(Init(putters), evs) == s
  }

  lemma {:induction false} RunKeeps(s: State, evs: seq<Event>)
    requires Inv(s) && Run(s, evs)
    ensures Inv(After(s, evs))
    decreases |evs|
  {
    hide Inv, Can, Do;
    if evs != [] {
      StepKeeps(s, evs[0]);
      RunKeeps(Do(s, evs[0]), evs[1..]);
    }
  }

  lemma ReachableInv(s: State)
    requires Reachable(s)
    ensures Inv(s)
  {
    hide Can, Do;
    var putters: nat, evs :| Run(Init(putters), evs) && After(Init(putters), evs) == s;
    RunKeeps(Init(putters), evs);
  }

  /** The log is written in the order it is put, and loses nothing on the way. */
  lemma WrittenInPutOrder(s: State)
    requires Reachable(s)
    ensures s.written + s.writing + s.waiting == s.put
    ensures s.written <= s.put
  {
    ReachableInv(s);
  }

  // ----- what the calls were given

  /** What the calls of putter `j` were given, call after call. */
  function Given(evs: seq<Event>, j: nat): seq<nat> {
    if evs == [] then []
    else (if evs[0].Begin? && evs[0].j == j then [evs[0].msg] else []) + Given(evs[1..], j)
  }

  function InHand(p: Putter): seq<nat> {
    if p.PLock? || p.PPush? then [p.msg] else []
  }

  /** What an event of putter `j` puts. */
  function Puts(s: State, e: Event, j: nat): seq<nat>
    requires Can(s, e)
  {
    if e == Internal(Put(j)) && |s.put| <= |Do(s, e).put| then Do(s, e).put[|s.put|..] else []
  }

  ghost function PutBy(s: State, evs: seq<Event>, j: nat): seq<nat>
    requires Run(s, evs)
    decreases |evs|
  {
    if evs == [] then [] else Puts(s, evs[0], j) + PutBy(Do(s, evs[0]), evs[1..], j)
  }

  lemma StepGiven(s: State, e: Event, j: nat)
    requires Can(s, e) && j < |s.putters|
    ensures s.put <= Do(s, e).put && j < |Do(s, e).putters|
    ensures (forall k :: e != Internal(Put(k))) ==> Do(s, e).put == s.put
    ensures InHand(s.putters[j]) + Given([e], j) == Puts(s, e, j) + InHand(Do(s, e).putters[j])
  {
    assert [e][1..] == [];
  }

  /** What the calls of a putter were given is what it has put, in that order, followed by the message
      it has in hand. */
  lemma {:induction false} PutAsGiven(s: State, evs: seq<Event>, j: nat)
    requires Run(s, evs) && j < |s.putters|
    ensures j < |After(s, evs).putters|
    ensures InHand(s.putters[j]) + Given(evs, j) == PutBy(s, evs, j) + InHand(After(s, evs).putters[j])
    decreases |evs|
  {
    hide Can, Do, Puts, InHand;
    if evs != [] {
      var e, rest := evs[0], evs[1..];
      assert evs == [e] + rest;
      StepGiven(s, e, j);
      PutAsGiven(Do(s, e), rest, j);
      GivenFirst(e, rest, j);
      var a, b, c := InHand(s.putters[j]), Given([e], j), Given(rest, j);
      var d, h := Puts(s, e, j), InHand(Do(s, e).putters[j]);
      var f, g := PutBy(Do(s, e), rest, j), InHand(After(s, evs).putters[j]);
      assert a + (b + c) == (a + b) + c && (d + h) + c == d + (h + c) && d + (f + g) == (d + f) + g;
    }
  }

  lemma GivenFirst(e: Event, rest: seq<Event>, j: nat)
    ensures Given([e] + rest, j) == Given([e], j) + Given(rest, j)
  {
    assert ([e] + rest)[1..] == rest && [e][1..] == [];
  }

  ghost predicate Stuck(s: State) {
    forall m :: !CanMove(s, m)
  }

  /** No stall: when no thread can move, every message put has been written, and nobody is inside
      put_write_string. */
  lemma StuckIsWritten(s: State)
    requires Reachable(s) && Stuck(s)
    ensures s.written == s.put && s.waiting == [] && s.writing == []
    ensures forall j :: 0 <= j < |s.putters| ==> s.putters[j] == POutside
  {
    ReachableInv(s);
    assert !CanMove(s, Write) && !CanMove(s, Swap);
    assert s.putMutex.ByPutter? ==> !CanMove(s, Put(s.putMutex.j));
    forall j | 0 <= j < |s.putters| ensures s.putters[j] == POutside { assert !CanMove(s, Put(j)); }
  }

  // ----- termination

  function PutterRank(p: Putter): nat {
    match p
    case POutside => 0
    case PUnlock => 20
    case PCast => 40
    case PPush(_) => 60
    case PLock(_) => 80
  }

  function UnputRank(p: Putter): nat { if p.PLock? || p.PPush? then 2 else 0 }

  /** A writer with something to write has a longer way to go. */
  function WriterRank(w: Writer, idle: bool): nat {
    match w
    case WAsleep => 0
    case W2 => 20
    case W4 => 100
    case W3 => 120
    case W1 => if idle then 40 else 140
    case W0 => if idle then 60 else 160
    case WRelock => if idle then 60 else 160
  }

  function SwapperRank(w: Swapper): nat {
    match w
    case SAsleep1 => 0
    case SAsleep2 => 0
    case S4 => 1
    case S3 => 2
    case SRelock2 => 3
    case S2 => 4
    case S1 => 5
    case SRelock1 => 6
    case S0 => 6
    case S7 => 7
    case S6 => 8
    case S5 => 9
  }

  datatype Work = Work(upstream: nat, broadcasts: nat, downstream: nat, rank: nat)

  ghost function WorkLeft(s: State): Work {
    Work(Sum(s.putters, UnputRank) + |s.waiting|, if s.swapper == S5 then 1 else 0, |s.writing|,
         Sum(s.putters, PutterRank) + WriterRank(s.writer, s.writing == []) + SwapperRank(s.swapper))
  }

  ghost predicate Less(a: Work, b: Work) {
    || a.upstream < b.upstream
    || (a.upstream == b.upstream && a.broadcasts < b.broadcasts)
    || (a.upstream == b.upstream && a.broadcasts == b.broadcasts && a.downstream < b.downstream)
    || (a.upstream == b.upstream && a.broadcasts == b.broadcasts && a.downstream == b.downstream && a.rank < b.rank)
  }

  lemma PutProgress(s: State, j: nat)
    requires CanMove(s, Put(j))
    ensures Less(WorkLeft(PutMove(s, j)), WorkLeft(s))
  {
    SumUpdate(s.putters, PutterRank, j, PutMove(s, j).putters[j]);
    SumUpdate(s.putters, UnputRank, j, PutMove(s, j).putters[j]);
  }

  /** Every move, spurious wake-ups aside, leaves less work: although writer and swapper loop for
      ever, no schedule of the messages being put is endless, and by `StuckIsWritten` each one
      ends with all of them written. */
  lemma MoveProgress(s: State, m: Move)
    requires Reachable(s) && CanMove(s, m)
    ensures Less(WorkLeft(Moved(s, m)), WorkLeft(s))
  {
    ReachableInv(s);
    match m
    case Put(j) => PutProgress(s, j);
    case Write =>
    case Swap =>
  }

  lemma {:induction false} RunSnoc(s: State, evs: seq<Event>, e: Event)
    requires Run(s, evs) && Can(After(s, evs), e)
    ensures Run(s, evs + [e]) && After(s, evs + [e]) == Do(After(s, evs), e)
    decreases |evs|
  {
    hide Can, Do;
    if evs == [] {
      assert evs + [e] == [e] && [e][1..] == [];
    } else {
      assert (evs + [e])[1..] == evs[1..] + [e];
      RunSnoc(Do(s, evs[0]), evs[1..], e);
    }
  }

  lemma ReachableMove(s: State, m: Move)
    requires Reachable(s) && CanMove(s, m)
    ensures Reachable(Moved(s, m))
  {
    hide CanMove, Moved;
    var putters: nat, evs :| Run(Init(putters), evs) && After(Init(putters), evs) == s;
    RunSnoc(Init(putters), evs, Internal(m));
  }

  lemma NoEndlessSchedule(f: nat -> State, n: nat)
    requires forall k: nat :: Reachable(f(k)) ==> exists m :: CanMove(f(k), m) && f(k + 1) == Moved(f(k), m)
    requires Reachable(f(n))
    ensures false
    decreases WorkLeft(f(n)).upstream, WorkLeft(f(n)).broadcasts, WorkLeft(f(n)).downstream, WorkLeft(f(n)).rank
  {
    hide Reachable, CanMove, Moved, WorkLeft;
    var m :| CanMove(f(n), m) && f(n + 1) == Moved(f(n), m);
    MoveProgress(f(n), m);
    ReachableMove(f(n), m);
    NoEndlessSchedule(f, n + 1);
  }
}
