/** Keep-alive timers: a request detaches the timer of the request before it and starts its own;
    an old timer stays in the seconds wheel and does nothing when its turn comes. Handlers of
    requests and the timer thread interleave; each step below is one that no other thread can see
    half done. */
module KeepAlive {
  import opened Options
  import TimerWheel
  import SecondsWheel

  /** TimeRoundItem: `armed` while it holds the pointer to its channel. `request` tells which
      request of the channel made it. */
  datatype Timer = Timer(chan: nat, armed: bool, request: nat)

  /** How far a handler is between SeparateTimer and AddTimeRoundItemNode. No other handler of the
      same channel runs in between, since nothing there suspends. */
  datatype Stage = Outside | Separated | Holding(item: nat)

  /** A channel: `handlers` are inside handle_http, and `requests` counts how often its timer was
      separated. `registered` is its membership in the epoll map. */
  datatype Conn = Conn(wp: Option<nat>, keepAlive: bool, registered: bool, handlers: nat, stage: Stage, requests: nat)

  datatype Closing = Closing(chan: nat, item: nat)

  /** `agenda` accompanies the wheel as its reference. Of the items that reached the timeout list
      (`world.log`) the first `destroyed` have been deleted. */
  datatype State = State(
    world: SecondsWheel.World, agenda: SecondsWheel.Agenda, destroyed: nat,
    timers: map<nat, Timer>, next: nat, conns: map<nat, Conn>, closings: seq<Closing>)

  datatype Event =
    | Accept(c: nat)                                 // Add_New_Connect
    | Read(c: nat, asksKeepAlive: bool)              // handle_event has read a request
    | WriteFails(c: nat)                             // handle_http finds the peer gone: handle_close
    | Separate(c: nat)                               // handle_http returns; SeparateTimer
    | Arm(c: nat)                                    // a new item, named by wp_time_round_item
    | Start(c: nat)                                  // AddTimeRoundItemNode
    | Finish(c: nat)                                 // not keep-alive: handle_close
    | Eof(c: nat)                                    // the peer has closed: handle_close
    | Seconds(diff: int)                             // the timer thread, up to lock.unlock()
    | Destroy                                        // HandleTimeOutList deletes one node

  const THRESHOLD := 5

  ghost predicate Can(s: State, e: Event) {
    match e
    case Accept(c) => c !in s.conns
    case Read(c, _) => c in s.conns && s.conns[c].stage.Outside?
    case WriteFails(c) => c in s.conns && s.conns[c].stage.Outside? && s.conns[c].handlers > 0
    case Separate(c) => c in s.conns && s.conns[c].stage.Outside? && s.conns[c].handlers > 0
    case Arm(c) => c in s.conns && s.conns[c].stage.Separated? && s.conns[c].keepAlive
    case Start(c) => c in s.conns && s.conns[c].stage.Holding?
    case Finish(c) => c in s.conns && s.conns[c].stage.Separated? && !s.conns[c].keepAlive
    case Eof(c) => c in s.conns && s.conns[c].stage.Outside?
    case Seconds(_) => s.destroyed == |s.world.log|
    case Destroy => s.destroyed < |s.world.log|
  }

  /** TimeRoundItem::reset through the weak pointer, if there is an item to reset. */
  function Reset(timers: map<nat, Timer>, wp: Option<nat>): map<nat, Timer> {
    if wp.Some? && wp.value in timers then timers[wp.value := timers[wp.value].(armed := false)] else timers
  }

  /** SeparateTimer, which handle_close begins with too. */
  function Detach(s: State, c: nat): State
    requires c in s.conns
  {
    var k := s.conns[c];
    s.(timers := Reset(s.timers, k.wp), conns := s.conns[c := k.(requests := k.requests + 1)])
  }

  function HandleClose(s: State, c: nat): State
    requires c in s.conns
  {
    var t := Detach(s, c);
    t.(conns := t.conns[c := t.conns[c].(registered := false)])
  }

  function SetStage(s: State, c: nat, stage: Stage): State
    requires c in s.conns
  {
    s.(conns := s.conns[c := s.conns[c].(stage := stage)])
  }

  /** The destructor of an item: Close, if the item still holds the channel. */
  function Delete(s: State, id: nat): State {
    if id !in s.timers || !s.timers[id].armed || s.timers[id].chan !in s.conns then s
    else
      var c := s.timers[id].chan;
      s.(timers := s.timers[id := s.timers[id].(armed := false)],
         conns := s.conns[c := s.conns[c].(registered := false)],
         closings := s.closings + [Closing(c, id)])
  }

  function WheelStep(s: State, op: SecondsWheel.Op): State
    requires SecondsWheel.Valid(s.world.round) && SecondsWheel.Allowed(s.world, op)
  {
    s.(world := SecondsWheel.Step(s.world, op),
       agenda := SecondsWheel.AgendaStep(s.agenda, op, |s.world.round.slots|))
  }

  function Do(s: State, e: Event): State
    requires Inv(s) && Can(s, e)
  {
    match e
    case Accept(c) => s.(conns := s.conns[c := Conn(None, false, true, 0, Outside, 0)])
    case Read(c, asks) =>
      var k := s.conns[c];
      s.(conns := s.conns[c := k.(keepAlive := k.keepAlive || asks, handlers := k.handlers + 1)])
    case WriteFails(c) => HandleClose(s, c)
    case Separate(c) =>
      var t := SetStage(Detach(s, c), c, Separated);
      t.(conns := t.conns[c := t.conns[c].(handlers := t.conns[c].handlers - 1)])
    case Arm(c) =>
      var k := s.conns[c];
      s.(timers := s.timers[s.next := Timer(c, true, k.requests)], next := s.next + 1,
         conns := s.conns[c := k.(wp := Some(s.next), stage := Holding(s.next))])
    case Start(c) =>
      WheelStep(SetStage(s, c, Outside), SecondsWheel.Insert(s.conns[c].stage.item, THRESHOLD))
    case Finish(c) => SetStage(HandleClose(s, c), c, Outside)
    case Eof(c) => HandleClose(s, c)
    case Seconds(diff) => WheelStep(s, SecondsWheel.Pass(diff))
    case Destroy => Delete(s, s.world.log[s.destroyed].id).(destroyed := s.destroyed + 1)
  }

  // ----- the invariant

  /** An armed timer belongs to the last request of its channel, and the channel names it. */
  ghost predicate ArmedIsLatest(timers: map<nat, Timer>, conns: map<nat, Conn>) {
    forall id :: id in timers && timers[id].armed ==>
      && timers[id].chan in conns
      && conns[timers[id].chan].wp == Some(id)
      && conns[timers[id].chan].requests == timers[id].request
      && !conns[timers[id].chan].stage.Separated?
  }

  ghost predicate Numbered(timers: map<nat, Timer>, next: nat, due: map<nat, nat>) {
    && (forall id :: id in timers ==> id < next)
    && (forall id :: id in due ==> id in timers)
  }

  /** A new item that is not in the wheel yet belongs to the channel whose handler has it. */
  ghost predicate HoldsOwn(timers: map<nat, Timer>, conns: map<nat, Conn>, due: map<nat, nat>) {
    forall c :: c in conns && conns[c].stage.Holding? ==>
      && conns[c].stage.item in timers && conns[c].stage.item !in due
      && timers[conns[c].stage.item].chan == c && timers[conns[c].stage.item].armed
  }

  ghost predicate NamesOwn(timers: map<nat, Timer>, conns: map<nat, Conn>) {
    forall c :: c in conns && conns[c].wp.Some? ==>
      conns[c].wp.value in timers && timers[conns[c].wp.value].chan == c
  }

  ghost predicate ClosersAreDone(timers: map<nat, Timer>, closings: seq<Closing>) {
    forall k :: 0 <= k < |closings| ==> closings[k].item in timers && !timers[closings[k].item].armed
  }

  ghost predicate Names(s: State) {
    && Numbered(s.timers, s.next, s.agenda.due) && HoldsOwn(s.timers, s.conns, s.agenda.due)
    && NamesOwn(s.timers, s.conns) && ClosersAreDone(s.timers, s.closings)
  }

  ghost predicate Inv(s: State) {
    && SecondsWheel.Good(s.world, s.agenda) && s.destroyed <= |s.world.log|
    && ArmedIsLatest(s.timers, s.conns) && Names(s)
  }

  function Init(n: nat): (s: State)
    requires n > 0
    ensures Inv(s)
  {
    SecondsWheel.FreshGood(n);
    State(SecondsWheel.Fresh(n), SecondsWheel.Agenda(0, map[], []), 0, map[], 0, map[], [])
  }

  lemma {:induction false} MoveExtends(w: SecondsWheel.World, k: nat)
    requires SecondsWheel.Valid(w.round)
    ensures w.log <= SecondsWheel.Move(w, k).log
  {
    if k > 0 { MoveExtends(w, k - 1); }
  }

  lemma WheelKeeps(s: State, op: SecondsWheel.Op)
    requires SecondsWheel.Good(s.world, s.agenda) && SecondsWheel.Allowed(s.world, op)
    ensures var t := WheelStep(s, op); SecondsWheel.Good(t.world, t.agenda) && s.world.log <= t.world.log
  {
    SecondsWheel.StepGood(s.world, s.agenda, op);
    if op.Pass? { MoveExtends(s.world, SecondsWheel.TickCount(op.diff, |s.world.round.slots|)); }
  }

  lemma StartAllowed(s: State, c: nat)
    requires Inv(s) && Can(s, Start(c))
    ensures SecondsWheel.Allowed(s.world, SecondsWheel.Insert(s.conns[c].stage.item, THRESHOLD))
  {
  }

  lemma StepKeepsWheel(s: State, e: Event)
    requires Inv(s) && Can(s, e)
    ensures var t := Do(s, e); SecondsWheel.Good(t.world, t.agenda) && t.destroyed <= |t.world.log|
  {
    match e
    case Start(c) =>
      StartAllowed(s, c);
      WheelKeeps(SetStage(s, c, Outside), SecondsWheel.Insert(s.conns[c].stage.item, THRESHOLD));
    case Seconds(diff) => WheelKeeps(s, SecondsWheel.Pass(diff));
    case Accept(_) => case Read(_, _) => case WriteFails(_) => case Separate(_) => case Arm(_) =>
    case Finish(_) => case Eof(_) => case Destroy =>
  }

  lemma StepKeepsLatest(s: State, e: Event)
    requires Inv(s) && Can(s, e)
    ensures ArmedIsLatest(Do(s, e).timers, Do(s, e).conns)
  {
    hide SecondsWheel.Good, SecondsWheel.Step, SecondsWheel.AgendaStep;
  }

  lemma LogInDue(s: State)
    requires SecondsWheel.Good(s.world, s.agenda)
    ensures forall k :: 0 <= k < |s.world.log| ==> s.world.log[k].id in s.agenda.due
  {
    forall k | 0 <= k < |s.world.log| ensures s.world.log[k].id in s.agenda.due {
      assert s.world.log[k] in s.agenda.entries;
    }
  }

  lemma StepKeepsNumbers(s: State, e: Event)
    requires Inv(s) && Can(s, e)
    ensures Numbered(Do(s, e).timers, Do(s, e).next, Do(s, e).agenda.due)
    ensures ClosersAreDone(Do(s, e).timers, Do(s, e).closings)
  {
    hide SecondsWheel.Good, SecondsWheel.Step, ArmedIsLatest, NamesOwn;
  }

  lemma StepKeepsOwners(s: State, e: Event)
    requires Inv(s) && Can(s, e)
    ensures HoldsOwn(Do(s, e).timers, Do(s, e).conns, Do(s, e).agenda.due)
  {
    if e.Destroy? { LogInDue(s); }
    hide SecondsWheel.Good, SecondsWheel.Step, ArmedIsLatest, ClosersAreDone;
  }

  lemma StepKeepsNames(s: State, e: Event)
    requires Inv(s) && Can(s, e)
    ensures NamesOwn(Do(s, e).timers, Do(s, e).conns)
  {
    hide SecondsWheel.Good, SecondsWheel.Step, ArmedIsLatest, ClosersAreDone;
  }

  lemma StepKeeps(s: State, e: Event)
    requires Inv(s) && Can(s, e)
    ensures Inv(Do(s, e))
  {
    StepKeepsWheel(s, e);
    StepKeepsLatest(s, e);
    StepKeepsNumbers(s, e);
    StepKeepsOwners(s, e);
    StepKeepsNames(s, e);
  }

  // ----- every run

  ghost predicate AllowedRun(s: State, run: seq<Event>)
    requires Inv(s)
    decreases |run|
  {
    run == [] || (Can(s, run[0]) && (StepKeeps(s, run[0]); AllowedRun(Do(s, run[0]), run[1..])))
  }

  function After(s: State, run: seq<Event>): State
    requires Inv(s) && AllowedRun(s, run)
    decreases |run|
  {
    if run == [] then s else StepKeeps(s, run[0]); After(Do(s, run[0]), run[1..])
  }

  lemma {:induction false} RunKeeps(s: State, run: seq<Event>)
    requires Inv(s) && AllowedRun(s, run)
    ensures Inv(After(s, run))
    decreases |run|
  {
    if run != [] {
      StepKeeps(s, run[0]);
      RunKeeps(Do(s, run[0]), run[1..]);
    }
  }

  /** Over every interleaving: at most one timer of a channel still holds the channel, it is the one
      the channel names, and no request of the channel has ended since it was made. Deleting any
      other item has no effect on any channel. */
  lemma OnlyTheLatestCloses(from: State, run: seq<Event>)
    requires Inv(from) && AllowedRun(from, run)
    ensures var s := After(from, run);
      && (forall i, j ::
            (i in s.timers && j in s.timers && s.timers[i].armed && s.timers[j].armed && s.timers[i].chan == s.timers[j].chan)
            ==> i == j)
      && (Can(s, Destroy) ==>
            var id := s.world.log[s.destroyed].id;
            && id in s.timers
            && (if s.timers[id].armed then
                  && var c := s.timers[id].chan;
                  && c in s.conns && s.conns[c].wp == Some(id) && s.timers[id].request == s.conns[c].requests
                  && Delete(s, id).closings == s.closings + [Closing(c, id)] && !Delete(s, id).conns[c].registered
                else Delete(s, id) == s))
  {
    RunKeeps(from, run);
    var s := After(from, run);
    if Can(s, Destroy) {
      var e := s.world.log[s.destroyed];
      assert e in s.agenda.entries;
    }
  }

  ghost predicate OnChannel(e: Event, c: nat) {
    !e.Seconds? && !e.Destroy? && e.c == c
  }

  ghost predicate Gone(s: State, id: nat) {
    exists k :: 0 <= k < s.destroyed <= |s.world.log| && s.world.log[k].id == id
  }

  /** Timer `id` of channel `c`, due on tick `due`, is waiting, or it has closed `c`. */
  ghost predicate Waits(s: State, c: nat, id: nat, registered: bool) {
    && id in s.timers && s.timers[id].chan == c && c in s.conns
    && s.timers[id].armed && !Gone(s, id) && s.conns[c].registered == registered && Closing(c, id) !in s.closings
  }

  ghost predicate HasClosed(s: State, c: nat, id: nat) {
    && id in s.timers && s.timers[id].chan == c && c in s.conns
    && !s.timers[id].armed && Gone(s, id) && !s.conns[c].registered && multiset(s.closings)[Closing(c, id)] == 1
  }

  lemma GoneGrows(s: State, e: Event, id: nat)
    requires Inv(s) && Can(s, e)
    ensures s.world.log <= Do(s, e).world.log
    ensures Gone(Do(s, e), id) <==> Gone(s, id) || (e.Destroy? && s.world.log[s.destroyed].id == id)
  {
    if e.Seconds? { MoveExtends(s.world, SecondsWheel.TickCount(e.diff, |s.world.round.slots|)); }
    hide SecondsWheel.Good;
    var t := Do(s, e);
    assert s.world.log <= t.world.log;
    assert e.Destroy? ==> t.world.log[s.destroyed] == s.world.log[s.destroyed];
    if Gone(s, id) {
      var k :| 0 <= k < s.destroyed && s.world.log[k].id == id;
      assert t.world.log[k].id == id;
    }
    if Gone(t, id) {
      var k :| 0 <= k < t.destroyed && t.world.log[k].id == id;
      assert k < |s.world.log| && s.world.log[k] == t.world.log[k];
    }
  }

  lemma StepKeepsDue(s: State, e: Event, c: nat, id: nat)
    requires Inv(s) && Can(s, e) && !OnChannel(e, c) && id in s.agenda.due
    ensures id in Do(s, e).agenda.due && Do(s, e).agenda.due[id] == s.agenda.due[id]
  {
    hide SecondsWheel.Good, SecondsWheel.Step;
  }

  lemma StepKeepsClosed(s: State, e: Event, c: nat, id: nat)
    requires Inv(s) && Can(s, e) && !OnChannel(e, c)
    ensures HasClosed(s, c, id) ==> HasClosed(Do(s, e), c, id)
  {
    hide SecondsWheel.Good, SecondsWheel.Step, Gone;
    GoneGrows(s, e, id);
  }

  lemma StepTracks(s: State, e: Event, c: nat, id: nat, registered: bool)
    requires Inv(s) && Can(s, e) && !OnChannel(e, c)
    ensures Waits(s, c, id, registered) ==> Waits(Do(s, e), c, id, registered) || HasClosed(Do(s, e), c, id)
  {
    hide SecondsWheel.Good, SecondsWheel.Step, Gone;
    GoneGrows(s, e, id);
  }

  lemma {:induction false} RunTracks(s: State, run: seq<Event>, c: nat, id: nat, registered: bool)
    requires Inv(s) && AllowedRun(s, run) && id in s.agenda.due
    requires forall i :: 0 <= i < |run| ==> !OnChannel(run[i], c)
    requires Waits(s, c, id, registered) || HasClosed(s, c, id)
    ensures Inv(After(s, run))
    ensures Waits(After(s, run), c, id, registered) || HasClosed(After(s, run), c, id)
    ensures id in After(s, run).agenda.due && After(s, run).agenda.due[id] == s.agenda.due[id]
    decreases |run|
  {
    if run != [] {
      hide Waits, HasClosed, OnChannel, SecondsWheel.Good;
      StepKeeps(s, run[0]);
      StepKeepsDue(s, run[0], c, id);
      StepKeepsClosed(s, run[0], c, id);
      StepTracks(s, run[0], c, id, registered);
      RunTracks(Do(s, run[0]), run[1..], c, id, registered);
    }
  }

  lemma StartWaits(s: State, c: nat)
    requires Inv(s) && Can(s, Start(c)) && |s.world.round.slots| > THRESHOLD
    ensures var id := s.conns[c].stage.item;
            && Waits(Do(s, Start(c)), c, id, s.conns[c].registered)
            && id in Do(s, Start(c)).agenda.due && Do(s, Start(c)).agenda.due[id] == s.world.clock + THRESHOLD
  {
    var id := s.conns[c].stage.item;
    LogInDue(s);
    GoneGrows(s, Start(c), id);
  }

  /** A connection that is left alone after a keep-alive request is closed by that request's timer
      when the timer thread has finished with the sixth tick from then on, once, and not before. */
  lemma IdleClosesOnSixthTick(s: State, c: nat, run: seq<Event>)
    requires Inv(s) && Can(s, Start(c)) && |s.world.round.slots| > THRESHOLD
    requires Inv(Do(s, Start(c))) && AllowedRun(Do(s, Start(c)), run)
    requires forall i :: 0 <= i < |run| ==> !OnChannel(run[i], c)
    ensures var id, v := s.conns[c].stage.item, After(Do(s, Start(c)), run);
      && (v.world.clock < s.world.clock + 6 ==>
            Closing(c, id) !in v.closings && c in v.conns && v.conns[c].registered == s.conns[c].registered)
      && (v.world.clock >= s.world.clock + 6 && v.destroyed == |v.world.log| ==>
            multiset(v.closings)[Closing(c, id)] == 1 && c in v.conns && !v.conns[c].registered)
  {
    var id, v := s.conns[c].stage.item, After(Do(s, Start(c)), run);
    StartWaits(s, c);
    RunTracks(Do(s, Start(c)), run, c, id, s.conns[c].registered);
    SecondsWheel.DeliveredWhenDue(v.world, v.agenda, id);
    LoggedOnce(v, id);
  }

  lemma LoggedOnce(s: State, id: nat)
    requires Inv(s) && id in s.agenda.due
    ensures Gone(s, id) ==> s.world.clock > s.agenda.due[id]
    ensures s.world.clock > s.agenda.due[id] && s.destroyed == |s.world.log| ==> Gone(s, id)
  {
    SecondsWheel.DeliveredWhenDue(s.world, s.agenda, id);
    var e := TimerWheel.Entry(id, s.agenda.due[id]);
    if Gone(s, id) {
      var k :| 0 <= k < s.destroyed && s.world.log[k].id == id;
      assert s.world.log[k] in s.world.log && s.world.log[k] == e;
      assert e in multiset(s.world.log);
    }
    if s.world.clock > s.agenda.due[id] && s.destroyed == |s.world.log| {
      assert e in multiset(s.world.log);
      var k :| 0 <= k < |s.world.log| && s.world.log[k] == e;
    }
  }

  // ----- no open connection is forgotten

  /** A channel that is still open after a request asked for keep-alive and has an armed timer. */
  ghost predicate Cared(timers: map<nat, Timer>, conns: map<nat, Conn>) {
    forall c :: c in conns && conns[c].registered && conns[c].requests > 0 && !conns[c].stage.Separated? ==>
      conns[c].keepAlive && conns[c].wp.Some? && conns[c].wp.value in timers && timers[conns[c].wp.value].armed
  }

  /** An armed timer is in its handler's hands or has been put into the wheel. */
  ghost predicate Started(timers: map<nat, Timer>, conns: map<nat, Conn>, due: map<nat, nat>) {
    forall id :: id in timers && timers[id].armed ==>
      id in due || (timers[id].chan in conns && conns[timers[id].chan].stage == Holding(id))
  }

  ghost predicate DestroyedAreDone(s: State) {
    forall id :: id in s.timers && Gone(s, id) ==> !s.timers[id].armed
  }

  ghost predicate DueSoon(due: map<nat, nat>, clock: nat) {
    forall id :: id in due ==> due[id] <= clock + THRESHOLD
  }

  ghost predicate Caring(s: State) {
    && Cared(s.timers, s.conns) && Started(s.timers, s.conns, s.agenda.due)
    && DestroyedAreDone(s) && DueSoon(s.agenda.due, s.agenda.clock)
  }

  lemma InitCaring(n: nat)
    requires n > 0
    ensures Caring(Init(n))
  {
  }

  lemma StepCared(s: State, e: Event)
    requires Inv(s) && Can(s, e) && Cared(s.timers, s.conns)
    ensures Cared(Do(s, e).timers, Do(s, e).conns)
  {
    hide SecondsWheel.Good, SecondsWheel.Step, SecondsWheel.AgendaStep, ArmedIsLatest, ClosersAreDone;
  }

  lemma StepStarted(s: State, e: Event)
    requires Inv(s) && Can(s, e) && Started(s.timers, s.conns, s.agenda.due) && DueSoon(s.agenda.due, s.agenda.clock)
    ensures Started(Do(s, e).timers, Do(s, e).conns, Do(s, e).agenda.due)
    ensures DueSoon(Do(s, e).agenda.due, Do(s, e).agenda.clock)
  {
    hide SecondsWheel.Good, SecondsWheel.Step, ArmedIsLatest, ClosersAreDone;
  }

  lemma StepDestroyed(s: State, e: Event)
    requires Inv(s) && Can(s, e) && DestroyedAreDone(s)
    ensures DestroyedAreDone(Do(s, e))
  {
    LogInDue(s);
    forall id ensures Gone(Do(s, e), id) <==> Gone(s, id) || (e.Destroy? && s.world.log[s.destroyed].id == id) {
      GoneGrows(s, e, id);
    }
    GoneIsDue(s);
    hide SecondsWheel.Good, SecondsWheel.Step, Gone, ClosersAreDone, Cared;
  }

  lemma GoneIsDue(s: State)
    requires SecondsWheel.Good(s.world, s.agenda)
    ensures forall id :: Gone(s, id) ==> id in s.agenda.due
  {
    LogInDue(s);
  }

  lemma {:induction false} RunCaring(s: State, run: seq<Event>)
    requires Inv(s) && Caring(s) && AllowedRun(s, run)
    ensures Inv(After(s, run)) && Caring(After(s, run))
    decreases |run|
  {
    if run != [] {
      hide Can, Do, SecondsWheel.Good;
      StepKeeps(s, run[0]);
      StepCared(s, run[0]);
      StepStarted(s, run[0]);
      StepDestroyed(s, run[0]);
      RunCaring(Do(s, run[0]), run[1..]);
    }
  }

  /** In every reachable state a connection that is open after some request, and has no handler
      between its timers, has asked for keep-alive and has an armed timer in the wheel, which is due
      within the next six ticks: without another request it will be closed. */
  lemma NoneForgotten(n: nat, run: seq<Event>, c: nat)
    requires n > 0 && AllowedRun(Init(n), run)
    ensures var s := After(Init(n), run);
      c in s.conns && s.conns[c].registered && s.conns[c].requests > 0 && s.conns[c].stage == Outside ==>
        && s.conns[c].keepAlive && s.conns[c].wp.Some?
        && var id := s.conns[c].wp.value;
        && id in s.timers && s.timers[id] == Timer(c, true, s.conns[c].requests)
        && id in s.agenda.due && s.agenda.due[id] <= s.world.clock + THRESHOLD
        && !Gone(s, id) && (s.destroyed == |s.world.log| ==> s.world.clock <= s.agenda.due[id])
  {
    InitCaring(n);
    RunCaring(Init(n), run);
    var s := After(Init(n), run);
    if c in s.conns && s.conns[c].registered && s.conns[c].requests > 0 && s.conns[c].stage == Outside {
      LoggedOnce(s, s.conns[c].wp.value);
    }
  }

  // ----- what the events of a connection decide

  /** A request has asked for keep-alive. */
  predicate Asked(run: seq<Event>, c: nat) {
    Read(c, true) in run
  }

  /** A handler has closed the connection. */
  predicate Closed(run: seq<Event>, c: nat) {
    WriteFails(c) in run || Finish(c) in run || Eof(c) in run
  }

  /** A timer has closed it. */
  ghost predicate TimedOut(closings: seq<Closing>, c: nat) {
    exists k :: 0 <= k < |closings| && closings[k].chan == c
  }

  function Reads(run: seq<Event>, c: nat): nat {
    if run == [] then 0 else (if run[0].Read? && run[0].c == c then 1 else 0) + Reads(run[1..], c)
  }

  function Ends(run: seq<Event>, c: nat): nat {
    if run == [] then 0 else (if run[0] == Separate(c) then 1 else 0) + Ends(run[1..], c)
  }

  /** What one event does to what is known of a connection. */
  lemma StepConn(s: State, e: Event, c: nat)
    requires Inv(s) && Can(s, e)
    ensures c in s.conns ==> c in Do(s, e).conns
    ensures c in Do(s, e).conns ==>
      var k := Do(s, e).conns[c];
      if c !in s.conns then
        e == Accept(c) && !k.keepAlive && k.registered && k.handlers == 0
      else
        && (k.keepAlive <==> s.conns[c].keepAlive || e == Read(c, true))
        && k.handlers == s.conns[c].handlers + Reads([e], c) - Ends([e], c)
        && (!OnChannel(e, c) ==> k.stage == s.conns[c].stage)
  {
    assert [e][1..] == [];
    hide SecondsWheel.Good, SecondsWheel.Step, SecondsWheel.AgendaStep, ArmedIsLatest, Names;
  }

  /** Only a connection that exists can have timed out, and then it is not open. */
  ghost predicate ClosingsOk(closings: seq<Closing>, conns: map<nat, Conn>) {
    forall k :: 0 <= k < |closings| ==> closings[k].chan in conns && !conns[closings[k].chan].registered
  }

  lemma StepClosings(s: State, e: Event)
    requires Inv(s) && Can(s, e) && ClosingsOk(s.closings, s.conns)
    ensures ClosingsOk(Do(s, e).closings, Do(s, e).conns)
    ensures s.closings <= Do(s, e).closings
  {
    hide SecondsWheel.Good, SecondsWheel.Step, SecondsWheel.AgendaStep, ArmedIsLatest, Names;
  }

  lemma StepOpen(s: State, e: Event, c: nat)
    requires Inv(s) && Can(s, e) && ClosingsOk(s.closings, s.conns) && c in s.conns
    ensures c in Do(s, e).conns
    ensures Do(s, e).conns[c].registered <==> s.conns[c].registered && !Closed([e], c) && !TimedOut(Do(s, e).closings, c)
  {
    var t := Do(s, e);
    StepClosings(s, e);
    assert TimedOut(t.closings, c) ==> c in t.conns && !t.conns[c].registered;
    if s.conns[c].registered && !t.conns[c].registered && !Closed([e], c) {
      assert [e][0] == e;
      assert e.Destroy?;
      assert t.closings[|s.closings|].chan == c;
    }
    hide SecondsWheel.Good, SecondsWheel.Step, SecondsWheel.AgendaStep, ArmedIsLatest, Names;
  }

  lemma StillTimedOut(before: seq<Closing>, after: seq<Closing>, c: nat)
    requires before <= after
    ensures TimedOut(before, c) ==> TimedOut(after, c)
  {
    if k :| 0 <= k < |before| && before[k].chan == c { assert after[k].chan == c; }
  }

  lemma OneMore(e: Event, run: seq<Event>, c: nat)
    ensures Asked([e] + run, c) <==> e == Read(c, true) || Asked(run, c)
    ensures Closed([e] + run, c) <==> Closed([e], c) || Closed(run, c)
    ensures Reads([e] + run, c) == Reads([e], c) + Reads(run, c)
    ensures Ends([e] + run, c) == Ends([e], c) + Ends(run, c)
  {
    assert ([e] + run)[1..] == run && [e][1..] == [];
  }

  /** What a run says of a connection: whether a request asked for keep-alive, how many requests are
      being handled, and whether it is open. */
  lemma {:induction false} RunConn(s: State, run: seq<Event>, c: nat)
    requires Inv(s) && AllowedRun(s, run) && ClosingsOk(s.closings, s.conns)
    ensures ClosingsOk(After(s, run).closings, After(s, run).conns) && s.closings <= After(s, run).closings
    ensures c in s.conns ==> c in After(s, run).conns
    ensures c in After(s, run).conns ==>
      var k := After(s, run).conns[c];
      && (k.keepAlive <==> Asked(run, c) || (c in s.conns && s.conns[c].keepAlive))
      && k.handlers == (if c in s.conns then s.conns[c].handlers else 0) + Reads(run, c) - Ends(run, c)
      && (k.registered <==> !Closed(run, c) && !TimedOut(After(s, run).closings, c) && (c in s.conns ==> s.conns[c].registered))
    decreases |run|
  {
    if run != [] {
      var e, rest := run[0], run[1..];
      assert run == [e] + rest;
      hide Can, Do, SecondsWheel.Good, Inv, ClosingsOk, Asked, Closed, TimedOut, Reads, Ends;
      StepKeeps(s, e);
      StepClosings(s, e);
      StepConn(s, e, c);
      OneMore(e, rest, c);
      RunConn(Do(s, e), rest, c);
      if c in s.conns {
        StepOpen(s, e, c);
        StillTimedOut(Do(s, e).closings, After(s, run).closings, c);
      }
    }
  }

  /** In every reachable state a connection is open if and only if it has been accepted and neither a
      handler nor a timer has closed it since, and as many requests are being handled as have been
      read and have not ended. */
  lemma OpenUntilClosed(n: nat, run: seq<Event>, c: nat)
    requires n > 0 && AllowedRun(Init(n), run)
    ensures var s := After(Init(n), run);
      c in s.conns ==>
        && (s.conns[c].registered <==> !Closed(run, c) && !TimedOut(s.closings, c))
        && s.conns[c].handlers == Reads(run, c) - Ends(run, c)
  {
    RunConn(Init(n), run, c);
  }

  lemma {:induction false} RunSplit(s: State, a: seq<Event>, b: seq<Event>)
    requires Inv(s) && AllowedRun(s, a + b)
    ensures AllowedRun(s, a) && Inv(After(s, a)) && AllowedRun(After(s, a), b) && After(s, a + b) == After(After(s, a), b)
    decreases |a|
  {
    hide Can, Do, Inv;
    if a == [] {
      assert a + b == b;
    } else {
      assert (a + b)[1..] == a[1..] + b;
      StepKeeps(s, a[0]);
      RunSplit(Do(s, a[0]), a[1..], b);
    }
  }

  lemma {:induction false} OthersKeepStage(s: State, run: seq<Event>, c: nat)
    requires Inv(s) && AllowedRun(s, run) && c in s.conns && forall i :: 0 <= i < |run| ==> !OnChannel(run[i], c)
    ensures c in After(s, run).conns && After(s, run).conns[c].stage == s.conns[c].stage
    decreases |run|
  {
    hide Can, Do, Inv, OnChannel;
    if run != [] {
      StepKeeps(s, run[0]);
      StepConn(s, run[0], c);
      OthersKeepStage(Do(s, run[0]), run[1..], c);
    }
  }

  /** What can happen to a connection between its timers. */
  lemma BetweenTimers(s: State, c: nat)
    requires Inv(s) && c in s.conns && s.conns[c].stage.Separated?
    ensures Can(s, Arm(c)) <==> s.conns[c].keepAlive
    ensures Can(s, Finish(c)) <==> !s.conns[c].keepAlive
    ensures forall e :: OnChannel(e, c) && Can(s, e) ==> e == Arm(c) || e == Finish(c)
    ensures forall id :: id in s.timers && s.timers[id].armed ==> s.timers[id].chan != c
    ensures Can(s, Finish(c)) ==>
      var t := Do(s, Finish(c));
      c in t.conns && !t.conns[c].registered && forall id :: id in t.timers && t.timers[id].armed ==> t.timers[id].chan != c
  {
    hide SecondsWheel.Good, Names;
  }

  lemma AfterSeparate(s: State, c: nat)
    requires Inv(s) && Can(s, Separate(c))
    ensures c in Do(s, Separate(c)).conns && Do(s, Separate(c)).conns[c].stage.Separated?
  {
    hide SecondsWheel.Good, Names, ArmedIsLatest;
  }

  /** When a request of a connection has ended, and whatever others do then: a new timer can be made if
      and only if some request of the connection has asked for keep-alive. If none has, the one thing
      that can happen to the connection is that it is closed, and no timer holds it then. */
  lemma KeepAliveDecides(n: nat, run: seq<Event>, rest: seq<Event>, c: nat)
    requires n > 0 && AllowedRun(Init(n), run + ([Separate(c)] + rest))
    requires forall i :: 0 <= i < |rest| ==> !OnChannel(rest[i], c)
    ensures var s := After(Init(n), run + ([Separate(c)] + rest));
      && Inv(s)
      && (Can(s, Arm(c)) <==> Read(c, true) in run)
      && (Can(s, Finish(c)) <==> Read(c, true) !in run)
      && (forall e :: OnChannel(e, c) && Can(s, e) ==> e == Arm(c) || e == Finish(c))
      && (Can(s, Finish(c)) ==>
            var t := Do(s, Finish(c));
            c in t.conns && !t.conns[c].registered && forall id :: id in t.timers && t.timers[id].armed ==> t.timers[id].chan != c)
  {
    var init, later := Init(n), [Separate(c)] + rest;
    RunSplit(init, run, later);
    var s0 := After(init, run);
    assert later[0] == Separate(c) && later[1..] == rest;
    RunConn(init, run, c);
    hide Do, Inv, Can;
    StepKeeps(s0, Separate(c));
    AfterSeparate(s0, c);
    StepConn(s0, Separate(c), c);
    var s1 := Do(s0, Separate(c));
    OthersKeepStage(s1, rest, c);
    OthersKeepAsked(s1, rest, c);
    RunKeeps(s1, rest);
    BetweenTimers(After(s1, rest), c);
  }

  lemma {:induction false} OthersKeepAsked(s: State, run: seq<Event>, c: nat)
    requires Inv(s) && AllowedRun(s, run) && c in s.conns && forall i :: 0 <= i < |run| ==> !OnChannel(run[i], c)
    ensures c in After(s, run).conns && After(s, run).conns[c].keepAlive == s.conns[c].keepAlive
    decreases |run|
  {
    hide Can, Do, Inv;
    if run != [] {
      assert run[0] != Read(c, true);
      StepKeeps(s, run[0]);
      StepConn(s, run[0], c);
      OthersKeepAsked(Do(s, run[0]), run[1..], c);
    }
  }
}
