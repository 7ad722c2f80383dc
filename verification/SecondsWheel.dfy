/** The seconds wheel of TimeRound.h on values: slots by position, `cur` the slot of the next tick.
    The theorem: on every run of insertions, updates and ticks the wheel delivers exactly what a
    sorted agenda of due ticks holds before the clock. */
module SecondsWheel {
  import opened Sequences
  import opened TimerWheel

  datatype Round<T> = Round(cur: nat, slots: seq<seq<T>>)

  ghost predicate Valid<T>(r: Round<T>) { r.cur < |r.slots| }

  /** The position `d` slots on from `cur`, less than a turn away. */
  function At(cur: nat, d: nat, n: nat): nat {
    if cur + d < n || n == 0 then cur + d else cur + d - n
  }

  /** A time beyond the wheel is taken to be one turn less a slot. */
  function Clamped(time: nat, n: nat): (d: nat)
    requires n > 0
    ensures d < n && (time < n ==> d == time)
  {
    if time >= n then n - 1 else time
  }

  function Put<T>(r: Round<T>, x: T, d: nat): Round<T>
    requires Valid(r) && d < |r.slots|
  {
    var p := At(r.cur, d, |r.slots|);
    r.(slots := r.slots[p := r.slots[p] + [x]])
  }

  /** AddTimeRoundItemNode. */
  function AddItem<T>(r: Round<T>, x: T, time: int): Round<T>
    requires Valid(r)
  {
    if time <= 0 then r else Put(r, x, Clamped(time, |r.slots|))
  }

  /** UpdateTimeRoundItemNode for an item whose recorded position is `index`. */
  function UpdateItem<T(==)>(r: Round<T>, x: T, index: nat, time: nat): Round<T>
    requires Valid(r) && index < |r.slots|
  {
    var d := Clamped(time, |r.slots|);
    if At(r.cur, d, |r.slots|) == index then r
    else Put(r.(slots := r.slots[index := Without(r.slots[index], x)]), x, d)
  }

  /** One turn of the inner loop of `fun`: what reaches the timeout list, and the wheel after. */
  function Tick<T>(r: Round<T>): (o: (seq<T>, Round<T>))
    requires Valid(r)
    ensures Valid(o.1) && |o.1.slots| == |r.slots|
  {
    (r.slots[r.cur], Round(if r.cur + 1 >= |r.slots| then 0 else r.cur + 1, r.slots[r.cur := []]))
  }

  function Ticks<T>(r: Round<T>, k: nat): (o: (seq<T>, Round<T>))
    requires Valid(r)
    ensures Valid(o.1) && |o.1.slots| == |r.slots|
  {
    if k == 0 then ([], r)
    else
      var (early, s) := Ticks(r, k - 1);
      var (out, t) := Tick(s);
      (early + out, t)
  }

  /** How many slots `fun` passes when the clock has moved by `diff` seconds. */
  function TickCount(diff: int, n: nat): nat
    requires n > 0
  {
    if diff < 1 then 0 else if diff >= n then n - 1 else diff
  }

  // ----- the wheel seen from `cur`, with due ticks

  function Tag(s: seq<nat>, due: nat): (r: seq<Entry>)
    ensures |r| == |s| && forall k :: 0 <= k < |s| ==> r[k] == Entry(s[k], due)
  {
    seq(|s|, k requires 0 <= k < |s| => Entry(s[k], due))
  }

  /** Element `i` holds what the `i`-th tick from now will move. */
  function Tagged(r: Round<nat>, clock: nat): (v: seq<seq<Entry>>)
    requires Valid(r)
    ensures |v| == |r.slots|
    ensures forall i :: 0 <= i < |v| ==> v[i] == Tag(r.slots[At(r.cur, i, |r.slots|)], clock + i)
    ensures SlotsOnTime(v, clock)
  {
    seq(|r.slots|, i requires 0 <= i < |r.slots| => Tag(r.slots[At(r.cur, i, |r.slots|)], clock + i))
  }

  function Queue(r: Round<nat>, clock: nat): seq<Entry>
    requires Valid(r)
  {
    Flatten(Tagged(r, clock))
  }

  lemma PutIsInsert(r: Round<nat>, x: nat, d: nat, clock: nat)
    requires Valid(r) && d < |r.slots|
    ensures Queue(Put(r, x, d), clock) == InsertStable(Queue(r, clock), Entry(x, clock + d))
  {
    var v, e := Tagged(r, clock), Entry(x, clock + d);
    assert Tag(r.slots[At(r.cur, d, |r.slots|)] + [x], clock + d) == v[d] + [e];
    assert Tagged(Put(r, x, d), clock) == v[d := v[d] + [e]];
    Around(v, d, v[d] + [e]);
    PlacedIsInserted(v[..d], v[d], v[d + 1..], clock, e);
  }

  lemma TickIsFront(r: Round<nat>, clock: nat)
    requires Valid(r)
    ensures Queue(r, clock) == Tag(Tick(r).0, clock) + Queue(Tick(r).1, clock + 1)
  {
    var v := Tagged(r, clock);
    assert Tag([], clock + |v|) == [];
    assert Tagged(Tick(r).1, clock + 1) == v[1..] + [[]];
    FlattenConcat(v[1..], [[]]);
    FlattenEmpty<Entry>([[]]);
  }

  lemma {:induction false} TagWithout(s: seq<nat>, x: nat, due: nat)
    ensures Tag(Without(s, x), due) == Without(Tag(s, due), Entry(x, due))
  {
    if s != [] {
      TagWithout(s[1..], x, due);
      assert Tag(s, due)[1..] == Tag(s[1..], due);
      assert Tag([s[0]] + Without(s[1..], x), due) == [Entry(s[0], due)] + Tag(Without(s[1..], x), due);
    }
  }

  /** Taking an item out of its slot takes it out of the queue. */
  lemma DropIsWithout(r: Round<nat>, x: nat, d: nat, clock: nat)
    requires Valid(r) && d < |r.slots| && NoDup(Queue(r, clock))
    requires x in r.slots[At(r.cur, d, |r.slots|)]
    ensures var p := At(r.cur, d, |r.slots|);
            Queue(r.(slots := r.slots[p := Without(r.slots[p], x)]), clock) == Without(Queue(r, clock), Entry(x, clock + d))
  {
    var p, v, e := At(r.cur, d, |r.slots|), Tagged(r, clock), Entry(x, clock + d);
    var w := Tagged(r.(slots := r.slots[p := Without(r.slots[p], x)]), clock);
    forall i | 0 <= i < |v| ensures w[i] == Without(v[i], e) {
      if i == d { TagWithout(r.slots[p], x, clock + d); } else { WithoutAbsent(v[i], e); }
    }
    assert w == Cancel(v, e);
    CancelIsWithout(v, e);
  }

  // ----- every run

  /** The wheel, the ticks it has done, the position each item records (TimeRoundItem.index), and
      what has reached the timeout list, with the tick that moved it. */
  datatype World = World(round: Round<nat>, clock: nat, index: map<nat, nat>, log: seq<Entry>)

  datatype Op =
    | Insert(x: nat, time: int)
    | Update(x: nat, newTime: nat)
    | Pass(diff: int)  // `fun` finds that `diff` seconds have passed

  /** Nodes are new when they are added, and an updated node is in the wheel. */
  ghost predicate Allowed(w: World, op: Op) {
    match op
    case Insert(x, _) => x !in w.index
    case Update(x, _) => x in w.index && w.index[x] < |w.round.slots| && x in w.round.slots[w.index[x]]
    case Pass(_) => true
  }

  function Move(w: World, k: nat): (v: World)
    requires Valid(w.round)
    ensures Valid(v.round) && |v.round.slots| == |w.round.slots| && v.index == w.index && v.clock == w.clock + k
  {
    if k == 0 then w
    else
      var v := Move(w, k - 1);
      var (out, r) := Tick(v.round);
      World(r, v.clock + 1, v.index, v.log + Tag(out, v.clock))
  }

  function Step(w: World, op: Op): (v: World)
    requires Valid(w.round) && Allowed(w, op)
    ensures Valid(v.round) && |v.round.slots| == |w.round.slots|
  {
    var n := |w.round.slots|;
    match op
    case Insert(x, time) =>
      if time <= 0 then w
      else w.(round := AddItem(w.round, x, time), index := w.index[x := At(w.round.cur, Clamped(time, n), n)])
    case Update(x, time) =>
      w.(round := UpdateItem(w.round, x, w.index[x], time),
         index := w.index[x := At(w.round.cur, Clamped(time, n), n)])
    case Pass(diff) => Move(w, TickCount(diff, n))
  }

  /** The reference: every item ever added with the tick it is due, in order. Time only moves the
      clock; what lies before it has been delivered. */
  datatype Agenda = Agenda(clock: nat, due: map<nat, nat>, entries: seq<Entry>)

  function AgendaStep(a: Agenda, op: Op, n: nat): Agenda
    requires n > 0
  {
    match op
    case Insert(x, time) =>
      if time <= 0 then a
      else
        var due := a.clock + Clamped(time, n);
        a.(due := a.due[x := due], entries := InsertStable(a.entries, Entry(x, due)))
    case Update(x, time) =>
      var due := a.clock + Clamped(time, n);
      if x !in a.due || a.due[x] == due then a
      else a.(due := a.due[x := due], entries := InsertStable(Without(a.entries, Entry(x, a.due[x])), Entry(x, due)))
    case Pass(diff) => a.(clock := a.clock + TickCount(diff, n))
  }

  /** The agenda lists each item once, under its due tick, in due order. */
  ghost predicate Orderly(a: Agenda) {
    OrderlyEntries(a.entries, a.due)
  }

  /** Items lie where their recorded position says. */
  ghost predicate Indexed(r: Round<nat>, index: map<nat, nat>) {
    forall p, k {:trigger r.slots[p][k]} :: 0 <= p < |r.slots| && 0 <= k < |r.slots[p]| ==> r.slots[p][k] in index && index[r.slots[p][k]] == p
  }

  /** What was delivered and what is still in the wheel make up the agenda, cut at the clock. */
  ghost predicate Agrees(w: World, a: Agenda) {
    && Valid(w.round) && w.clock == a.clock && w.index.Keys == a.due.Keys
    && a.entries == w.log + Queue(w.round, w.clock)
    && forall e :: e in w.log ==> e.expire < w.clock
  }

  lemma InQueue(r: Round<nat>, clock: nat, e: Entry)
    requires Valid(r)
    ensures e in Queue(r, clock) <==> clock <= e.expire < clock + |r.slots| && e.id in r.slots[At(r.cur, e.expire - clock, |r.slots|)]
  {
    var v := Tagged(r, clock);
    if clock <= e.expire < clock + |v| && e.id in r.slots[At(r.cur, e.expire - clock, |v|)] {
      var d := e.expire - clock;
      var k :| 0 <= k < |v[d]| && v[d][k] == e;
      InFlatten(v, d, k);
    }
    if e in Queue(r, clock) {
      ExpiryRange(v, clock);
      var d := FlattenFrom(v, e);
      assert v[d] == Tag(r.slots[At(r.cur, d, |v|)], clock + d);
    }
  }

  lemma {:induction false} MoveAgrees(w: World, a: Agenda, k: nat)
    requires Agrees(w, a)
    ensures Agrees(Move(w, k), a.(clock := a.clock + k))
  {
    if k > 0 {
      MoveAgrees(w, a, k - 1);
      var v := Move(w, k - 1);
      TickIsFront(v.round, v.clock);
      assert v.log + (Tag(Tick(v.round).0, v.clock) + Queue(Tick(v.round).1, v.clock + 1))
          == v.log + Tag(Tick(v.round).0, v.clock) + Queue(Tick(v.round).1, v.clock + 1);
    }
  }

  /** Behind everything that is earlier, insertion only concerns the rest. */
  lemma {:induction false} InsertConcat(p: seq<Entry>, q: seq<Entry>, e: Entry)
    requires forall x :: x in p ==> x.expire <= e.expire
    ensures InsertStable(p + q, e) == p + InsertStable(q, e)
  {
    if q == [] {
      assert p + q == p && (p != [] ==> p[|p| - 1] in p);
    } else {
      var t, l := q[..|q| - 1], q[|q| - 1];
      assert q == t + [l] && p + q == (p + t) + [l];
      if l.expire > e.expire {
        InsertSnoc(t, l, e);
        InsertSnoc(p + t, l, e);
        InsertConcat(p, t, e);
      }
    }
  }

  lemma AddAgrees(w: World, a: Agenda, x: nat, time: int)
    requires Agrees(w, a) && Allowed(w, Insert(x, time))
    ensures Agrees(Step(w, Insert(x, time)), AgendaStep(a, Insert(x, time), |w.round.slots|))
  {
    if time > 0 {
      var d := Clamped(time, |w.round.slots|);
      PutIsInsert(w.round, x, d, w.clock);
      InsertConcat(w.log, Queue(w.round, w.clock), Entry(x, w.clock + d));
    }
  }

  ghost predicate OrderlyEntries(q: seq<Entry>, due: map<nat, nat>) {
    Sorted(q) && NoDup(q) && forall e :: e in q <==> e.id in due && due[e.id] == e.expire
  }

  lemma OrderlyInsert(q: seq<Entry>, due: map<nat, nat>, e: Entry)
    requires OrderlyEntries(q, due) && e.id !in due
    ensures OrderlyEntries(InsertStable(q, e), due[e.id := e.expire])
  {
    assert e !in q;
    InsertSorted(q, e);
    InsertNoDup(q, e);
  }

  lemma OrderlyDrop(q: seq<Entry>, due: map<nat, nat>, x: nat)
    requires OrderlyEntries(q, due) && x in due
    ensures OrderlyEntries(Without(q, Entry(x, due[x])), due - {x})
  {
    DropSorted(q, Entry(x, due[x]));
  }

  lemma OrderlyStep(a: Agenda, op: Op, n: nat)
    requires Orderly(a) && n > 0
    requires op.Insert? ==> op.x !in a.due
    ensures Orderly(AgendaStep(a, op, n))
  {
    hide Sorted, NoDup;
    match op
    case Insert(x, time) =>
      if time > 0 { OrderlyInsert(a.entries, a.due, Entry(x, a.clock + Clamped(time, n))); }
    case Update(x, time) =>
      var due := a.clock + Clamped(time, n);
      if x in a.due && a.due[x] != due {
        OrderlyDrop(a.entries, a.due, x);
        OrderlyInsert(Without(a.entries, Entry(x, a.due[x])), a.due - {x}, Entry(x, due));
        assert (a.due - {x})[x := due] == a.due[x := due];
      }
    case Pass(_) =>
  }

  lemma DropSorted(q: seq<Entry>, e: Entry)
    requires Sorted(q) && NoDup(q) && e in q
    ensures var r := Without(q, e); Sorted(r) && NoDup(r) && forall x :: x in r <==> x in q && x != e
  {
    var k :| 0 <= k < |q| && q[k] == e;
    WithoutAt(q, e, k);
    var r: seq<Entry> := Without(q, e);
    forall x: Entry | x in q && x != e ensures x in r {
      var i :| 0 <= i < |q| && q[i] == x;
      assert r[if i < k then i else i - 1] == x;
    }
  }

  /** An item's countdown, from its position. */
  function Countdown(r: Round<nat>, p: nat): (c: nat)
    requires Valid(r) && p < |r.slots|
    ensures c < |r.slots| && At(r.cur, c, |r.slots|) == p
  {
    if p >= r.cur then p - r.cur else p + |r.slots| - r.cur
  }

  lemma UpdateIsMove(r: Round<nat>, x: nat, p: nat, time: nat, clock: nat)
    requires Valid(r) && p < |r.slots| && x in r.slots[p] && NoDup(Queue(r, clock))
    ensures var c, d := Countdown(r, p), Clamped(time, |r.slots|);
            Queue(UpdateItem(r, x, p, time), clock) ==
              if c == d then Queue(r, clock)
              else InsertStable(Without(Queue(r, clock), Entry(x, clock + c)), Entry(x, clock + d))
  {
    hide Tagged, Flatten, NoDup, InsertStable, Sequences.Without;
    var c, d := Countdown(r, p), Clamped(time, |r.slots|);
    if c != d {
      DropIsWithout(r, x, c, clock);
      PutIsInsert(r.(slots := r.slots[p := Without(r.slots[p], x)]), x, d, clock);
    }
  }

  lemma MoveBehind(log: seq<Entry>, q: seq<Entry>, e: Entry, e': Entry)
    requires NoDup(log + q) && e in q && forall x :: x in log ==> x.expire <= e'.expire
    ensures InsertStable(Without(log + q, e), e') == log + InsertStable(Without(q, e), e')
  {
    NoDupParts(log, q);
    WithoutConcat(log, q, e);
    InsertConcat(log, Without(q, e), e');
  }

  lemma UpdateAgrees(w: World, a: Agenda, x: nat, time: nat)
    requires Agrees(w, a) && Orderly(a) && Allowed(w, Update(x, time))
    ensures Agrees(Step(w, Update(x, time)), AgendaStep(a, Update(x, time), |w.round.slots|))
  {
    hide Queue, NoDup, Sorted, InsertStable, Sequences.Without;
    var q := Queue(w.round, w.clock);
    var e := Entry(x, w.clock + Countdown(w.round, w.index[x]));
    var e' := Entry(x, w.clock + Clamped(time, |w.round.slots|));
    InQueue(w.round, w.clock, e);
    assert e in a.entries;
    NoDupParts(w.log, q);
    UpdateIsMove(w.round, x, w.index[x], time, w.clock);
    MoveBehind(w.log, q, e, e');
  }

  lemma {:induction false} MoveIndexed(w: World, k: nat)
    requires Valid(w.round) && Indexed(w.round, w.index)
    ensures Indexed(Move(w, k).round, w.index)
  {
    if k > 0 { MoveIndexed(w, k - 1); }
  }

  lemma DropIndexed(r: Round<nat>, index: map<nat, nat>, x: nat, p: nat)
    requires Indexed(r, index) && p < |r.slots|
    ensures Indexed(r.(slots := r.slots[p := Without(r.slots[p], x)]), index)
  {
    WithoutSubset(r.slots[p], x);
    hide Sequences.Without;
    var s := r.(slots := r.slots[p := Without(r.slots[p], x)]);
    forall q, k | 0 <= q < |s.slots| && 0 <= k < |s.slots[q]|
      ensures s.slots[q][k] in index && index[s.slots[q][k]] == q
    {
      if q == p {
        assert s.slots[p][k] in r.slots[p];
        var j :| 0 <= j < |r.slots[p]| && r.slots[p][j] == s.slots[p][k];
      } else {
        assert s.slots[q] == r.slots[q];
      }
    }
  }

  ghost predicate Nowhere(slots: seq<seq<nat>>, x: nat) {
    forall p :: 0 <= p < |slots| ==> x !in slots[p]
  }

  lemma PutIndexed(r: Round<nat>, index: map<nat, nat>, x: nat, d: nat)
    requires Valid(r) && d < |r.slots| && Indexed(r, index)
    requires Nowhere(r.slots, x)
    ensures Indexed(Put(r, x, d), index[x := At(r.cur, d, |r.slots|)])
  {
  }

  lemma StepIndexed(w: World, a: Agenda, op: Op)
    requires Agrees(w, a) && Orderly(a) && Indexed(w.round, w.index) && Allowed(w, op)
    ensures Indexed(Step(w, op).round, Step(w, op).index)
  {
    var r, n := w.round, |w.round.slots|;
    match op
    case Insert(x, time) =>
      if time > 0 { PutIndexed(r, w.index, x, Clamped(time, n)); }
    case Update(x, time) =>
      var p, d := w.index[x], Clamped(time, n);
      if At(r.cur, d, n) != p {
        DropIndexed(r, w.index, x, p);
        ThenNowhere(w, a, x);
        PutIndexed(r.(slots := r.slots[p := Without(r.slots[p], x)]), w.index, x, d);
      }
    case Pass(diff) => MoveIndexed(w, TickCount(diff, n));
  }

  lemma OnceInSlot(r: Round<nat>, x: nat, p: nat, clock: nat)
    requires Valid(r) && p < |r.slots| && x in r.slots[p] && NoDup(Queue(r, clock))
    ensures x !in Without(r.slots[p], x)
  {
    hide Flatten, Tagged;
    var c, q := Countdown(r, p), Queue(r, clock);
    var e := Entry(x, clock + c);
    InQueue(r, clock, e);
    DropIsWithout(r, x, c, clock);
    var k :| 0 <= k < |q| && q[k] == e;
    WithoutAt(q, e, k);
    InQueue(r.(slots := r.slots[p := Without(r.slots[p], x)]), clock, e);
  }

  /** An item is in one slot, once, so unlinking it leaves it nowhere. */
  lemma ThenNowhere(w: World, a: Agenda, x: nat)
    requires Agrees(w, a) && Orderly(a) && Indexed(w.round, w.index) && Allowed(w, Update(x, 0))
    ensures Nowhere(w.round.slots[w.index[x] := Without(w.round.slots[w.index[x]], x)], x)
  {
    hide Queue, Sorted, Sequences.Without;
    NoDupParts(w.log, Queue(w.round, w.clock));
    OnceInSlot(w.round, x, w.index[x], w.clock);
  }

  ghost predicate AllowedRun(w: World, ops: seq<Op>)
    requires Valid(w.round)
    decreases |ops|
  {
    ops == [] || (Allowed(w, ops[0]) && AllowedRun(Step(w, ops[0]), ops[1..]))
  }

  function Run(w: World, ops: seq<Op>): (v: World)
    requires Valid(w.round) && AllowedRun(w, ops)
    ensures Valid(v.round) && |v.round.slots| == |w.round.slots|
    decreases |ops|
  {
    if ops == [] then w else Run(Step(w, ops[0]), ops[1..])
  }

  function AgendaRun(a: Agenda, ops: seq<Op>, n: nat): Agenda
    requires n > 0
    decreases |ops|
  {
    if ops == [] then a else AgendaRun(AgendaStep(a, ops[0], n), ops[1..], n)
  }

  ghost predicate Good(w: World, a: Agenda) {
    Agrees(w, a) && Orderly(a) && Indexed(w.round, w.index)
  }

  lemma StepGood(w: World, a: Agenda, op: Op)
    requires Good(w, a) && Allowed(w, op)
    ensures Good(Step(w, op), AgendaStep(a, op, |w.round.slots|))
  {
    OrderlyStep(a, op, |w.round.slots|);
    StepIndexed(w, a, op);
    match op
    case Insert(x, time) => AddAgrees(w, a, x, time);
    case Update(x, time) => UpdateAgrees(w, a, x, time);
    case Pass(diff) => MoveAgrees(w, a, TickCount(diff, |w.round.slots|));
  }

  lemma {:induction false} RunGood(w: World, a: Agenda, ops: seq<Op>)
    requires Good(w, a) && AllowedRun(w, ops)
    ensures Good(Run(w, ops), AgendaRun(a, ops, |w.round.slots|))
    decreases |ops|
  {
    if ops != [] {
      StepGood(w, a, ops[0]);
      RunGood(Step(w, ops[0]), AgendaStep(a, ops[0], |w.round.slots|), ops[1..]);
    }
  }

  /** A wheel as TimeRound's constructor makes it. */
  function EmptyRound<T>(n: nat): Round<T> {
    Round(0, Empties(n))
  }

  function Fresh(n: nat): World
    requires n > 0
  {
    World(EmptyRound(n), 0, map[], [])
  }

  /** On every run the wheel has delivered exactly the items of the agenda that are due before the
      clock, in due order and first come first served within a tick, and still holds the others. */
  lemma WheelFollowsAgenda(n: nat, ops: seq<Op>)
    requires n > 0 && AllowedRun(Fresh(n), ops)
    ensures var w, a := Run(Fresh(n), ops), AgendaRun(Agenda(0, map[], []), ops, n);
            && Sorted(a.entries) && NoDup(a.entries)
            && a.entries == w.log + Queue(w.round, w.clock)
            && forall e :: e in a.entries ==> (e in w.log <==> e.expire < w.clock)
  {
    FreshGood(n);
    RunGood(Fresh(n), Agenda(0, map[], []), ops);
    var w, a := Run(Fresh(n), ops), AgendaRun(Agenda(0, map[], []), ops, n);
    ExpiryRange(Tagged(w.round, w.clock), w.clock);
    forall e | e in a.entries ensures e in w.log <==> e.expire < w.clock {
      assert e in w.log || e in Queue(w.round, w.clock);
    }
  }

  lemma FreshGood(n: nat)
    requires n > 0
    ensures Good(Fresh(n), Agenda(0, map[], []))
  {
    var v := Tagged(Fresh(n).round, 0);
    forall i | 0 <= i < n ensures v[i] == [] { assert Tag([], i) == []; }
    FlattenEmpty(v);
  }

  lemma {:induction false} DueKept(a: Agenda, ops: seq<Op>, n: nat, x: nat)
    requires n > 0 && x in a.due
    requires forall i :: 0 <= i < |ops| ==> ops[i].Pass? || ops[i].x != x
    ensures x in AgendaRun(a, ops, n).due && AgendaRun(a, ops, n).due[x] == a.due[x]
    decreases |ops|
  {
    if ops != [] { DueKept(AgendaStep(a, ops[0], n), ops[1..], n, x); }
  }

  /** What is due before the clock has been delivered once, on its tick; the rest not yet. */
  lemma DeliveredWhenDue(w: World, a: Agenda, x: nat)
    requires Good(w, a) && x in a.due
    ensures multiset(w.log)[Entry(x, a.due[x])] == (if w.clock > a.due[x] then 1 else 0)
    ensures forall e :: e in w.log && e.id == x ==> e.expire == a.due[x]
  {
    hide Indexed, Queue, NoDup, Sorted;
    var e := Entry(x, a.due[x]);
    NoDupParts(w.log, Queue(w.round, w.clock));
    CountOnce(w.log, e);
    InQueue(w.round, w.clock, e);
    assert e in a.entries;
  }

  /** An item added with threshold t > 0, and not updated since, is delivered on the (t+1)-st tick
      after its insertion, on the n-th if t is n or more: once, on no other tick, and never lost. */
  lemma DeliveredOnce(w: World, a: Agenda, x: nat, time: int, ops: seq<Op>)
    requires Good(w, a) && time > 0 && Allowed(w, Insert(x, time)) && AllowedRun(Step(w, Insert(x, time)), ops)
    requires forall i :: 0 <= i < |ops| ==> ops[i].Pass? || ops[i].x != x
    ensures var v, n := Run(Step(w, Insert(x, time)), ops), |w.round.slots|;
            var due := w.clock + if time < n then time else n - 1;
            && multiset(v.log)[Entry(x, due)] == (if v.clock >= due + 1 then 1 else 0)
            && forall e :: e in v.log && e.id == x ==> e.expire == due
  {
    StepGood(w, a, Insert(x, time));
    DeliveredLater(w, a, Insert(x, time), ops);
  }

  /** The same for an item that is updated, counted from its last update. */
  lemma DeliveredOnceUpdated(w: World, a: Agenda, x: nat, time: nat, ops: seq<Op>)
    requires Good(w, a) && Allowed(w, Update(x, time)) && AllowedRun(Step(w, Update(x, time)), ops)
    requires forall i :: 0 <= i < |ops| ==> ops[i].Pass? || ops[i].x != x
    ensures var v, n := Run(Step(w, Update(x, time)), ops), |w.round.slots|;
            var due := w.clock + if time < n then time else n - 1;
            && multiset(v.log)[Entry(x, due)] == (if v.clock >= due + 1 then 1 else 0)
            && forall e :: e in v.log && e.id == x ==> e.expire == due
  {
    StepGood(w, a, Update(x, time));
    InAgenda(w, a, x);
    DeliveredLater(w, a, Update(x, time), ops);
  }

  /** What is in a slot is in the agenda. */
  lemma InAgenda(w: World, a: Agenda, x: nat)
    requires Good(w, a) && Allowed(w, Update(x, 0))
    ensures x in a.due
  {
    var e := Entry(x, w.clock + Countdown(w.round, w.index[x]));
    InQueue(w.round, w.clock, e);
    assert e in a.entries;
  }

  lemma DeliveredLater(w: World, a: Agenda, op: Op, ops: seq<Op>)
    requires Good(w, a) && !op.Pass? && Allowed(w, op) && AllowedRun(Step(w, op), ops)
    requires Good(Step(w, op), AgendaStep(a, op, |w.round.slots|)) && op.x in AgendaStep(a, op, |w.round.slots|).due
    requires forall i :: 0 <= i < |ops| ==> ops[i].Pass? || ops[i].x != op.x
    ensures var v, due := Run(Step(w, op), ops), AgendaStep(a, op, |w.round.slots|).due[op.x];
            && multiset(v.log)[Entry(op.x, due)] == (if v.clock > due then 1 else 0)
            && forall e :: e in v.log && e.id == op.x ==> e.expire == due
  {
    var n := |w.round.slots|;
    var b := AgendaStep(a, op, n);
    RunGood(Step(w, op), b, ops);
    hide Good;
    DueKept(b, ops, n, op.x);
    DeliveredWhenDue(Run(Step(w, op), ops), AgendaRun(b, ops, n), op.x);
  }

  lemma {:induction false} CountOnce(s: seq<Entry>, e: Entry)
    requires NoDup(s)
    ensures multiset(s)[e] == if e in s then 1 else 0
  {
    if s != [] {
      assert s == [s[0]] + s[1..];
      CountOnce(s[1..], e);
    }
  }

  /** What the caller of UpdateTimeRoundItemNode must know is only that the node is in the wheel. */
  lemma UpdatableIsInWheel(w: World, x: nat, time: nat)
    requires Valid(w.round) && Indexed(w.round, w.index)
    ensures Allowed(w, Update(x, time)) <==> exists p :: 0 <= p < |w.round.slots| && x in w.round.slots[p]
  {
  }

  // ----- ticks and seconds

  /** The clock reading that `fun` goes by after it has read `now`. */
  function Seen(cur: int, now: int): int {
    if now - cur < 1 then cur else now
  }

  /** How many ticks `fun` makes over a series of clock readings. */
  function TicksOver(cur: int, readings: seq<int>, n: nat): nat
    requires n > 0
    decreases |readings|
  {
    if readings == [] then 0
    else TickCount(readings[0] - cur, n) + TicksOver(Seen(cur, readings[0]), readings[1..], n)
  }

  function LastSeen(cur: int, readings: seq<int>): int
    decreases |readings|
  {
    if readings == [] then cur else LastSeen(Seen(cur, readings[0]), readings[1..])
  }

  predicate ShortGaps(cur: int, readings: seq<int>, n: nat)
    decreases |readings|
  {
    readings == [] || (readings[0] - cur < n && ShortGaps(Seen(cur, readings[0]), readings[1..], n))
  }

  /** Over any clock readings the wheel is never ahead of the clock, and its ticks are seconds if and
      only if every gap that `fun` sees is less than the number of slots. */
  lemma {:induction false} TicksAreSeconds(cur: int, readings: seq<int>, n: nat)
    requires n > 0
    ensures TicksOver(cur, readings, n) <= LastSeen(cur, readings) - cur
    ensures TicksOver(cur, readings, n) == LastSeen(cur, readings) - cur <==> ShortGaps(cur, readings, n)
    decreases |readings|
  {
    if readings != [] { TicksAreSeconds(Seen(cur, readings[0]), readings[1..], n); }
  }

  /** Less than a turn of ticks empties the slots it passes and leaves the others. */
  lemma {:induction false} TicksPass<T>(r: Round<T>, k: nat)
    requires Valid(r) && k < |r.slots|
    ensures var t, n := Ticks(r, k).1, |r.slots|;
      && t.cur == At(r.cur, k, n)
      && forall i {:trigger At(r.cur, i, n)} :: 0 <= i < n ==>
           t.slots[At(r.cur, i, n)] == if i < k then [] else r.slots[At(r.cur, i, n)]
  {
    if k > 0 { TicksPass(r, k - 1); }
  }

  /** One gap of `diff` seconds, in which the time of the first `diff` slots, at most all, is over:
      they are all served if and only if the gap is less than the number of slots, or nothing is in
      the last of them. */
  lemma GapServesAll<T>(r: Round<T>, diff: nat)
    requires Valid(r)
    ensures var t, n := Ticks(r, TickCount(diff, |r.slots|)).1, |r.slots|;
      (forall i {:trigger At(r.cur, i, n)} :: 0 <= i < n && i < diff ==> t.slots[At(r.cur, i, n)] == []) <==>
      diff < n || r.slots[At(r.cur, n - 1, n)] == []
  {
    TicksPass(r, TickCount(diff, |r.slots|));
  }

  /** On a wheel of six slots an item for five ticks is still there after a gap of six seconds. */
  lemma LongGapLeavesOne()
    ensures var r := AddItem(Round(0, Empties<nat>(6)), 7, 5);
            Ticks(r, TickCount(6, 6)) == ([], r.(cur := 5)) && r.slots[5] == [7]
  {
    var r := AddItem(Round(0, Empties<nat>(6)), 7, 5);
    TicksPass(r, 5);
    NothingEarly(r, 5);
    var t := Ticks(r, 5).1;
    forall i | 0 <= i < 6 ensures t.slots[i] == r.slots[i] { assert At(0, i, 6) == i; }
    assert t.slots == r.slots;
  }

  /** Ticks over empty slots deliver nothing. */
  lemma {:induction false} NothingEarly<T>(r: Round<T>, k: nat)
    requires Valid(r) && k < |r.slots| && forall i {:trigger At(r.cur, i, |r.slots|)} :: 0 <= i < k ==> r.slots[At(r.cur, i, |r.slots|)] == []
    ensures Ticks(r, k).0 == []
  {
    if k > 0 {
      NothingEarly(r, k - 1);
      TicksPass(r, k - 1);
    }
  }
}
