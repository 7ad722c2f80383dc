/** The millisecond timing wheel of libco/co_routine.cpp (AddTimeout, TakeAllTimeout) on values,
    and the theorem that it is a stable priority queue. A wheel is seen from its current start:
    `slots[i]` is the list that holds the items expiring at `start + i`. */
module TimerWheel {
  import opened Sequences
  import Ring

  const WORD := 0x1_0000_0000
  const HALF := 0x8000_0000
  const MAX_INT := 0x7FFF_FFFF

  const MAX_TIMEOUT := 40000
  const WHEEL_SIZE := 60000

  datatype Wheel<T> = Wheel(start: nat, slots: seq<seq<T>>)

  /** The value kept when a 64-bit result is stored in an `int`. */
  function ToInt32(x: int): (r: int)
    ensures -HALF <= r < HALF && (x - r) % WORD == 0
    ensures -HALF <= x < HALF ==> r == x
  {
    var m := x % WORD;
    if m < HALF then m else m - WORD
  }

  function Flatten<T>(slots: seq<seq<T>>): seq<T> {
    if slots == [] then [] else slots[0] + Flatten(slots[1..])
  }

  function Empties<T>(n: nat): (r: seq<seq<T>>)
    ensures |r| == n && forall i :: 0 <= i < n ==> r[i] == []
  {
    seq(n, _ => [])
  }

  /** A wheel that was never used takes its start from the first clock reading. */
  function Restarted<T>(w: Wheel<T>, now: nat): Wheel<T> {
    if w.start == 0 then w.(start := now) else w
  }

  /** What AddTimeout returns: 0, or the source line that refuses. */
  function AddCode(start: nat, size: nat, expire: nat, now: nat): int {
    if now < start then 459
    else if expire < now then 467
    else if ToInt32(expire - start) >= size then 478
    else 0
  }

  /** AddTimeout. A narrowed distance that is negative counts backwards from the start, round the
      ring. */
  function Add<T>(w: Wheel<T>, x: T, expire: nat, now: nat): (r: (int, Wheel<T>))
    requires |w.slots| > 0
    ensures |r.1.slots| == |w.slots| && r.1.start == Restarted(w, now).start
  {
    var v := Restarted(w, now);
    var code := AddCode(v.start, |v.slots|, expire, now);
    if code != 0 then (code, v)
    else
      var p := ToInt32(expire - v.start) % |v.slots|;
      (0, v.(slots := v.slots[p := v.slots[p] + [x]]))
  }

  /** How many slots TakeAllTimeout empties; negative means it returns early. */
  function TakeCount(start: nat, size: nat, now: nat): int {
    var cnt := ToInt32(now - start + 1);
    if cnt > size then size else cnt
  }

  /** How many it should empty. */
  function DueSlots(start: nat, size: nat, now: nat): int {
    if now - start + 1 < size then now - start + 1 else size
  }

  /** TakeAllTimeout: what is moved to the result list, and the wheel left behind. With a count of
      zero the start index goes one back. */
  function Take<T>(w: Wheel<T>, now: nat): (r: (seq<T>, Wheel<T>))
    requires |w.slots| > 0
    ensures |r.1.slots| == |w.slots|
  {
    var v := Restarted(w, now);
    var cnt := TakeCount(v.start, |v.slots|, now);
    if now < v.start || cnt < 0 then ([], v)
    else if cnt == 0 then ([], Wheel(now, [v.slots[|v.slots| - 1]] + v.slots[..|v.slots| - 1]))
    else (Flatten(v.slots[..cnt]), Wheel(now, [[]] + v.slots[cnt..] + Empties(cnt - 1)))
  }

  /** The sweep counts the right number of slots exactly when narrowing the gap loses nothing
      that clipping to the wheel size would not lose as well. */
  lemma SweepCountIsRight(start: nat, size: nat, now: nat)
    requires start <= now && 0 < size < HALF
    ensures TakeCount(start, size, now) <= DueSlots(start, size, now)
    ensures TakeCount(start, size, now) == DueSlots(start, size, now) <==>
            DueSlots(start, size, now) <= (now - start + 1) % WORD < HALF
  {
  }

  // ----- the abstract queue

  datatype Entry = Entry(id: nat, expire: nat)

  ghost predicate Sorted(q: seq<Entry>) {
    forall i, j :: 0 <= i < j < |q| ==> q[i].expire <= q[j].expire
  }

  /** Behind everything that expires no later. */
  function InsertStable(q: seq<Entry>, e: Entry): seq<Entry> {
    if q == [] || q[|q| - 1].expire <= e.expire then q + [e]
    else InsertStable(q[..|q| - 1], e) + [q[|q| - 1]]
  }

  /** The length of the longest prefix that is due at `now`. */
  function DueCount(q: seq<Entry>, now: nat): (n: nat)
    ensures n <= |q| && (n < |q| ==> q[n].expire > now)
    ensures forall i :: 0 <= i < n ==> q[i].expire <= now
  {
    if q == [] || q[0].expire > now then 0 else 1 + DueCount(q[1..], now)
  }

  lemma InsertSnoc(q: seq<Entry>, l: Entry, e: Entry)
    requires l.expire > e.expire
    ensures InsertStable(q + [l], e) == InsertStable(q, e) + [l]
  {
    assert (q + [l])[..|q|] == q;
  }

  lemma {:induction false} InsertSorted(q: seq<Entry>, e: Entry)
    requires Sorted(q)
    ensures Sorted(InsertStable(q, e)) && multiset(InsertStable(q, e)) == multiset(q) + multiset{e}
  {
    if q != [] && q[|q| - 1].expire > e.expire {
      var p, l := q[..|q| - 1], q[|q| - 1];
      assert q == p + [l];
      InsertSnoc(p, l, e);
      InsertSorted(p, e);
      SortedSnoc(InsertStable(p, e), l, p, e);
    }
  }

  lemma SortedSnoc(r: seq<Entry>, l: Entry, p: seq<Entry>, e: Entry)
    requires Sorted(r) && multiset(r) == multiset(p) + multiset{e}
    requires e.expire <= l.expire && forall x :: x in p ==> x.expire <= l.expire
    ensures Sorted(r + [l])
  {
    forall i | 0 <= i < |r| ensures r[i].expire <= l.expire {
      assert r[i] in multiset(r);
    }
  }

  // ----- refinement

  /** Slot `i` holds items that expire at `start + i`. */
  ghost predicate OnTime(w: Wheel<Entry>) {
    && 0 < |w.slots| < HALF
    && SlotsOnTime(w.slots, w.start)
    && (w.start == 0 ==> Flatten(w.slots) == [])
  }

  ghost predicate SlotsOnTime(a: seq<seq<Entry>>, start: nat) {
    forall i, k :: 0 <= i < |a| && 0 <= k < |a[i]| ==> a[i][k].expire == start + i
  }

  lemma {:induction false} FlattenConcat<T>(a: seq<seq<T>>, b: seq<seq<T>>)
    ensures Flatten(a + b) == Flatten(a) + Flatten(b)
  {
    if a == [] {
      assert a + b == b;
    } else {
      assert (a + b)[1..] == a[1..] + b;
      FlattenConcat(a[1..], b);
    }
  }

  lemma FlattenSnoc<T>(a: seq<seq<T>>, i: nat)
    requires i < |a|
    ensures Flatten(a[..i + 1]) == Flatten(a[..i]) + a[i]
  {
    FlattenConcat(a[..i], [a[i]]);
    assert a[..i + 1] == a[..i] + [a[i]];
    assert Flatten([a[i]]) == a[i] + Flatten<T>([]);
  }

  lemma {:induction false} FlattenEmpty<T>(a: seq<seq<T>>)
    requires forall i :: 0 <= i < |a| ==> a[i] == []
    ensures Flatten(a) == []
  {
    if a != [] { FlattenEmpty(a[1..]); }
  }

  lemma {:induction false} EmptyFlatten<T>(a: seq<seq<T>>)
    requires Flatten(a) == []
    ensures forall i :: 0 <= i < |a| ==> a[i] == []
  {
    if a != [] {
      EmptyFlatten(a[1..]);
      forall i | 0 < i < |a| ensures a[i] == [] { assert a[i] == a[1..][i - 1]; }
    }
  }

  lemma {:induction false} ExpiryRange(a: seq<seq<Entry>>, start: nat)
    requires SlotsOnTime(a, start)
    ensures forall x :: x in Flatten(a) ==> start <= x.expire < start + |a|
  {
    if a != [] {
      var b: seq<seq<Entry>> := a[1..];
      forall i, k | 0 <= i < |b| && 0 <= k < |b[i]| ensures b[i][k].expire == start + 1 + i {
        assert b[i] == a[i + 1];
      }
      ExpiryRange(b, start + 1);
    }
  }

  /** Putting `e` behind an early part and before a late part is inserting it. */
  lemma {:induction false} InsertBetween(p: seq<Entry>, e: Entry, s: seq<Entry>)
    requires forall x :: x in p ==> x.expire <= e.expire
    requires forall x :: x in s ==> x.expire > e.expire
    ensures InsertStable(p + s, e) == p + [e] + s
  {
    if s == [] {
      assert p + s == p;
      assert p != [] ==> p[|p| - 1] in p;
    } else {
      var t, l := s[..|s| - 1], s[|s| - 1];
      assert s == t + [l] && l in s;
      InsertBetween(p, e, t);
      InsertSnoc(p + t, l, e);
      assert p + t + [l] == p + s && p + [e] + t + [l] == p + [e] + s;
    }
  }

  lemma {:induction false} DueBetween(p: seq<Entry>, s: seq<Entry>, now: nat)
    requires forall x :: x in p ==> x.expire <= now
    requires forall x :: x in s ==> x.expire > now
    ensures DueCount(p + s, now) == |p|
  {
    if p == [] {
      assert p + s == s;
    } else {
      assert (p + s)[1..] == p[1..] + s;
      DueBetween(p[1..], s, now);
    }
  }

  lemma FlattenAround<T>(p: seq<seq<T>>, m: seq<T>, s: seq<seq<T>>)
    ensures Flatten(p + [m] + s) == Flatten(p) + m + Flatten(s)
  {
    FlattenConcat(p + [m], s);
    FlattenConcat(p, [m]);
    assert Flatten([m]) == m + Flatten<T>([]);
  }

  lemma PlacedIsInserted(p: seq<seq<Entry>>, m: seq<Entry>, s: seq<seq<Entry>>, start: nat, e: Entry)
    requires SlotsOnTime(p, start) && SlotsOnTime([m], start + |p|) && SlotsOnTime(s, start + |p| + 1)
    requires e.expire == start + |p|
    ensures Flatten(p + [m + [e]] + s) == InsertStable(Flatten(p + [m] + s), e)
  {
    FlattenAround(p, m, s);
    FlattenAround(p, m + [e], s);
    ExpiryRange(p, start);
    ExpiryRange(s, start + |p| + 1);
    assert forall x :: x in m ==> x.expire == e.expire by {
      forall k | 0 <= k < |m| ensures m[k].expire == e.expire { assert [m][0][k].expire == start + |p|; }
    }
    InsertBetween(Flatten(p) + m, e, Flatten(s));
    assert Flatten(p) + (m + [e]) == Flatten(p) + m + [e];
  }

  lemma SweptIsDue(a: seq<seq<Entry>>, start: nat, now: nat, cnt: nat)
    requires SlotsOnTime(a, start) && start <= now
    requires 0 < cnt == if now - start + 1 < |a| then now - start + 1 else |a|
    ensures var q, n := Flatten(a), DueCount(Flatten(a), now);
            && Flatten(a[..cnt]) == q[..n]
            && Flatten([[]] + a[cnt..] + Empties<Entry>(cnt - 1)) == q[n..]
  {
    FrontAndRest(a, start, cnt);
    hide SlotsOnTime;
    ExpiryRange(a[..cnt], start);
    ExpiryRange(a[cnt..], start + cnt);
    DueBetween(Flatten(a[..cnt]), Flatten(a[cnt..]), now);
    FlattenConcat(a[..cnt], a[cnt..]);
    hide DueCount, Flatten;
    PaddedFlatten(a[cnt..], cnt - 1);
  }

  lemma FrontAndRest(a: seq<seq<Entry>>, start: nat, cnt: nat)
    requires SlotsOnTime(a, start) && cnt <= |a|
    ensures a == a[..cnt] + a[cnt..] && SlotsOnTime(a[..cnt], start) && SlotsOnTime(a[cnt..], start + cnt)
  {
  }

  lemma PaddedFlatten<T>(a: seq<seq<T>>, n: nat)
    ensures Flatten([[]] + a + Empties(n)) == Flatten(a)
  {
    FlattenConcat([[]] + a, Empties(n));
    FlattenConcat([[]], a);
    FlattenEmpty<T>([[]]);
    FlattenEmpty<T>(Empties(n));
  }

  lemma Around<T>(a: seq<T>, d: nat, x: T)
    requires d < |a|
    ensures a == a[..d] + [a[d]] + a[d + 1..] && a[d := x] == a[..d] + [x] + a[d + 1..]
  {
  }

  lemma PlacedOnTime(a: seq<seq<Entry>>, start: nat, d: nat, e: Entry)
    requires SlotsOnTime(a, start) && d < |a| && e.expire == start + d
    ensures SlotsOnTime(a[d := a[d] + [e]], start)
  {
  }

  lemma PlacedInserts(a: seq<seq<Entry>>, start: nat, d: nat, e: Entry)
    requires SlotsOnTime(a, start) && d < |a| && e.expire == start + d
    ensures Flatten(a[d := a[d] + [e]]) == InsertStable(Flatten(a), e)
  {
    Around(a, d, a[d] + [e]);
    PartsOnTime(a, start, d);
    hide SlotsOnTime, Flatten, InsertStable;
    PlacedIsInserted(a[..d], a[d], a[d + 1..], start, e);
  }

  lemma PartsOnTime(a: seq<seq<Entry>>, start: nat, d: nat)
    requires SlotsOnTime(a, start) && d < |a|
    ensures SlotsOnTime(a[..d], start) && SlotsOnTime([a[d]], start + d) && SlotsOnTime(a[d + 1..], start + d + 1)
  {
  }

  lemma SweptOnTime(a: seq<seq<Entry>>, start: nat, now: nat, cnt: nat)
    requires SlotsOnTime(a, start) && start <= now
    requires 0 < cnt == if now - start + 1 < |a| then now - start + 1 else |a|
    ensures SlotsOnTime([[]] + a[cnt..] + Empties<Entry>(cnt - 1), now)
  {
    var b: seq<seq<Entry>> := [[]] + a[cnt..] + Empties<Entry>(cnt - 1);
    forall i, k | 0 <= i < |b| && 0 <= k < |b[i]| ensures b[i][k].expire == now + i {
      assert 0 < i < 1 + |a| - cnt && b[i] == a[cnt..][i - 1] == a[cnt + i - 1];
    }
  }

  /** An accepted insertion within one turn, spelt out. */
  lemma AddNear<T>(w: Wheel<T>, x: T, expire: nat, now: nat)
    requires 0 < |w.slots| < HALF && Add(w, x, expire, now).0 == 0 && expire < Restarted(w, now).start + |w.slots|
    ensures var v := Restarted(w, now);
            && v.start <= expire
            && Add(w, x, expire, now).1 == v.(slots := v.slots[expire - v.start := v.slots[expire - v.start] + [x]])
  {
    var v := Restarted(w, now);
    assert ToInt32(expire - v.start) == expire - v.start;
    Ring.Small(expire - v.start, |v.slots|);
    hide ToInt32;
  }

  lemma PlacedInTime(w: Wheel<Entry>, e: Entry, now: nat)
    requires OnTime(w) && 0 < now && Add(w, e, e.expire, now).0 == 0
    requires e.expire < Restarted(w, now).start + |w.slots|
    ensures var w' := Add(w, e, e.expire, now).1;
            OnTime(w') && Flatten(w'.slots) == InsertStable(Flatten(w.slots), e)
  {
    hide Add, AddCode, ToInt32, Flatten, InsertStable, SlotsOnTime;
    var v := Restarted(w, now);
    AddNear(w, e, e.expire, now);
    RestartedOnTime(w, now);
    PlacedOnTime(v.slots, v.start, e.expire - v.start, e);
    PlacedInserts(v.slots, v.start, e.expire - v.start, e);
  }

  lemma RestartedOnTime(w: Wheel<Entry>, now: nat)
    requires OnTime(w) && 0 < now
    ensures var v := Restarted(w, now); v.slots == w.slots && v.start > 0 && SlotsOnTime(v.slots, v.start)
  {
    if w.start == 0 { EmptyFlatten(w.slots); }
    hide Flatten;
  }

  /** An accepted insertion keeps the wheel on time and inserts into the queue exactly when the
      deadline is within one turn of the start. */
  lemma AddIsInsert(w: Wheel<Entry>, e: Entry, now: nat)
    requires OnTime(w) && 0 < now && Add(w, e, e.expire, now).0 == 0
    ensures var w' := Add(w, e, e.expire, now).1;
            OnTime(w') && Flatten(w'.slots) == InsertStable(Flatten(w.slots), e) <==>
            e.expire < Restarted(w, now).start + |w.slots|
  {
    if e.expire < Restarted(w, now).start + |w.slots| {
      PlacedInTime(w, e, now);
    } else {
      var v, w' := Restarted(w, now), Add(w, e, e.expire, now).1;
      var p := ToInt32(e.expire - v.start) % |v.slots|;
      assert w'.slots[p][|v.slots[p]|] == e && p < |v.slots|;
    }
  }

  /** A condition wait of `ms` milliseconds, an `int`, within 2^31 ms of the last sweep: it is refused,
      or inserted where the queue would insert it, exactly when its deadline is less than 2^31 ms
      after the sweep. */
  lemma WaitAdmission(w: Wheel<Entry>, id: nat, ms: int, now: nat)
    requires OnTime(w) && |w.slots| == WHEEL_SIZE && 0 < ms < HALF
    requires 0 < Restarted(w, now).start <= now < Restarted(w, now).start + HALF
    ensures var e, d := Entry(id, now + ms), now - Restarted(w, now).start + ms;
            var (code, w') := Add(w, e, e.expire, now);
            && (code == 0 <==> d < WHEEL_SIZE || d >= HALF)
            && (code != 0 || (OnTime(w') && Flatten(w'.slots) == InsertStable(Flatten(w.slots), e)) <==> d < HALF)
  {
    var e := Entry(id, now + ms);
    if Add(w, e, e.expire, now).0 == 0 { AddIsInsert(w, e, now); }
    hide OnTime, Flatten, InsertStable;
  }

  lemma LongWaitPlaced(w: Wheel<Entry>, e: Entry)
    requires w == Wheel(1, Empties(60000)) && e == Entry(7, 2 + MAX_INT)
    ensures Add(w, e, e.expire, 2) == (0, w.(slots := w.slots[36352 := [e]]))
  {
    assert ToInt32(e.expire - 1) == -HALF && -HALF % 60000 == 36352;
    hide ToInt32;
    assert w.slots[36352] + [e] == [e];
  }

  lemma SweptFrom(w: Wheel<Entry>, d: nat, e: Entry)
    requires d < |w.slots| < HALF && w.start > 0 && e in w.slots[d]
    ensures e in Take(w, w.start + d).0
  {
    assert TakeCount(w.start, |w.slots|, w.start + d) == d + 1;
    var k :| 0 <= k < |w.slots[d]| && w.slots[d][k] == e;
    InFlatten(w.slots[..d + 1], d, k);
    hide Flatten, TakeCount;
  }

  /** The longest wait, begun one millisecond after the start: it is accepted, lands in slot 36352 and
      is over after half a minute instead of 24 days. */
  lemma LongWaitMisplaced()
    ensures var e, w := Entry(7, 2 + MAX_INT), Wheel(1, Empties<Entry>(60000));
            var (code, w') := Add(w, e, e.expire, 2);
            && OnTime(w) && code == 0 && w'.slots[36352] == [e] && !OnTime(w')
            && e in Take(w', 36353).0 && 36353 < e.expire
  {
    FlattenEmpty<Entry>(Empties(60000));
    var e, w := Entry(7, 2 + MAX_INT), Wheel(1, Empties<Entry>(60000));
    LongWaitPlaced(w, e);
    hide Add, Take, Flatten, Empties;
    var w' := Add(w, e, e.expire, 2).1;
    SweptFrom(w', 36352, e);
    assert w'.slots[36352][0].expire != w'.start + 36352;
  }

  lemma {:induction false} OnTimeSorted(a: seq<seq<Entry>>, start: nat)
    requires SlotsOnTime(a, start)
    ensures Sorted(Flatten(a))
  {
    if a != [] {
      var t: seq<seq<Entry>> := a[1..];
      forall i, k | 0 <= i < |t| && 0 <= k < |t[i]| ensures t[i][k].expire == start + 1 + i { assert t[i] == a[i + 1]; }
      OnTimeSorted(t, start + 1);
      ExpiryRange(t, start + 1);
      JoinSorted(a[0], Flatten(t), start);
    }
  }

  lemma JoinSorted(a: seq<Entry>, b: seq<Entry>, at: nat)
    requires Sorted(b) && (forall k :: 0 <= k < |a| ==> a[k].expire == at) && forall x :: x in b ==> at < x.expire
    ensures Sorted(a + b)
  {
    forall k | 0 <= k < |b| ensures at < b[k].expire { assert b[k] in b; }
  }

  /** When the sweep is right: it counts the slots that are due; or it returns early and nothing is
      there; or it counts too few, but no item is beyond those it counts. */
  ghost predicate SweepsRight(w: Wheel<Entry>, now: nat)
    requires |w.slots| > 0
  {
    var start, q := Restarted(w, now).start, Flatten(w.slots);
    var cnt := TakeCount(start, |w.slots|, now);
    || now < start
    || cnt == DueSlots(start, |w.slots|, now)
    || (cnt < 0 && q == [])
    || (cnt >= 0 && forall x :: x in q ==> x.expire < start + cnt)
  }

  lemma CountedSweep(w: Wheel<Entry>, now: nat)
    requires OnTime(w) && 0 < now && Restarted(w, now).start <= now
    requires TakeCount(Restarted(w, now).start, |w.slots|, now) == DueSlots(Restarted(w, now).start, |w.slots|, now)
    ensures var q, n := Flatten(w.slots), DueCount(Flatten(w.slots), now);
            Take(w, now).0 == q[..n] && Flatten(Take(w, now).1.slots) == q[n..] && OnTime(Take(w, now).1)
  {
    var v := Restarted(w, now);
    if w.start == 0 { EmptyFlatten(w.slots); }
    SweptIsDue(v.slots, v.start, now, TakeCount(v.start, |v.slots|, now));
    SweptOnTime(v.slots, v.start, now, TakeCount(v.start, |v.slots|, now));
  }

  lemma EarlyReturn(w: Wheel<Entry>, now: nat)
    requires OnTime(w) && 0 < now
    requires var v := Restarted(w, now); now < v.start || TakeCount(v.start, |w.slots|, now) < 0
    ensures Take(w, now).0 == [] && Take(w, now).1 == Restarted(w, now) && OnTime(Take(w, now).1)
    ensures now < Restarted(w, now).start ==> DueCount(Flatten(w.slots), now) == 0
    ensures DueCount(Flatten(w.slots), now) == 0 <==> forall x :: x in Flatten(w.slots) ==> x.expire > now
  {
    if w.start == 0 { EmptyFlatten(w.slots); }
    ExpiryRange(w.slots, w.start);
    OnTimeSorted(w.slots, w.start);
    NoneDue(Flatten(w.slots), now);
    hide DueCount, Sorted, Flatten, TakeCount;
  }

  /** A negative count means that the gap exceeds the wheel, so everything in it is due. */
  lemma NothingThere(w: Wheel<Entry>, now: nat)
    requires OnTime(w) && 0 < now && Restarted(w, now).start <= now && TakeCount(Restarted(w, now).start, |w.slots|, now) < 0
    ensures (forall x :: x in Flatten(w.slots) ==> x.expire > now) <==> Flatten(w.slots) == []
  {
    var q := Flatten(w.slots);
    ExpiryRange(w.slots, w.start);
    assert q != [] ==> q[0] in q;
    hide Flatten;
  }

  lemma NoneDue(q: seq<Entry>, now: nat)
    requires Sorted(q)
    ensures DueCount(q, now) == 0 <==> forall x :: x in q ==> x.expire > now
  {
    LaterFrom(q, DueCount(q, now), now);
    assert q != [] ==> q[0] in q;
  }

  lemma LaterFrom(q: seq<Entry>, n: nat, now: nat)
    requires Sorted(q) && n <= |q| && (n < |q| ==> q[n].expire > now)
    ensures forall i :: n <= i < |q| ==> q[i].expire > now
  {
  }

  lemma {:induction false} InFlatten<T>(v: seq<seq<T>>, d: nat, k: nat)
    requires d < |v| && k < |v[d]|
    ensures v[d][k] in Flatten(v)
  {
    if d > 0 { InFlatten(v[1..], d - 1, k); }
  }

  lemma {:induction false} FlattenFrom<T>(v: seq<seq<T>>, e: T) returns (d: nat)
    requires e in Flatten(v)
    ensures d < |v| && e in v[d]
  {
    if e in v[0] { d := 0; } else { d := FlattenFrom(v[1..], e); d := d + 1; }
  }

  /** A sweep that counts too few slots misplaces whatever is beyond them. */
  lemma Misplaced(w: Wheel<Entry>, now: nat, x: Entry)
    requires OnTime(w) && 0 < w.start <= now && x in Flatten(w.slots)
    requires var cnt := TakeCount(w.start, |w.slots|, now);
             0 <= cnt < DueSlots(w.start, |w.slots|, now) && w.start + cnt <= x.expire
    ensures !OnTime(Take(w, now).1)
  {
    var a: seq<seq<Entry>>, n := w.slots, |w.slots|;
    var cnt := TakeCount(w.start, n, now);
    var j := FlattenFrom(a, x);
    var k :| 0 <= k < |a[j]| && a[j][k] == x;
    var b: seq<seq<Entry>> := Take(w, now).1.slots;
    if cnt == 0 {
      var i := if j == n - 1 then 0 else j + 1;
      assert b[i] == a[j];
      assert b[i][k].expire == w.start + j;
    } else {
      var i := 1 + j - cnt;
      assert b[i] == a[cnt..][j - cnt] == a[j];
      assert b[i][k].expire == w.start + j;
    }
  }

  lemma EmptyBeyond(a: seq<seq<Entry>>, start: nat, cnt: nat)
    requires SlotsOnTime(a, start) && cnt <= |a| && forall x :: x in Flatten(a) ==> x.expire < start + cnt
    ensures forall j :: cnt <= j < |a| ==> a[j] == []
    ensures Flatten(a[..cnt]) == Flatten(a)
  {
    forall j | cnt <= j < |a| ensures a[j] == [] {
      if a[j] != [] { InFlatten(a, j, 0); }
    }
    assert a == a[..cnt] + a[cnt..];
    FlattenConcat(a[..cnt], a[cnt..]);
    FlattenEmpty(a[cnt..]);
  }

  lemma TakeShort(w: Wheel<Entry>, now: nat)
    requires 0 < w.start <= now && |w.slots| > 0
    requires var cnt := TakeCount(w.start, |w.slots|, now);
             0 <= cnt <= |w.slots| && forall j :: cnt <= j < |w.slots| ==> w.slots[j] == []
    ensures var (taken, w') := Take(w, now);
            taken == Flatten(w.slots[..TakeCount(w.start, |w.slots|, now)]) && Flatten(w'.slots) == []
  {
    var b := Take(w, now).1.slots;
    assert forall i :: 0 <= i < |b| ==> b[i] == [];
    FlattenEmpty(b);
  }

  lemma NothingBeyond(w: Wheel<Entry>, now: nat)
    requires OnTime(w) && 0 < w.start <= now
    requires var cnt := TakeCount(w.start, |w.slots|, now);
             0 <= cnt < DueSlots(w.start, |w.slots|, now) && forall x :: x in Flatten(w.slots) ==> x.expire < w.start + cnt
    ensures var q, n := Flatten(w.slots), DueCount(Flatten(w.slots), now);
            Take(w, now).0 == q[..n] && Flatten(Take(w, now).1.slots) == q[n..] && OnTime(Take(w, now).1)
  {
    var a, q := w.slots, Flatten(w.slots);
    DueBetween(q, [], now);
    assert q + [] == q;
    EmptyBeyond(a, w.start, TakeCount(w.start, |a|, now));
    TakeShort(w, now);
    EmptyFlatten(Take(w, now).1.slots);
    hide Flatten, Take, TakeCount, DueSlots;
  }

  /** Over all clock gaps: a sweep delivers what is due, in order, and leaves the rest on time, if
      and only if `SweepsRight`. */
  lemma TakeIsDue(w: Wheel<Entry>, now: nat)
    requires OnTime(w) && 0 < now
    ensures var q, n := Flatten(w.slots), DueCount(Flatten(w.slots), now);
            var (taken, w') := Take(w, now);
            (taken == q[..n] && Flatten(w'.slots) == q[n..] && OnTime(w')) <==> SweepsRight(w, now)
  {
    var v, q := Restarted(w, now), Flatten(w.slots);
    var cnt := TakeCount(v.start, |w.slots|, now);
    if now < v.start || cnt < 0 {
      EarlyReturn(w, now);
      if v.start <= now { NothingThere(w, now); }
    } else {
      SweepCountIsRight(v.start, |w.slots|, now);
      if cnt == DueSlots(v.start, |w.slots|, now) {
        CountedSweep(w, now);
      } else {
        assert w.start > 0;
        if x :| x in q && x.expire >= v.start + cnt { Misplaced(w, now, x); } else { NothingBeyond(w, now); }
      }
    }
  }

  /** While the event loop is never idle for 2^31 ms, every sweep is right. */
  lemma ShortGapSweepsRight(w: Wheel<Entry>, now: nat)
    requires 0 < |w.slots| < HALF && now + 1 < Restarted(w, now).start + HALF
    ensures SweepsRight(w, now)
    ensures Restarted(w, now).start <= now ==> TakeCount(Restarted(w, now).start, |w.slots|, now) > 0 && Take(w, now).1.start == now
  {
  }

  /** After an idle gap of 2^31 - 1 ms a sweep delivers nothing although something is due, and after one
      of 2^32 ms it leaves an item in the slot of another time. */
  lemma LongGapsGoWrong()
    ensures var w := Wheel(1, [[Entry(7, 1)]] + Empties<Entry>(59999));
            OnTime(w) && Take(w, HALF) == ([], w) && Entry(7, 1) in Flatten(w.slots)
    ensures var w := Wheel(1, [[], [Entry(7, 2)]] + Empties<Entry>(59998));
            OnTime(w) && Take(w, WORD + 1).0 == [] && !OnTime(Take(w, WORD + 1).1)
  {
    var a := [[Entry(7, 1)]] + Empties<Entry>(59999);
    InFlatten(a, 0, 0);
    var b := [[], [Entry(7, 2)]] + Empties<Entry>(59998);
    assert TakeCount(1, 60000, WORD + 1) == 1;
    assert b[..1] == [[]] && Flatten(b[..1]) == [] by { FlattenEmpty<Entry>([[]]); }
    InFlatten(b, 1, 0);
    Misplaced(Wheel(1, b), WORD + 1, Entry(7, 2));
  }

  /** Unlinking an item from its slot (RemoveFromLink). */
  function Cancel<T(==)>(slots: seq<seq<T>>, x: T): (r: seq<seq<T>>)
    ensures |r| == |slots|
    ensures forall i :: 0 <= i < |slots| ==> r[i] == Without(slots[i], x)
  {
    seq(|slots|, i requires 0 <= i < |slots| => Without(slots[i], x))
  }

  lemma {:induction false} WithoutEverywhereAbsent<T>(a: seq<seq<T>>, x: T)
    requires x !in Flatten(a)
    ensures Cancel(a, x) == a
  {
    if a != [] {
      assert forall y :: y in a[0] || y in Flatten(a[1..]) ==> y in Flatten(a);
      WithoutAbsent(a[0], x);
      WithoutEverywhereAbsent(a[1..], x);
      assert Cancel(a, x) == [Without(a[0], x)] + Cancel(a[1..], x);
    }
  }

  /** Unlinking takes the item out of the queue and moves nothing else. */
  lemma {:induction false} CancelIsWithout<T>(a: seq<seq<T>>, x: T)
    requires NoDup(Flatten(a))
    ensures Flatten(Cancel(a, x)) == Without(Flatten(a), x)
  {
    if a != [] {
      var h, t := a[0], a[1..];
      NoDupParts(h, Flatten(t));
      CancelIsWithout(t, x);
      WithoutConcat(h, Flatten(t), x);
      assert Cancel(a, x) == [Without(h, x)] + Cancel(t, x);
      if x in h { WithoutEverywhereAbsent(t, x); } else { WithoutAbsent(h, x); }
    }
  }

  lemma CancelOnTime(w: Wheel<Entry>, x: Entry)
    requires OnTime(w) && NoDup(Flatten(w.slots))
    ensures OnTime(w.(slots := Cancel(w.slots, x)))
  {
    var a := w.slots;
    forall i, k | 0 <= i < |a| && 0 <= k < |Without(a[i], x)| ensures Without(a[i], x)[k].expire == w.start + i {
      WithoutMembers(a[i], x);
      var y: Entry := Without(a[i], x)[k];
      assert y in multiset(Without(a[i], x));
      assert y in multiset(a[i]);
      var j :| 0 <= j < |a[i]| && a[i][j] == y;
    }
    CancelIsWithout(a, x);
  }

  // ----- every run

  datatype Op =
    | AddOp(e: Entry, now: nat)
    | CancelOp(e: Entry)
    | SweepOp(now: nat)

  /** Accepted calls: an item is not in the wheel when it is added, and the clock has started. */
  ghost predicate Allowed(w: Wheel<Entry>, op: Op)
    requires |w.slots| > 0
  {
    match op
    case AddOp(e, now) => 0 < now && e !in Flatten(w.slots) && Add(w, e, e.expire, now).0 == 0
    case CancelOp(_) => true
    case SweepOp(now) => 0 < now
  }

  /** The calls that narrowing to 32 bits does not spoil. */
  ghost predicate Unspoilt(w: Wheel<Entry>, op: Op)
    requires |w.slots| > 0
  {
    match op
    case AddOp(e, now) => e.expire < Restarted(w, now).start + |w.slots|
    case CancelOp(_) => true
    case SweepOp(now) => SweepsRight(w, now)
  }

  function WheelStep(w: Wheel<Entry>, op: Op): (r: (seq<Entry>, Wheel<Entry>))
    requires |w.slots| > 0
    ensures |r.1.slots| == |w.slots|
  {
    match op
    case AddOp(e, now) => ([], Add(w, e, e.expire, now).1)
    case CancelOp(e) => ([], w.(slots := Cancel(w.slots, e)))
    case SweepOp(now) => Take(w, now)
  }

  function QueueStep(q: seq<Entry>, op: Op): (seq<Entry>, seq<Entry>) {
    match op
    case AddOp(e, _) => ([], InsertStable(q, e))
    case CancelOp(e) => ([], Without(q, e))
    case SweepOp(now) => (q[..DueCount(q, now)], q[DueCount(q, now)..])
  }

  ghost predicate AllowedRun(w: Wheel<Entry>, ops: seq<Op>)
    requires |w.slots| > 0
    decreases |ops|
  {
    ops == [] || (Allowed(w, ops[0]) && AllowedRun(WheelStep(w, ops[0]).1, ops[1..]))
  }

  ghost predicate UnspoiltRun(w: Wheel<Entry>, ops: seq<Op>)
    requires |w.slots| > 0
    decreases |ops|
  {
    ops == [] || (Unspoilt(w, ops[0]) && UnspoiltRun(WheelStep(w, ops[0]).1, ops[1..]))
  }

  function WheelRun(w: Wheel<Entry>, ops: seq<Op>): seq<seq<Entry>>
    requires |w.slots| > 0
    decreases |ops|
  {
    if ops == [] then []
    else var (out, w') := WheelStep(w, ops[0]); [out] + WheelRun(w', ops[1..])
  }

  function QueueRun(q: seq<Entry>, ops: seq<Op>): seq<seq<Entry>>
    decreases |ops|
  {
    if ops == [] then []
    else var (out, q') := QueueStep(q, ops[0]); [out] + QueueRun(q', ops[1..])
  }

  /** At every step the wheel delivers what the queue delivers, holds what the queue holds, and has
      every item in the slot of its deadline. */
  ghost predicate Follows(w: Wheel<Entry>, ops: seq<Op>)
    requires |w.slots| > 0
    decreases |ops|
  {
    ops == [] || (
      var (out, w') := WheelStep(w, ops[0]);
      OnTime(w') && (out, Flatten(w'.slots)) == QueueStep(Flatten(w.slots), ops[0]) && Follows(w', ops[1..]))
  }

  lemma QueueStepNoDup(q: seq<Entry>, op: Op)
    requires NoDup(q) && (op.AddOp? ==> op.e !in q)
    ensures NoDup(QueueStep(q, op).1)
  {
    match op
    case AddOp(e, _) => InsertNoDup(q, e);
    case CancelOp(e) => if k :| 0 <= k < |q| && q[k] == e { WithoutAt(q, e, k); } else { WithoutAbsent(q, e); }
    case SweepOp(_) =>
  }

  /** An accepted call does to the wheel what it does to the queue, and keeps it on time, if and only
      if narrowing does not spoil it. */
  lemma StepRefines(w: Wheel<Entry>, op: Op)
    requires OnTime(w) && NoDup(Flatten(w.slots)) && Allowed(w, op)
    ensures var (out, w') := WheelStep(w, op);
            OnTime(w') && (out, Flatten(w'.slots)) == QueueStep(Flatten(w.slots), op) <==> Unspoilt(w, op)
  {
    match op
    case AddOp(e, now) =>
      AddIsInsert(w, e, now);
    case CancelOp(e) =>
      CancelIsWithout(w.slots, e);
      CancelOnTime(w, e);
    case SweepOp(now) =>
      TakeIsDue(w, now);
  }

  lemma {:induction false} InsertNoDup(q: seq<Entry>, e: Entry)
    requires NoDup(q) && e !in q
    ensures NoDup(InsertStable(q, e)) && forall x :: x in InsertStable(q, e) <==> x in q || x == e
  {
    if q != [] && q[|q| - 1].expire > e.expire {
      var p, l := q[..|q| - 1], q[|q| - 1];
      assert q == p + [l];
      InsertNoDup(p, e);
      assert l !in p;
    }
  }

  /** The wheel is a stable priority queue: on a run of accepted calls it follows the queue, step by
      step, if and only if narrowing spoils none of them; and then each sweep delivers exactly what
      the queue delivers, in the same order. */
  lemma {:induction false} WheelIsQueue(w: Wheel<Entry>, ops: seq<Op>)
    requires OnTime(w) && NoDup(Flatten(w.slots)) && AllowedRun(w, ops)
    ensures Follows(w, ops) <==> UnspoiltRun(w, ops)
    ensures UnspoiltRun(w, ops) ==> WheelRun(w, ops) == QueueRun(Flatten(w.slots), ops)
    decreases |ops|
  {
    if ops != [] {
      StepRefines(w, ops[0]);
      QueueStepNoDup(Flatten(w.slots), ops[0]);
      if Unspoilt(w, ops[0]) { WheelIsQueue(WheelStep(w, ops[0]).1, ops[1..]); }
    }
  }

  /** What the queue delivers: everything due and nothing else, earliest first; the sweep and
      the insertion keep the queue sorted. */
  lemma QueueDelivers(q: seq<Entry>, now: nat)
    requires Sorted(q)
    ensures var (out, rest) := QueueStep(q, SweepOp(now));
            && Sorted(out) && Sorted(rest) && out + rest == q
            && (forall x :: x in out <==> x in q && x.expire <= now)
            && (forall x :: x in rest <==> x in q && x.expire > now)
  {
    var n := DueCount(q, now);
    LaterFrom(q, n, now);
    hide DueCount;
    SortedParts(q, n);
    hide Sorted;
    PartsByDeadline(q, n, now);
    assert q == q[..n] + q[n..];
  }

  lemma SortedParts(q: seq<Entry>, n: nat)
    requires Sorted(q) && n <= |q|
    ensures Sorted(q[..n]) && Sorted(q[n..])
  {
  }

  lemma PartsByDeadline(q: seq<Entry>, n: nat, now: nat)
    requires n <= |q| && (forall i :: 0 <= i < n ==> q[i].expire <= now) && forall i :: n <= i < |q| ==> q[i].expire > now
    ensures forall x :: x in q[..n] <==> x in q && x.expire <= now
    ensures forall x :: x in q[n..] <==> x in q && x.expire > now
  {
  }

  // ----- which deadlines are accepted


  function Clamp(timeout: int): int {
    if timeout > MAX_TIMEOUT then MAX_TIMEOUT else timeout
  }

  /** Over all clock gaps: a poll is accepted exactly when its timeout is not negative and the distance
      of its clamped deadline from the last sweep, reduced to 32 bits, is less than one wheel turn or
      reads as negative. Without an idle gap of 2^31 ms that is when the deadline lies within one
      turn, in particular within 20 seconds of the sweep. */
  lemma PollAdmission(sweep: nat, now: nat, timeout: int)
    requires sweep <= now && 0 <= now + timeout
    ensures var ms := if timeout < 40000 then timeout else 40000;
      var d, code := now - sweep + ms, AddCode(sweep, WHEEL_SIZE, now + Clamp(timeout), now);
      && Clamp(timeout) == ms
      && (code == 0 <==> 0 <= timeout && (d % WORD < WHEEL_SIZE || d % WORD >= HALF))
      && (d < HALF ==> (code == 0 <==> 0 <= timeout && d < WHEEL_SIZE))
      && (0 <= timeout && now < sweep + 20000 ==> code == 0)
  {
  }
}
