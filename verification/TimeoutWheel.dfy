/** The millisecond wheel as libco/co_routine.cpp builds it: an array of intrusive lists used as a
    ring, `llStartIdx` naming the slot of the earliest time. Every operation is proved against the
    wheel on values, where slot `i` is counted from `llStartIdx`. */
module TimeoutWheel {
  import opened Sequences
  import opened IntrusiveList
  import opened TimerWheel
  import Ring

  lemma SweptSnoc<T>(r: seq<T>, a: seq<seq<T>>, i: nat)
    requires i < |a|
    ensures r + Flatten(a[..i]) + a[i] == r + Flatten(a[..i + 1])
  {
    FlattenSnoc(a, i);
  }

  lemma DrainStep<T>(a: seq<seq<T>>, i: nat)
    requires i < |a|
    ensures (Empties(i) + a[i..])[i := []] == Empties(i + 1) + a[i + 1..] && (Empties(i) + a[i..])[i] == a[i]
  {
  }

  lemma TakeFrom<T>(w: Wheel<T>, now: nat, cnt: nat)
    requires 0 < w.start <= now && |w.slots| > 0 && 0 < cnt == TakeCount(w.start, |w.slots|, now)
    ensures Take(w, now) == (Flatten(w.slots[..cnt]), Wheel(now, [[]] + w.slots[cnt..] + Empties(cnt - 1)))
  {
  }

  lemma AdvanceStep<T>(a: seq<seq<T>>, cnt: nat, b: seq<seq<T>>)
    requires 0 < cnt <= |a| && b == Empties(cnt) + a[cnt..]
    ensures b[cnt - 1..] + b[..cnt - 1] == [[]] + a[cnt..] + Empties(cnt - 1)
  {
  }

  lemma LastFirst<T>(s: seq<T>)
    requires NoDup(s) && s != []
    ensures var t := [s[|s| - 1]] + s[..|s| - 1]; NoDup(t) && forall x :: x in t <==> x in s
  {
    assert s == s[..|s| - 1] + [s[|s| - 1]];
  }

  lemma RotateNoDup<T>(s: seq<T>, k: nat)
    requires NoDup(s) && k <= |s|
    ensures NoDup(s[k..] + s[..k])
  {
  }

  /** Where a sweep that does not return early moves the start index: out of the array exactly when it
      is at 0 and the gap is one short of a multiple of 2^32 ms. */
  lemma IndexLeavesTheArray(idx: nat, start: nat, size: nat, now: nat)
    requires 0 < start <= now && 0 < size < HALF && TakeCount(start, size, now) >= 0
    ensures idx + TakeCount(start, size, now) - 1 < 0 <==> idx == 0 && (now - start + 1) % WORD == 0
  {
  }

  /** The array position of the list for what expires `i` milliseconds after the start. */
  function At(start: nat, i: nat, n: nat): (r: nat)
    requires n > 0
    ensures r < n
  {
    (start + i) % n
  }

  class Timeout {
    const pItems: array<Link>
    var ullStart: nat
    var llStartIdx: int
    ghost var ring: seq<Link>        // the lists, counted from `llStartIdx`
    ghost var slots: seq<seq<Item>>  // what they hold

    ghost predicate Valid()
      reads this, pItems, ring, AllNodes()
    {
      && Aligned()
      && Separate()
      && (ullStart == 0 ==> llStartIdx == 0 && slots == Empties(|slots|))
    }

    /** `ring` lists the array from `llStartIdx` on. */
    ghost predicate Aligned()
      reads this`llStartIdx, this`ring, pItems
    {
      && 0 < pItems.Length == |ring| && 0 <= llStartIdx
      && forall i {:trigger At(llStartIdx, i, pItems.Length)} :: 0 <= i < pItems.Length ==>
           pItems[At(llStartIdx, i, pItems.Length)] == ring[i]
    }

    ghost predicate Separate()
      reads this`ring, this`slots, ring, AllNodes()
    {
      && |ring| == |slots|
      && NoDup(ring)
      && (forall i {:trigger ring[i].nodes} {:trigger slots[i]} :: 0 <= i < |ring| ==>
            (assert Nodes(ring[i]) <= AllNodes(); ring[i].Valid()) && ring[i].nodes == slots[i])
    }

    ghost function AllNodes(): set<Item>
      reads this`ring, ring
    {
      set l, x | l in ring && x in l.nodes :: x
    }

    ghost function View(): Wheel<Item>
      reads this
    {
      Wheel(ullStart, slots)
    }

    /** AllocTimeout: `now` is the clock reading. */
    constructor (iSize: nat, now: nat)
      requires iSize > 0
      ensures Valid() && fresh(pItems) && fresh(ring)
      ensures View() == Wheel(now, Empties(iSize))
    {
      var first := new Link();
      var a := new Link[iSize](_ => first);
      for i := 0 to iSize
        invariant forall k :: 0 <= k < iSize ==> fresh(a[k]) && a[k].Valid() && a[k].nodes == []
        invariant forall j, k :: 0 <= j < k < i ==> a[j] != a[k]
        invariant forall k :: 0 <= k < i ==> a[k] != first
        invariant forall k :: i <= k < iSize ==> a[k] == first
      {
        a[i] := new Link();
      }
      pItems := a;
      ullStart, llStartIdx := now, 0;
      ring, slots := a[..], Empties(iSize);
      new;
      forall i | 0 <= i < iSize ensures At(0, i, iSize) == i { Ring.Remainder(i, 0, i, iSize); }
    }

    /** Appends to slot `d`. */
    method Place(slot: Link, apItem: Item, ghost d: nat)
      requires Separate() && apItem.Detached() && d < |ring| && slot == ring[d]
      modifies this`slots, ring, AllNodes()`pNext, apItem`pPrev, apItem`pNext, apItem`pLink
      ensures Separate()
      ensures slots == old(slots)[d := old(slots)[d] + [apItem]]
    {
      forall i | 0 <= i < |ring| && i != d ensures Nodes(ring[i]) !! Nodes(slot) && apItem !in Nodes(ring[i]) {
        Apart(ring[i], slot);
      }
      AddTail(slot, apItem);
      slots := slots[d := slots[d] + [apItem]];
    }

    /** The slot index that AddTimeout computes lies in the array. A narrowed distance that is
        negative may make it negative. */
    ghost predicate InArray(expire: nat, allNow: nat)
      requires pItems.Length > 0
      reads this`ullStart, this`llStartIdx
    {
      var start, idx := if ullStart == 0 then allNow else ullStart, if ullStart == 0 then 0 else llStartIdx;
      AddCode(start, pItems.Length, expire, allNow) == 0 ==> 0 <= Ring.TruncMod(idx + ToInt32(expire - start), pItems.Length)
    }

    /** Appends to the list that is `diff` from the start index. */
    method Insert(apItem: Item, diff: int)
      requires Valid() && apItem.Detached() && ullStart > 0 && 0 <= Ring.TruncMod(llStartIdx + diff, pItems.Length)
      modifies this`slots, ring, AllNodes()`pNext, apItem`pPrev, apItem`pNext, apItem`pLink
      ensures Valid()
      ensures slots == old(slots)[diff % |old(slots)| := old(slots)[diff % |old(slots)|] + [apItem]]
    {
      Ring.RoundTheRing(llStartIdx, diff, pItems.Length);
      assert |slots| == pItems.Length;
      var idx := Ring.TruncMod(llStartIdx + diff, pItems.Length);
      ghost var d := diff % pItems.Length;
      assert idx == At(llStartIdx, d, pItems.Length);
      hide Separate, NoDup, Ring.TruncMod;
      Place(pItems[idx], apItem, d);
    }

    /** A wheel that was never used starts at the first clock reading. */
    method Restart(allNow: nat)
      requires Valid()
      modifies this`ullStart, this`llStartIdx
      ensures Valid() && View() == Restarted(old(View()), allNow) && (ullStart > 0 || allNow == 0)
      ensures llStartIdx == if old(ullStart) == 0 then 0 else old(llStartIdx)
    {
      if ullStart == 0 {
        ullStart := allNow;
        llStartIdx := 0;
      }
    }

    lemma SameSize()
      requires Valid()
      ensures |slots| == pItems.Length > 0
    {
    }

    method AddTimeout(apItem: Item, allNow: nat) returns (ret: int)
      requires Valid() && apItem.Detached() && 0 < allNow && InArray(apItem.expireTime, allNow)
      modifies this, ring, AllNodes()`pNext, apItem`pPrev, apItem`pNext, apItem`pLink
      ensures Valid() && ring == old(ring)
      ensures (ret, View()) == Add(old(View()), apItem, apItem.expireTime, allNow)
      ensures ret != 0 ==> apItem.Detached()
    {
      hide Valid, ToInt32, Ring.TruncMod;
      SameSize();
      Restart(allNow);
      SameSize();
      if allNow < ullStart { return 459; }
      if apItem.expireTime < allNow { return 467; }
      var diff := ToInt32(apItem.expireTime - ullStart);
      if diff >= pItems.Length { return 478; }
      Insert(apItem, diff);
      ret := 0;
    }

    /** Appends slot `d` to the result and empties it. */
    method Drain(slot: Link, apResult: Link, ghost d: nat, ghost all: set<Item>)
      requires Separate() && d < |ring| && slot == ring[d]
      requires apResult.Valid() && apResult !in ring && AllNodes() + Nodes(apResult) <= all
      modifies this`slots, ring, apResult, all`pPrev, all`pNext, all`pLink
      ensures Separate() && apResult.Valid()
      ensures slots == old(slots)[d := []]
      ensures apResult.nodes == old(apResult.nodes) + old(slots)[d]
      ensures AllNodes() + Nodes(apResult) <= all
    {
      forall i | 0 <= i < |ring| && i != d ensures Nodes(ring[i]) !! Nodes(slot) && Nodes(ring[i]) !! Nodes(apResult) {
        Apart(ring[i], slot);
        Apart(ring[i], apResult);
      }
      Join(apResult, slot);
      slots := slots[d := []];
    }

    /** One round of the sweep loop. */
    method SweepSlot(i: nat, apResult: Link, ghost a: seq<seq<Item>>, ghost all: set<Item>)
      requires Aligned() && Separate() && i < pItems.Length == |a| && slots == Empties(i) + a[i..]
      requires apResult.Valid() && apResult !in ring && AllNodes() + Nodes(apResult) <= all
      modifies this`slots, ring, apResult, all`pPrev, all`pNext, all`pLink
      ensures Aligned() && Separate() && apResult.Valid()
      ensures slots == Empties(i + 1) + a[i + 1..]
      ensures apResult.nodes == old(apResult.nodes) + a[i]
      ensures AllNodes() + Nodes(apResult) <= all
    {
      DrainStep(a, i);
      Drain(pItems[At(llStartIdx, i, pItems.Length)], apResult, i, all);
    }

    /** The sweep loop: the first `cnt` slots, in order. */
    method Sweep(cnt: nat, apResult: Link, ghost all: set<Item>)
      requires Aligned() && Separate() && cnt <= pItems.Length
      requires apResult.Valid() && apResult !in ring && AllNodes() + Nodes(apResult) <= all
      modifies this`slots, ring, apResult, all`pPrev, all`pNext, all`pLink
      ensures Aligned() && Separate() && apResult.Valid()
      ensures AllNodes() + Nodes(apResult) <= all
      ensures slots == Empties(cnt) + old(slots)[cnt..]
      ensures apResult.nodes == old(apResult.nodes) + Flatten(old(slots)[..cnt])
    {
      ghost var a, r := slots, apResult.nodes;
      for i := 0 to cnt
        invariant Aligned() && Separate() && apResult.Valid()
        invariant AllNodes() + Nodes(apResult) <= all
        invariant slots == Empties(i) + a[i..]
        invariant apResult.nodes == r + Flatten(a[..i])
      {
        SweptSnoc(r, a, i);
        SweepSlot(i, apResult, a, all);
      }
    }

    /** Moves the start of the ring `k` slots on. */
    method Advance(k: nat)
      requires Valid() && k < pItems.Length && ullStart > 0
      modifies this`llStartIdx, this`slots, this`ring
      ensures Valid()
      ensures slots == old(slots)[k..] + old(slots)[..k]
      ensures ring == old(ring)[k..] + old(ring)[..k] && (forall l :: l in ring <==> l in old(ring))
      ensures AllNodes() == old(AllNodes())
    {
      ghost var n, s := pItems.Length, llStartIdx;
      ghost var r := ring;
      llStartIdx := llStartIdx + k;
      slots := slots[k..] + slots[..k];
      ring := ring[k..] + ring[..k];
      forall i | 0 <= i < n ensures pItems[At(s + k, i, n)] == ring[i] {
        if k + i < n {
          assert At(s + k, i, n) == At(s, k + i, n);
        } else {
          Ring.Wraps(s + (k + i - n), n);
          assert At(s + k, i, n) == At(s, k + i - n, n);
        }
      }
      RotateNoDup(r, k);
      assert forall l :: l in ring <==> l in r;
    }

    /** Moves the start of the ring one slot back, the clock reading on. */
    method Retreat(allNow: nat)
      requires Valid() && 0 < allNow && llStartIdx > 0
      modifies this`ullStart, this`llStartIdx, this`slots, this`ring
      ensures Valid() && ullStart == allNow && (forall l :: l in ring <==> l in old(ring))
      ensures slots == [old(slots)[|old(slots)| - 1]] + old(slots)[..|old(slots)| - 1]
      ensures AllNodes() == old(AllNodes())
    {
      ghost var n, s := pItems.Length, llStartIdx;
      ghost var r := ring;
      ullStart, llStartIdx := allNow, llStartIdx - 1;
      slots := [slots[|slots| - 1]] + slots[..|slots| - 1];
      ring := [ring[|ring| - 1]] + ring[..|ring| - 1];
      forall i | 0 <= i < n ensures pItems[At(s - 1, i, n)] == ring[i] {
        if i == 0 {
          Ring.Wraps(s - 1, n);
          assert At(s - 1, 0, n) == At(s, n - 1, n);
        } else {
          assert At(s - 1, i, n) == At(s, i - 1, n);
        }
      }
      LastFirst(r);
      assert forall l :: l in ring <==> l in r;
    }

    /** The sweep of a positive number of slots. */
    method SweepOver(cnt: nat, allNow: nat, apResult: Link, ghost all: set<Item>)
      requires Valid() && 0 < ullStart <= allNow && 0 < cnt == TakeCount(ullStart, |slots|, allNow)
      requires apResult.Valid() && apResult !in ring && AllNodes() + Nodes(apResult) <= all
      modifies this, ring, apResult, all`pPrev, all`pNext, all`pLink
      ensures Valid() && apResult.Valid() && (forall l :: l in ring <==> l in old(ring))
      ensures View() == Take(old(View()), allNow).1
      ensures apResult.nodes == old(apResult.nodes) + Take(old(View()), allNow).0
      ensures AllNodes() + Nodes(apResult) <= all
    {
      assert |slots| == pItems.Length;
      ghost var w := View();
      AdvanceStep(slots, cnt, Empties(cnt) + slots[cnt..]);
      TakeFrom(w, allNow, cnt);
      hide Aligned, Separate, NoDup, Flatten, Take, TakeCount;
      Sweep(cnt, apResult, all);
      ullStart := allNow;
      Advance(cnt - 1);
    }

    /** The start index stays in the array: it does unless it is 0 and the sweep counts no slot. */
    ghost predicate KeepsIndex(allNow: nat)
      reads this`ullStart, this`llStartIdx
    {
      ullStart == 0 || allNow < ullStart || llStartIdx > 0 || TakeCount(ullStart, pItems.Length, allNow) != 0
    }

    method TakeAllTimeout(allNow: nat, apResult: Link, ghost all: set<Item>)
      requires Valid() && 0 < allNow && KeepsIndex(allNow)
      requires apResult.Valid() && apResult !in ring && AllNodes() + Nodes(apResult) <= all
      modifies this, ring, apResult, all`pPrev, all`pNext, all`pLink
      ensures Valid() && apResult.Valid() && (forall l :: l in ring <==> l in old(ring))
      ensures View() == Take(old(View()), allNow).1
      ensures apResult.nodes == old(apResult.nodes) + Take(old(View()), allNow).0
      ensures AllNodes() + Nodes(apResult) <= all
    {
      hide Valid, Link.Valid, Flatten, AllNodes;
      SameSize();
      Restart(allNow);
      SameSize();
      if allNow < ullStart { return; }
      var cnt := ToInt32(allNow - ullStart + 1);
      if cnt > pItems.Length { cnt := pItems.Length; }
      if cnt < 0 { return; }
      assert cnt == TakeCount(ullStart, |slots|, allNow);
      if cnt > 0 {
        SweepOver(cnt, allNow, apResult, all);
      } else {
        Retreat(allNow);
      }
    }
  }

  /** `KeepsIndex` in terms of the clock. */
  lemma KeepsIndexIff(t: Timeout, now: nat)
    requires t.Valid() && t.pItems.Length < HALF
    ensures t.KeepsIndex(now) <==>
            t.ullStart == 0 || now < t.ullStart || t.llStartIdx > 0 || (now - t.ullStart + 1) % WORD != 0
  {
  }

  /** A new thread that first sweeps 2^32 - 1 ms after its start: the start index becomes -1, and what
      is due at once would then be put before the array. */
  lemma LongGapLeavesTheArray(t: Timeout)
    requires t.Valid() && t.View() == Wheel(1, Empties(WHEEL_SIZE)) && t.llStartIdx == 0
    ensures !t.KeepsIndex(WORD) && Take(t.View(), WORD).1.start == WORD
    ensures var idx := t.llStartIdx + TakeCount(1, WHEEL_SIZE, WORD) - 1;
            idx == -1 && AddCode(WORD, WHEEL_SIZE, WORD, WORD) == 0 && Ring.TruncMod(idx + ToInt32(0), WHEEL_SIZE) == -1
  {
    Ring.Wraps(-1, WHEEL_SIZE);
  }

  /** When the index of a condition wait of `ms` milliseconds is in the array. */
  lemma WaitInArray(t: Timeout, ms: int, now: nat)
    requires t.Valid() && t.pItems.Length < HALF && 0 < ms < HALF && 0 < t.ullStart <= now < t.ullStart + HALF
    ensures var d, n := now - t.ullStart + ms, t.pItems.Length;
            t.InArray(now + ms, now) <==> d < HALF || t.llStartIdx >= WORD - d || (t.llStartIdx + d - WORD) % n == 0
  {
  }

  /** The longest wait on a new thread, begun one millisecond after its start, is accepted and put
      23648 lists before the array. */
  lemma LongWaitLeavesTheArray(t: Timeout)
    requires t.Valid() && t.View() == Wheel(1, Empties(WHEEL_SIZE)) && t.llStartIdx == 0
    ensures AddCode(1, WHEEL_SIZE, 2 + MAX_INT, 2) == 0 && !t.InArray(2 + MAX_INT, 2)
    ensures Ring.TruncMod(t.llStartIdx + ToInt32(2 + MAX_INT - 1), WHEEL_SIZE) == -23648
  {
  }
}
