/** The seconds wheel as TimeRound.h builds it: a vector of doubly linked lists, allocated when they
    are first used, and a timeout list that is linked forward only. Every operation is proved
    against the wheel on values. */
module TimeRound {
  import opened Sequences
  import SecondsWheel
  import TimerWheel
  import Ring

  class Node {
    var pre: Node?
    var next: Node?
    var index: nat         // of the item: its slot
    const threshold: int   // of the item: GetTimeThreod
    ghost var owner: List? // the list that holds the node

    constructor (threshold: int)
      ensures Loose() && this.threshold == threshold
    {
      pre, next, index, owner := null, null, 0, null;
      this.threshold := threshold;
    }

    ghost predicate Loose()
      reads this
    {
      pre == null && next == null && owner == null
    }
  }

  class List {
    var head: Node?
    var tail: Node?
    ghost var nodes: seq<Node>

    /** Going forward from `head` gives `nodes`. */
    ghost predicate Linked()
      reads this, nodes
    {
      && NoDup(nodes)
      && head == (if nodes == [] then null else nodes[0])
      && tail == (if nodes == [] then null else nodes[|nodes| - 1])
      && (forall i {:trigger nodes[i]} :: 0 <= i < |nodes| ==> nodes[i].owner == this)
      && (forall i {:trigger nodes[i].next} :: 0 <= i < |nodes| ==>
            nodes[i].next == if i == |nodes| - 1 then null else nodes[i + 1])
    }

    /** And going back from `tail` gives them in reverse. */
    ghost predicate Valid()
      reads this, nodes
    {
      && Linked()
      && (forall i {:trigger nodes[i].pre} :: 0 <= i < |nodes| ==>
            nodes[i].pre == if i == 0 then null else nodes[i - 1])
    }

    constructor ()
      ensures Valid() && nodes == []
    {
      head, tail, nodes := null, null, [];
    }

    /** How AddTimeRoundItemNode links a new node. */
    method Append(node: Node)
      requires Valid() && node.Loose()
      modifies this, node`pre, node`owner, Nodes(this)`next
      ensures Valid() && nodes == old(nodes) + [node]
    {
      if head != null {
        tail.next := node;
        node.pre := tail;
        tail := node;
      } else {
        head, tail := node, node;
      }
      node.owner := this;
      nodes := nodes + [node];
    }

    /** How UpdateTimeRoundItemNode links a node taken from another list. */
    method Attach(node: Node)
      requires Valid() && node.owner == null
      modifies this, node`pre, node`next, node`owner, Nodes(this)`next
      ensures Valid() && nodes == old(nodes) + [node]
    {
      if head == null {
        head, tail := node, node;
        node.pre, node.next := null, null;
      } else {
        tail.next := node;
        node.pre := tail;
        tail := node;
        node.next := null;
      }
      node.owner := this;
      nodes := nodes + [node];
    }

    /** How UpdateTimeRoundItemNode takes a node out; its own pointers stay as they are. */
    method Detach(node: Node)
      requires Valid() && node in nodes
      modifies this, Nodes(this)`pre, Nodes(this)`next, node`owner
      ensures Valid() && nodes == Without(old(nodes), node) && node.owner == null
    {
      ghost var s := nodes;
      ghost var k :| 0 <= k < |s| && s[k] == node;
      WithoutAt(s, node, k);
      assert node.pre == (if k == 0 then null else s[k - 1]) && node.next == (if k == |s| - 1 then null else s[k + 1]);
      if node == head {
        if node == tail {
          head, tail := null, null;
        } else {
          head := node.next;
          head.pre := null;
        }
      } else if node == tail {
        tail := node.pre;
        tail.next := null;
      } else {
        node.pre.next := node.next;
        node.next.pre := node.pre;
      }
      node.owner := null;
      nodes := Without(s, node);
    }

    /** AddToTimeOutList, where both lists are known: `slot` goes to the end of this one. */
    method Absorb(slot: List)
      requires Linked() && slot.Valid() && slot != this
      modifies this, slot, Nodes(this)`next, Nodes(slot)`owner
      ensures Linked() && nodes == old(nodes + slot.nodes)
      ensures slot.Valid() && slot.nodes == []
    {
      ghost var s, t := nodes, slot.nodes;
      assert forall i, j :: 0 <= i < |s| && 0 <= j < |t| ==> s[i] != t[j];
      ConcatNoDup(s, t);
      hide NoDup;
      if slot.head != null {
        if head == null {
          head, tail := slot.head, slot.tail;
        } else {
          tail.next := slot.head;
          tail := slot.tail;
        }
        slot.head, slot.tail := null, null;
      }
      forall x | x in Nodes(slot) { x.owner := this; }
      nodes, slot.nodes := s + t, [];
    }

    /** HandleTimeOutList: every node is destroyed, in order. */
    method Empty() returns (fired: seq<Node>)
      requires Linked()
      modifies this`head, this`tail, this`nodes, Nodes(this)`owner
      ensures Valid() && nodes == [] && fired == old(nodes)
      ensures forall x :: x in fired ==> x.owner == null
    {
      ghost var s := nodes;
      var h := head;
      forall x | x in Nodes(this) { x.owner := null; }
      head, tail, nodes := null, null, [];
      fired := [];
      while h != null
        invariant |fired| <= |s| && fired == s[..|fired|]
        invariant h == if |fired| == |s| then null else s[|fired|]
        decreases |s| - |fired|
      {
        var temp: Node := h;
        h := h.next;
        fired := fired + [temp];
      }
    }
  }

  ghost function Nodes(l: List): set<Node>
    reads l
  {
    set x | x in l.nodes
  }

  /** No node is in two lists. */
  lemma Apart(l: List, m: List)
    requires l.Linked() && m.Linked() && l != m
    ensures Nodes(l) !! Nodes(m)
  {
    forall x | x in Nodes(l) ensures x !in Nodes(m) { assert x.owner == l; }
  }

  lemma SumIsAt(cur: nat, d: nat, n: nat)
    requires cur < n && d < n
    ensures (cur + d) % n == SecondsWheel.At(cur, d, n)
  {
    Ring.Remainder(cur + d, if cur + d < n then 0 else 1, SecondsWheel.At(cur, d, n), n);
  }

  lemma BackOrForth(cur: nat, d: int, n: nat)
    requires cur < n && d < n
    ensures (cur + d) % n == SecondsWheel.At(cur, d % n, n) && (d >= 0 ==> d % n == d)
  {
    SumIsAt(cur, d % n, n);
    Ring.RoundTheRing(cur, d, n);
    if d >= 0 { Ring.Small(d, n); }
  }

  class Wheel {
    const maxTime: nat
    const vector: array<List?>
    const timeOut: List
    var curIndex: nat
    var curTime: int
    ghost var slots: seq<seq<Node>>  // what the vector holds

    ghost function Lists(): set<List>
      reads vector
    {
      set l: List | l in vector[..]
    }

    ghost function AllNodes(): set<Node>
      reads vector, Lists()
    {
      set l: List, x | l in vector[..] && x in l.nodes :: x
    }

    ghost function NodesOf(p: nat): set<Node>
      requires p < vector.Length
      reads vector, vector[p]
    {
      if vector[p] == null then {} else Nodes(vector[p])
    }

    /** A slot that was never used has no list. */
    ghost predicate Holds(p: nat, s: seq<Node>)
      requires p < vector.Length
      reads vector, vector[p], NodesOf(p)
    {
      if vector[p] == null then s == [] else vector[p].Valid() && vector[p].nodes == s
    }

    /** Every slot has its own list. */
    ghost predicate Separate()
      reads this`slots, vector, Lists(), AllNodes()
    {
      && 0 < maxTime == vector.Length == |slots|
      && (forall p, q {:trigger vector[p], vector[q]} :: 0 <= p < q < maxTime && vector[p] != null ==> vector[p] != vector[q])
      && (forall p {:trigger slots[p]} {:trigger vector[p]} :: 0 <= p < maxTime ==>
            (assert vector[p] != null ==> vector[p] in vector[..] && Nodes(vector[p]) <= AllNodes(); Holds(p, slots[p])))
    }

    ghost function Members(): set<Node>
      reads this`slots
    {
      set s, x | s in slots && x in s :: x
    }

    /** Every node records its slot. */
    ghost predicate Indexed()
      reads this`slots, Members()`index
    {
      forall p, k {:trigger slots[p][k]} :: 0 <= p < |slots| && 0 <= k < |slots[p]| ==>
        (assert slots[p] in slots && slots[p][k] in slots[p]; slots[p][k].index == p)
    }

    ghost predicate Valid()
      reads this, vector, Lists(), AllNodes(), timeOut, timeOut.nodes, Members()
    {
      && Separate() && Indexed() && curIndex < maxTime
      && timeOut !in Lists() && timeOut.Valid() && timeOut.nodes == []
    }

    ghost function Value(): SecondsWheel.Round<Node>
      reads this`curIndex, this`slots
    {
      SecondsWheel.Round(curIndex, slots)
    }

    /** The constructor and `start`: the wheel has one slot more than the longest time. */
    constructor (longest: nat, now: int)
      ensures Valid() && fresh(vector) && fresh(timeOut) && maxTime == longest + 1 && curTime == now
      ensures Value() == SecondsWheel.EmptyRound(maxTime)
    {
      maxTime := longest + 1;
      vector := new List?[longest + 1](_ => null);
      timeOut := new List();
      curIndex, curTime := 0, now;
      slots := TimerWheel.Empties(longest + 1);
    }

    /** Appends a new node to slot `p`, which gets a list if it has none. */
    method Place(p: nat, node: Node)
      requires Separate() && p < maxTime && node.Loose()
      modifies this`slots, vector, Lists(), AllNodes()`next, node`pre, node`owner
      ensures Separate() && slots == old(slots)[p := old(slots)[p] + [node]]
      ensures fresh(Lists() - old(Lists()))
    {
      OwnedIsListed(node);
      forall q | 0 <= q < maxTime ensures NodesOf(q) <= AllNodes() && (vector[q] != null ==> vector[q] in Lists()) {}
      if vector[p] == null {
        var l := new List();
        l.Append(node);
        vector[p] := l;
      } else {
        OthersApart(p);
        vector[p].Append(node);
      }
      slots := slots[p := slots[p] + [node]];
      assert Holds(p, slots[p]);
      hide Holds, NoDup, List.Valid, List.Linked;
      forall q | 0 <= q < maxTime && q != p ensures Holds(q, slots[q]) { assert old(Holds(q, slots[q])); }
    }

    /** A node is destroyed at once if its time is not positive. */
    method AddTimeRoundItemNode(node: Node?) returns (fired: seq<Node>)
      requires Valid() && (node != null ==> node.Loose())
      modifies this`slots, vector, Lists(), AllNodes()`next, node
      ensures Valid() && fresh(Lists() - old(Lists()))
      ensures node == null ==> Value() == old(Value()) && fired == []
      ensures node != null ==> Value() == SecondsWheel.AddItem(old(Value()), node, node.threshold)
      ensures node != null ==> fired == if node.threshold <= 0 then [node] else []
    {
      hide Valid;
      InRange();
      if node == null { return []; }
      var time := node.threshold;
      if time <= 0 { return [node]; }
      if time >= maxTime { time := maxTime - 1; }
      SumIsAt(curIndex, time, maxTime);
      AddAt((curIndex + time) % maxTime, node);
      fired := [];
    }

    method AddAt(p: nat, node: Node)
      requires Valid() && p < maxTime && node.Loose()
      modifies this`slots, vector, Lists(), AllNodes()`next, node
      ensures Valid() && fresh(Lists() - old(Lists()))
      ensures slots == old(slots)[p := old(slots)[p] + [node]]
    {
      hide Separate, NoDup;
      OwnedIsListed(node);
      InRange();
      node.index := p;
      Place(p, node);
    }

    lemma InRange()
      requires Valid()
      ensures curIndex < maxTime == vector.Length == |slots|
    {
    }

    lemma OwnedIsListed(node: Node)
      requires Separate() && node.owner == null
      ensures node !in AllNodes() && forall q, k {:trigger slots[q][k]} :: 0 <= q < maxTime && 0 <= k < |slots[q]| ==> slots[q][k] != node
    {
      forall l | l in Lists() ensures node !in l.nodes {
        var p :| 0 <= p < maxTime && vector[p] == l;
        assert slots[p] == l.nodes;
      }
      forall p | 0 <= p < maxTime ensures node !in slots[p] { assert vector[p] != null ==> vector[p] in Lists(); }
    }

    /** What holds of the other slots while slot `p` changes. */
    lemma OthersApart(p: nat)
      requires Separate() && p < maxTime && vector[p] != null
      ensures vector[p].Valid() && vector[p].nodes == slots[p]
      ensures forall q :: 0 <= q < maxTime && q != p && vector[q] != null ==>
                vector[q] != vector[p] && Nodes(vector[q]) !! Nodes(vector[p])
    {
      assert slots[p] == vector[p].nodes;
      forall q | 0 <= q < maxTime && q != p && vector[q] != null
        ensures vector[q] != vector[p] && Nodes(vector[q]) !! Nodes(vector[p])
      {
        assert slots[q] == vector[q].nodes;
        Apart(vector[q], vector[p]);
      }
    }

    method Unlink(p: nat, node: Node)
      requires Separate() && p < maxTime && node in slots[p]
      modifies this`slots, Lists(), AllNodes()`pre, AllNodes()`next, node`owner
      ensures Separate() && slots == old(slots)[p := Without(old(slots)[p], node)] && node.owner == null
      ensures AllNodes() <= old(AllNodes())
    {
      WithoutSubset(slots[p], node);
      assert vector[p] != null;
      assert vector[p] in Lists();
      OthersApart(p);
      vector[p].Detach(node);
      slots := slots[p := Without(slots[p], node)];
    }

    method Relink(p: nat, node: Node)
      requires Separate() && p < maxTime && vector[p] != null && node.owner == null
      modifies this`slots, Lists(), AllNodes()`next, node`pre, node`next, node`owner
      ensures Separate() && slots == old(slots)[p := old(slots)[p] + [node]]
    {
      assert vector[p] in Lists();
      OthersApart(p);
      forall q | 0 <= q < maxTime && vector[q] != null ensures node !in vector[q].nodes { assert slots[q] == vector[q].nodes; }
      vector[p].Attach(node);
      slots := slots[p := slots[p] + [node]];
    }

    /** A negative time counts slots back from `curIndex`, as long as the truncated remainder is an index
        of the vector. The list of the new slot must exist already, unless the node stays where it is. */
    method UpdateTimeRoundItemNode(node: Node, newTime: int)
      requires Valid() && node in Members()
      requires var q := Ring.TruncMod(curIndex + LessThanATurn(newTime), maxTime);
               0 <= q && (q != node.index ==> vector[q] != null)
      modifies this`slots, Lists(), AllNodes()`pre, AllNodes()`next, node
      ensures Valid()
      ensures Value() == SecondsWheel.UpdateItem(old(Value()), node, old(node.index), if newTime < 0 then newTime % maxTime else newTime)
    {
      var index := node.index;
      var time := LessThanATurn(newTime);
      BackOrForth(curIndex, time, maxTime);
      var newIndex := Ring.TruncMod(curIndex + time, maxTime);
      if newIndex == index { return; }
      Rehang(index, newIndex, node);
    }

    function LessThanATurn(time: int): int {
      if time >= maxTime then maxTime - 1 else time
    }

    lemma UnlinkedIndexed(s: seq<seq<Node>>, p: nat, node: Node)
      requires forall q, k {:trigger s[q][k]} :: 0 <= q < |s| && 0 <= k < |s[q]| ==> s[q][k].index == q
      requires p < |s| && slots == s[p := Without(s[p], node)]
      ensures Indexed()
    {
      WithoutSubset(s[p], node);
      forall k | 0 <= k < |slots[p]| ensures slots[p][k].index == p {
        assert slots[p][k] in s[p];
        var j :| 0 <= j < |s[p]| && s[p][j] == slots[p][k];
      }
    }

    method Rehang(p: nat, q: nat, node: Node)
      requires Valid() && p < maxTime && q < maxTime && p != q && node in slots[p] && vector[q] != null
      modifies this`slots, Lists(), AllNodes()`pre, AllNodes()`next, node
      ensures Valid()
      ensures var s := old(slots)[p := Without(old(slots)[p], node)]; slots == s[q := s[q] + [node]]
    {
      hide Separate, NoDup;
      InRange();
      Unlink(p, node);
      UnlinkedIndexed(old(slots), p, node);
      OwnedIsListed(node);
      node.index := q;
      assert Indexed();
      Relink(q, node);
      assert Indexed();
    }

    lemma TimeOutApart()
      requires Separate() && timeOut !in Lists() && timeOut.Linked()
      ensures Nodes(timeOut) !! AllNodes()
    {
      forall l | l in Lists() ensures Nodes(l) !! Nodes(timeOut) {
        var p :| 0 <= p < maxTime && vector[p] == l;
        assert slots[p] == l.nodes;
        Apart(l, timeOut);
      }
    }

    /** All of a slot goes to the end of the timeout list. */
    method AddToTimeOutList(p: nat, ghost all: set<Node>)
      requires Separate() && p < maxTime && timeOut !in Lists() && timeOut.Linked()
      requires AllNodes() + Nodes(timeOut) <= all
      modifies this`slots, Lists(), timeOut, all`next, all`owner
      ensures Separate() && timeOut.Linked() && AllNodes() + Nodes(timeOut) <= all
      ensures slots == old(slots)[p := []] && timeOut.nodes == old(timeOut.nodes) + old(slots)[p]
    {
      TimeOutApart();
      if vector[p] == null {
        slots := slots[p := []];
        assert timeOut.nodes == timeOut.nodes + [];
      } else {
        AbsorbSlot(p, all);
      }
    }

    method AbsorbSlot(p: nat, ghost all: set<Node>)
      requires Separate() && p < maxTime && vector[p] != null && timeOut !in Lists() && timeOut.Linked()
      requires Nodes(timeOut) !! AllNodes() && AllNodes() + Nodes(timeOut) <= all
      modifies this`slots, vector[p], timeOut, Nodes(timeOut)`next, Nodes(vector[p])`owner
      ensures Separate() && timeOut.Linked() && AllNodes() + Nodes(timeOut) <= all
      ensures slots == old(slots)[p := []] && timeOut.nodes == old(timeOut.nodes) + old(slots)[p]
    {
      OthersApart(p);
      forall q | 0 <= q < maxTime ensures NodesOf(q) <= AllNodes() && (vector[q] != null ==> vector[q] in Lists()) {}
      hide NoDup, List.Linked, List.Valid;
      timeOut.Absorb(vector[p]);
      slots := slots[p := []];
      assert Holds(p, []);
      hide Holds;
      forall q | 0 <= q < maxTime && q != p ensures Holds(q, slots[q]) { assert old(Holds(q, slots[q])); }
    }

    /** The inner loop of `fun`: `k` slots, from `curIndex` on. */
    method Pass(k: nat, ghost all: set<Node>)
      requires Separate() && Indexed() && curIndex < maxTime == |slots| && timeOut !in Lists() && timeOut.Linked()
      requires timeOut.nodes == [] && AllNodes() <= all
      modifies this`slots, this`curIndex, Lists(), timeOut, all`next, all`owner
      ensures Separate() && Indexed() && curIndex < maxTime && timeOut.Linked()
      ensures AllNodes() + Nodes(timeOut) <= all
      ensures (timeOut.nodes, Value()) == SecondsWheel.Ticks(old(Value()), k)
    {
      hide Separate, Indexed, NoDup;
      ghost var r := Value();
      var diff := k;
      while diff > 0
        invariant 0 <= diff <= k
        invariant Separate() && Indexed() && curIndex < maxTime == |slots| && timeOut.Linked()
        invariant AllNodes() + Nodes(timeOut) <= all
        invariant (timeOut.nodes, Value()) == SecondsWheel.Ticks(r, k - diff)
      {
        PassOne(all);
        diff := diff - 1;
      }
    }

    method PassOne(ghost all: set<Node>)
      requires Separate() && Indexed() && curIndex < maxTime == |slots| && timeOut !in Lists() && timeOut.Linked()
      requires AllNodes() + Nodes(timeOut) <= all
      modifies this`slots, this`curIndex, Lists(), timeOut, all`next, all`owner
      ensures Separate() && Indexed() && curIndex < maxTime == |slots| && timeOut.Linked()
      ensures AllNodes() + Nodes(timeOut) <= all
      ensures (timeOut.nodes, Value()) ==
        (old(timeOut.nodes) + SecondsWheel.Tick(old(Value())).0, SecondsWheel.Tick(old(Value())).1)
    {
      hide Separate, NoDup;
      AddToTimeOutList(curIndex, all);
      curIndex := curIndex + 1;
      if curIndex >= maxTime { curIndex := 0; }
    }

    /** The slots that are passed are emptied and all their nodes are destroyed. */
    method PassAndHandle(k: nat) returns (fired: seq<Node>)
      requires Valid()
      modifies this`slots, this`curIndex, Lists(), timeOut, AllNodes()`next, AllNodes()`owner
      ensures Valid() && (fired, Value()) == SecondsWheel.Ticks(old(Value()), k)
      ensures forall x :: x in fired ==> x.owner == null
    {
      hide Separate, NoDup;
      InRange();
      Pass(k, AllNodes());
      TimeOutApart();
      fired := timeOut.Empty();
    }

    /** One iteration of `fun`; `now` is the clock reading. */
    method Fun(now: int) returns (fired: seq<Node>)
      requires Valid()
      modifies this, Lists(), timeOut, AllNodes()`next, AllNodes()`owner
      ensures Valid() && curTime == if now - old(curTime) >= 1 then now else old(curTime)
      ensures (fired, Value()) == SecondsWheel.Ticks(old(Value()), SecondsWheel.TickCount(now - old(curTime), maxTime))
      ensures forall x :: x in fired ==> x.owner == null
    {
      hide Separate, NoDup;
      InRange();
      var diff := now - curTime;
      fired := [];
      if diff >= 1 {
        if diff >= maxTime { diff := maxTime - 1; }
        curTime := now;
        fired := PassAndHandle(diff);
      }
    }
  }
}
