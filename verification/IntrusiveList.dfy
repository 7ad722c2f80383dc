/** The intrusive doubly linked lists of libco/co_routine.cpp.
    A node knows the list it is in (`pLink`), so removal needs no list argument. */
module IntrusiveList {
  import opened Sequences

  class Item {
    var pPrev: Item?
    var pNext: Item?
    var pLink: Link?
    const expireTime: nat
    var bTimeout: bool
    const id: nat // the wait that the item belongs to, which the source finds by pArg

    constructor (expireTime: nat, id: nat)
      ensures Detached()
      ensures this.expireTime == expireTime && this.id == id && !bTimeout
    {
      pPrev, pNext, pLink := null, null, null;
      this.expireTime, this.id, bTimeout := expireTime, id, false;
    }

    ghost predicate Detached()
      reads this
    {
      pLink == null && pPrev == null && pNext == null
    }
  }

  class Link {
    var head: Item?
    var tail: Item?
    ghost var nodes: seq<Item>

    /** The list holds exactly `nodes`, in order, and every pointer agrees. */
    ghost predicate Valid()
      reads this, nodes
    {
      && NoDup(nodes)
      && head == (if nodes == [] then null else nodes[0])
      && tail == (if nodes == [] then null else nodes[|nodes| - 1])
      && (forall i {:trigger nodes[i]} :: 0 <= i < |nodes| ==>
            nodes[i].pLink == this)
      && (forall i {:trigger nodes[i].pPrev} :: 0 <= i < |nodes| ==>
            nodes[i].pPrev == if i == 0 then null else nodes[i - 1])
      && (forall i {:trigger nodes[i].pNext} :: 0 <= i < |nodes| ==>
            nodes[i].pNext == if i == |nodes| - 1 then null else nodes[i + 1])
    }

    constructor ()
      ensures Valid() && nodes == []
    {
      head, tail, nodes := null, null, [];
    }
  }

  /** The nodes of a list, as the frame of an operation on it. */
  ghost function Nodes(l: Link?): set<Item>
    reads l
  {
    if l == null then {} else set x | x in l.nodes
  }

  /** No node is in two lists, and a detached node is in none. */
  lemma Apart(l: Link, m: Link)
    requires l.Valid() && m.Valid() && l != m
    ensures Nodes(l) !! Nodes(m)
  {
    forall x | x in Nodes(l) ensures x !in Nodes(m) { assert x.pLink == l; }
  }

  /** First half of a removal: what points forward to `ap` points past it. */
  method BypassForward(lst: Link, ap: Item, ghost s: seq<Item>, ghost k: nat)
    requires lst.Valid() && k < |s| && s == lst.nodes && s[k] == ap
    modifies lst`head, Nodes(lst)`pPrev, Nodes(lst)`pNext
    ensures lst.head == if k == 0 then old(ap.pNext) else s[0]
    ensures forall i {:trigger s[i].pNext} :: 0 <= i < |s| ==>
      s[i].pNext == if i == k - 1 then old(ap.pNext) else old(s[i].pNext)
    ensures forall i {:trigger s[i].pPrev} :: 0 <= i < |s| ==>
      s[i].pPrev == if i == 1 && k == 0 then null else old(s[i].pPrev)
  {
    if ap == lst.head {
      lst.head := ap.pNext;
      if lst.head != null { lst.head.pPrev := null; }
    } else if ap.pPrev != null {
      ap.pPrev.pNext := ap.pNext;
    }
  }

  /** Second half: what points back to `ap` points before it. */
  method BypassBackward(lst: Link, ap: Item, ghost s: seq<Item>, ghost k: nat)
    requires k < |s| && s == lst.nodes && s[k] == ap && NoDup(s) && lst.tail == s[|s| - 1]
    requires ap.pPrev == (if k == 0 then null else s[k - 1]) && ap.pNext == (if k == |s| - 1 then null else s[k + 1])
    modifies lst`tail, Nodes(lst)`pPrev, Nodes(lst)`pNext
    ensures lst.tail == if k == |s| - 1 then old(ap.pPrev) else s[|s| - 1]
    ensures forall i {:trigger s[i].pPrev} :: 0 <= i < |s| ==>
      s[i].pPrev == if i == k + 1 then old(ap.pPrev) else old(s[i].pPrev)
    ensures forall i {:trigger s[i].pNext} :: 0 <= i < |s| ==>
      s[i].pNext == if i == |s| - 2 && k == |s| - 1 then null else old(s[i].pNext)
  {
    if ap == lst.tail {
      lst.tail := ap.pPrev;
      if lst.tail != null { lst.tail.pNext := null; }
    } else {
      ap.pNext.pPrev := ap.pPrev;
    }
  }

  function PrevAround(s: seq<Item>, k: nat, i: nat): Item?
    requires k < |s| && i < |s|
  {
    if i == 0 || (i == 1 && k == 0) then null else if i == k + 1 then s[k - 1] else s[i - 1]
  }

  function NextAround(s: seq<Item>, k: nat, i: nat): Item?
    requires k < |s| && i < |s|
  {
    if i == |s| - 1 || (i == |s| - 2 && k == |s| - 1) then null else if i == k - 1 then s[k + 1] else s[i + 1]
  }

  /** The links of a list lead around its `k`-th node. */
  ghost predicate LeadsAround(lst: Link, s: seq<Item>, k: nat)
    requires k < |s|
    reads lst`head, lst`tail, s
  {
    && lst.head == (if k == 0 then (if |s| == 1 then null else s[1]) else s[0])
    && lst.tail == (if k == |s| - 1 then (if |s| == 1 then null else s[k - 1]) else s[|s| - 1])
    && (forall i {:trigger s[i]} :: 0 <= i < |s| && i != k ==>
          s[i].pLink == lst && s[i].pPrev == PrevAround(s, k, i) && s[i].pNext == NextAround(s, k, i))
  }

  method Bypass(lst: Link, ap: Item, ghost s: seq<Item>, ghost k: nat)
    requires lst.Valid() && k < |s| && s == lst.nodes && s[k] == ap
    modifies lst`head, lst`tail, Nodes(lst)`pPrev, Nodes(lst)`pNext
    ensures LeadsAround(lst, s, k)
  {
    assert ap.pPrev == (if k == 0 then null else s[k - 1]) && ap.pNext == (if k == |s| - 1 then null else s[k + 1]);
    BypassForward(lst, ap, s, k);
    assert s[k].pPrev == old(ap.pPrev) && s[k].pNext == old(ap.pNext);
    BypassBackward(lst, ap, s, k);
  }

  method Release(lst: Link, ap: Item, ghost s: seq<Item>, ghost k: nat)
    requires NoDup(s) && k < |s| && s[k] == ap && LeadsAround(lst, s, k)
    modifies ap`pPrev, ap`pNext, ap`pLink
    ensures LeadsAround(lst, s, k) && ap.Detached()
  {
    ap.pPrev, ap.pNext, ap.pLink := null, null, null;
  }

  /** Once the node itself is out, the list is well formed again. */
  lemma ClosedUp(lst: Link, s: seq<Item>, k: nat)
    requires NoDup(s) && k < |s| && LeadsAround(lst, s, k) && lst.nodes == Without(s, s[k])
    ensures lst.Valid()
  {
    WithoutAt(s, s[k], k);
    hide NoDup, Sequences.Without;
  }

  method RemoveFromLink(ap: Item)
    requires ap.pLink == null ==> ap.Detached()
    requires ap.pLink != null ==> ap.pLink.Valid() && ap in ap.pLink.nodes
    modifies ap.pLink, Nodes(ap.pLink)`pPrev, Nodes(ap.pLink)`pNext, Nodes(ap.pLink)`pLink
    ensures ap.Detached()
    ensures var l := old(ap.pLink); l != null ==> l.Valid() && l.nodes == Without(old(l.nodes), ap)
  {
    if ap.pLink == null { return; }
    var lst: Link := ap.pLink;
    ghost var s := lst.nodes;
    ghost var k :| 0 <= k < |s| && s[k] == ap;
    hide Sequences.Without, LeadsAround;
    Bypass(lst, ap, s, k);
    Release(lst, ap, s, k);
    lst.nodes := Without(s, ap);
    ClosedUp(lst, s, k);
  }

  /** Appends `ap`, unless it is already in some list. */
  method AddTail(apLink: Link, ap: Item)
    requires apLink.Valid() && (ap.pLink == null ==> ap.Detached())
    modifies apLink, ap`pPrev, ap`pNext, ap`pLink, Nodes(apLink)`pNext
    ensures apLink.Valid()
    ensures old(ap.pLink) != null ==> apLink.nodes == old(apLink.nodes) && ap.pLink == old(ap.pLink)
    ensures old(ap.pLink) == null ==> apLink.nodes == old(apLink.nodes) + [ap]
  {
    if ap.pLink != null { return; }
    if apLink.tail != null {
      apLink.tail.pNext := ap;
      ap.pNext := null;
      ap.pPrev := apLink.tail;
      apLink.tail := ap;
    } else {
      apLink.head, apLink.tail := ap, ap;
      ap.pNext, ap.pPrev := null, null;
    }
    ap.pLink := apLink;
    apLink.nodes := apLink.nodes + [ap];
  }

  method PopHead(apLink: Link)
    requires apLink.Valid()
    modifies apLink, Nodes(apLink)`pPrev, Nodes(apLink)`pNext, Nodes(apLink)`pLink
    ensures apLink.Valid()
    ensures old(apLink.nodes) == [] ==> apLink.nodes == []
    ensures old(apLink.nodes) != [] ==> apLink.nodes == old(apLink.nodes)[1..] && old(apLink.nodes)[0].Detached()
  {
    if apLink.head == null { return; }
    var lp: Item := apLink.head;
    ghost var s := apLink.nodes;
    if apLink.head == apLink.tail {
      apLink.head, apLink.tail := null, null;
    } else {
      apLink.head := apLink.head.pNext;
    }
    lp.pPrev, lp.pNext, lp.pLink := null, null, null;
    if apLink.head != null { apLink.head.pPrev := null; }
    apLink.nodes := s[1..];
  }

  /** The loop of `Join`: every node of `apOther` gets a new owner. */
  method Adopt(apLink: Link, apOther: Link, ghost t: seq<Item>)
    requires apOther.Valid() && t == apOther.nodes
    modifies Nodes(apOther)`pLink
    ensures forall i {:trigger t[i].pLink} :: 0 <= i < |t| ==> t[i].pLink == apLink
  {
    var lp := apOther.head;
    ghost var k := 0;
    while lp != null
      invariant 0 <= k <= |t| && lp == (if k == |t| then null else t[k])
      invariant forall i {:trigger t[i].pLink} :: 0 <= i < k ==> t[i].pLink == apLink
      decreases |t| - k
    {
      lp.pLink := apLink;
      lp := lp.pNext;
      k := k + 1;
    }
  }

  /** Splicing: the last node of `s` and the first of `t` point at each other. */
  method Splice(apLink: Link, apOther: Link, ghost s: seq<Item>, ghost t: seq<Item>)
    requires apLink.Valid() && s == apLink.nodes && t != [] && NoDup(s + t) && apLink != apOther
    requires apOther.head == t[0] && apOther.tail == t[|t| - 1]
    modifies apLink`head, apLink`tail, apOther`head, apOther`tail, Nodes(apLink)`pNext, {t[0]}`pPrev
    ensures apLink.head == (if s == [] then t[0] else s[0]) && apLink.tail == t[|t| - 1]
    ensures apOther.head == null && apOther.tail == null
    ensures forall i {:trigger s[i].pNext} :: 0 <= i < |s| ==>
      s[i].pNext == if i == |s| - 1 then t[0] else old(s[i].pNext)
    ensures forall i {:trigger t[i].pNext} :: 0 <= i < |t| ==> t[i].pNext == old(t[i].pNext)
    ensures t[0].pPrev == if s == [] then old(t[0].pPrev) else s[|s| - 1]
  {
    NoDupParts(s, t);
    var lp := apOther.head;
    if apLink.tail != null {
      apLink.tail.pNext := lp;
      lp.pPrev := apLink.tail;
      apLink.tail := apOther.tail;
    } else {
      apLink.head, apLink.tail := apOther.head, apOther.tail;
    }
    apOther.head, apOther.tail := null, null;
  }

  /** Moves all of `apOther` to the end of `apLink`. */
  method Join(apLink: Link, apOther: Link)
    requires apLink.Valid() && apOther.Valid() && apLink != apOther
    modifies apLink, apOther, Nodes(apLink)`pNext, Nodes(apOther)`pPrev, Nodes(apOther)`pLink
    ensures apLink.Valid() && apOther.Valid()
    ensures apLink.nodes == old(apLink.nodes + apOther.nodes) && apOther.nodes == []
  {
    if apOther.head == null { return; }
    ghost var s, t := apLink.nodes, apOther.nodes;
    assert forall i, j :: 0 <= i < |s| && 0 <= j < |t| ==> s[i] != t[j];
    ConcatNoDup(s, t);
    Adopt(apLink, apOther, t);
    Splice(apLink, apOther, s, t);
    apLink.nodes, apOther.nodes := s + t, [];
  }
}
