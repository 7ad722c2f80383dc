/** The condition variables of libco/co_routine.cpp: an intrusive list for each, of the
    stCoCondItem_t's that the waiting coroutines keep. Every operation is proved against a map from
    conditions to sequences of waits. */
module CondQueues {
  import opened Sequences
  import opened IntrusiveList
  import opened Options

  function Ids(q: seq<Item>): (r: seq<nat>)
    ensures |r| == |q| && forall i :: 0 <= i < |q| ==> r[i] == q[i].id
  {
    seq(|q|, i requires 0 <= i < |q| => q[i].id)
  }

  lemma {:induction false} IdsWithout(q: seq<Item>, x: Item)
    requires forall y :: y in q && y.id == x.id ==> y == x
    ensures Ids(Without(q, x)) == Without(Ids(q), x.id)
  {
    if q != [] {
      assert q[0] in q && forall y :: y in q[1..] ==> y in q;
      IdsWithout(q[1..], x);
      assert Ids(q)[1..] == Ids(q[1..]);
      assert Ids([q[0]] + Without(q[1..], x)) == [q[0].id] + Ids(Without(q[1..], x));
    }
  }

  function Queue(view: map<nat, seq<nat>>, q: nat): seq<nat> {
    if q in view then view[q] else []
  }

  /** What the lists hold are the nodes that are kept for their waits. */
  ghost predicate Kept(held: map<nat, seq<Item>>, nodes: map<nat, Item>) {
    && (forall q, x :: q in held && x in held[q] ==> x.id in nodes && nodes[x.id] == x)
    && (forall id :: id in nodes ==> nodes[id].id == id)
  }

  /** The nodes that are in some list. */
  ghost function Inside(held: map<nat, seq<Item>>): set<Item> {
    set q, x | q in held && x in held[q] :: x
  }

  /** The waits in each queue. */
  function Shown(held: map<nat, seq<Item>>): map<nat, seq<nat>> {
    map q | q in held :: Ids(held[q])
  }

  lemma Provided(held: map<nat, seq<Item>>, nodes: map<nat, Item>, q: nat)
    requires Kept(held, nodes) && q !in held
    ensures var h := held[q := []]; Kept(h, nodes) && Inside(h) == Inside(held) && Shown(h) == Shown(held)[q := []]
  {
    var h := held[q := []];
    forall y | y in Inside(held) ensures y in Inside(h) {
      var p :| p in held && y in held[p];
      assert y in h[p];
    }
  }

  lemma Pushed(held: map<nat, seq<Item>>, nodes: map<nat, Item>, q: nat, x: Item)
    requires Kept(held, nodes) && q in held && x.id !in nodes
    ensures var h := held[q := held[q] + [x]];
      && Kept(h, nodes[x.id := x]) && Inside(h) == Inside(held) + {x}
      && Shown(h) == Shown(held)[q := Shown(held)[q] + [x.id]]
  {
    var h := held[q := held[q] + [x]];
    assert h[q][|held[q]|] == x && x in h[q];
    forall y | y in Inside(h) ensures y in Inside(held) + {x} {
      var p :| p in h && y in h[p];
      assert y in held[p] || y == x;
    }
    forall y | y in Inside(held) ensures y in Inside(h) {
      var p :| p in held && y in held[p];
      assert y in h[p];
    }
    assert Ids(held[q] + [x]) == Ids(held[q]) + [x.id];
  }

  lemma Popped(held: map<nat, seq<Item>>, nodes: map<nat, Item>, q: nat)
    requires Kept(held, nodes) && q in held && held[q] != []
    ensures var x, h := held[q][0], held[q := held[q][1..]];
      && Kept(h, nodes) && Inside(h) <= Inside(held) <= Inside(h) + {x} && x.id == Shown(held)[q][0]
      && Shown(h) == Shown(held)[q := Shown(held)[q][1..]]
  {
    var x, h := held[q][0], held[q := held[q][1..]];
    assert held[q] == [x] + h[q];
    forall y | y in Inside(h) ensures y in Inside(held) {
      var p :| p in h && y in h[p];
      assert y in held[p];
    }
    forall y | y in Inside(held) ensures y in Inside(h) + {x} {
      var p :| p in held && y in held[p];
      assert y in h[p] || y == x;
    }
    assert Ids(h[q]) == Ids(held[q])[1..];
  }

  lemma Removed(held: map<nat, seq<Item>>, nodes: map<nat, Item>, q: nat, id: nat)
    requires Kept(held, nodes) && q in held && id in nodes && forall p :: p in held && id in Shown(held)[p] ==> p == q
    ensures var x, h := nodes[id], held[q := Without(held[q], nodes[id])];
      && (NoDup(held[q]) ==> Kept(h, nodes - {id}) && Inside(h) == Inside(held) - {x})
      && Shown(h) == Shown(held)[q := Without(Shown(held)[q], id)]
  {
    var x, h := nodes[id], held[q := Without(held[q], nodes[id])];
    IdsWithout(held[q], x);
    WithoutSubset(held[q], x);
    assert Shown(h) == Shown(held)[q := Without(Shown(held)[q], id)];
    if NoDup(held[q]) {
      WithoutAll(held[q], x);
      forall p: nat, y: Item | p in h && y in h[p] ensures y.id in nodes - {id} && nodes[y.id] == y {
        if p != q && y.id == id { ShownHas(held, p, y); }
      }
      forall y | y in Inside(held) && y != x ensures y in Inside(h) {
        var p :| p in held && y in held[p];
        assert y in h[p];
      }
    }
  }

  lemma ShownHas(held: map<nat, seq<Item>>, p: nat, y: Item)
    requires p in held && y in held[p]
    ensures y.id in Shown(held)[p]
  {
    var k :| 0 <= k < |held[p]| && held[p][k] == y;
    assert Ids(held[p])[k] == y.id;
  }

  lemma WithoutAll(s: seq<Item>, x: Item)
    requires NoDup(s)
    ensures x !in Without(s, x) && forall y :: y in s && y != x ==> y in Without(s, x)
  {
    if x in s {
      var k :| 0 <= k < |s| && s[k] == x;
      WithoutAt(s, x, k);
      var r := Without(s, x);
      forall y | y in s && y != x ensures y in r {
        var i :| 0 <= i < |s| && s[i] == y;
        assert r[if i < k then i else i - 1] == y;
      }
    } else {
      WithoutAbsent(s, x);
    }
  }

  class Conditions {
    var links: map<nat, Link>  // the stCoCond_t's, by number
    var nodes: map<nat, Item>  // the stCoCondItem_t's, by the wait that keeps them
    ghost var held: map<nat, seq<Item>>

    constructor ()
      ensures Valid() && links == map[] && nodes == map[] && held == map[]
    {
      links, nodes, held := map[], map[], map[];
    }

    lemma NoConditions()
      requires links == map[] && nodes == map[] && held == map[]
      ensures Valid() && View() == map[] && Lists() == {} && Nodes() == {}
    {
    }

    ghost function Lists(): set<Link>
      reads this`links
    {
      set q | q in links :: links[q]
    }

    ghost function Nodes(): set<Item>
      reads this`nodes
    {
      set id | id in nodes :: nodes[id]
    }

    ghost function Held(): set<Item>
      reads this`held
    {
      Inside(held)
    }

    /** Every condition has its own list. */
    ghost predicate Linked()
      reads this`links, this`held, Lists(), Held()
    {
      && links.Keys == held.Keys
      && (forall p, q :: p in links && q in links && p != q ==> links[p] != links[q])
      && (forall q {:trigger links[q]} {:trigger held[q]} :: q in links ==>
            (assert links[q] in Lists(); links[q].nodes == held[q]
             && (assert forall x :: x in held[q] ==> x in Held(); links[q].Valid())))
    }

    ghost predicate Valid()
      reads this, Lists(), Held(), Nodes()
    {
      Linked() && Kept(held, nodes) && Loose()
    }

    /** A node that is in no list has no links. */
    ghost predicate Loose()
      reads this`nodes, this`held, Nodes()
    {
      forall x :: x in Nodes() && x !in Held() ==> x.Detached()
    }

    /** The waits in each condition's queue. */
    ghost function View(): map<nat, seq<nat>>
      reads this`held
    {
      Shown(held)
    }

    /** The lists of other conditions do not share a node with this one. */
    lemma OthersApart(q: nat)
      requires Linked() && q in links
      ensures links.Keys == held.Keys && links[q].nodes == held[q] && IntrusiveList.Nodes(links[q]) <= Held()
      ensures links[q].Valid() && (held[q] != [] ==> links[q].head == held[q][0])
      ensures forall p :: p in links && p != q ==> links[p].Valid() && links[p] != links[q] && IntrusiveList.Nodes(links[p]) !! IntrusiveList.Nodes(links[q])
    {
      assert links[q].nodes == held[q];
      forall p | p in links && p != q ensures IntrusiveList.Nodes(links[p]) !! IntrusiveList.Nodes(links[q]) {
        assert links[p].nodes == held[p];
        Apart(links[p], links[q]);
      }
    }

    lemma LooseNode(x: Item)
      requires Linked() && x.pLink == null
      ensures x !in Held() && forall p :: p in links ==> x !in links[p].nodes
    {
      forall p | p in links ensures x !in links[p].nodes { assert links[p].nodes == held[p]; }
    }

    /** co_cond_alloc, for a condition that is used for the first time. */
    method Provide(q: nat)
      requires Linked()
      modifies this`links, this`held
      ensures Linked() && links.Keys == old(links.Keys) + {q} && fresh(Lists() - old(Lists()))
      ensures held == if q in old(held) then old(held) else old(held)[q := []]
    {
      hide NoDup, Link.Valid;
      if q !in links {
        var l := new Link();
        assert forall p :: p in links ==> links[p].Valid() && links[p].nodes == held[p] && links[p] != l;
        links, held := links[q := l], held[q := []];
      }
    }

    /** Only the list of `q` has changed. */
    twostate lemma StillLinked(q: nat)
      requires old(Linked()) && q in links && links == old(links) && held.Keys == old(held).Keys
      requires links[q].Valid() && links[q].nodes == held[q]
      requires forall p :: p in links && p != q ==> held[p] == old(held[p])
      requires forall p :: p in links && p != q ==> links[p].Valid() && links[p].nodes == old(links[p].nodes)
      ensures Linked()
    {
    }

    /** AddTail. */
    method Push(q: nat, x: Item)
      requires Linked() && q in links && x.Detached()
      modifies this`held, links[q], Held()`pNext, x`pPrev, x`pNext, x`pLink
      ensures Linked() && held == old(held)[q := old(held)[q] + [x]]
    {
      hide NoDup, Link.Valid, Linked;
      OthersApart(q);
      LooseNode(x);
      AddTail(links[q], x);
      held := held[q := held[q] + [x]];
      StillLinked(q);
    }

    /** PopHead. */
    method TakeHead(q: nat) returns (x: Item)
      requires Linked() && q in links && held[q] != []
      modifies this`held, links[q], Held()`pPrev, Held()`pNext, Held()`pLink
      ensures Linked() && x == old(held[q][0]) && x.Detached() && held == old(held)[q := old(held[q][1..])]
    {
      hide NoDup, Link.Valid, Linked;
      OthersApart(q);
      var l := links[q];
      x := l.head;
      PopHead(l);
      held := held[q := held[q][1..]];
      StillLinked(q);
    }

    lemma InQueue(q: nat, x: Item)
      requires Linked() && q in links && x in held[q]
      ensures x.pLink == links[q] && x in links[q].nodes && NoDup(held[q])
    {
      assert links[q].nodes == held[q];
    }

    /** RemoveFromLink. */
    method TakeOut(q: nat, x: Item)
      requires Linked() && q in links && x in held[q]
      modifies this`held, links[q], Held()`pPrev, Held()`pNext, Held()`pLink
      ensures Linked() && x.Detached() && held == old(held)[q := Without(old(held)[q], x)]
    {
      hide NoDup, Link.Valid, Sequences.Without, Linked;
      OthersApart(q);
      InQueue(q, x);
      RemoveFromLink(x);
      held := held[q := Without(held[q], x)];
      StillLinked(q);
    }

    // ----- the calls

    /** AddTail of a new node. */
    method Enqueue(q: nat, id: nat)
      requires Valid() && id !in nodes
      modifies this, Lists(), Nodes()
      ensures Valid() && View() == old(View())[q := Queue(old(View()), q) + [id]]
      ensures nodes.Keys == old(nodes.Keys) + {id} && links.Keys == old(links.Keys) + {q}
      ensures fresh(Lists() - old(Lists())) && fresh(Nodes() - old(Nodes()))
    {
      hide Valid, Shown;
      Use(q);
      var x := NewNode(id);
      Append(q, x);
    }

    /** The list of a condition. */
    method Use(q: nat)
      requires Valid()
      modifies this`links, this`held
      ensures Valid() && links.Keys == old(links.Keys) + {q} && fresh(Lists() - old(Lists()))
      ensures View() == old(View())[q := Queue(old(View()), q)]
    {
      ghost var h := held;
      hide Linked;
      if q !in h { Provided(h, nodes, q); } else { assert Shown(h)[q := Shown(h)[q]] == Shown(h); }
      Provide(q);
      hide Kept, Inside, Shown;
    }

    /** A new stCoCondItem_t. */
    method NewNode(id: nat) returns (x: Item)
      requires Valid()
      ensures Valid() && fresh(x) && x.Detached() && x.id == id
    {
      x := new Item(0, id);
    }

    /** Where the nodes of a list are. */
    lemma HeldNodes(q: nat)
      requires Linked() && Kept(held, nodes) && q in links
      ensures links[q] in Lists() && IntrusiveList.Nodes(links[q]) <= Held() <= Nodes() && links.Keys == held.Keys
    {
      assert links[q].nodes == held[q];
      forall x | x in Held() ensures x in Nodes() { assert nodes[x.id] == x; }
    }

    /** Nodes that were in no list are as they were. */
    twostate lemma StillLoose(x: Item)
      requires old(Loose()) && nodes == old(nodes) && old(Held()) <= Held() + {x} && (x in Held() || x.Detached())
      requires forall y :: y in Nodes() && y !in old(Held()) && old(y.Detached()) ==> y.Detached()
      ensures Loose()
    {
    }

    /** AddTail to the list of a condition. */
    method PushKept(q: nat, x: Item)
      requires Linked() && Kept(held, nodes) && Loose() && q in links && x.id !in nodes && x.Detached() && x !in Nodes()
      modifies this`held, Lists(), Nodes(), x
      ensures Linked() && Loose() && held == old(held)[q := old(held)[q] + [x]] && Held() == old(Held()) + {x}
    {
      hide Linked, Kept, Inside, Loose;
      HeldNodes(q);
      Pushed(held, nodes, q, x);
      Push(q, x);
      StillLoose(x);
    }

    method Append(q: nat, x: Item)
      requires Valid() && q in links && x.id !in nodes && x.Detached() && x !in Nodes()
      modifies this`nodes, this`held, Lists(), Nodes(), x
      ensures Valid() && View() == old(View())[q := old(View())[q] + [x.id]] && nodes == old(nodes)[x.id := x] && links == old(links)
    {
      hide Linked, Kept, Inside, Shown;
      HeldNodes(q);
      Pushed(held, nodes, q, x);
      PushKept(q, x);
      nodes := nodes[x.id := x];
    }

    method PopKept(q: nat) returns (x: Item)
      requires Linked() && Kept(held, nodes) && Loose() && q in links && q in held && held[q] != []
      modifies this`held, Lists(), Nodes()
      ensures Linked() && Loose() && x == old(held[q][0]) && held == old(held)[q := old(held[q][1..])]
    {
      hide Linked, Kept, Inside, Loose;
      HeldNodes(q);
      Popped(held, nodes, q);
      x := TakeHead(q);
      StillLoose(x);
    }

    /** co_cond_pop. */
    method Pop(q: nat) returns (id: nat)
      requires Valid() && q in links && View()[q] != []
      modifies this`held, Lists(), Nodes()
      ensures Valid() && id == old(View()[q][0]) && View() == old(View())[q := old(View()[q][1..])]
    {
      hide Linked, Kept, Inside, Loose;
      HeldNodes(q);
      Popped(held, nodes, q);
      hide Shown;
      var x := PopKept(q);
      id := x.id;
    }

    /** A node that is not free is in its queue, and in no other. */
    lemma WhereNodeIs(q: nat, id: nat)
      requires Valid() && q in links && id in nodes && forall p :: p in links && id in View()[p] ==> p == q
      ensures q in held && (nodes[id].pLink != null ==> nodes[id] in held[q])
      ensures nodes[id].pLink == null ==> nodes[id] !in held[q] && NoDup(held[q])
      ensures nodes[id] in held[q] ==> NoDup(held[q])
    {
      assert links[q].nodes == held[q];
      var x := nodes[id];
      if x.pLink != null {
        assert x in Held();
        var p :| p in held && x in held[p];
        ShownHas(held, p, x);
      } else {
        LooseNode(x);
      }
    }

    /** Whether co_cond_pop finds anything. */
    lemma HeadIs(q: nat)
      requires Valid() && q in links
      ensures q in View() && (links[q].head == null <==> View()[q] == [])
    {
      assert links[q].nodes == held[q];
    }

    /** co_cond_pop, for any condition. */
    method PopIfAny(q: nat) returns (id: Option<nat>)
      requires Valid()
      modifies this`held, Lists(), Nodes()
      ensures Valid() && links == old(links) && nodes == old(nodes)
      ensures if Queue(old(View()), q) == [] then id == None && View() == old(View())
              else id == Some(old(View())[q][0]) && View() == old(View())[q := old(View())[q][1..]]
    {
      hide Valid, View, Lists, Nodes, Held;
      id := None;
      SameConditions();
      if q in links {
        HeadIs(q);
        if links[q].head != null {
          var i := Pop(q);
          id := Some(i);
        }
      }
    }

    lemma SameConditions()
      requires Valid()
      ensures links.Keys == View().Keys && Held() <= Nodes()
    {
      forall x | x in Held() ensures x in Nodes() { assert nodes[x.id] == x; }
    }

    /** RemoveFromLink of the node of a wait. */
    method Unhook(q: nat, id: nat)
      requires Valid() && q in links && id in nodes && forall p :: p in links && id in View()[p] ==> p == q
      modifies this`held, Lists(), Nodes()
      ensures Linked() && Loose() && q in old(held) && held == old(held)[q := Without(old(held)[q], nodes[id])]
      ensures NoDup(old(held)[q])
    {
      hide Kept, Inside, Shown, Loose, Linked, NoDup, Sequences.Without;
      HeldNodes(q);
      WhereNodeIs(q, id);
      Removed(held, nodes, q, id);
      var x := nodes[id];
      if x.pLink != null {
        TakeOut(q, x);
        StillLoose(x);
      } else {
        WithoutAbsent(held[q], x);
        assert held[q := held[q]] == held;
      }
    }

    /** The end of co_cond_timedwait: RemoveFromLink, and the memory of the node is given back. */
    method Remove(q: nat, id: nat)
      requires Valid() && q in links && id in nodes && forall p :: p in links && id in View()[p] ==> p == q
      modifies this`nodes, this`held, Lists(), Nodes()
      ensures Valid() && View() == old(View())[q := Without(old(View())[q], id)] && nodes == old(nodes) - {id}
    {
      hide Kept, Inside, Shown, Linked, NoDup, Loose;
      HeldNodes(q);
      Removed(held, nodes, q, id);
      Unhook(q, id);
      Discard(id);
    }

    method Discard(id: nat)
      requires Linked() && Loose()
      modifies this`nodes
      ensures Linked() && Loose() && nodes == old(nodes) - {id} && held == old(held)
    {
      nodes := nodes - {id};
    }
  }
}
