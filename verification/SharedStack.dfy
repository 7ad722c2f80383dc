/** Shared stacks (co_swap and save_stack_buffer of libco/co_routine.cpp): coroutines that take
    turns on one stack memory, saving and restoring its bytes, see what they would see if each
    had a stack of its own. */
module SharedStack {
  import opened Sequences

  type byte = bv8

  const MAX_DEPTH := 128

  // ----- the specification: every coroutine has a private stack

  /** What the thread does next. `Work` is any computation of the running coroutine: it ends with
      `live` on its stack and with arbitrary bytes `below` the stack pointer. */
  datatype Op = Resume(c: nat) | Yield | Work(below: seq<byte>, live: seq<byte>)

  /** `calls` is the call stack, `mem[c]` the live stack of coroutine `c`. */
  datatype Private = Private(calls: seq<nat>, mem: seq<seq<byte>>)

  ghost predicate WellFormed(p: Private) {
    && 0 < |p.calls| <= MAX_DEPTH && NoDup(p.calls)
    && forall k :: 0 <= k < |p.calls| ==> p.calls[k] < |p.mem|
  }

  function Running(p: Private): nat
    requires p.calls != []
  {
    p.calls[|p.calls| - 1]
  }

  /** A resume needs a coroutine that is not already on the call stack, a yield someone to go
      back to, and a computation must fit in the stack memory. */
  ghost predicate Legal(p: Private, op: Op, sizes: seq<nat>) {
    WellFormed(p) && |sizes| == |p.mem| &&
    match op
    case Resume(c) => c < |p.mem| && c !in p.calls && |p.calls| < MAX_DEPTH
    case Yield => |p.calls| >= 2
    case Work(below, live) => |below| + |live| == sizes[Running(p)]
  }

  ghost function Step(p: Private, op: Op, sizes: seq<nat>): (q: Private)
    requires Legal(p, op, sizes)
    ensures WellFormed(q) && |q.mem| == |p.mem|
  {
    match op
    case Resume(c) => p.(calls := p.calls + [c])
    case Yield => p.(calls := p.calls[..|p.calls| - 1])
    case Work(_, live) => p.(mem := p.mem[Running(p) := live])
  }

  lemma YieldStep(p: Private, sizes: seq<nat>)
    requires Legal(p, Yield, sizes)
    ensures var q, n := Step(p, Yield, sizes), |p.calls|;
      && WellFormed(q) && q.mem == p.mem && |q.calls| == n - 1 >= 1 && q.calls == p.calls[..n - 1]
      && (forall k :: 0 <= k < n - 1 ==> q.calls[k] == p.calls[k])
      && Running(q) == p.calls[n - 2] != p.calls[n - 1] == Running(p)
      && p.calls[n - 2] < |p.mem| && p.calls[n - 1] < |p.mem|
  {
  }

  lemma ResumeStep(p: Private, c: nat, sizes: seq<nat>)
    requires Legal(p, Resume(c), sizes)
    ensures var q, n := Step(p, Resume(c), sizes), |p.calls|;
      && n >= 1 && WellFormed(q) && q.mem == p.mem && |q.calls| == n + 1 && q.calls == p.calls + [c]
      && (forall k :: 0 <= k < n ==> q.calls[k] == p.calls[k]) && q.calls[n] == c
      && Running(q) == c != p.calls[n - 1] == Running(p)
      && c < |p.mem| && p.calls[n - 1] < |p.mem|
  {
  }

  ghost predicate LegalRun(p: Private, ops: seq<Op>, sizes: seq<nat>)
    decreases |ops|
  {
    ops == [] || (Legal(p, ops[0], sizes) && LegalRun(Step(p, ops[0], sizes), ops[1..], sizes))
  }

  /** The stack the running coroutine sees after each step. */
  ghost function Seen(p: Private, ops: seq<Op>, sizes: seq<nat>): seq<seq<byte>>
    requires LegalRun(p, ops, sizes)
    decreases |ops|
  {
    if ops == [] then []
    else
      var q := Step(p, ops[0], sizes);
      [q.mem[Running(q)]] + Seen(q, ops[1..], sizes)
  }

  /** Private stacks: a coroutine's live stack changes only by what it computes itself, so it finds
      on being resumed what it left on giving up control. */
  lemma {:induction false} FindsWhatItLeft(p: Private, ops: seq<Op>, sizes: seq<nat>, c: nat)
    requires LegalRun(p, ops, sizes) && c < |p.mem| && NeverComputes(p, ops, sizes, c)
    ensures c < |EndOf(p, ops, sizes).mem| && EndOf(p, ops, sizes).mem[c] == p.mem[c]
    decreases |ops|
  {
    if ops != [] { FindsWhatItLeft(Step(p, ops[0], sizes), ops[1..], sizes, c); }
  }

  ghost predicate NeverComputes(p: Private, ops: seq<Op>, sizes: seq<nat>, c: nat)
    requires LegalRun(p, ops, sizes)
    decreases |ops|
  {
    ops == [] || ((ops[0].Work? ==> Running(p) != c) && NeverComputes(Step(p, ops[0], sizes), ops[1..], sizes, c))
  }

  ghost function EndOf(p: Private, ops: seq<Op>, sizes: seq<nat>): Private
    requires LegalRun(p, ops, sizes)
    decreases |ops|
  {
    if ops == [] then p else EndOf(Step(p, ops[0], sizes), ops[1..], sizes)
  }

  /** Whatever happens afterwards, a coroutine finds the stack that its last computation left. */
  lemma FindsLastWork(p: Private, below: seq<byte>, live: seq<byte>, ops: seq<Op>, sizes: seq<nat>)
    requires LegalRun(p, [Work(below, live)] + ops, sizes)
    requires NeverComputes(Step(p, Work(below, live), sizes), ops, sizes, Running(p))
    ensures var q := EndOf(p, [Work(below, live)] + ops, sizes);
      Running(p) < |q.mem| && q.mem[Running(p)] == live
  {
    assert ([Work(below, live)] + ops)[1..] == ops;
    FindsWhatItLeft(Step(p, Work(below, live), sizes), ops, sizes, Running(p));
  }

  ghost predicate StaysAbove(p: Private, ops: seq<Op>, sizes: seq<nat>, depth: nat)
    requires LegalRun(p, ops, sizes)
    decreases |ops|
  {
    |p.calls| >= depth && (ops == [] || StaysAbove(Step(p, ops[0], sizes), ops[1..], sizes, depth))
  }

  lemma {:induction false} BelowStays(p: Private, ops: seq<Op>, sizes: seq<nat>, depth: nat)
    requires LegalRun(p, ops, sizes) && StaysAbove(p, ops, sizes, depth)
    ensures |EndOf(p, ops, sizes).calls| >= depth && EndOf(p, ops, sizes).calls[..depth] == p.calls[..depth]
    decreases |ops|
  {
    if ops != [] { BelowStays(Step(p, ops[0], sizes), ops[1..], sizes, depth); }
  }

  /** A resume runs the coroutine named, with the stack it has. However it and those above it
      resume and yield, the one that resumed it runs next when they have all yielded, and the rest
      of the call stack is as it was. */
  lemma ControlComesBack(p: Private, c: nat, ops: seq<Op>, sizes: seq<nat>)
    requires LegalRun(p, [Resume(c)] + ops, sizes)
    requires StaysAbove(Step(p, Resume(c), sizes), ops, sizes, |p.calls|)
    ensures Running(Step(p, Resume(c), sizes)) == c
    ensures var q := EndOf(p, [Resume(c)] + ops, sizes);
      |q.calls| == |p.calls| ==> q.calls == p.calls && Running(q) == Running(p)
  {
    var r := Step(p, Resume(c), sizes);
    assert ([Resume(c)] + ops)[1..] == ops;
    BelowStays(r, ops, sizes, |p.calls|);
    var q := EndOf(r, ops, sizes);
    assert |q.calls| == |p.calls| ==> q.calls == q.calls[..|p.calls|];
  }

  lemma SeenNothing(p: Private, ops: seq<Op>, sizes: seq<nat>, seen: seq<seq<byte>>)
    requires LegalRun(p, ops[|ops|..], sizes)
    ensures seen + Seen(p, ops[|ops|..], sizes) == seen
  {
  }

  lemma SeenNext(p: Private, ops: seq<Op>, i: nat, sizes: seq<nat>, seen: seq<seq<byte>>)
    requires i < |ops| && LegalRun(p, ops[i..], sizes)
    ensures Legal(p, ops[i], sizes)
    ensures var q := Step(p, ops[i], sizes);
      && LegalRun(q, ops[i + 1..], sizes)
      && seen + Seen(p, ops[i..], sizes) == seen + [q.mem[Running(q)]] + Seen(q, ops[i + 1..], sizes)
  {
    assert ops[i..][0] == ops[i] && ops[i..][1..] == ops[i + 1..];
  }

  // ----- the implementation

  class StackMem {
    const buffer: array<byte>
    var occupyCo: Coroutine?

    constructor (size: nat)
      ensures occupyCo == null && buffer.Length == size && fresh(buffer)
    {
      buffer := new byte[size];
      occupyCo := null;
    }
  }

  class Coroutine {
    const stackMem: StackMem
    const cIsShareStack: bool
    var cStart: bool
    var ctxSp: nat     // the stack pointer in coctx_t
    var inSwap: bool   // the program counter in coctx_t: inside co_swap, or at the first instruction
    var stackSp: nat
    var saveBuffer: seq<byte>

    constructor (stackMem: StackMem, share: bool)
      ensures this.stackMem == stackMem && cIsShareStack == share
      ensures !cStart && !inSwap && saveBuffer == []
    {
      this.stackMem, cIsShareStack := stackMem, share;
      cStart, inSwap, ctxSp, stackSp, saveBuffer := false, false, 0, 0, [];
    }
  }

  class Env {
    const cos: seq<Coroutine>
    var pCallStack: seq<Coroutine>
    var pendingCo: Coroutine?
    var occupyCo: Coroutine?
    var cpuSp: nat  // the stack pointer register

    /** A thread in its main coroutine, `cos[0]`, with all others created but not started. */
    constructor (cos: seq<Coroutine>)
      requires cos != [] && NoDup(cos) && !cos[0].cIsShareStack
      requires forall i, j :: 0 <= i < j < |cos| && cos[i].stackMem == cos[j].stackMem ==> cos[i].cIsShareStack && cos[j].cIsShareStack
      requires forall i, j :: 0 <= i < j < |cos| && cos[i].stackMem != cos[j].stackMem ==> cos[i].stackMem.buffer != cos[j].stackMem.buffer
      requires forall i {:trigger cos[i]} :: 0 <= i < |cos| ==>
                 !cos[i].cStart && !cos[i].inSwap && cos[i].saveBuffer == [] && cos[i].stackMem.occupyCo == null
      modifies {cos[0]}`cStart
      ensures this.cos == cos && Valid(Private([0], seq(|cos|, _ => [])))
    {
      this.cos := cos;
      pCallStack := [cos[0]];
      pendingCo, occupyCo := null, null;
      cpuSp := cos[0].stackMem.buffer.Length;
      new;
      cos[0].cStart := true;
      ghost var mem: seq<seq<byte>> := seq(|cos|, _ => []);
      assert forall i {:trigger mem[i]} :: 0 <= i < |cos| ==> cos[i] == cos[i];
      assert Holds(mem, 0);
    }

    ghost function Mems(): set<StackMem> {
      set c | c in cos :: c.stackMem
    }

    ghost function Buffers(): set<array<byte>> {
      set c | c in cos :: c.stackMem.buffer
    }

    /** Different coroutines share a stack memory only in shared-stack mode, and different stack
        memories do not overlap. */
    ghost predicate Layout() {
      && (forall i, j :: 0 <= i < j < |cos| && cos[i].stackMem == cos[j].stackMem ==> cos[i].cIsShareStack && cos[j].cIsShareStack)
      && (forall i, j :: 0 <= i < j < |cos| && cos[i].stackMem != cos[j].stackMem ==> cos[i].stackMem.buffer != cos[j].stackMem.buffer)
    }

    /** Where the live stack `bytes` of a coroutine that is not running is kept. One that has never
        run (`!entered`) has an empty stack. */
    ghost predicate Stored(c: Coroutine, bytes: seq<byte>, entered: bool)
      reads c, c.stackMem, c.stackMem.buffer
    {
      var m := c.stackMem;
      if !entered then bytes == [] && c.saveBuffer == [] && m.occupyCo != c
      else
        && c.stackSp <= m.buffer.Length
        && if !c.cIsShareStack || m.occupyCo == c then m.buffer[c.stackSp..] == bytes
           else m.occupyCo != null && c.saveBuffer == bytes && |bytes| == m.buffer.Length - c.stackSp
    }

    /** The saved context of a coroutine that is not running. */
    ghost predicate Context(c: Coroutine)
      reads c
    {
      if c.inSwap then c.cStart && c.ctxSp == c.stackSp
      else c.cStart ==> c.ctxSp == c.stackMem.buffer.Length
    }

    ghost predicate Kept(c: Coroutine, bytes: seq<byte>)
      reads c, c.stackMem, c.stackMem.buffer
    {
      Stored(c, bytes, c.inSwap) && Context(c)
    }

    /** Whoever occupies a stack memory uses it, in shared-stack mode. */
    ghost predicate Occupied()
      reads Mems()
    {
      && (forall i {:trigger cos[i]} :: 0 <= i < |cos| ==> cos[i].stackMem in Mems())
      && forall i {:trigger cos[i].stackMem.occupyCo} :: 0 <= i < |cos| && cos[i].stackMem.occupyCo != null ==>
           var o: Coroutine := cos[i].stackMem.occupyCo;
           o in cos && o.stackMem == cos[i].stackMem && o.cIsShareStack
    }

    ghost predicate Framed() {
      forall i {:trigger cos[i]} :: 0 <= i < |cos| ==>
        cos[i].stackMem in Mems() && cos[i].stackMem.buffer in Buffers()
    }

    /** Coroutine `r` is running and all live stacks are `mem`. */
    ghost predicate Holds(mem: seq<seq<byte>>, r: nat)
      reads this`cpuSp, cos, Mems(), Buffers()
    {
      && NoDup(cos) && Layout() && Framed() && Occupied() && |mem| == |cos| && r < |cos|
      && (forall i {:trigger mem[i]} :: 0 <= i < |cos| && i != r ==> Kept(cos[i], mem[i]))
      && RunsOn(cos[r], mem[r])
    }

    ghost predicate RunsOn(c: Coroutine, bytes: seq<byte>)
      reads this`cpuSp, c, c.stackMem, c.stackMem.buffer
    {
      && c.cStart && cpuSp <= c.stackMem.buffer.Length && c.stackMem.buffer[cpuSp..] == bytes
      && (c.cIsShareStack ==> c.stackMem.occupyCo == c)
    }

    /** Where the live stack of the coroutine about to run is kept: its stack memory is its own
        already, but may still hold the bytes of the one that had it before. */
    ghost predicate Claimed(c: Coroutine, bytes: seq<byte>)
      reads this`pendingCo, this`occupyCo, c, c.stackMem, c.stackMem.buffer
    {
      var b := c.stackMem.buffer;
      && (if c.cIsShareStack then c.stackMem.occupyCo == c && pendingCo == c else pendingCo == null)
      && if !c.inSwap then bytes == []
         else
           && c.stackSp <= b.Length
           && if !c.cIsShareStack || occupyCo == c then b[c.stackSp..] == bytes
              else occupyCo != null && c.saveBuffer == bytes && |bytes| == b.Length - c.stackSp
    }

    ghost function IndexOf(c: Coroutine): (i: nat)
      ensures c in cos ==> i < |cos| && cos[i] == c
    {
      if c in cos then var i :| 0 <= i < |cos| && cos[i] == c; i else 0
    }

    /** The moment between leaving one coroutine and entering `t`: everybody is suspended. */
    ghost predicate Between(mem: seq<seq<byte>>, t: nat)
      reads this`pendingCo, this`occupyCo, cos, Mems(), Buffers()
    {
      && NoDup(cos) && Layout() && Framed() && Occupied() && |mem| == |cos| && t < |cos|
      && (forall i {:trigger mem[i]} :: 0 <= i < |cos| && i != t ==> Kept(cos[i], mem[i]))
      && Claimed(cos[t], mem[t]) && Context(cos[t]) && cos[t].cStart
    }

    /** save_stack_buffer. */
    method SaveStackBuffer(o: Coroutine)
      requires o.stackSp <= o.stackMem.buffer.Length
      modifies o`saveBuffer
      ensures o.saveBuffer == o.stackMem.buffer[o.stackSp..]
    {
      o.saveBuffer := o.stackMem.buffer[o.stackSp..];
    }

    /** co_swap, before it switches: `pending` claims its stack memory, and what the former
        occupant has there is saved. Coroutine `r` is the one being left. */
    method Claim(pending: Coroutine, ghost mem: seq<seq<byte>>, ghost r: nat, ghost t: nat)
      requires NoDup(cos) && Layout() && Framed() && Occupied() && |mem| == |cos| && t < |cos| && pending == cos[t]
      requires forall i {:trigger mem[i]} :: 0 <= i < |cos| ==> Stored(cos[i], mem[i], i == r || cos[i].inSwap)
      requires r != t
      modifies this`pendingCo, this`occupyCo, pending.stackMem`occupyCo, cos`saveBuffer
      ensures Occupied()
      ensures forall i {:trigger mem[i]} :: 0 <= i < |cos| && i != t ==> Stored(cos[i], mem[i], i == r || cos[i].inSwap)
      ensures Claimed(cos[t], mem[t])
    {
      hide Layout, Framed;
      if !pending.cIsShareStack {
        pendingCo, occupyCo := null, null;
      } else {
        pendingCo := pending;
        var occupant := pending.stackMem.occupyCo;
        ghost var j := if occupant == null then t else IndexOf(occupant);
        assert Stored(cos[j], mem[j], j == r || cos[j].inSwap);
        forall i | 0 <= i < |cos| && i != j ensures cos[i] != occupant && mem[i] == mem[i] {}
        pending.stackMem.occupyCo := pending;
        occupyCo := occupant;
        if occupant != null && occupant != pending {
          SaveStackBuffer(occupant);
        }
      }
    }

    /** coctx_swap: the registers go to the context of `curr` and come from that of `pending`. */
    method CoctxSwap(curr: Coroutine, pending: Coroutine, ghost mem: seq<seq<byte>>, ghost r: nat, ghost t: nat)
      requires NoDup(cos) && Layout() && Framed() && Occupied() && |mem| == |cos| && t < |cos| && r < |cos| && r != t
      requires curr == cos[r] && pending == cos[t] && curr.stackSp == cpuSp && curr.cStart
      requires forall i {:trigger mem[i]} :: 0 <= i < |cos| && i != t ==> Stored(cos[i], mem[i], i == r || cos[i].inSwap)
      requires forall i {:trigger mem[i]} :: 0 <= i < |cos| && i != r ==> Context(cos[i])
      requires Claimed(cos[t], mem[t]) && pending.cStart
      modifies this`cpuSp, curr`ctxSp, curr`inSwap
      ensures Between(mem, t) && cpuSp == pending.ctxSp
    {
      hide Layout, Framed;
      forall i | 0 <= i < |cos| && i != r ensures cos[i] != curr {}
      curr.ctxSp, curr.inSwap := cpuSp, true;
      cpuSp := pending.ctxSp;
    }

    /** co_swap up to and including coctx_swap. */
    method SwapOut(curr: Coroutine, pending: Coroutine, ghost mem: seq<seq<byte>>, ghost r: nat, ghost t: nat)
      requires Holds(mem, r) && t < |cos| && r != t && curr == cos[r] && pending == cos[t] && pending.cStart
      modifies this`pendingCo, this`occupyCo, this`cpuSp, pending.stackMem`occupyCo
      modifies curr`stackSp, curr`ctxSp, curr`inSwap, cos`saveBuffer
      ensures Between(mem, t) && cpuSp == pending.ctxSp
    {
      hide Layout, Framed;
      forall i | 0 <= i < |cos| && i != r ensures cos[i] != curr && mem[i] == mem[i] {}
      curr.stackSp := cpuSp;
      Claim(pending, mem, r, t);
      CoctxSwap(curr, pending, mem, r, t);
    }

    /** What a coroutine does on returning from coctx_swap. */
    method SwapIn(pending: Coroutine, ghost mem: seq<seq<byte>>, ghost t: nat)
      requires Between(mem, t) && pending == cos[t] && cpuSp == pending.ctxSp
      modifies pending.stackMem.buffer
      ensures Holds(mem, t)
    {
      if pending.inSwap {
        if occupyCo != null && pendingCo != null && occupyCo != pendingCo {
          if |pendingCo.saveBuffer| > 0 {
            var b, sp, saved := pendingCo.stackMem.buffer, pendingCo.stackSp, pendingCo.saveBuffer;
            forall k | 0 <= k < |saved| { b[sp + k] := saved[k]; }
          }
        }
      }
    }

    method CoSwap(curr: Coroutine, pending: Coroutine, ghost mem: seq<seq<byte>>, ghost r: nat, ghost t: nat)
      requires Holds(mem, r) && t < |cos| && r != t && curr == cos[r] && pending == cos[t] && pending.cStart
      modifies this`pendingCo, this`occupyCo, this`cpuSp, pending.stackMem`occupyCo, pending.stackMem.buffer
      modifies curr`stackSp, curr`ctxSp, curr`inSwap, cos`saveBuffer
      ensures Holds(mem, t)
    {
      SwapOut(curr, pending, mem, r, t);
      SwapIn(pending, mem, t);
    }

    // ----- the call stack

    ghost function Sizes(): seq<nat> {
      seq(|cos|, i requires 0 <= i < |cos| => cos[i].stackMem.buffer.Length)
    }

    /** The thread is where the specification says: same call stack, same live stacks. */
    ghost predicate Valid(p: Private)
      reads this, cos, Mems(), Buffers()
    {
      WellFormed(p) && Holds(p.mem, Running(p)) && Calls(p.calls)
    }

    /** pCallStack is the call stack, of coroutines that have been started. */
    ghost predicate Calls(calls: seq<nat>)
      reads this`pCallStack, cos`cStart
    {
      && |pCallStack| == |calls|
      && (forall k {:trigger calls[k]} :: 0 <= k < |calls| ==>
            calls[k] < |cos| && pCallStack[k] == cos[calls[k]] && (assert cos[calls[k]] in cos; cos[calls[k]].cStart))
    }

    /** coctx_make: a coroutine that is started for the first time begins with an empty stack. */
    method CoctxMake(co: Coroutine, ghost mem: seq<seq<byte>>, ghost r: nat, ghost c: nat)
      requires Holds(mem, r) && c < |cos| && c != r && co == cos[c]
      modifies co`ctxSp, co`cStart
      ensures Holds(mem, r) && co.cStart
      ensures forall x :: x in cos && old(x.cStart) ==> x.cStart
    {
      hide Layout, Framed;
      assert Kept(co, mem[c]) by { assert mem[c] == mem[c]; }
      forall i | 0 <= i < |cos| && i != c ensures cos[i] != co && mem[i] == mem[i] {}
      if !co.cStart {
        co.ctxSp := co.stackMem.buffer.Length;
        co.cStart := true;
      }
    }

    twostate lemma StillCalls(calls: seq<nat>)
      requires old(Calls(calls)) && pCallStack == old(pCallStack)
      requires forall x :: x in cos && old(x.cStart) ==> x.cStart
      ensures Calls(calls)
    {
      forall k | 0 <= k < |calls| ensures cos[calls[k]].cStart { assert cos[calls[k]] in cos; }
    }

    /** Puts a started coroutine on the call stack. */
    method PushCall(co: Coroutine, ghost calls: seq<nat>, ghost c: nat)
      requires Calls(calls) && c < |cos| && co == cos[c] && co.cStart
      modifies this`pCallStack
      ensures Calls(calls + [c])
    {
      pCallStack := pCallStack + [co];
    }

    /** co_resume up to the swap. */
    method Enter(co: Coroutine, ghost mem: seq<seq<byte>>, ghost r: nat, ghost calls: seq<nat>, ghost c: nat)
      requires Holds(mem, r) && Calls(calls) && c < |cos| && c != r && co == cos[c]
      modifies this`pCallStack, co`ctxSp, co`cStart
      ensures Holds(mem, r) && Calls(calls + [c]) && co.cStart
    {
      hide Calls;
      CoctxMake(co, mem, r, c);
      StillCalls(calls);
      PushCall(co, calls, c);
    }

    /** co_resume. */
    method CoResume(co: Coroutine, ghost p: Private, ghost c: nat)
      requires Valid(p) && Legal(p, Resume(c), Sizes()) && co == cos[c]
      modifies this`pendingCo, this`occupyCo, this`cpuSp, this`pCallStack
      modifies cos`cStart, cos`ctxSp, cos`inSwap, cos`stackSp, cos`saveBuffer, Mems()`occupyCo, Buffers()
      ensures Valid(Step(p, Resume(c), Sizes()))
    {
      InBounds(p);
      ResumeStep(p, c, Sizes());
      var curr := pCallStack[|pCallStack| - 1];
      assert curr == cos[Running(p)];
      hide Holds, Step, Legal, WellFormed, NoDup, Calls;
      Enter(co, p.mem, Running(p), p.calls, c);
      CoSwap(curr, co, p.mem, Running(p), c);
    }

    lemma InBounds(p: Private)
      requires Valid(p)
      ensures |p.mem| == |cos|
      ensures forall i {:trigger cos[i]} :: 0 <= i < |cos| ==> cos[i].stackMem in Mems() && cos[i].stackMem.buffer in Buffers()
      ensures NoDup(cos)
    {
    }

    /** Takes the running coroutine off the call stack. */
    method PopCall(ghost calls: seq<nat>)
      requires Calls(calls) && calls != []
      modifies this`pCallStack
      ensures Calls(calls[..|calls| - 1])
    {
      pCallStack := pCallStack[..|pCallStack| - 1];
    }

    /** co_yield_env. */
    method CoYield(ghost p: Private)
      requires Valid(p) && Legal(p, Yield, Sizes())
      modifies this`pendingCo, this`occupyCo, this`cpuSp, this`pCallStack
      modifies cos`cStart, cos`ctxSp, cos`inSwap, cos`stackSp, cos`saveBuffer, Mems()`occupyCo, Buffers()
      ensures Valid(Step(p, Yield, Sizes()))
    {
      InBounds(p);
      YieldStep(p, Sizes());
      var last := pCallStack[|pCallStack| - 2];
      var curr := pCallStack[|pCallStack| - 1];
      assert curr == cos[Running(p)] && last == cos[p.calls[|p.calls| - 2]] && last.cStart;
      hide Holds, Step, Legal, WellFormed, NoDup;
      PopCall(p.calls);
      hide Calls;
      CoSwap(curr, last, p.mem, Running(p), p.calls[|p.calls| - 2]);
    }

    /** Any computation of the running coroutine: it may overwrite all of its stack memory. */
    method Compute(co: Coroutine, below: seq<byte>, live: seq<byte>, ghost mem: seq<seq<byte>>, ghost r: nat)
      requires Holds(mem, r) && co == cos[r] && |below| + |live| == co.stackMem.buffer.Length
      modifies this`cpuSp, co.stackMem.buffer
      ensures Holds(mem[r := live], r)
    {
      var b, image := co.stackMem.buffer, below + live;
      forall k | 0 <= k < b.Length { b[k] := image[k]; }
      cpuSp := |below|;
      assert b[..] == image;
      ghost var mem' := mem[r := live];
      forall i {:trigger mem'[i]} | 0 <= i < |cos| && i != r ensures Kept(cos[i], mem'[i]) {
        assert mem'[i] == mem[i] && old(Kept(cos[i], mem[i]));
      }
    }

    /** What the running coroutine finds on its stack. */
    method See(ghost p: Private) returns (live: seq<byte>)
      requires Valid(p)
      ensures live == p.mem[Running(p)]
    {
      var co := pCallStack[|pCallStack| - 1];
      assert co == cos[Running(p)];
      live := co.stackMem.buffer[cpuSp..];
    }

    /** One step of a script. */
    method DoOp(op: Op, ghost p: Private)
      requires Valid(p) && Legal(p, op, Sizes())
      modifies this`pendingCo, this`occupyCo, this`cpuSp, this`pCallStack
      modifies cos`cStart, cos`ctxSp, cos`inSwap, cos`stackSp, cos`saveBuffer, Mems()`occupyCo, Buffers()
      ensures Valid(Step(p, op, Sizes()))
    {
      match op
      case Resume(c) => InBounds(p); CoResume(cos[c], p, c);
      case Yield => CoYield(p);
      case Work(below, live) => DoWork(below, live, p);
    }

    method DoWork(below: seq<byte>, live: seq<byte>, ghost p: Private)
      requires Valid(p) && Legal(p, Work(below, live), Sizes())
      modifies this`cpuSp, Buffers()
      ensures Valid(Step(p, Work(below, live), Sizes()))
    {
      InBounds(p);
      hide Holds;
      var co := pCallStack[|pCallStack| - 1];
      assert co == cos[Running(p)] by { assert p.calls[|p.calls| - 1] == Running(p); }
      Compute(co, below, live, p.mem, Running(p));
    }

    /** Runs a script and reports, after each step, the live stack the running coroutine sees. */
    method Execute(ops: seq<Op>, ghost p0: Private) returns (seen: seq<seq<byte>>)
      requires Valid(p0) && LegalRun(p0, ops, Sizes())
      modifies this`pendingCo, this`occupyCo, this`cpuSp, this`pCallStack
      modifies cos`cStart, cos`ctxSp, cos`inSwap, cos`stackSp, cos`saveBuffer, Mems()`occupyCo, Buffers()
      ensures seen == Seen(p0, ops, Sizes())
    {
      hide Valid, Step, Legal, LegalRun, Seen, WellFormed;
      seen := [];
      ghost var p := p0;
      ghost var sizes := Sizes();
      assert ops[0..] == ops && [] + Seen(p, ops, sizes) == Seen(p, ops, sizes);
      for i := 0 to |ops|
        invariant Valid(p) && LegalRun(p, ops[i..], sizes)
        invariant seen + Seen(p, ops[i..], sizes) == Seen(p0, ops, sizes)
      {
        SeenNext(p, ops, i, sizes, seen);
        DoOp(ops[i], p);
        p := Step(p, ops[i], sizes);
        var live := See(p);
        seen := seen + [live];
      }
      SeenNothing(p, ops, sizes, seen);
    }
  }
}
