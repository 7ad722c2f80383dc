/** The hooked write and send of libco/co_hook_sys_call.cpp, which are the same loop around two
    system calls, against a kernel that may accept any part of what it is offered or refuse. */
module HookedWrite {

  /** The file descriptor as the kernel sees it: what it has accepted, and what it has answered. */
  class Kernel {
    ghost var accepted: seq<bv8>
    ghost var results: seq<int>

    /** The system's write. */
    method SysWrite(bytes: seq<bv8>) returns (ret: int)
      modifies this
      ensures ret <= |bytes|
      ensures results == old(results) + [ret]
      ensures accepted == old(accepted) + if ret > 0 then bytes[..ret] else []
    {
      ret := *;
      if ret > |bytes| { ret := |bytes|; }
      results := results + [ret];
      if ret > 0 { accepted := accepted + bytes[..ret]; }
    }
  }

  /** The number of bytes accepted in the course of some answers. */
  function Sum(rs: seq<int>): (n: nat) {
    if rs == [] then 0
    else Sum(rs[..|rs| - 1]) + if rs[|rs| - 1] > 0 then rs[|rs| - 1] else 0
  }

  /** The kernel never accepts more than it is offered when `n` bytes are to be written. */
  ghost predicate Fits(n: nat, rs: seq<int>) {
    forall i :: 0 <= i < |rs| ==> Sum(rs[..i]) + rs[i] <= n
  }

  /** Answers after which the loop goes on: bytes are still to be written, and nothing was refused
      except perhaps the first attempt. */
  ghost predicate GoesOn(n: nat, rs: seq<int>) {
    && Fits(n, rs) && Sum(rs) < n
    && (forall i :: 0 < i < |rs| ==> rs[i] > 0)
    && (|rs| > 0 ==> rs[0] != 0)
  }

  /** The answers of a whole call. */
  ghost predicate Complete(n: nat, rs: seq<int>) {
    && |rs| > 0 && Fits(n, rs)
    && (|rs| > 1 ==> GoesOn(n, rs[..|rs| - 1]))
    && !GoesOn(n, rs)
  }

  lemma SumSnoc(rs: seq<int>, r: int)
    ensures Sum(rs + [r]) == Sum(rs) + if r > 0 then r else 0
  {
    assert (rs + [r])[..|rs|] == rs;
  }

  lemma FitsSnoc(n: nat, rs: seq<int>, r: int)
    requires Fits(n, rs) && Sum(rs) + r <= n
    ensures Fits(n, rs + [r])
  {
    var t := rs + [r];
    forall i | 0 <= i < |t| ensures Sum(t[..i]) + t[i] <= n {
      if i < |rs| { assert t[..i] == rs[..i]; } else { assert t[..i] == rs; }
    }
  }

  /** One more answer either lets the loop go on or ends the call. */
  lemma OneMore(n: nat, rs: seq<int>, r: int)
    requires GoesOn(n, rs) && Sum(rs) + r <= n
    ensures if (if rs == [] then r != 0 else r > 0) && Sum(rs + [r]) < n then GoesOn(n, rs + [r]) else Complete(n, rs + [r])
  {
    SumSnoc(rs, r);
    FitsSnoc(n, rs, r);
    assert (rs + [r])[..|rs|] == rs && (rs + [r])[|rs|] == r;
  }

  /** What was accepted when a call is complete: a short positive count means that the last answer
      was a refusal, and nothing accepted means that there was no positive answer at all. A call
      asks the kernel at most once more than there are bytes to write, and once again if the first
      attempt is refused. */
  lemma CompleteMeans(n: nat, rs: seq<int>)
    requires Complete(n, rs)
    ensures Sum(rs) <= n
    ensures 0 < Sum(rs) < n ==> rs[|rs| - 1] <= 0
    ensures Sum(rs) == 0 <==> forall i :: 0 <= i < |rs| ==> rs[i] <= 0
    ensures |rs| <= Sum(rs) + 2 && (rs[0] >= 0 ==> |rs| <= Sum(rs) + 1)
  {
    var k := |rs| - 1;
    SumSnoc(rs[..k], rs[k]);
    assert rs == rs[..k] + [rs[k]];
    assert Sum(rs[..k]) + rs[k] <= n;
    SumCounts(rs[..k]);
    SumZero(rs);
  }

  /** One answer is enough only if it is 0 or nothing is left to write after it, so a refused first
      attempt is repeated; no other refusal is. */
  lemma FirstRefusalIsRepeated(n: nat, rs: seq<int>)
    requires Complete(n, rs)
    ensures |rs| == 1 <==> n == 0 || rs[0] == 0 || rs[0] == n
    ensures forall i :: 0 < i < |rs| - 1 ==> rs[i] > 0
  {
    SumSnoc([], rs[0]);
    assert [] + [rs[0]] == rs[..1];
    if |rs| == 1 {
      assert rs[..1] == rs && rs[..0] == [];
      assert Sum(rs[..0]) + rs[0] <= n;
    } else {
      FirstOf(rs, |rs| - 1);
    }
  }

  /** The first answers add up to no less than the very first. */
  lemma {:induction false} FirstOf(rs: seq<int>, k: nat)
    requires 0 < k <= |rs|
    ensures Sum(rs[..k]) >= rs[0]
  {
    assert rs[..k] == rs[..k - 1] + [rs[k - 1]];
    SumSnoc(rs[..k - 1], rs[k - 1]);
    if k > 1 { FirstOf(rs, k - 1); }
  }

  lemma {:induction false} SumZero(rs: seq<int>)
    ensures Sum(rs) == 0 <==> forall i :: 0 <= i < |rs| ==> rs[i] <= 0
  {
    if rs != [] { SumZero(rs[..|rs| - 1]); }
  }

  lemma {:induction false} SumCounts(rs: seq<int>)
    requires forall i :: 0 < i < |rs| ==> rs[i] > 0
    ensures |rs| <= Sum(rs) + 1 && (rs != [] && rs[0] > 0 ==> |rs| <= Sum(rs))
  {
    if rs != [] { SumCounts(rs[..|rs| - 1]); }
  }

  lemma FirstAnswer(n: nat, r: int)
    requires r <= n
    ensures Sum([r]) == if r > 0 then r else 0
    ensures if r != 0 && Sum([r]) < n then GoesOn(n, [r]) else Complete(n, [r])
  {
    assert [] + [r] == [r] && [r][..0] == [];
    SumSnoc([], r);
    if n > 0 { OneMore(n, [], r); }
  }

  /** One system call, from `done` on. */
  method Attempt(k: Kernel, buf: seq<bv8>, done: nat, ghost was: seq<bv8>) returns (ret: int)
    requires done <= |buf| && k.accepted == was + buf[..done]
    modifies k
    ensures done + ret <= |buf| && k.results == old(k.results) + [ret]
    ensures k.accepted == was + buf[..if ret > 0 then done + ret else done]
  {
    ret := k.SysWrite(buf[done..]);
    if ret > 0 { assert buf[..done + ret] == buf[..done] + buf[done..][..ret]; }
  }

  /** write and send. `direct`: hooks are off, or the descriptor is unknown or non-blocking for its
      user, so the system's function is called once. Otherwise the answers `rs` are those of a
      complete call, what was accepted is the part of the buffer they add up to, and the result is
      its length, or the last answer if nothing was accepted. */
  method Write(k: Kernel, buf: seq<bv8>, direct: bool) returns (ret: int, ghost rs: seq<int>)
    modifies k
    ensures k.results == old(k.results) + rs
    ensures Sum(rs) <= |buf| && k.accepted == old(k.accepted) + buf[..Sum(rs)]
    ensures direct ==> rs == [ret]
    ensures !direct ==> Complete(|buf|, rs) && ret == if Sum(rs) > 0 then Sum(rs) else rs[|rs| - 1]
  {
    hide GoesOn, Complete, Sum;
    var wrotelen := 0;
    var writeret := Attempt(k, buf, wrotelen, k.accepted);
    rs := [writeret];
    FirstAnswer(|buf|, writeret);
    if direct { return writeret, rs; }
    if writeret == 0 { return writeret, rs; }
    if writeret > 0 { wrotelen := wrotelen + writeret; }
    while wrotelen < |buf|
      invariant |rs| > 0 && wrotelen == Sum(rs) <= |buf| && writeret == rs[|rs| - 1]
      invariant writeret > 0 ==> wrotelen > 0
      invariant k.results == old(k.results) + rs
      invariant k.accepted == old(k.accepted) + buf[..wrotelen]
      invariant if wrotelen < |buf| then GoesOn(|buf|, rs) else Complete(|buf|, rs)
      decreases |buf| - wrotelen
    {
      writeret := Attempt(k, buf, wrotelen, old(k.accepted));
      OneMore(|buf|, rs, writeret);
      SumSnoc(rs, writeret);
      rs := rs + [writeret];
      if writeret <= 0 { break; }
      wrotelen := wrotelen + writeret;
    }
    if writeret <= 0 && wrotelen == 0 { return writeret, rs; }
    ret := wrotelen;
  }

}
