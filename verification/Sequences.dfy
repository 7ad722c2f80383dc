/** Facts about sequences that several modules share. */
module Sequences {

  ghost predicate NoDup<T>(s: seq<T>) {
    forall i, j :: 0 <= i < j < |s| ==> s[i] != s[j]
  }

  lemma ConcatNoDup<T>(s: seq<T>, t: seq<T>)
    requires NoDup(s) && NoDup(t)
    requires forall i, j :: 0 <= i < |s| && 0 <= j < |t| ==> s[i] != t[j]
    ensures NoDup(s + t)
  {}

  lemma NoDupParts<T>(s: seq<T>, t: seq<T>)
    requires NoDup(s + t)
    ensures NoDup(s) && NoDup(t) && forall x :: x in s ==> x !in t
  {
    var u := s + t;
    assert forall i :: 0 <= i < |s| ==> u[i] == s[i];
    forall i, j | 0 <= i < |t| && i < j < |t| ensures t[i] != t[j] { assert u[|s| + i] != u[|s| + j]; }
    forall i, j | 0 <= i < |s| && 0 <= j < |t| ensures s[i] != t[j] { assert u[i] != u[|s| + j]; }
  }

  /** `s` without `x`. */
  function Without<T(==)>(s: seq<T>, x: T): (r: seq<T>) {
    if s == [] then []
    else if s[0] == x then s[1..]
    else [s[0]] + Without(s[1..], x)
  }

  lemma {:induction false} WithoutAt<T>(s: seq<T>, x: T, k: nat)
    requires k < |s| && s[k] == x && NoDup(s)
    ensures var r := Without(s, x);
      && |r| == |s| - 1
      && (forall i {:trigger r[i]} :: 0 <= i < |r| ==> r[i] == if i < k then s[i] else s[i + 1])
      && NoDup(r)
  {
    if k > 0 {
      WithoutAt(s[1..], x, k - 1);
    }
  }

  lemma {:induction false} WithoutAbsent<T>(s: seq<T>, x: T)
    requires x !in s
    ensures Without(s, x) == s
  {
    if s != [] {
      WithoutAbsent(s[1..], x);
    }
  }

  lemma {:induction false} WithoutMembers<T>(s: seq<T>, x: T)
    ensures multiset(Without(s, x)) == multiset(s) - multiset{x}
  {
    if s != [] {
      assert s == [s[0]] + s[1..];
      WithoutMembers(s[1..], x);
    }
  }

  lemma WithoutSubset<T>(s: seq<T>, x: T)
    ensures forall y :: y in Without(s, x) ==> y in s
  {
    WithoutMembers(s, x);
    forall y | y in Without(s, x) ensures y in s {
      assert y in multiset(Without(s, x));
      assert y in multiset(s);
    }
  }

  lemma WithoutHead<T>(h: T, r: seq<T>, x: T)
    ensures Without([h] + r, x) == if h == x then r else [h] + Without(r, x)
  {
    assert ([h] + r)[1..] == r;
  }

  lemma Regroup<T>(h: T, a: seq<T>, b: seq<T>)
    ensures [h] + (a + b) == ([h] + a) + b
  {
  }

  /** The first occurrence decides which half loses `x`. */
  lemma {:induction false} WithoutConcat<T>(s: seq<T>, t: seq<T>, x: T)
    ensures Without(s + t, x) == if x in s then Without(s, x) + t else s + Without(t, x)
  {
    hide Without;
    if s == [] {
      assert s + t == t;
    } else {
      var h, r := s[0], s[1..];
      assert s == [h] + r && (x in s <==> h == x || x in r);
      Regroup(h, r, t);
      WithoutHead(h, r, x);
      WithoutHead(h, r + t, x);
      if h != x {
        WithoutConcat(r, t, x);
        if x in r { Regroup(h, Without(r, x), t); } else { Regroup(h, r, Without(t, x)); }
      }
    }
  }

  function Sum<T>(s: seq<T>, f: T -> nat): nat {
    if s == [] then 0 else f(s[0]) + Sum(s[1..], f)
  }

  lemma {:induction false} SumUpdate<T>(s: seq<T>, f: T -> nat, i: nat, x: T)
    requires i < |s|
    ensures Sum(s[i := x], f) + f(s[i]) == Sum(s, f) + f(x)
  {
    if i == 0 {
      assert s[0 := x][1..] == s[1..];
    } else {
      assert s[i := x][1..] == s[1..][i - 1 := x];
      SumUpdate(s[1..], f, i - 1, x);
    }
  }

  lemma {:induction false} SumSame<T>(s: seq<T>, t: seq<T>, f: T -> nat)
    requires |s| == |t| && forall i :: 0 <= i < |s| ==> f(s[i]) == f(t[i])
    ensures Sum(s, f) == Sum(t, f)
  {
    if s != [] { SumSame(s[1..], t[1..], f); }
  }

  lemma {:induction false} SumSnoc<T>(s: seq<T>, f: T -> nat, x: T)
    ensures Sum(s + [x], f) == Sum(s, f) + f(x)
  {
    if s == [] {
      assert s + [x] == [x] && [x][1..] == [];
    } else {
      assert (s + [x])[1..] == s[1..] + [x];
      SumSnoc(s[1..], f, x);
    }
  }
}
