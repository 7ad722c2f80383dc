/** The per-coroutine environment of libco/co_hook_sys_call.cpp: a list of names, sorted and made
    duplicate-free in place by the first co_set_env_list, and one table of values per coroutine,
    copied from it when first needed and searched by bsearch. */
module EnvTable {
  import opened Options

  /** stCoSysEnv_t */
  datatype Entry = Entry(name: string, value: Option<string>)

  // ----- the order of names

  /** The sign of strcmp. */
  function Compare(a: string, b: string): (r: int)
    ensures r == 0 <==> a == b
  {
    if a == [] && b == [] then 0
    else if a == [] then -1
    else if b == [] then 1
    else if a[0] != b[0] then (if a[0] < b[0] then -1 else 1)
    else
      assert a == [a[0]] + a[1..] && b == [b[0]] + b[1..];
      Compare(a[1..], b[1..])
  }

  lemma {:induction false} CompareFlips(a: string, b: string)
    ensures Compare(a, b) < 0 <==> Compare(b, a) > 0
  {
    if a != [] && b != [] && a[0] == b[0] { CompareFlips(a[1..], b[1..]); }
  }

  lemma {:induction false} CompareChains(a: string, b: string, c: string)
    requires Compare(a, b) <= 0 && Compare(b, c) <= 0
    ensures Compare(a, c) <= 0 && (Compare(a, c) == 0 ==> Compare(a, b) == 0)
  {
    if a != [] && b != [] && c != [] && a[0] == b[0] == c[0] { CompareChains(a[1..], b[1..], c[1..]); }
  }

  ghost predicate Ascending(s: seq<Entry>) {
    forall i, j :: 0 <= i < j < |s| ==> Compare(s[i].name, s[j].name) <= 0
  }

  ghost predicate StrictlyAscending(s: seq<Entry>) {
    forall i, j :: 0 <= i < j < |s| ==> Compare(s[i].name, s[j].name) < 0
  }

  function Insert(s: seq<Entry>, x: Entry): seq<Entry> {
    if s == [] || Compare(x.name, s[0].name) <= 0 then [x] + s else [s[0]] + Insert(s[1..], x)
  }

  /** What qsort leaves; entries with equal names are equal here, so no other result is possible. */
  function Sort(s: seq<Entry>): seq<Entry> {
    if s == [] then [] else Insert(Sort(s[1..]), s[0])
  }

  lemma {:induction false} InsertContents(s: seq<Entry>, x: Entry)
    ensures multiset(Insert(s, x)) == multiset(s) + multiset{x}
  {
    if s != [] && Compare(x.name, s[0].name) > 0 {
      InsertContents(s[1..], x);
      assert s == [s[0]] + s[1..];
    }
  }

  lemma {:induction false} InsertAscending(s: seq<Entry>, x: Entry)
    requires Ascending(s)
    ensures Ascending(Insert(s, x))
  {
    if s == [] {
    } else if Compare(x.name, s[0].name) <= 0 {
      forall j | 0 <= j < |s| ensures Compare(x.name, s[j].name) <= 0 { CompareChains(x.name, s[0].name, s[j].name); }
    } else {
      InsertAscending(s[1..], x);
      InsertContents(s[1..], x);
      CompareFlips(s[0].name, x.name);
      AllAbove(s[0].name, Insert(s[1..], x), s[1..], x);
    }
  }

  lemma AllAbove(n: string, r: seq<Entry>, s: seq<Entry>, x: Entry)
    requires multiset(r) == multiset(s) + multiset{x} && Compare(n, x.name) <= 0
    requires forall i :: 0 <= i < |s| ==> Compare(n, s[i].name) <= 0
    ensures forall j :: 0 <= j < |r| ==> Compare(n, r[j].name) <= 0
  {
    forall j | 0 <= j < |r| ensures Compare(n, r[j].name) <= 0 {
      assert r[j] in multiset(r);
      if r[j] != x { assert r[j] in s; }
    }
  }

  lemma {:induction false} SortAscending(s: seq<Entry>)
    ensures Ascending(Sort(s)) && multiset(Sort(s)) == multiset(s)
  {
    if s != [] {
      SortAscending(s[1..]);
      assert s == [s[0]] + s[1..];
      InsertContents(Sort(s[1..]), s[0]);
      InsertAscending(Sort(s[1..]), s[0]);
    }
  }

  /** The first of each run of equal names. */
  function Dedup(s: seq<Entry>): seq<Entry> {
    if |s| < 2 then s
    else
      var d := Dedup(s[..|s| - 1]);
      if s[|s| - 1].name == s[|s| - 2].name then d else d + [s[|s| - 1]]
  }

  lemma {:induction false} DedupLast(s: seq<Entry>)
    requires s != []
    ensures Dedup(s) != [] && Dedup(s)[|Dedup(s)| - 1].name == s[|s| - 1].name
    ensures |Dedup(s)| <= |s|
  {
    if |s| >= 2 { DedupLast(s[..|s| - 1]); }
  }

  lemma {:induction false} DedupStrict(s: seq<Entry>)
    requires Ascending(s)
    ensures StrictlyAscending(Dedup(s))
  {
    if |s| >= 2 {
      var p, l := s[..|s| - 1], s[|s| - 1];
      var d := Dedup(p);
      DedupStrict(p);
      DedupLast(p);
      if l.name != s[|s| - 2].name {
        forall i | 0 <= i < |d| ensures Compare(d[i].name, l.name) < 0 {
          CompareChains(d[i].name, s[|s| - 2].name, l.name);
        }
      }
    }
  }

  function Names(s: seq<Entry>): set<string> {
    set e | e in s :: e.name
  }

  lemma NamesSnoc(s: seq<Entry>, l: Entry)
    ensures Names(s + [l]) == Names(s) + {l.name}
  {
    forall n | n in Names(s) + {l.name} ensures n in Names(s + [l]) {
      var e :| (e in s || e == l) && e.name == n;
      assert e in s + [l];
    }
  }

  lemma {:induction false} DedupNames(s: seq<Entry>)
    ensures forall e :: e in Dedup(s) ==> e in s
    ensures Names(Dedup(s)) == Names(s)
  {
    if |s| >= 2 {
      var p, l := s[..|s| - 1], s[|s| - 1];
      assert s == p + [l];
      DedupNames(p);
      NamesSnoc(p, l);
      NamesSnoc(Dedup(p), l);
      assert s[|s| - 2] in p && s[|s| - 2].name in Names(p);
    }
  }

  lemma SortedNames(s: seq<Entry>)
    ensures Names(Sort(s)) == Names(s) && forall e :: e in Sort(s) <==> e in s
  {
    SortAscending(s);
    forall e ensures e in Sort(s) <==> e in s { assert e in multiset(Sort(s)) <==> e in multiset(s); }
  }

  /** The entries made from the names given: null and empty ones are skipped. */
  function Kept(names: seq<Option<string>>): seq<Entry> {
    if names == [] then []
    else
      var p, l := Kept(names[..|names| - 1]), names[|names| - 1];
      if l.Some? && l.value != "" then p + [Entry(l.value, None)] else p
  }

  lemma {:induction false} KeptNames(names: seq<Option<string>>)
    ensures forall n :: n in Names(Kept(names)) <==> n != "" && Some(n) in names
    ensures |Kept(names)| <= |names| && forall e :: e in Kept(names) ==> e.value.None?
  {
    if names != [] {
      KeptNames(names[..|names| - 1]);
      assert names == names[..|names| - 1] + [names[|names| - 1]];
    }
  }

  // ----- tables

  /** dup_co_sysenv_arr, for `cnt` entries. */
  method Dup(data: array<Entry>, cnt: nat) returns (copy: array<Entry>)
    requires cnt <= data.Length
    ensures fresh(copy) && copy[..] == data[..cnt]
  {
    copy := new Entry[cnt](i requires 0 <= i < cnt <= data.Length reads data => data[i]);
    assert copy[..] == data[..cnt];
  }

  /** bsearch with co_sysenv_comp: the position of the name, if it is there. */
  method Bsearch(n: string, data: array<Entry>) returns (e: Option<nat>)
    requires StrictlyAscending(data[..])
    ensures e.Some? ==> e.value < data.Length && data[e.value].name == n
    ensures e.None? ==> n !in Names(data[..])
  {
    var lo, hi := 0, data.Length;
    while lo < hi
      invariant 0 <= lo <= hi <= data.Length
      invariant forall i :: 0 <= i < lo ==> data[i].name != n
      invariant forall i :: hi <= i < data.Length ==> data[i].name != n
    {
      var mid := (lo + hi) / 2;
      var c := Compare(n, data[mid].name);
      if c == 0 { return Some(mid); }
      MissesHalf(n, data[..], mid);
      if c < 0 { hi := mid; } else { lo := mid + 1; }
    }
    e := None;
  }

  /** In an ascending table a comparison rules out everything on one side. */
  lemma MissesHalf(n: string, s: seq<Entry>, mid: nat)
    requires StrictlyAscending(s) && mid < |s|
    ensures Compare(n, s[mid].name) < 0 ==> forall i :: mid <= i < |s| ==> s[i].name != n
    ensures Compare(n, s[mid].name) > 0 ==> forall i :: 0 <= i <= mid ==> s[i].name != n
  {
    CompareFlips(n, s[mid].name);
    CompareFlips(s[mid].name, n);
    assert forall i :: mid < i < |s| ==> Compare(s[mid].name, s[i].name) < 0;
    assert forall i :: 0 <= i < mid ==> Compare(s[i].name, s[mid].name) < 0;
  }

  lemma DedupStep(s: seq<Entry>, i: nat)
    requires 0 < i < |s|
    ensures var d := Dedup(s[..i]);
            && 0 < |d| <= i
            && Dedup(s[..i + 1]) == if d[|d| - 1].name == s[i].name then d else d + [s[i]]
  {
    DedupLast(s[..i]);
    assert s[..i + 1][..i] == s[..i];
  }

  /** One round of the last loop of co_set_env_list; `lp` and `lq` are positions. */
  method KeepIfNew(data: array<Entry>, lp: nat, lq: nat) returns (end: nat)
    requires lp < lq < data.Length
    modifies data
    ensures end == if old(data[lp].name) == old(data[lq].name) then lp else lp + 1
    ensures forall k :: 0 <= k < data.Length ==> data[k] == if k == end > lp then old(data[lq]) else old(data[k])
  {
    end := lp;
    if Compare(data[lp].name, data[lq].name) != 0 {
      end := end + 1;
      if lq != end { data[end] := data[lq]; }
    }
  }

  /** The loop, on the sorted entries. */
  method DedupInPlace(data: array<Entry>, cnt: nat) returns (kept: nat)
    requires 1 < cnt <= data.Length
    modifies data
    ensures kept <= cnt && data[..kept] == Dedup(old(data[..cnt]))
  {
    ghost var s := data[..cnt];
    ghost var d := Dedup(s[..1]);
    assert |d| == 1 && d[0] == s[0];
    hide Dedup;
    var lp, lq := 0, 1;
    for i := 1 to cnt
      invariant lq == i && 0 <= lp < i
      invariant d == Dedup(s[..i]) && |d| == lp + 1
      invariant forall k :: 0 <= k <= lp ==> data[k] == d[k]
      invariant forall k :: i <= k < cnt ==> data[k] == s[k]
    {
      DedupStep(s, i);
      ghost var e := Dedup(s[..i + 1]);
      lp := KeepIfNew(data, lp, lq);
      assert forall k :: 0 <= k <= lp ==> data[k] == e[k];
      d := e;
      lq := lq + 1;
    }
    assert s[..cnt] == s;
    kept := lp + 1;
    assert data[..kept] == d;
  }

  /** The first loop of co_set_env_list, into memory that calloc has cleared. */
  method Collect(names: seq<Option<string>>) returns (data: array<Entry>, cnt: nat)
    ensures fresh(data) && cnt <= data.Length == |names| && data[..cnt] == Kept(names)
  {
    data := new Entry[|names|](_ => Entry("", None));
    cnt := 0;
    for i := 0 to |names|
      invariant cnt <= i && data[..cnt] == Kept(names[..i])
    {
      assert names[..i + 1][..i] == names[..i];
      if names[i].Some? && names[i].value != "" {
        data[cnt] := Entry(names[i].value, None);
        cnt := cnt + 1;
      }
    }
    assert names[..|names|] == names;
  }

  /** qsort, by its result. */
  method QSort(data: array<Entry>, cnt: nat)
    requires cnt <= data.Length
    modifies data
    ensures data[..cnt] == Sort(old(data[..cnt]))
  {
    ghost var s := data[..cnt];
    SortAscending(s);
    var r := Sort(data[..cnt]);
    assert |r| == |multiset(r)| == |multiset(s)|;
    for i := 0 to cnt
      invariant data[..i] == r[..i]
    {
      data[i] := r[i];
    }
  }

  /** The body of co_set_env_list: the list ascends strictly and holds exactly the names given that
      are neither null nor empty. */
  method MakeList(names: seq<Option<string>>) returns (data: array<Entry>, cnt: nat)
    ensures fresh(data) && cnt <= data.Length && StrictlyAscending(data[..cnt])
    ensures Names(data[..cnt]) == Listed(names)
    ensures forall i :: 0 <= i < cnt ==> data[i].value.None?
  {
    hide StrictlyAscending, Ascending, Dedup, Names;
    data, cnt := Collect(names);
    ghost var s := data[..cnt];
    KeptNames(names);
    if cnt > 1 {
      QSort(data, cnt);
      SortAscending(s);
      SortedNames(s);
      DedupStrict(Sort(s));
      DedupNames(Sort(s));
      cnt := DedupInPlace(data, cnt);
      forall i | 0 <= i < cnt ensures data[i].value.None? { assert data[..cnt][i] in Sort(s); }
    } else {
      OneAscends(s);
      forall i | 0 <= i < cnt ensures data[i].value.None? { assert s[i] in s; }
    }
    assert forall n :: n in Names(data[..cnt]) <==> n in Listed(names);
  }

  lemma OneAscends(s: seq<Entry>)
    requires |s| <= 1
    ensures StrictlyAscending(s)
  {
  }

  // ----- the reference: a map of variables for every coroutine

  /** `listed` is what the first co_set_env_list left; `vars` and `hooks` have an element for every
      coroutine. */
  datatype Spec = Spec(listed: Option<set<string>>, vars: seq<map<string, string>>, hooks: seq<bool>)

  datatype Op =
    | SetList(names: seq<Option<string>>)                             // co_set_env_list
    | Hook(c: nat, on: bool)                                          // co_enable_hook_sys and its inverse
    | Set(c: nat, n: string, value: Option<string>, overwrite: bool)  // setenv
    | Unset(c: nat, n: string)                                        // unsetenv
    | Get(c: nat, n: string)                                          // getenv

  /** `System`: the call is passed on to the function of the C library. */
  datatype Answer = System | Done | Found(value: Option<string>)

  function Listed(names: seq<Option<string>>): set<string> {
    set o | o in names && o.Some? && o.value != "" :: o.value
  }

  predicate Handles(s: Spec, c: nat, n: string)
    requires c < |s.hooks|
  {
    s.hooks[c] && s.listed.Some? && n in s.listed.value
  }

  function Assign(m: map<string, string>, n: string, v: Option<string>): map<string, string> {
    if v.Some? then m[n := v.value] else m - {n}
  }

  function Lookup(m: map<string, string>, n: string): Option<string> {
    if n in m then Some(m[n]) else None
  }

  predicate Fits(s: Spec, op: Op) {
    |s.vars| == |s.hooks| && (op.SetList? || op.c < |s.vars|)
  }

  function Step(s: Spec, op: Op): (r: (Answer, Spec))
    requires Fits(s, op)
    ensures |r.1.vars| == |r.1.hooks| == |s.vars|
  {
    match op
    case SetList(names) => (Done, if s.listed.Some? then s else s.(listed := Some(Listed(names))))
    case Hook(c, on) => (Done, s.(hooks := s.hooks[c := on]))
    case Set(c, n, value, overwrite) =>
      if !Handles(s, c, n) then (System, s)
      else if overwrite || n !in s.vars[c] then (Done, s.(vars := s.vars[c := Assign(s.vars[c], n, value)]))
      else (Done, s)
    case Unset(c, n) =>
      if !Handles(s, c, n) then (System, s) else (Done, s.(vars := s.vars[c := Assign(s.vars[c], n, None)]))
    case Get(c, n) =>
      if !Handles(s, c, n) then (System, s) else (Found(Lookup(s.vars[c], n)), s)
  }

  // ----- the hooked functions

  class Coroutine {
    var pvEnv: array?<Entry>
    var cEnableSysHook: bool

    constructor ()
      ensures pvEnv == null && !cEnableSysHook
    {
      pvEnv, cEnableSysHook := null, false;
    }
  }

  /** A table shows `vars`: the names of the list, each with its variable's value or none. */
  ghost predicate Shows(table: seq<Entry>, vars: map<string, string>) {
    && (forall k :: 0 <= k < |table| ==> table[k].value == Lookup(vars, table[k].name))
    && (forall n :: n in vars ==> n in Names(table))
  }

  lemma SameNames(t: seq<Entry>, u: seq<Entry>)
    requires |t| == |u| && forall i :: 0 <= i < |t| ==> u[i].name == t[i].name
    ensures Names(u) == Names(t) && (StrictlyAscending(t) ==> StrictlyAscending(u))
  {
    forall n | n in Names(t) ensures n in Names(u) {
      var i :| 0 <= i < |t| && t[i].name == n;
      assert u[i] in u;
    }
    forall n | n in Names(u) ensures n in Names(t) {
      var i :| 0 <= i < |u| && u[i].name == n;
      assert t[i] in t;
    }
  }

  lemma NameOnce(t: seq<Entry>, k: nat)
    requires StrictlyAscending(t) && k < |t|
    ensures forall i :: 0 <= i < |t| && i != k ==> t[i].name != t[k].name
  {
    forall i | 0 <= i < |t| && i != k ensures t[i].name != t[k].name {
      assert Compare(t[if i < k then i else k].name, t[if i < k then k else i].name) < 0;
    }
  }

  lemma ShowsAssigned(t: seq<Entry>, vars: map<string, string>, k: nat, v: Option<string>)
    requires StrictlyAscending(t) && Shows(t, vars) && k < |t|
    ensures var u := t[k := Entry(t[k].name, v)];
            StrictlyAscending(u) && Shows(u, Assign(vars, t[k].name, v)) && Names(u) == Names(t)
  {
    var n, u, w := t[k].name, t[k := Entry(t[k].name, v)], Assign(vars, t[k].name, v);
    NameOnce(t, k);
    SameNames(t, u);
    assert t[k] in t && n in Names(t);
    hide StrictlyAscending, Names, Assign, Lookup;
    forall i | 0 <= i < |u| ensures u[i].value == Lookup(w, u[i].name) {
      assert t[i].value == Lookup(vars, t[i].name);
      AssignedLookup(vars, n, v, u[i].name);
    }
    AssignedKeys(vars, n, v);
  }

  lemma AssignedLookup(vars: map<string, string>, n: string, v: Option<string>, m: string)
    ensures Lookup(Assign(vars, n, v), m) == if m == n then v else Lookup(vars, m)
  {
  }

  lemma AssignedKeys(vars: map<string, string>, n: string, v: Option<string>)
    ensures forall m :: m in Assign(vars, n, v) ==> m in vars || m == n
  {
  }

  class Env {
    const cos: seq<Coroutine>
    var data: array?<Entry>              // g_co_sysenv
    var cnt: nat
    ghost var vars: seq<map<string, string>>

    ghost predicate ListOk()
      reads this`data, this`cnt, data
    {
      data != null ==>
        && cnt <= data.Length && StrictlyAscending(data[..cnt])
        && forall k :: 0 <= k < cnt ==> data[k].value.None?
    }

    /** No two coroutines share a table, and none uses the list's own memory. */
    ghost predicate Apart()
      reads this`data, cos
    {
      && (forall i, j :: 0 <= i < j < |cos| ==> cos[i] != cos[j])
      && (forall i, j :: 0 <= i < j < |cos| && cos[i].pvEnv != null ==> cos[i].pvEnv != cos[j].pvEnv)
      && (forall i :: 0 <= i < |cos| && cos[i].pvEnv != null ==> cos[i].pvEnv != data)
    }

    /** A coroutine's table has the names of the list and shows its variables. */
    ghost predicate TableOk(i: nat)
      requires i < |cos| && i < |vars|
      reads this`data, this`cnt, this`vars, data, {cos[i]}`pvEnv, cos[i].pvEnv
    {
      var t := cos[i].pvEnv;
      if t == null then vars[i] == map[]
      else data != null && cnt <= data.Length && StrictlyAscending(t[..]) && Names(t[..]) == Names(data[..cnt]) && Shows(t[..], vars[i])
    }

    ghost function Tables(): set<array<Entry>>
      reads cos
    {
      set i | 0 <= i < |cos| && cos[i].pvEnv != null :: cos[i].pvEnv
    }

    ghost predicate Valid()
      reads this, data, cos, Tables()
    {
      && |vars| == |cos| && ListOk() && Apart()
      && forall i :: 0 <= i < |cos| ==> (assert cos[i].pvEnv == null || cos[i].pvEnv in Tables(); TableOk(i))
    }

    ghost function View(): Spec
      requires data != null ==> cnt <= data.Length
      reads this, data, cos
    {
      Spec(if data == null then None else Some(Names(data[..cnt])), vars, seq(|cos|, i requires 0 <= i < |cos| reads cos => cos[i].cEnableSysHook))
    }

    constructor (cos: seq<Coroutine>)
      requires forall i, j :: 0 <= i < j < |cos| ==> cos[i] != cos[j]
      requires forall c :: c in cos ==> c.pvEnv == null && !c.cEnableSysHook
      ensures Valid() && this.cos == cos
      ensures View() == Spec(None, seq(|cos|, _ => map[]), seq(|cos|, _ => false))
    {
      this.cos, data, cnt := cos, null, 0;
      vars := seq(|cos|, _ => map[]);
    }

    /** The table of a coroutine, copied from the list when it is first needed. */
    method OwnTable(c: nat) returns (t: array<Entry>)
      requires Valid() && c < |cos| && data != null
      modifies {cos[c]}`pvEnv
      ensures Valid() && t == cos[c].pvEnv && View() == old(View())
      ensures old(cos[c].pvEnv) != null ==> t == old(cos[c].pvEnv)
      ensures old(cos[c].pvEnv) == null ==> fresh(t)
    {
      if cos[c].pvEnv == null {
        OthersDiffer(c);
        cos[c].pvEnv := Dup(data, cnt);
        assert Shows(cos[c].pvEnv[..], map[]);
        forall j | 0 <= j < |cos| ensures TableOk(j) { assert old(TableOk(j)); }
        assert View().hooks == old(View()).hooks;
      }
      t := cos[c].pvEnv;
    }

    lemma OthersDiffer(c: nat)
      requires Apart() && c < |cos|
      ensures forall j :: 0 <= j < |cos| && j != c ==> cos[j] != cos[c] && (cos[j].pvEnv != cos[c].pvEnv || cos[j].pvEnv == null)
    {
      forall j | 0 <= j < |cos| && j != c ensures cos[j] != cos[c] && (cos[j].pvEnv != cos[c].pvEnv || cos[j].pvEnv == null) {
        var lo, hi := if j < c then j else c, if j < c then c else j;
        assert cos[lo] != cos[hi] && (cos[lo].pvEnv == null || cos[lo].pvEnv != cos[hi].pvEnv);
      }
    }

    /** `e->value = v` */
    method Store(c: nat, k: nat, v: Option<string>)
      requires Valid() && c < |cos| && cos[c].pvEnv != null && k < cos[c].pvEnv.Length
      modifies this`vars, cos[c].pvEnv
      ensures Valid()
      ensures View() == old(View()).(vars := old(vars)[c := Assign(old(vars)[c], old(cos[c].pvEnv[k]).name, v)])
    {
      var t: array<Entry> := cos[c].pvEnv;
      assert TableOk(c);
      ShowsAssigned(t[..], vars[c], k, v);
      OthersDiffer(c);
      hide StrictlyAscending, Names, Shows, Assign;
      assert t != data;
      vars := vars[c := Assign(vars[c], t[k].name, v)];
      ghost var u := t[..][k := Entry(t[k].name, v)];
      t[k] := Entry(t[k].name, v);
      assert t[..] == u;
      assert TableOk(c);
      forall j | 0 <= j < |cos| && j != c ensures TableOk(j) { assert old(TableOk(j)); }
      assert View().hooks == old(View()).hooks;
    }

    /** The lookup that the three functions share. */
    method Find(c: nat, n: string) returns (e: Option<nat>)
      requires Valid() && c < |cos| && data != null
      modifies {cos[c]}`pvEnv
      ensures Valid() && View() == old(View()) && cos[c].pvEnv != null
      ensures if old(cos[c].pvEnv) == null then fresh(cos[c].pvEnv) else cos[c].pvEnv == old(cos[c].pvEnv)
      ensures e.None? ==> n !in View().listed.value
      ensures e.Some? ==>
        && n in View().listed.value && e.value < cos[c].pvEnv.Length
        && cos[c].pvEnv[e.value] == Entry(n, Lookup(vars[c], n))
    {
      hide StrictlyAscending;
      var t := OwnTable(c);
      assert TableOk(c);
      e := Bsearch(n, t);
      if e.Some? { assert t[e.value] in t[..]; }
    }

    lemma ViewFits()
      requires Valid()
      ensures |View().vars| == |View().hooks| == |cos| && (data == null <==> View().listed.None?)
    {
    }

    /** setenv */
    method SetEnv(c: nat, n: string, value: Option<string>, overwrite: bool) returns (a: Answer)
      requires Valid() && c < |cos|
      modifies this`vars, {cos[c]}`pvEnv, cos[c].pvEnv
      ensures Valid() && (a, View()) == Step(old(View()), Set(c, n, value, overwrite))
      ensures old(cos[c].pvEnv) != null ==> cos[c].pvEnv == old(cos[c].pvEnv)
      ensures old(cos[c].pvEnv) == null && cos[c].pvEnv != null ==> fresh(cos[c].pvEnv)
    {
      ViewFits();
      hide Valid, Names;
      if cos[c].cEnableSysHook && data != null {
        var e := Find(c, n);
        if e.Some? {
          if overwrite || cos[c].pvEnv[e.value].value.None? { Store(c, e.value, value); }
          return Done;
        }
      }
      a := System;
    }

    /** unsetenv */
    method UnsetEnv(c: nat, n: string) returns (a: Answer)
      requires Valid() && c < |cos|
      modifies this`vars, {cos[c]}`pvEnv, cos[c].pvEnv
      ensures Valid() && (a, View()) == Step(old(View()), Unset(c, n))
      ensures old(cos[c].pvEnv) != null ==> cos[c].pvEnv == old(cos[c].pvEnv)
      ensures old(cos[c].pvEnv) == null && cos[c].pvEnv != null ==> fresh(cos[c].pvEnv)
    {
      ViewFits();
      hide Valid, Names;
      if cos[c].cEnableSysHook && data != null {
        var e := Find(c, n);
        if e.Some? {
          if cos[c].pvEnv[e.value].value.Some? {
            Store(c, e.value, None);
          } else {
            assert vars[c] - {n} == vars[c];
            assert vars[c := Assign(vars[c], n, None)] == vars;
          }
          return Done;
        }
      }
      a := System;
    }

    /** getenv */
    method GetEnv(c: nat, n: string) returns (a: Answer)
      requires Valid() && c < |cos|
      modifies {cos[c]}`pvEnv
      ensures Valid() && (a, View()) == Step(old(View()), Get(c, n))
      ensures old(cos[c].pvEnv) != null ==> cos[c].pvEnv == old(cos[c].pvEnv)
      ensures old(cos[c].pvEnv) == null && cos[c].pvEnv != null ==> fresh(cos[c].pvEnv)
    {
      ViewFits();
      hide Valid, Names;
      if cos[c].cEnableSysHook && data != null {
        var e := Find(c, n);
        if e.Some? { return Found(cos[c].pvEnv[e.value].value); }
      }
      a := System;
    }

    method SetHook(c: nat, on: bool)
      requires Valid() && c < |cos|
      modifies {cos[c]}`cEnableSysHook
      ensures Valid() && (Done, View()) == Step(old(View()), Hook(c, on))
    {
      OthersDiffer(c);
      cos[c].cEnableSysHook := on;
      forall j | 0 <= j < |cos| ensures TableOk(j) { assert old(TableOk(j)); }
      assert View().hooks == old(View()).hooks[c := on];
    }

    /** co_set_env_list: the first call makes the list, every later one is ignored. */
    method SetEnvList(names: seq<Option<string>>)
      requires Valid()
      modifies this`data, this`cnt
      ensures Valid() && (Done, View()) == Step(old(View()), SetList(names))
      ensures old(data) != null ==> data == old(data)
    {
      if data != null { return; }
      data, cnt := MakeList(names);
      forall j | 0 <= j < |cos| ensures TableOk(j) { assert old(TableOk(j)); }
      assert View().hooks == old(View()).hooks;
    }

    method DoOp(op: Op) returns (a: Answer)
      requires Valid() && Fits(View(), op)
      modifies this`data, this`cnt, this`vars, cos, Tables()
      ensures Valid() && (a, View()) == Step(old(View()), op) && fresh(Tables() - old(Tables()))
    {
      hide Step, Names, StrictlyAscending, Shows;
      assert op.SetList? || cos[op.c] in cos;
      assert op.SetList? || cos[op.c].pvEnv == null || cos[op.c].pvEnv in Tables();
      match op
      case SetList(names) => SetEnvList(names); a := Done;
      case Hook(c, on) => SetHook(c, on); a := Done;
      case Set(c, n, value, overwrite) => a := SetEnv(c, n, value, overwrite);
      case Unset(c, n) => a := UnsetEnv(c, n);
      case Get(c, n) => a := GetEnv(c, n);
    }

    /** Any interleaving of calls by any coroutines is answered as the reference answers it. */
    method Execute(ops: seq<Op>) returns (answers: seq<Answer>)
      requires Valid() && AllFit(View(), ops)
      modifies this`data, this`cnt, this`vars, cos, Tables()
      ensures Valid() && answers == Answers(old(View()), ops) && View() == After(old(View()), ops)
    {
      ghost var s := View();
      assert ops[..0] == [];
      hide Valid, View, Step, After, Answers;
      answers := [];
      for i := 0 to |ops|
        invariant Valid() && |answers| == i && fresh(Tables() - old(Tables()))
        invariant answers == Answers(s, ops[..i]) && View() == After(s, ops[..i])
      {
        OneMore(s, ops, i);
        var a := DoOp(ops[i]);
        answers := answers + [a];
      }
      assert ops[..|ops|] == ops;
    }
  }

  // ----- what the reference promises

  ghost predicate AllFit(s: Spec, ops: seq<Op>) {
    |s.vars| == |s.hooks| && forall i :: 0 <= i < |ops| ==> Fits(s, ops[i])
  }

  function After(s: Spec, ops: seq<Op>): (r: Spec)
    requires AllFit(s, ops)
    ensures |r.vars| == |r.hooks| == |s.vars|
  {
    if ops == [] then s else Step(After(s, ops[..|ops| - 1]), ops[|ops| - 1]).1
  }

  function Answers(s: Spec, ops: seq<Op>): (r: seq<Answer>)
    requires AllFit(s, ops)
    ensures |r| == |ops|
  {
    if ops == [] then []
    else
      var p, l := ops[..|ops| - 1], ops[|ops| - 1];
      Answers(s, p) + [Step(After(s, p), l).0]
  }

  lemma OneMore(s: Spec, ops: seq<Op>, i: nat)
    requires AllFit(s, ops) && i < |ops|
    ensures Fits(After(s, ops[..i]), ops[i])
    ensures After(s, ops[..i + 1]) == Step(After(s, ops[..i]), ops[i]).1
    ensures Answers(s, ops[..i + 1]) == Answers(s, ops[..i]) + [Step(After(s, ops[..i]), ops[i]).0]
  {
    assert ops[..i + 1][..i] == ops[..i];
  }

  /** The calls that concern one coroutine: its own, and those of co_set_env_list. */
  function OfCoroutine(c: nat): Op -> bool {
    (op: Op) => op.SetList? || op.c == c
  }

  /** The calls that are not about the value of one name. */
  function NotAbout(n: string): Op -> bool {
    (op: Op) => op.SetList? || op.Hook? || op.n != n
  }

  /** The calls of one kind, and the answers to them. */
  function Only(ops: seq<Op>, f: Op -> bool): seq<Op> {
    if ops == [] then []
    else
      var p, l := Only(ops[..|ops| - 1], f), ops[|ops| - 1];
      if f(l) then p + [l] else p
  }

  function OnlyAnswers(ops: seq<Op>, answers: seq<Answer>, f: Op -> bool): seq<Answer>
    requires |ops| == |answers|
  {
    if ops == [] then []
    else
      var p := OnlyAnswers(ops[..|ops| - 1], answers[..|ops| - 1], f);
      if f(ops[|ops| - 1]) then p + [answers[|ops| - 1]] else p
  }

  lemma {:induction false} OnlyFits(s: Spec, ops: seq<Op>, f: Op -> bool)
    requires AllFit(s, ops)
    ensures AllFit(s, Only(ops, f))
  {
    if ops != [] { OnlyFits(s, ops[..|ops| - 1], f); }
  }

  lemma OnlySnoc(s: Spec, ops: seq<Op>, f: Op -> bool)
    requires ops != [] && AllFit(s, ops) && AllFit(s, Only(ops, f))
    ensures var k := |ops| - 1;
            var p, q := ops[..k], Only(ops[..k], f);
            && AllFit(s, p) && AllFit(s, q)
            && After(s, ops) == Step(After(s, p), ops[k]).1
            && After(s, Only(ops, f)) == (if f(ops[k]) then Step(After(s, q), ops[k]).1 else After(s, q))
            && OnlyAnswers(ops, Answers(s, ops), f) ==
                 OnlyAnswers(p, Answers(s, p), f) + (if f(ops[k]) then [Step(After(s, p), ops[k]).0] else [])
            && Answers(s, Only(ops, f)) == Answers(s, q) + (if f(ops[k]) then [Step(After(s, q), ops[k]).0] else [])
  {
    var k := |ops| - 1;
    OnlyFits(s, ops[..k], f);
    hide Step;
    assert Answers(s, ops)[..k] == Answers(s, ops[..k]);
    if f(ops[k]) { assert Only(ops, f)[..|Only(ops, f)| - 1] == Only(ops[..k], f); }
  }

  ghost predicate Alike(r: Spec, o: Spec, c: nat) {
    && c < |r.vars| == |r.hooks| && |o.vars| == |o.hooks| == |r.vars|
    && r.listed == o.listed && r.vars[c] == o.vars[c] && r.hooks[c] == o.hooks[c]
  }

  lemma StepAlike(r: Spec, o: Spec, op: Op, c: nat)
    requires Alike(r, o, c) && Fits(r, op)
    ensures if OfCoroutine(c)(op) then Step(r, op).0 == Step(o, op).0 && Alike(Step(r, op).1, Step(o, op).1, c)
            else Alike(Step(r, op).1, o, c)
  {
  }

  /** No coroutine notices the others: leaving out all their calls changes none of its answers. */
  lemma {:induction false} OthersUnnoticed(s: Spec, ops: seq<Op>, c: nat)
    requires AllFit(s, ops) && AllFit(s, Only(ops, OfCoroutine(c))) && c < |s.vars|
    ensures OnlyAnswers(ops, Answers(s, ops), OfCoroutine(c)) == Answers(s, Only(ops, OfCoroutine(c)))
    ensures Alike(After(s, ops), After(s, Only(ops, OfCoroutine(c))), c)
  {
    if ops == [] {
      assert Only(ops, OfCoroutine(c)) == [];
    } else {
      hide Step, Alike, OfCoroutine, Only, OnlyAnswers, Answers, After;
      var f, p := OfCoroutine(c), ops[..|ops| - 1];
      OnlySnoc(s, ops, f);
      OthersUnnoticed(s, p, c);
      StepAlike(After(s, p), After(s, Only(p, f)), ops[|ops| - 1], c);
    }
  }

  lemma StepUnlisted(s: Spec, op: Op, n: string)
    requires Fits(s, op) && s.listed.Some? && n !in s.listed.value
    ensures Step(s, op).1.listed == s.listed
    ensures !NotAbout(n)(op) ==> Step(s, op) == (System, s)
  {
  }

  /** Every call of the other kind is passed on to the C library. */
  ghost predicate PassedOn(ops: seq<Op>, answers: seq<Answer>, f: Op -> bool)
    requires |ops| == |answers|
  {
    forall i :: 0 <= i < |ops| && !f(ops[i]) ==> answers[i] == System
  }

  lemma PassedOnSnoc(ops: seq<Op>, answers: seq<Answer>, f: Op -> bool, op: Op, a: Answer)
    requires |ops| == |answers| && PassedOn(ops, answers, f) && (f(op) || a == System)
    ensures PassedOn(ops + [op], answers + [a], f)
  {
  }

  /** A name that is not on the list belongs to the C library: every call about it, by whomever, is
      passed on, and leaving out all those calls changes no other answer and no variable. */
  lemma {:induction false} UnlistedUnnoticed(s: Spec, ops: seq<Op>, n: string)
    requires AllFit(s, ops) && AllFit(s, Only(ops, NotAbout(n))) && s.listed.Some? && n !in s.listed.value
    ensures PassedOn(ops, Answers(s, ops), NotAbout(n))
    ensures OnlyAnswers(ops, Answers(s, ops), NotAbout(n)) == Answers(s, Only(ops, NotAbout(n)))
    ensures After(s, ops) == After(s, Only(ops, NotAbout(n))) && After(s, ops).listed == s.listed
  {
    if ops == [] {
      assert Only(ops, NotAbout(n)) == [];
    } else {
      var f, k := NotAbout(n), |ops| - 1;
      var p := ops[..k];
      OneMore(s, ops, k);
      assert ops[..k + 1] == ops == p + [ops[k]];
      hide Step, NotAbout, Only, OnlyAnswers, Answers, After, PassedOn;
      OnlySnoc(s, ops, f);
      UnlistedUnnoticed(s, p, n);
      StepUnlisted(After(s, p), ops[k], n);
      PassedOnSnoc(p, Answers(s, p), f, ops[k], Step(After(s, p), ops[k]).0);
    }
  }

  // ----- what the history of calls decides

  /** How a coroutine last switched its hooks, `on0` if it never did. */
  function LastHook(ops: seq<Op>, c: nat, on0: bool): bool {
    if ops == [] then on0
    else
      match ops[|ops| - 1]
      case Hook(d, on) => if d == c then on else LastHook(ops[..|ops| - 1], c, on0)
      case _ => LastHook(ops[..|ops| - 1], c, on0)
  }

  /** The first list, `l0` if there was one before. */
  function FirstList(ops: seq<Op>, l0: Option<set<string>>): Option<set<string>> {
    if ops == [] then l0
    else
      var l, op := FirstList(ops[..|ops| - 1], l0), ops[|ops| - 1];
      if l.None? && op.SetList? then Some(Listed(op.names)) else l
  }

  lemma {:induction false} StateFromHistory(s: Spec, ops: seq<Op>)
    requires AllFit(s, ops)
    ensures forall c {:trigger s.hooks[c]} :: 0 <= c < |s.hooks| ==> After(s, ops).hooks[c] == LastHook(ops, c, s.hooks[c])
    ensures After(s, ops).listed == FirstList(ops, s.listed)
  {
    if ops != [] { StateFromHistory(s, ops[..|ops| - 1]); }
  }

  lemma {:induction false} AnswerAt(s: Spec, ops: seq<Op>, i: nat)
    requires AllFit(s, ops) && i < |ops|
    ensures Answers(s, ops)[i] == Step(After(s, ops[..i]), ops[i]).0
  {
    if i < |ops| - 1 {
      AnswerAt(s, ops[..|ops| - 1], i);
      assert ops[..|ops| - 1][..i] == ops[..i];
    }
  }

  predicate AboutVariable(op: Op) {
    op.Set? || op.Unset? || op.Get?
  }

  /** A call is passed on to the C library if and only if it is about a variable and, when it is made,
      the coroutine's hooks are off, no list has been given or the first list does not have the name. */
  lemma PassedOnIff(s: Spec, ops: seq<Op>, i: nat)
    requires AllFit(s, ops) && i < |ops|
    ensures var op, before := ops[i], ops[..i];
      Answers(s, ops)[i] == System <==>
        && AboutVariable(op)
        && (|| !LastHook(before, op.c, s.hooks[op.c])
            || FirstList(before, s.listed).None?
            || op.n !in FirstList(before, s.listed).value)
  {
    AnswerAt(s, ops, i);
    StateFromHistory(s, ops[..i]);
    assert Fits(s, ops[i]);
  }

  /** A call about a variable, after the calls `before`, by a coroutine whose hooks are off. */
  predicate Unhooked(on: seq<bool>, before: seq<Op>, op: Op) {
    AboutVariable(op) && op.c < |on| && !LastHook(before, op.c, on[op.c])
  }

  /** The calls without those made with hooks off, and the answers to them. */
  function Hooked(on: seq<bool>, ops: seq<Op>): seq<Op> {
    if ops == [] then []
    else
      var before, op := ops[..|ops| - 1], ops[|ops| - 1];
      Hooked(on, before) + if Unhooked(on, before, op) then [] else [op]
  }

  function HookedAnswers(on: seq<bool>, ops: seq<Op>, answers: seq<Answer>): seq<Answer>
    requires |ops| == |answers|
  {
    if ops == [] then []
    else
      var before, op := ops[..|ops| - 1], ops[|ops| - 1];
      HookedAnswers(on, before, answers[..|ops| - 1]) + if Unhooked(on, before, op) then [] else [answers[|ops| - 1]]
  }

  lemma {:induction false} HookedFits(s: Spec, ops: seq<Op>)
    requires AllFit(s, ops)
    ensures AllFit(s, Hooked(s.hooks, ops))
  {
    if ops != [] { HookedFits(s, ops[..|ops| - 1]); }
  }

  lemma StepUnhooked(s: Spec, op: Op)
    requires Fits(s, op) && AboutVariable(op) && !s.hooks[op.c]
    ensures Step(s, op) == (System, s)
  {
  }

  /** Calls made with hooks off belong to the C library: each is passed on, and leaving all of them out
      changes no other answer and no variable. */
  lemma {:induction false} UnhookedUnnoticed(s: Spec, ops: seq<Op>)
    requires AllFit(s, ops)
    ensures forall i :: 0 <= i < |ops| && Unhooked(s.hooks, ops[..i], ops[i]) ==> Answers(s, ops)[i] == System
    ensures AllFit(s, Hooked(s.hooks, ops))
    ensures HookedAnswers(s.hooks, ops, Answers(s, ops)) == Answers(s, Hooked(s.hooks, ops))
    ensures After(s, ops) == After(s, Hooked(s.hooks, ops))
  {
    HookedFits(s, ops);
    forall i | 0 <= i < |ops| && Unhooked(s.hooks, ops[..i], ops[i]) ensures Answers(s, ops)[i] == System {
      PassedOnIff(s, ops, i);
    }
    HookedSnoc(s, ops);
  }

  /** The last call, made with hooks off or on. */
  lemma HookedLast(s: Spec, ops: seq<Op>)
    requires AllFit(s, ops) && ops != [] && AllFit(s, Hooked(s.hooks, ops)) && AllFit(s, Hooked(s.hooks, ops[..|ops| - 1]))
    ensures var p, op := ops[..|ops| - 1], ops[|ops| - 1];
            var q, off := Hooked(s.hooks, p), Unhooked(s.hooks, p, op);
            && AllFit(s, p) && Fits(After(s, p), op) && Fits(After(s, q), op)
            && After(s, ops) == Step(After(s, p), op).1
            && After(s, Hooked(s.hooks, ops)) == (if off then After(s, q) else Step(After(s, q), op).1)
            && HookedAnswers(s.hooks, ops, Answers(s, ops)) ==
                 HookedAnswers(s.hooks, p, Answers(s, p)) + (if off then [] else [Step(After(s, p), op).0])
            && Answers(s, Hooked(s.hooks, ops)) == Answers(s, q) + (if off then [] else [Step(After(s, q), op).0])
  {
    var k := |ops| - 1;
    var q := Hooked(s.hooks, ops[..k]);
    hide Step, Unhooked;
    assert Answers(s, ops)[..k] == Answers(s, ops[..k]);
    if Unhooked(s.hooks, ops[..k], ops[k]) {
      assert Hooked(s.hooks, ops) == q + [] == q;
    } else {
      assert Hooked(s.hooks, ops) == q + [ops[k]] && (q + [ops[k]])[..|q|] == q;
    }
  }

  lemma {:induction false} HookedSnoc(s: Spec, ops: seq<Op>)
    requires AllFit(s, ops) && AllFit(s, Hooked(s.hooks, ops))
    ensures HookedAnswers(s.hooks, ops, Answers(s, ops)) == Answers(s, Hooked(s.hooks, ops))
    ensures After(s, ops) == After(s, Hooked(s.hooks, ops))
    decreases |ops|
  {
    if ops != [] {
      var p, op := ops[..|ops| - 1], ops[|ops| - 1];
      HookedFits(s, p);
      hide Step, Hooked, HookedAnswers, Answers, After, LastHook;
      HookedSnoc(s, p);
      HookedLast(s, ops);
      StateFromHistory(s, p);
      if Unhooked(s.hooks, p, op) { StepUnhooked(After(s, p), op); }
    }
  }

  /** What the calls that a coroutine makes with hooks on say the value of a variable is, given its value
      before. */
  function Last(ops: seq<Op>, c: nat, n: string, on0: bool, v0: Option<string>): Option<string> {
    if ops == [] then v0
    else
      var p := ops[..|ops| - 1];
      var v := Last(p, c, n, on0, v0);
      match ops[|ops| - 1]
      case Set(d, m, value, overwrite) => if d == c && m == n && LastHook(p, c, on0) && (overwrite || v.None?) then value else v
      case Unset(d, m) => if d == c && m == n && LastHook(p, c, on0) then None else v
      case _ => v
  }

  /** getenv of a listed name, with hooks on, finds what the coroutine's own history says. */
  lemma HistoryDecides(s: Spec, ops: seq<Op>, c: nat, n: string)
    requires AllFit(s, ops) && c < |s.vars| && s.listed.Some? && n in s.listed.value && LastHook(ops, c, s.hooks[c])
    ensures Step(After(s, ops), Get(c, n)).0 == Found(Last(ops, c, n, s.hooks[c], Lookup(s.vars[c], n)))
  {
    StateFromHistory(s, ops);
    ListStays(s, ops);
    ValueFromHistory(s, ops, c, n);
  }

  lemma {:induction false} ListStays(s: Spec, ops: seq<Op>)
    requires s.listed.Some?
    ensures FirstList(ops, s.listed) == s.listed
  {
    if ops != [] { ListStays(s, ops[..|ops| - 1]); }
  }

  lemma {:induction false} ValueFromHistory(s: Spec, ops: seq<Op>, c: nat, n: string)
    requires AllFit(s, ops) && c < |s.vars| && s.listed.Some? && n in s.listed.value
    ensures Lookup(After(s, ops).vars[c], n) == Last(ops, c, n, s.hooks[c], Lookup(s.vars[c], n))
  {
    if ops != [] {
      ValueFromHistory(s, ops[..|ops| - 1], c, n);
      StateFromHistory(s, ops[..|ops| - 1]);
      ListStays(s, ops[..|ops| - 1]);
    }
  }
}
