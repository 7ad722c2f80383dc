/** The request parser of Httpdata.cpp (handle_request_line, handle_request_head): loops that move
    one index over the read buffer. It accepts a strict subset of RFC 9112, sections 2.1, 3 and 5:
    one space after the colon of a field, and two characters at the end of a line. */
module HttpParser {

  /** The first position from `i` on that holds a character of `stops`, or the end. */
  function Scan(s: string, i: nat, stops: set<char>): (j: nat)
    ensures i <= j && (j > i ==> j <= |s|) && (j < |s| ==> s[j] in stops)
    ensures forall k :: i <= k < j ==> s[k] !in stops
    decreases |s| - i
  {
    if i < |s| && s[i] !in stops then Scan(s, i + 1, stops) else i
  }

  /** What a scan from `i` to `j` passes. */
  function Piece(s: string, i: nat, j: nat): string
    requires i <= j && (j > i ==> j <= |s|)
  {
    if i == j then "" else s[i..j]
  }

  const SPACE := {' '}
  const EOL := {'\r', '\n'}
  const COLON := {':'}

  datatype Line = Line(req: string, uri: string, version: string, index: nat)

  function RequestLine(s: string, i: nat): Line {
    var a := Scan(s, i, SPACE);
    var b := Scan(s, a + 1, SPACE);
    var c := Scan(s, b + 1, EOL);
    Line(Piece(s, i, a), Piece(s, a + 1, b), Piece(s, b + 1, c), c + 2)
  }

  datatype Field = Field(name: string, value: string, index: nat)

  function OneField(s: string, i: nat): (f: Field)
    ensures f.index >= i + 4
  {
    var a := Scan(s, i, COLON);
    var b := Scan(s, a + 2, EOL);
    Field(Piece(s, i, a), Piece(s, a + 2, b), b + 2)
  }

  /** All fields, in order, and the index after the blank line. */
  function Fields(s: string, i: nat): (seq<(string, string)>, nat)
    decreases |s| - i
  {
    if i < |s| && s[i] !in EOL then
      var f := OneField(s, i);
      var (rest, j) := Fields(s, f.index);
      ([(f.name, f.value)] + rest, j)
    else ([], i + 1)
  }

  /** The map that assigning the fields one after the other leaves: the last value wins. */
  function Assigned(m: map<string, string>, fields: seq<(string, string)>): map<string, string>
    decreases |fields|
  {
    if fields == [] then m else Assigned(m[fields[0].0 := fields[0].1], fields[1..])
  }

  lemma AssignedFirst(m: map<string, string>, n: string, v: string, rest: seq<(string, string)>)
    ensures Assigned(m, [(n, v)] + rest) == Assigned(m[n := v], rest)
  {
    assert ([(n, v)] + rest)[1..] == rest;
  }

  lemma FieldsUnfold(s: string, i: nat, f: Field)
    requires i < |s| && s[i] !in EOL && OneField(s, i) == f
    ensures Fields(s, i) == ([(f.name, f.value)] + Fields(s, f.index).0, Fields(s, f.index).1)
  {
    hide OneField, Scan;
  }

  // ----- the loops

  class HttpHandle {
    var req: string
    var uri: string
    var version: string
    var requestHead: map<string, string>

    constructor ()
      ensures requestHead == map[]
    {
      req, uri, version, requestHead := "", "", "", map[];
    }
  }

  /** The loop that the parser repeats: collects characters until one of `stops`. */
  method Collect(buff: array<char>, readLength: nat, index: nat, stops: set<char>) returns (temp: string, end: nat)
    requires readLength <= buff.Length
    ensures end == Scan(buff[..readLength], index, stops)
    ensures temp == Piece(buff[..readLength], index, end)
  {
    ghost var s := buff[..readLength];
    temp, end := "", index;
    while end < readLength && buff[end] !in stops
      invariant index <= end && (end > index ==> end <= readLength)
      invariant Scan(s, end, stops) == Scan(s, index, stops)
      invariant temp == Piece(s, index, end)
      decreases readLength - end
    {
      assert Piece(s, index, end + 1) == Piece(s, index, end) + [s[end]];
      temp := temp + [buff[end]];
      end := end + 1;
    }
  }

  method HandleRequestLine(buff: array<char>, readLength: nat, index: nat, h: HttpHandle) returns (end: nat)
    requires readLength <= buff.Length
    modifies h`req, h`uri, h`version
    ensures Line(h.req, h.uri, h.version, end) == RequestLine(buff[..readLength], index)
  {
    hide Scan, Piece;
    h.req, end := Collect(buff, readLength, index, SPACE);
    end := end + 1;
    h.uri, end := Collect(buff, readLength, end, SPACE);
    end := end + 1;
    h.version, end := Collect(buff, readLength, end, EOL);
    end := end + 2;
  }

  method HandleRequestHead(buff: array<char>, readLength: nat, index: nat, h: HttpHandle) returns (end: nat)
    requires readLength <= buff.Length
    modifies h`requestHead
    ensures var (fields, e) := Fields(buff[..readLength], index);
            h.requestHead == Assigned(old(h.requestHead), fields) && end == e
  {
    hide Scan, Piece;
    ghost var s := buff[..readLength];
    end := index;
    while end < readLength && buff[end] != '\r' && buff[end] != '\n'
      invariant end >= index
      invariant Assigned(h.requestHead, Fields(s, end).0) == Assigned(old(h.requestHead), Fields(s, index).0)
      invariant Fields(s, end).1 == Fields(s, index).1
      decreases readLength - end
    {
      var key, value: string;
      ghost var f := OneField(s, end);
      FieldsUnfold(s, end, f);
      AssignedFirst(h.requestHead, f.name, f.value, Fields(s, f.index).0);
      key, end := Collect(buff, readLength, end, COLON);
      end := end + 2;
      value, end := Collect(buff, readLength, end, EOL);
      h.requestHead := h.requestHead[key := value];
      end := end + 2;
      assert f == Field(key, value, end);
    }
    end := end + 1;
  }

  /** handle_http's two calls. */
  method Parse(buff: array<char>, readLength: nat) returns (h: HttpHandle, end: nat)
    requires readLength <= buff.Length
    ensures fresh(h)
    ensures var s := buff[..readLength];
            && Line(h.req, h.uri, h.version, RequestLine(s, 0).index) == RequestLine(s, 0)
            && h.requestHead == Assigned(map[], Fields(s, RequestLine(s, 0).index).0)
  {
    h := new HttpHandle();
    end := HandleRequestLine(buff, readLength, 0, h);
    end := HandleRequestHead(buff, readLength, end, h);
  }

  // ----- printing

  function VersionText(version: string, rest: string): string { version + (['\r'] + (['\n'] + rest)) }

  function TargetText(uri: string, version: string, rest: string): string { uri + ([' '] + VersionText(version, rest)) }

  /** A request line in front of a text. */
  function LineText(req: string, uri: string, version: string, rest: string): string {
    req + ([' '] + TargetText(uri, version, rest))
  }

  /** Header fields in front of a text. */
  function FieldsText(fields: seq<(string, string)>, rest: string): string {
    if fields == [] then rest
    else fields[0].0 + ([':'] + ([' '] + (fields[0].1 + (['\r'] + (['\n'] + FieldsText(fields[1..], rest))))))
  }

  /** A whole request. */
  function Print(req: string, uri: string, version: string, fields: seq<(string, string)>, body: string): string {
    LineText(req, uri, version, FieldsText(fields, ['\r'] + (['\n'] + body)))
  }

  predicate Without(s: string, stops: set<char>) {
    forall c :: c in s ==> c !in stops
  }

  /** `t` stands at `i` in `s`. */
  ghost predicate Reads(s: string, i: nat, t: string) {
    i + |t| <= |s| && forall k :: 0 <= k < |t| ==> s[i + k] == t[k]
  }

  /** `s` ends with `t`, from `i` on. */
  ghost predicate Ends(s: string, i: nat, t: string) {
    i <= |s| && s[i..] == t
  }

  lemma Split(s: string, i: nat, a: string, b: string)
    requires Ends(s, i, a + b)
    ensures Reads(s, i, a) && Ends(s, i + |a|, b)
  {
    forall k | 0 <= k < |a| ensures s[i + k] == a[k] { assert s[i..][k] == (a + b)[k]; }
    assert s[i..][|a|..] == b;
  }

  /** A token comes back exactly when it does not contain what ends it. */
  lemma TokenBack(s: string, i: nat, t: string, stop: char, stops: set<char>)
    requires Reads(s, i, t) && Reads(s, i + |t|, [stop]) && stop in stops
    ensures Piece(s, i, Scan(s, i, stops)) == t <==> Without(t, stops)
    ensures Without(t, stops) ==> Scan(s, i, stops) == i + |t|
  {
    var j := Scan(s, i, stops);
    assert s[i + |t|] == [stop][0];
    if Without(t, stops) {
      assert forall k :: i <= k < i + |t| ==> s[k] == t[k - i];
      assert s[i..i + |t|] == t;
    } else {
      var c :| c in t && c in stops;
      var m :| 0 <= m < |t| && t[m] == c;
      assert s[i + m] == t[m];
    }
  }

  /** Splits a token and its end off the front. */
  lemma TokenThen(s: string, i: nat, t: string, stop: char, rest: string, stops: set<char>)
    requires Ends(s, i, t + ([stop] + rest)) && stop in stops
    ensures Piece(s, i, Scan(s, i, stops)) == t <==> Without(t, stops)
    ensures Without(t, stops) ==> Scan(s, i, stops) == i + |t|
    ensures Ends(s, i + |t| + 1, rest)
  {
    hide Ends, Reads, Scan, Piece, Without;
    Split(s, i, t, [stop] + rest);
    Split(s, i + |t|, [stop], rest);
    TokenBack(s, i, t, stop, stops);
  }

  lemma LineTokens(s: string, i: nat, req: string, uri: string, version: string, rest: string)
    requires Ends(s, i, LineText(req, uri, version, rest))
    ensures var j := i + |req| + 1;
            var k := j + |uri| + 1;
            && (Piece(s, i, Scan(s, i, SPACE)) == req <==> Without(req, SPACE))
            && (Without(req, SPACE) ==> Scan(s, i, SPACE) + 1 == j)
            && (Piece(s, j, Scan(s, j, SPACE)) == uri <==> Without(uri, SPACE))
            && (Without(uri, SPACE) ==> Scan(s, j, SPACE) + 1 == k)
            && (Piece(s, k, Scan(s, k, EOL)) == version <==> Without(version, EOL))
            && (Without(version, EOL) ==> Scan(s, k, EOL) == k + |version|)
            && Ends(s, k + |version| + 2, rest)
  {
    hide Scan, Piece, Without, Ends, Reads;
    TokenThen(s, i, req, ' ', TargetText(uri, version, rest), SPACE);
    TokenThen(s, i + |req| + 1, uri, ' ', VersionText(version, rest), SPACE);
    TokenThen(s, i + |req| + 1 + |uri| + 1, version, '\r', ['\n'] + rest, EOL);
    Split(s, i + |req| + 1 + |uri| + 1 + |version| + 1, ['\n'], rest);
  }

  /** The request line at `i` comes back exactly when no part contains its own separator. */
  lemma RequestLineAt(s: string, i: nat, req: string, uri: string, version: string, rest: string)
    requires Ends(s, i, LineText(req, uri, version, rest))
    ensures var l := RequestLine(s, i);
            && (Without(req, SPACE) && Without(uri, SPACE) && Without(version, EOL) <==>
                  l.req == req && l.uri == uri && l.version == version)
            && (Without(req, SPACE) && Without(uri, SPACE) && Without(version, EOL) ==> Ends(s, l.index, rest))
  {
    hide Scan, Piece, Without, LineText, Ends;
    LineTokens(s, i, req, uri, version, rest);
  }

  /** A field as the parser takes it: one character after the colon is dropped, whatever it is. */
  lemma OneFieldAt(s: string, i: nat, name: string, c: char, value: string, rest: string)
    requires Ends(s, i, name + ([':'] + ([c] + (value + (['\r'] + (['\n'] + rest))))))
    requires Without(name, COLON) && Without(value, EOL)
    ensures OneField(s, i) == Field(name, value, i + |name| + |value| + 4)
    ensures Ends(s, i + |name| + |value| + 4, rest)
  {
    hide Scan, Piece, Without, Ends, Reads;
    TokenThen(s, i, name, ':', [c] + (value + (['\r'] + (['\n'] + rest))), COLON);
    Split(s, i + |name| + 1, [c], value + (['\r'] + (['\n'] + rest)));
    TokenThen(s, i + |name| + 2, value, '\r', ['\n'] + rest, EOL);
    Split(s, i + |name| + 2 + |value| + 1, ['\n'], rest);
  }

  const WHITE := {' ', '\t'}

  /** A field line with the optional white space `w` of section 5 of RFC 9112 comes back as a whole,
      name, value and end of line, exactly when that is a single character. */
  lemma FieldIffOneSpace(s: string, i: nat, name: string, w: string, value: string, rest: string)
    requires Ends(s, i, name + ([':'] + (w + (value + (['\r'] + (['\n'] + rest))))))
    requires forall c :: c in w ==> c in WHITE
    requires Without(name, COLON) && Without(value, EOL)
    ensures OneField(s, i) == Field(name, value, i + |name| + 1 + |w| + |value| + 2) <==> |w| == 1
  {
    var end := ['\r'] + (['\n'] + rest);
    if w != "" {
      assert w + (value + end) == [w[0]] + ((w[1..] + value) + end);
      assert forall c :: c in w[1..] ==> c in w;
      OneFieldAt(s, i, name, w[0], w[1..] + value, rest);
      assert |w[1..] + value| == |w| - 1 + |value|;
      if |w| == 1 { assert w[1..] + value == value; }
    } else {
      assert w + (value + end) == value + end;
      NoSpace(s, i, name, value, rest);
    }
  }

  /** Without the space the first character of the value is lost, or, if there is none, that of the
      next line. */
  lemma NoSpace(s: string, i: nat, name: string, value: string, rest: string)
    requires Ends(s, i, name + ([':'] + (value + (['\r'] + (['\n'] + rest)))))
    requires Without(name, COLON) && Without(value, EOL)
    ensures OneField(s, i) == if value == "" then Field(name, "", i + |name| + 4)
                              else Field(name, value[1..], i + |name| + 1 + |value| + 2)
  {
    var end := ['\r'] + (['\n'] + rest);
    if value != "" {
      assert value + end == [value[0]] + (value[1..] + end);
      assert forall c :: c in value[1..] ==> c in value;
      OneFieldAt(s, i, name, value[0], value[1..], rest);
    } else {
      assert value + end == ['\r'] + ("" + (['\n'] + rest));
      EmptyValue(s, i, name, rest);
    }
  }

  lemma EmptyValue(s: string, i: nat, name: string, rest: string)
    requires Ends(s, i, name + ([':'] + (['\r'] + (['\n'] + rest)))) && Without(name, COLON)
    ensures OneField(s, i) == Field(name, "", i + |name| + 4)
  {
    TokenThen(s, i, name, ':', ['\r'] + (['\n'] + rest), COLON);
    Split(s, i + |name| + 1, ['\r'], ['\n'] + rest);
    Split(s, i + |name| + 2, ['\n'], rest);
    hide Ends, Without, Reads;
    assert Reads(s, i + |name| + 2, ['\n']);
    NewLineAt(s, i + |name| + 2);
  }

  lemma NewLineAt(s: string, j: nat)
    requires Reads(s, j, ['\n'])
    ensures Scan(s, j, EOL) == j
  {
    assert s[j + 0] == ['\n'][0];
  }

  ghost predicate Printable(fields: seq<(string, string)>) {
    forall i :: 0 <= i < |fields| ==> PrintableField(fields[i].0, fields[i].1)
  }

  /** The name has no colon and does not begin like a blank line, and the value is one line. */
  predicate PrintableField(name: string, value: string) {
    Without(name, COLON) && (name != "" ==> name[0] !in EOL) && Without(value, EOL)
  }

  lemma FirstOfName(s: string, i: nat, name: string, rest: string)
    requires Ends(s, i, name + ([':'] + rest))
    ensures i < |s| && (s[i] !in EOL <==> (name != "" ==> name[0] !in EOL))
  {
    assert s[i] == s[i..][0];
  }

  lemma NoFields(s: string, i: nat, rest: string)
    requires Ends(s, i, ['\r'] + rest)
    ensures Fields(s, i) == ([], i + 1)
  {
    assert s[i] == s[i..][0];
  }

  lemma NonePrinted(rest: string)
    ensures FieldsText([], rest) == rest
  {
  }

  /** A printed field at `i` comes back exactly when it is printable, and then what follows it. */
  lemma FirstField(s: string, i: nat, name: string, value: string, tail: string)
    requires Ends(s, i, name + ([':'] + ([' '] + (value + (['\r'] + (['\n'] + tail))))))
    ensures var j := i + |name| + |value| + 4;
            && (PrintableField(name, value) ==>
                  Ends(s, j, tail) && Fields(s, i) == ([(name, value)] + Fields(s, j).0, Fields(s, j).1))
            && (Fields(s, i).0 != [] && Fields(s, i).0[0] == (name, value) ==> PrintableField(name, value))
  {
    hide Without, Fields, Ends, Scan, Piece, Reads;
    var rest := [' '] + (value + (['\r'] + (['\n'] + tail)));
    FirstOfName(s, i, name, rest);
    TokenThen(s, i, name, ':', rest, COLON);
    Split(s, i + |name| + 1, [' '], value + (['\r'] + (['\n'] + tail)));
    TokenThen(s, i + |name| + 2, value, '\r', ['\n'] + tail, EOL);
    Split(s, i + |name| + 2 + |value| + 1, ['\n'], tail);
    if s[i] !in EOL { FieldsUnfold(s, i, OneField(s, i)); } else { BlankLine(s, i); }
  }

  lemma BlankLine(s: string, i: nat)
    requires i < |s| && s[i] in EOL
    ensures Fields(s, i).0 == []
  {
  }

  lemma FirstPrinted(s: string, i: nat, fields: seq<(string, string)>, rest: string)
    requires Ends(s, i, FieldsText(fields, rest)) && fields != []
    ensures var j := i + |fields[0].0| + |fields[0].1| + 4;
            && (PrintableField(fields[0].0, fields[0].1) ==>
                  Ends(s, j, FieldsText(fields[1..], rest)) && Fields(s, i) == ([fields[0]] + Fields(s, j).0, Fields(s, j).1))
            && (Fields(s, i).0 != [] && Fields(s, i).0[0] == fields[0] ==> PrintableField(fields[0].0, fields[0].1))
  {
    hide PrintableField, Fields, Ends;
    FirstField(s, i, fields[0].0, fields[0].1, FieldsText(fields[1..], rest));
  }

  lemma PrintableTail(fields: seq<(string, string)>)
    requires fields != []
    ensures Printable(fields) <==> PrintableField(fields[0].0, fields[0].1) && Printable(fields[1..])
  {
    hide PrintableField;
    var t := fields[1..];
    assert forall i :: 0 <= i < |t| ==> t[i] == fields[i + 1];
    assert forall i :: 0 < i < |fields| ==> fields[i] == t[i - 1];
  }

  lemma NoneInverts(s: string, i: nat, rest: string)
    requires Ends(s, i, FieldsText([], ['\r'] + rest))
    ensures Fields(s, i).0 == [] && Printable([]) && Ends(s, Fields(s, i).1, rest)
  {
    NonePrinted(['\r'] + rest);
    NoFields(s, i, rest);
  }

  lemma InvertsNext(s: string, i: nat, fields: seq<(string, string)>, rest: string)
    requires Ends(s, i, FieldsText(fields, rest)) && fields != []
    requires var j := i + |fields[0].0| + |fields[0].1| + 4;
             PrintableField(fields[0].0, fields[0].1) ==> (Fields(s, j).0 == fields[1..] <==> Printable(fields[1..]))
    ensures Fields(s, i).0 == fields <==> Printable(fields)
  {
    hide PrintableField, Printable, Fields, FieldsText, Ends;
    var f := fields[0];
    PrintableTail(fields);
    FirstPrinted(s, i, fields, rest);
    HeadAndTail(Fields(s, i).0, fields, Fields(s, i + |f.0| + |f.1| + 4).0, PrintableField(f.0, f.1), Printable(fields[1..]));
  }

  /** Fields come back, in order, up to the blank line, exactly when all of them are printable. The
      parser then stops behind the first character of that line. */
  lemma {:induction false} FieldsInvert(s: string, i: nat, fields: seq<(string, string)>, rest: string)
    requires Ends(s, i, FieldsText(fields, ['\r'] + rest))
    ensures Fields(s, i).0 == fields <==> Printable(fields)
    ensures Printable(fields) ==> Ends(s, Fields(s, i).1, rest)
    decreases |fields|
  {
    hide PrintableField, Printable, Fields, FieldsText, Ends;
    if fields == [] {
      NoneInverts(s, i, rest);
    } else {
      FirstPrinted(s, i, fields, ['\r'] + rest);
      PrintableTail(fields);
      if PrintableField(fields[0].0, fields[0].1) {
        FieldsInvert(s, i + |fields[0].0| + |fields[0].1| + 4, fields[1..], rest);
      }
      InvertsNext(s, i, fields, ['\r'] + rest);
    }
  }

  /** A list is as expected when its head and its tail are. */
  lemma HeadAndTail(r: seq<(string, string)>, fields: seq<(string, string)>, u: seq<(string, string)>, head: bool, tail: bool)
    requires fields != []
    requires head ==> r == [fields[0]] + u && (u == fields[1..] <==> tail)
    requires r != [] && r[0] == fields[0] ==> head
    ensures r == fields <==> head && tail
  {
    assert fields == [fields[0]] + fields[1..];
    assert head ==> r[1..] == u;
  }

  /** Field `i` is the last one with its name. */
  ghost predicate LastOfName(fields: seq<(string, string)>, i: nat)
    requires i < |fields|
  {
    forall j :: i < j < |fields| ==> fields[j].0 != fields[i].0
  }

  ghost predicate Named(fields: seq<(string, string)>, n: string) {
    exists i :: 0 <= i < |fields| && fields[i].0 == n
  }

  /** The map holds exactly the names given, each with the last of its values. */
  lemma {:induction false} LastValueWins(m: map<string, string>, fields: seq<(string, string)>, n: string)
    ensures n in Assigned(m, fields) <==> n in m || Named(fields, n)
    ensures n in m && !Named(fields, n) ==> Assigned(m, fields)[n] == m[n]
    ensures forall i {:trigger LastOfName(fields, i)} :: 0 <= i < |fields| && LastOfName(fields, i) && fields[i].0 == n ==>
              Assigned(m, fields)[n] == fields[i].1
    decreases |fields|
  {
    if fields != [] {
      var t := fields[1..];
      assert forall j :: 0 < j < |fields| ==> fields[j] == t[j - 1];
      assert forall j :: 0 <= j < |t| ==> t[j] == fields[j + 1];
      LastValueWins(m[fields[0].0 := fields[0].1], t, n);
      forall i | 0 <= i < |fields| && LastOfName(fields, i) && fields[i].0 == n
        ensures Assigned(m, fields)[n] == fields[i].1
      {
        if i > 0 { assert LastOfName(t, i - 1); }
      }
    }
  }

  /** Parsing what was printed gives back every part, whatever the body is, exactly when no part
      contains what ends it and no field begins like a blank line. */
  lemma ParseInverts(req: string, uri: string, version: string, fields: seq<(string, string)>, body: string)
    ensures var s := Print(req, uri, version, fields, body);
            var l := RequestLine(s, 0);
            (l.req == req && l.uri == uri && l.version == version && Fields(s, l.index).0 == fields) <==>
            (Without(req, SPACE) && Without(uri, SPACE) && Without(version, EOL) && Printable(fields))
  {
    var s := Print(req, uri, version, fields, body);
    assert Ends(s, 0, s);
    hide Scan, Without, RequestLine, Fields, LineText, FieldsText, Ends, Printable;
    RequestLineAt(s, 0, req, uri, version, FieldsText(fields, ['\r'] + (['\n'] + body)));
    if Without(req, SPACE) && Without(uri, SPACE) && Without(version, EOL) {
      FieldsInvert(s, RequestLine(s, 0).index, fields, ['\n'] + body);
    }
  }

  // ----- what section 5 of RFC 9112 allows and the parser does not take

  lemma NoSpaceShapes()
    ensures Ends("Connection:keep-alive\r\n\r\n", 0, "Connection" + ([':'] + ("keep-alive" + (['\r'] + (['\n'] + "\r\n")))))
    ensures Ends("X:\r\nB: c\r\n\r\n", 0, "X" + ([':'] + ("" + (['\r'] + (['\n'] + "B: c\r\n\r\n")))))
    ensures Ends("X:\r\nB: c\r\n\r\n", 5, "" + ([':'] + ([' '] + ("c" + (['\r'] + (['\n'] + "\r\n"))))))
    ensures Without("Connection", COLON) && Without("keep-alive", EOL) && Without("X", COLON) && Without("", EOL)
    ensures Without("", COLON) && Without("c", EOL)
  {
  }

  /** Without the space "keep-alive" is not recognised. */
  lemma SpaceMatters()
    ensures Fields("Connection:keep-alive\r\n\r\n", 0).0 == [("Connection", "eep-alive")]
  {
    NoSpaceShapes();
    hide Ends, Without, Fields, OneField, Scan;
    var s := "Connection:keep-alive\r\n\r\n";
    NoSpace(s, 0, "Connection", "keep-alive", "\r\n");
    assert "keep-alive"[1..] == "eep-alive";
    BlankLine(s, 23);
    FieldsUnfold(s, 0, OneField(s, 0));
  }

  /** An empty value right after the colon costs the next field its name. */
  lemma EmptyValueMatters()
    ensures Fields("X:\r\nB: c\r\n\r\n", 0).0 == [("X", ""), ("", "c")]
  {
    NoSpaceShapes();
    hide Ends, Without, Fields, OneField, Scan;
    var s := "X:\r\nB: c\r\n\r\n";
    NoSpace(s, 0, "X", "", "B: c\r\n\r\n");
    OneFieldAt(s, 5, "", ' ', "c", "\r\n");
    BlankLine(s, 10);
    FieldsUnfold(s, 5, OneField(s, 5));
    FieldsUnfold(s, 0, OneField(s, 0));
  }
}
