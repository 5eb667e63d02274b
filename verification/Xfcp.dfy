/** XFCP frames (src/xfcp/tb/xfcp.py): a path, an optional return path, a type byte
    and a payload, laid out as bytes and stuffed with COBS. */
module Xfcp {
  import opened Base
  import Cobs

  datatype Frame = Frame(path: seq<byte>, rpath: seq<byte>, ptype: byte, payload: seq<byte>)

  /** IndexError, the failed assert on the 0xFF marker, and bytes(None). */
  datatype Error = IndexError | AssertionError | TypeError

  const RPATH_MARK: byte := 0xFE
  const END_MARK: byte := 0xFF

  function Build(f: Frame): seq<byte> {
    f.path + (if f.rpath != [] then [RPATH_MARK] + f.rpath else []) + [END_MARK, f.ptype] + f.payload
  }

  function BuildCobs(f: Frame): seq<byte> {
    Cobs.Encode(Build(f)) + [0]
  }

  /** Length of the leading bytes below 0xFE. */
  function Hops(d: seq<byte>): (n: nat)
    ensures n <= |d|
    ensures forall i :: 0 <= i < n ==> d[i] < RPATH_MARK
    ensures n < |d| ==> d[n] >= RPATH_MARK
  {
    if d == [] || d[0] >= RPATH_MARK then 0 else 1 + Hops(d[1..])
  }

  function ParseTail(path: seq<byte>, rpath: seq<byte>, d: seq<byte>): Result<Frame, Error> {
    if d == [] then Raised(IndexError)
    else if d[0] != END_MARK then Raised(AssertionError)
    else if |d| == 1 then Raised(IndexError)
    else Ok(Frame(path, rpath, d[1], d[2..]))
  }

  function Parse(d: seq<byte>): Result<Frame, Error> {
    var n := Hops(d);
    if n == |d| then Raised(IndexError)
    else if d[n] == RPATH_MARK then
      var r := d[n..][1..];
      ParseTail(d[..n], r[..Hops(r)], r[Hops(r)..])
    else ParseTail(d[..n], [], d[n..])
  }

  function ParseCobs(d: seq<byte>): Result<Frame, Error> {
    match Cobs.Decode(d)
    case None => Raised(TypeError)
    case Some(b) => Parse(b)
  }

  method BuildFrame(f: Frame) returns (data: seq<byte>)
    ensures data == Build(f)
    ensures data == f.path + (if f.rpath == [] then [] else [0xFE] + f.rpath) + [0xFF, f.ptype] + f.payload
  {
    data := [];
    for i := 0 to |f.path|
      invariant data == f.path[..i]
    {
      data := data + [f.path[i]];
    }
    ghost var head := data;
    if f.rpath != [] {
      data := data + [RPATH_MARK];
      for i := 0 to |f.rpath|
        invariant data == head + [RPATH_MARK] + f.rpath[..i]
      {
        data := data + [f.rpath[i]];
      }
      assert data == head + ([RPATH_MARK] + f.rpath);
    } else {
      assert data == head + [];
    }
    data := data + [END_MARK];
    data := data + [f.ptype];
    data := data + f.payload;
  }

  predicate BelowMarks(p: seq<byte>) {
    forall i :: 0 <= i < |p| ==> p[i] < RPATH_MARK
  }

  predicate Routable(f: Frame) {
    BelowMarks(f.path) && BelowMarks(f.rpath)
  }

  lemma HopsIs(d: seq<byte>, n: nat)
    requires n <= |d| && (n < |d| ==> d[n] >= RPATH_MARK)
    requires forall i :: 0 <= i < n ==> d[i] < RPATH_MARK
    ensures Hops(d) == n
  {
  }

  /** What the rest of the parse is, once the path has been read. */
  lemma AfterPath(d: seq<byte>, n: nat)
    requires n < |d| && d[n] >= RPATH_MARK
    requires forall i :: 0 <= i < n ==> d[i] < RPATH_MARK
    ensures d[n] != RPATH_MARK ==> Parse(d) == ParseTail(d[..n], [], d[n..])
  {
    HopsIs(d, n);
  }

  lemma AfterReturnPath(d: seq<byte>, n: nat, m: nat)
    requires n < m <= |d| && d[n] == RPATH_MARK && (m < |d| ==> d[m] >= RPATH_MARK)
    requires forall i :: 0 <= i < n ==> d[i] < RPATH_MARK
    requires forall i :: n < i < m ==> d[i] < RPATH_MARK
    ensures Parse(d) == ParseTail(d[..n], d[n + 1..m], d[m..])
  {
    HopsIs(d, n);
    var r := d[n..][1..];
    HopsIs(r, m - n - 1);
    assert r[..m - n - 1] == d[n + 1..m] && r[m - n - 1..] == d[m..];
  }

  /** Bytes below the markers, from one on. */
  method ScanHops(data: seq<byte>, from: nat) returns (hops: seq<byte>, i: nat)
    requires from <= |data|
    ensures from <= i <= |data| && hops == data[from..i]
    ensures forall j :: from <= j < i ==> data[j] < RPATH_MARK
    ensures i < |data| ==> data[i] >= RPATH_MARK
  {
    i := from;
    hops := [];
    while i < |data| && data[i] < RPATH_MARK
      invariant from <= i <= |data| && hops == data[from..i]
      invariant forall j :: from <= j < i ==> data[j] < RPATH_MARK
    {
      assert data[from..i + 1] == data[from..i] + [data[i]];
      hops := hops + [data[i]];
      i := i + 1;
    }
  }

  method ParseFrame(data: seq<byte>) returns (res: Result<Frame, Error>)
    ensures res == Parse(data)
  {
    var path, i := ScanHops(data, 0);
    var rpath: seq<byte> := [];
    if i == |data| {
      HopsIs(data, i);
      return Raised(IndexError);
    }
    if data[i] == RPATH_MARK {
      ghost var n := i;
      rpath, i := ScanHops(data, i + 1);
      AfterReturnPath(data, n, i);
    } else {
      AfterPath(data, i);
    }
    ghost var tail := data[i..];
    assert Parse(data) == ParseTail(path, rpath, tail);
    if i == |data| {
      return Raised(IndexError);
    }
    if data[i] != END_MARK {
      return Raised(AssertionError);
    }
    i := i + 1;
    if i == |data| {
      return Raised(IndexError);
    }
    var ptype := data[i];
    i := i + 1;
    var payload := data[i..];
    assert tail[2..] == payload;
    res := Ok(Frame(path, rpath, ptype, payload));
  }

  lemma HopsOf(p: seq<byte>, rest: seq<byte>)
    requires BelowMarks(p)
    requires rest != [] && rest[0] >= RPATH_MARK
    ensures Hops(p + rest) == |p| && (p + rest)[..|p|] == p && (p + rest)[|p|..] == rest
  {
    var d := p + rest;
    assert d[|p|] == rest[0];
  }

  /** The two shapes of frame data, taken apart by the parser. */
  lemma ParseDirect(path: seq<byte>, tail: seq<byte>)
    requires BelowMarks(path)
    requires tail != [] && tail[0] == END_MARK
    ensures Parse(path + tail) == ParseTail(path, [], tail)
  {
    HopsOf(path, tail);
    assert (path + tail)[|path|] == tail[0];
  }

  lemma ParseReturning(path: seq<byte>, rpath: seq<byte>, tail: seq<byte>)
    requires BelowMarks(path) && BelowMarks(rpath)
    requires tail != [] && tail[0] == END_MARK
    ensures Parse(path + ([RPATH_MARK] + (rpath + tail))) == ParseTail(path, rpath, tail)
  {
    var r := rpath + tail;
    HopsOf(path, [RPATH_MARK] + r);
    assert ([RPATH_MARK] + r)[1..] == r;
    HopsOf(rpath, tail);
  }

  function Trailer(f: Frame): (t: seq<byte>)
    ensures |t| >= 2 && t[0] == END_MARK && t[1] == f.ptype && t[2..] == f.payload
  {
    [END_MARK, f.ptype] + f.payload
  }

  lemma TrailerParses(f: Frame)
    ensures ParseTail(f.path, f.rpath, Trailer(f)) == Ok(f)
  {
  }

  lemma BuildShape(f: Frame)
    ensures Build(f) ==
      if f.rpath == [] then f.path + Trailer(f) else f.path + ([RPATH_MARK] + (f.rpath + Trailer(f)))
  {
  }

  /** Every accepted byte string is a frame's trailer behind its paths. */
  lemma ParsedShape(d: seq<byte>) returns (f: Frame)
    requires Parse(d).Ok?
    ensures Parse(d) == Ok(f) && Routable(f)
    ensures |f.path| == Hops(d) < |d| && d[..|f.path|] == f.path
    ensures if d[|f.path|] == RPATH_MARK then d[|f.path| + 1..] == f.rpath + Trailer(f)
      else f.rpath == [] && d[|f.path|..] == Trailer(f)
  {
    f := Parse(d).value;
    var n := Hops(d);
    if d[n] == RPATH_MARK {
      ReturningShape(d, n);
    } else {
      TailShape(d[..n], [], d[n..]);
    }
  }

  lemma ReturningShape(d: seq<byte>, n: nat)
    requires Parse(d).Ok? && n == Hops(d) && d[n] == RPATH_MARK
    ensures var f := Parse(d).value; f.path == d[..n] && BelowMarks(f.rpath) && d[n + 1..] == f.rpath + Trailer(f)
  {
    var r := d[n..][1..];
    var m := Hops(r);
    TailShape(d[..n], r[..m], r[m..]);
    InTwo(r, m);
    AfterMark(d, n);
  }

  lemma InTwo(d: seq<byte>, n: nat)
    requires n <= |d|
    ensures d == d[..n] + d[n..]
  {
  }

  lemma AfterMark(d: seq<byte>, n: nat)
    requires n < |d|
    ensures d[n..][1..] == d[n + 1..]
  {
  }

  lemma TailShape(path: seq<byte>, rpath: seq<byte>, t: seq<byte>)
    requires ParseTail(path, rpath, t).Ok?
    ensures var f := ParseTail(path, rpath, t).value; f.path == path && f.rpath == rpath && t == Trailer(f)
  {
    assert t == [t[0], t[1]] + t[2..];
  }

  /** Parsing undoes building for exactly the frames whose path bytes stay below 0xFE. */
  lemma RoundTrip(f: Frame)
    ensures Parse(Build(f)) == Ok(f) <==> Routable(f)
    ensures Routable(f) <==>
      (forall i :: 0 <= i < |f.path| ==> f.path[i] < 0xFE) && (forall i :: 0 <= i < |f.rpath| ==> f.rpath[i] < 0xFE)
  {
    BuildShape(f);
    TrailerParses(f);
    if Parse(Build(f)) == Ok(f) {
      var g := ParsedShape(Build(f));
    }
    if Routable(f) {
      if f.rpath == [] {
        ParseDirect(f.path, Trailer(f));
      } else {
        ParseReturning(f.path, f.rpath, Trailer(f));
      }
    }
  }

  /** Which byte strings are accepted, and as what. */
  lemma Accepts(d: seq<byte>, f: Frame)
    ensures Parse(d) == Ok(f) <==>
      && (forall i :: 0 <= i < |f.path| ==> f.path[i] < 0xFE) && (forall i :: 0 <= i < |f.rpath| ==> f.rpath[i] < 0xFE)
      && (d == f.path + [0xFE] + f.rpath + [0xFF, f.ptype] + f.payload
          || (f.rpath == [] && d == f.path + [0xFF, f.ptype] + f.payload))
  {
    var t := Trailer(f);
    TrailerParses(f);
    assert f.path + [0xFE] + f.rpath + [0xFF, f.ptype] + f.payload == f.path + ([0xFE] + (f.rpath + t));
    assert f.path + [0xFF, f.ptype] + f.payload == f.path + t;
    if Parse(d) == Ok(f) {
      var g := ParsedShape(d);
      CutAt(d, |f.path|);
    } else if Routable(f) {
      ParseReturning(f.path, f.rpath, t);
      if f.rpath == [] {
        ParseDirect(f.path, t);
      }
    }
  }

  /** Two return path marks before anything else from 0xFE on. */
  predicate TwoMarks(d: seq<byte>, n: int, m: int) {
    0 <= n < m < |d| && d[n] == 0xFE && d[m] == 0xFE && forall i :: 0 <= i < m && i != n ==> d[i] < 0xFE
  }

  lemma MarkedTwice(d: seq<byte>, n: int, m: int)
    requires TwoMarks(d, n, m)
    ensures Parse(d) == Raised(AssertionError)
  {
    AfterReturnPath(d, n, m);
  }

  lemma MarksOf(d: seq<byte>)
    requires Parse(d) == Raised(AssertionError)
    ensures exists n, m :: TwoMarks(d, n, m)
  {
    var n := Hops(d);
    var r := d[n..][1..];
    var m := n + 1 + Hops(r);
    assert forall i :: n < i < m ==> d[i] == r[i - n - 1];
    assert m < |d| && d[m] == r[Hops(r)..][0];
    assert TwoMarks(d, n, m);
  }

  /** The others run out of bytes, but for those with a second return path mark, which fail the assert. */
  lemma Refuses(d: seq<byte>)
    requires Parse(d).Raised?
    ensures Parse(d) == Raised(if exists n, m :: TwoMarks(d, n, m) then AssertionError else IndexError)
  {
    if Parse(d) == Raised(AssertionError) {
      MarksOf(d);
    } else if n, m :| TwoMarks(d, n, m) {
      MarkedTwice(d, n, m);
    }
  }

  lemma CutAt(d: seq<byte>, n: nat)
    requires n < |d|
    ensures d == d[..n] + d[n..] == d[..n] + ([d[n]] + d[n + 1..])
  {
  }

  /** Bytes a parsed frame is rebuilt to: the same ones, except that an announced
      but empty return path is not announced again. */
  lemma Rebuild(d: seq<byte>)
    requires Parse(d).Ok?
    ensures
      var f, n := Parse(d).value, Hops(d);
      Build(f) == if d[n] == RPATH_MARK && f.rpath == [] then d[..n] + d[n + 1..] else d
  {
    var f := ParsedShape(d);
    var n := |f.path|;
    BuildShape(f);
    CutAt(d, n);
    assert [] + Trailer(f) == Trailer(f);
  }

  /** The framed form survives the link exactly for routable frames, once the
      receiver has taken the zero delimiter off. */
  lemma CobsRoundTrip(f: Frame)
    ensures var w := BuildCobs(f); ParseCobs(w[..|w| - 1]) == Ok(f) <==> Routable(f)
  {
    var w := BuildCobs(f);
    assert w[..|w| - 1] == Cobs.Encode(Build(f));
    Cobs.RoundTrip(Build(f));
    RoundTrip(f);
  }

  /** With the delimiter left on, no frame built for the wire parses. */
  lemma DelimiterMustGo(f: Frame)
    ensures ParseCobs(BuildCobs(f)) == Raised(TypeError)
  {
    assert BuildCobs(f)[|Cobs.Encode(Build(f))|] == 0;
  }
}
