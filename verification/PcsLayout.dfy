/** The blocks of src/eth/tb/baser.py in numbers: the type of every block and which of its bits are
    which lane's. */
module PcsLayout {
  import opened Base
  import opened PcsCodec
  import opened PcsMac

  /** A sequence or signal ordered set. */
  predicate Ordered(l: Lane) {
    l == Lane(0x9c, true) || l == Lane(0x5c, true)
  }

  /** The eight bits behind the header of a block that is not all data. */
  function Kind(l: Lanes): bv8 {
    if l[0] == Lane(0xfb, true) && AllData(l, 1, 8) then 0x78
    else if l[4] == Lane(0xfb, true) && AllData(l, 5, 8) then if Ordered(l[0]) && AllData(l, 1, 4) then 0x66 else 0x33
    else if Ordered(l[0]) && AllData(l, 1, 4) then if Ordered(l[4]) && AllData(l, 5, 8) then 0x55 else 0x4b
    else if Ordered(l[4]) && AllData(l, 5, 8) then 0x2d
    else if l[0] == Lane(0xfd, true) then 0x87
    else if l[1] == Lane(0xfd, true) && AllData(l, 0, 1) then 0x99
    else if l[2] == Lane(0xfd, true) && AllData(l, 0, 2) then 0xaa
    else if l[3] == Lane(0xfd, true) && AllData(l, 0, 3) then 0xb4
    else if l[4] == Lane(0xfd, true) && AllData(l, 0, 4) then 0xcc
    else if l[5] == Lane(0xfd, true) && AllData(l, 0, 5) then 0xd2
    else if l[6] == Lane(0xfd, true) && AllData(l, 0, 6) then 0xe1
    else if l[7] == Lane(0xfd, true) && AllData(l, 0, 7) then 0xff
    else 0x1e
  }

  // What stands at bit p of a block.

  /** Octet p / 8 of the block is that of a lane. */
  predicate Octet(l: Lanes, i: int, p: int) {
    0 <= i < 8 && Bit(l[i].d, p % 8)
  }

  /** Seven bits for every lane, from bit `at` on. */
  predicate Code(l: Lanes, at: int, p: int) {
    at <= p < at + 56 && Bit(ToCode(l[(p - at) / 7].d), (p - at) % 7)
  }

  /** With a terminate character in lane k: the octets before it, and the codes of the lanes behind it. */
  predicate TermBit(l: Lanes, k: nat, p: int) {
    if p < 8 * (k + 1) then Octet(l, p / 8 - 1, p) else p >= 15 + 7 * k && Code(l, 8, p)
  }

  predicate BitAt(l: Lanes, kind: bv8, p: int) {
    if p < 8 then Bit(kind, p)
    else if kind == 0x78 then Octet(l, p / 8, p)
    else if kind == 0x33 then if p < 36 then Code(l, 8, p) else p >= 40 && Octet(l, p / 8, p)
    else if kind == 0x66 || kind == 0x55 then
      if 32 <= p < 36 then l[0].d == 0x5c
      else if 36 <= p < 40 then kind == 0x55 && l[4].d == 0x5c
      else Octet(l, p / 8, p)
    else if kind == 0x4b then
      if p < 32 then Octet(l, p / 8, p) else if p < 36 then l[0].d == 0x5c else Code(l, 40, p)
    else if kind == 0x2d then
      if p < 36 then Code(l, 8, p) else if p < 40 then l[4].d == 0x5c else Octet(l, p / 8, p)
    else if kind == 0x87 then TermBit(l, 0, p)
    else if kind == 0x99 then TermBit(l, 1, p)
    else if kind == 0xaa then TermBit(l, 2, p)
    else if kind == 0xb4 then TermBit(l, 3, p)
    else if kind == 0xcc then TermBit(l, 4, p)
    else if kind == 0xd2 then TermBit(l, 5, p)
    else if kind == 0xe1 then TermBit(l, 6, p)
    else if kind == 0xff then TermBit(l, 7, p)
    else Code(l, 8, p)
  }

  // ---- every bit of every block ----

  lemma CodesAt(bt: bv8, l: Lanes, from: nat, to: nat, at: nat, p: int)
    requires from <= to <= 8 && 8 <= at && 0 <= p < 64
    ensures WithCodes(bt, l, from, to, at)[p]
      == if p < 8 then Bit(bt, p) else at + 7 * from <= p < at + 7 * to && Code(l, at, p)
  {
    assert p >= 8 ==> !Bit(bt, p);
  }

  lemma LanesAt(base: Word, l: Lanes, from: nat, to: nat, lift: nat, p: int)
    requires from <= to <= 8 && 0 <= p < 64
    ensures WithLanes(base, l, from, to, lift)[p] == (base[p] || (from + lift <= p / 8 < to + lift && Octet(l, p / 8 - lift, p)))
  {
  }

  lemma SigAt(base: Word, l: Lane, at: nat, p: int)
    requires 0 <= p < 64
    ensures WithSig(base, l, at)[p] == (base[p] || (l.d == 0x5c && at <= p < at + 4))
  {
    if p < at || at + 4 <= p {
      OBits(p - at);
    } else {
      assert Bit(O_SIG, 0) && Bit(O_SIG, 1) && Bit(O_SIG, 2) && Bit(O_SIG, 3) && 0 <= p - at < 4;
    }
  }

  lemma TypeAt(bt: bv8, p: int)
    requires 0 <= p < 64
    ensures At(bt, 0)[p] == (p < 8 && Bit(bt, p))
  {
    assert p >= 8 ==> !Bit(bt, p - 0);
  }

  lemma TermBits(l: Lanes, k: nat, p: int)
    requires k < 8 && 0 <= p < 64
    ensures EncodeTerm(l, k)[p] == if p < 8 then Bit(BtTerm(k), p) else TermBit(l, k, p)
  {
    CodesAt(BtTerm(k), l, k + 1, 8, 8, p);
    LanesAt(WithCodes(BtTerm(k), l, k + 1, 8, 8), l, 0, k, 1, p);
  }

  lemma Start0Bits(l: Lanes, p: int)
    requires 0 <= p < 64
    ensures WithLanes(At(0x78, 0), l, 1, 8, 0)[p] == BitAt(l, 0x78, p)
  {
    TypeAt(0x78, p);
    LanesAt(At(0x78, 0), l, 1, 8, 0, p);
  }

  lemma Start4Bits(l: Lanes, p: int)
    requires 0 <= p < 64
    ensures WithLanes(WithCodes(0x33, l, 0, 4, 8), l, 5, 8, 0)[p] == BitAt(l, 0x33, p)
  {
    CodesAt(0x33, l, 0, 4, 8, p);
    LanesAt(WithCodes(0x33, l, 0, 4, 8), l, 5, 8, 0, p);
  }

  lemma OsStartBits(l: Lanes, p: int)
    requires 0 <= p < 64
    ensures WithLanes(WithSig(WithLanes(At(0x66, 0), l, 1, 4, 0), l[0], 32), l, 5, 8, 0)[p] == BitAt(l, 0x66, p)
  {
    var a := WithLanes(At(0x66, 0), l, 1, 4, 0);
    TypeAt(0x66, p);
    LanesAt(At(0x66, 0), l, 1, 4, 0, p);
    SigAt(a, l[0], 32, p);
    LanesAt(WithSig(a, l[0], 32), l, 5, 8, 0, p);
  }

  lemma Os04Bits(l: Lanes, p: int)
    requires 0 <= p < 64
    ensures WithSig(WithLanes(WithSig(WithLanes(At(0x55, 0), l, 5, 8, 0), l[4], 36), l, 1, 4, 0), l[0], 32)[p] == BitAt(l, 0x55, p)
  {
    var a := WithLanes(At(0x55, 0), l, 5, 8, 0);
    var b := WithSig(a, l[4], 36);
    TypeAt(0x55, p);
    LanesAt(At(0x55, 0), l, 5, 8, 0, p);
    SigAt(a, l[4], 36, p);
    LanesAt(b, l, 1, 4, 0, p);
    SigAt(WithLanes(b, l, 1, 4, 0), l[0], 32, p);
  }

  lemma Os0Bits(l: Lanes, p: int)
    requires 0 <= p < 64
    ensures WithSig(WithLanes(WithCodes(0x4b, l, 0, 4, 40), l, 1, 4, 0), l[0], 32)[p] == BitAt(l, 0x4b, p)
  {
    var a := WithCodes(0x4b, l, 0, 4, 40);
    CodesAt(0x4b, l, 0, 4, 40, p);
    LanesAt(a, l, 1, 4, 0, p);
    SigAt(WithLanes(a, l, 1, 4, 0), l[0], 32, p);
  }

  lemma Os4Bits(l: Lanes, p: int)
    requires 0 <= p < 64
    ensures WithSig(WithLanes(WithCodes(0x2d, l, 0, 4, 8), l, 5, 8, 0), l[4], 36)[p] == BitAt(l, 0x2d, p)
  {
    var a := WithCodes(0x2d, l, 0, 4, 8);
    CodesAt(0x2d, l, 0, 4, 8, p);
    LanesAt(a, l, 5, 8, 0, p);
    SigAt(WithLanes(a, l, 5, 8, 0), l[4], 36, p);
  }

  lemma StartBits(l: Lanes, p: int)
    requires 0 <= p < 64 && (Start0(l) || Start4(l))
    ensures EncodeControl(l)[p] == BitAt(l, Kind(l), p)
  {
    if Start0(l) {
      Start0Bits(l, p);
    } else if Os0(l) {
      OsStartBits(l, p);
    } else {
      Start4Bits(l, p);
    }
  }

  lemma SetBits(l: Lanes, p: int)
    requires 0 <= p < 64 && !Start0(l) && !Start4(l) && (Os0(l) || Os4(l))
    ensures EncodeControl(l)[p] == BitAt(l, Kind(l), p)
  {
    if Os0(l) && Os4(l) {
      Os04Bits(l, p);
    } else if Os0(l) {
      Os0Bits(l, p);
    } else {
      Os4Bits(l, p);
    }
  }

  lemma TermKind(l: Lanes, k: nat)
    requires k < 8 && TermAt(l, k) && !Start0(l) && !Start4(l) && !Os0(l) && !Os4(l)
    ensures EncodeControl(l) == EncodeTerm(l, k) && Kind(l) == BtTerm(k)
  {
    assert forall j :: 0 <= j < 8 && TermAt(l, j) ==> j == k;
  }

  lemma TermBitAt(l: Lanes, k: nat, p: int)
    requires k < 8
    ensures BitAt(l, BtTerm(k), p) == if p < 8 then Bit(BtTerm(k), p) else TermBit(l, k, p)
  {
  }

  lemma ControlKind(l: Lanes)
    requires !Start0(l) && !Start4(l) && !Os0(l) && !Os4(l) && forall k :: 0 <= k < 8 ==> !TermAt(l, k)
    ensures EncodeControl(l) == WithCodes(0x1e, l, 0, 8, 8) && Kind(l) == 0x1e
  {
    assert !TermAt(l, 0) && !TermAt(l, 1) && !TermAt(l, 2) && !TermAt(l, 3);
    assert !TermAt(l, 4) && !TermAt(l, 5) && !TermAt(l, 6) && !TermAt(l, 7);
  }

  lemma EndBits(l: Lanes, k: nat, p: int)
    requires k < 8 && TermAt(l, k) && !Start0(l) && !Start4(l) && !Os0(l) && !Os4(l) && 0 <= p < 64
    ensures EncodeControl(l)[p] == BitAt(l, Kind(l), p)
  {
    TermKind(l, k);
    TermBits(l, k, p);
    TermBitAt(l, k, p);
  }

  lemma EndOrControl(l: Lanes, p: int)
    requires 0 <= p < 64 && !Start0(l) && !Start4(l) && !Os0(l) && !Os4(l)
    ensures EncodeControl(l)[p] == BitAt(l, Kind(l), p)
  {
    if k :| 0 <= k < 8 && TermAt(l, k) {
      EndBits(l, k, p);
    } else {
      ControlKind(l);
      CodesAt(0x1e, l, 0, 8, 8, p);
    }
  }

  /** Header 2 stands before eight octets in order, header 1 before a type and what belongs to it. */
  lemma EveryBit(l: Lanes, p: int)
    requires 0 <= p < 64
    ensures Encode(l).hdr == if AllData(l, 0, 8) then 2 else 1
    ensures Encode(l).data[p] == if AllData(l, 0, 8) then Bit(l[p / 8].d, p % 8) else BitAt(l, Kind(l), p)
  {
    if AllData(l, 0, 8) {
      LanesAt(Zero(), l, 0, 8, 0, p);
    } else if Start0(l) || Start4(l) {
      StartBits(l, p);
    } else if Os0(l) || Os4(l) {
      SetBits(l, p);
    } else {
      EndOrControl(l, p);
    }
  }

  /** The first eight bits as a number. */
  lemma BlockType(l: Lanes)
    requires !AllData(l, 0, 8)
    ensures Field(Encode(l).data, 0, 8) == Kind(l)
  {
    forall b | 0 <= b < 8
      ensures Encode(l).data[b] == Bit(Kind(l), b)
    {
      EveryBit(l, b);
    }
    FieldIs(Encode(l).data, 0, 8, Kind(l));
  }

  // ---- numbers ----

  /** Bit i of an octet. */
  lemma BitIs(d: bv8, i: nat)
    requires i < 8
    ensures Bit(d, i) <==> (d >> i) & 1 == 1
  {
  }

  /** The codes of control characters, and the characters of codes. */
  lemma CodeNumbers(d: bv8)
    ensures ToCode(0x07) == 0x00 && ToCode(0x06) == 0x06 && ToCode(0x1c) == 0x2d && ToCode(0x3c) == 0x33
    ensures ToCode(0x7c) == 0x4b && ToCode(0xbc) == 0x55 && ToCode(0xdc) == 0x66 && ToCode(0xf7) == 0x78
    ensures FromCode(0x00) == 0x07 && FromCode(0x06) == 0x06 && FromCode(0x2d) == 0x1c && FromCode(0x33) == 0x3c
    ensures FromCode(0x4b) == 0x7c && FromCode(0x55) == 0xbc && FromCode(0x66) == 0xdc && FromCode(0x78) == 0xf7
    ensures d !in {0x07, 0x06, 0x1c, 0x3c, 0x7c, 0xbc, 0xdc, 0xf7} ==> ToCode(d) == 0x1e
    ensures d !in {0x00, 0x06, 0x2d, 0x33, 0x4b, 0x55, 0x66, 0x78} ==> FromCode(d) == 0xfe
  {
  }

  // ---- frames ----

  /** What a frame is: eight octets or more, the first of them 0x55. */
  lemma FrameIs(f: seq<Lane>)
    ensures Sendable(f) <==> |f| >= 8 && f[0] == Lane(0x55, false) && forall i :: 0 <= i < |f| ==> !f[i].c
  {
  }

  lemma {:induction false} Octets(r: Rx, f: seq<Lane>)
    requires r.frame.Some? && forall i :: 0 <= i < |f| ==> !f[i].c
    ensures TakeAll(r, f) == Rx(Some(r.frame.value + f), r.done)
  {
    if f == [] {
      Alone(r.frame.value);
    } else {
      var n := |f| - 1;
      Octets(r, f[..n]);
      Regrouped(r.frame.value, f[..n], [f[n]]);
      assert f[..n] + [f[n]] == f;
    }
  }

  /** A frame on the lanes: the start character in the place of its first octet, the other octets, and
      the terminate character. Another control character ends it and is kept. */
  lemma FrameOnLanes(f: seq<Lane>, done: seq<seq<Lane>>, end: bv8)
    requires Sendable(f)
    ensures TakeAll(Rx(None, done), [Lane(0xfb, true)] + f[1..] + [Lane(end, true)])
      == Rx(None, done + [if end == 0xfd then f else f + [Lane(end, true)]])
  {
    var first, rest := [Lane(0xfb, true)], f[1..];
    var open := Rx(Some([Lane(0x55, false)]), done);
    assert first[..0] == [] && TakeAll(Rx(None, done), first) == open;
    TakeBoth(Rx(None, done), first, rest);
    Octets(open, rest);
    assert [Lane(0x55, false)] + rest == f;
    assert (first + rest + [Lane(end, true)])[..|f|] == first + rest;
  }

  lemma {:induction false} TakeBoth(r: Rx, x: seq<Lane>, y: seq<Lane>)
    ensures TakeAll(r, x + y) == TakeAll(TakeAll(r, x), y)
  {
    if y == [] {
      assert x + y == x;
    } else {
      var n := |y| - 1;
      TakeBoth(r, x, y[..n]);
      assert (x + y)[..|x| + n] == x + y[..n];
    }
  }
}
