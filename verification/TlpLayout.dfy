/** The segmented TLP bus of src/pcie/tb/pcie_if.py in numbers: which bits of which signal carry
    what, and how many words a header announces. */
module TlpLayout {
  import opened Arith
  import opened Base
  import opened Packed
  import opened TlpSegments

  // ---- headers ----

  /** Four numbers above each other, each at its place. */
  function Assembled(low: nat, f: nat, g: nat, h: nat, k: nat, a: nat, b: nat, c: nat, d: nat): nat {
    MulNonNegative(f, Pow2(a));
    MulNonNegative(g, Pow2(b));
    MulNonNegative(h, Pow2(c));
    MulNonNegative(k, Pow2(d));
    low + f * Pow2(a) + g * Pow2(b) + h * Pow2(c) + k * Pow2(d)
  }

  /** A header by its fields: ten bits of length at 96, at 126 whether there is data, at 127 whether
      there is a prefix, and the rest of it. */
  function Header(low: nat, length: nat, mid: nat, data: nat, prefix: nat): nat {
    Assembled(low, length, mid, data, prefix, 96, 106, 126, 127)
  }

  predicate Fields(low: nat, length: nat, mid: nat, data: nat, prefix: nat) {
    low < Pow2(96) && length < Pow2(10) && mid < Pow2(20) && data < Pow2(1) && prefix < Pow2(1)
  }

  /** Every header below 2^128 is one of these. */
  lemma FieldsOf(hdr: nat) returns (low: nat, length: nat, mid: nat, data: nat, prefix: nat)
    requires hdr < Pow2(128)
    ensures Fields(low, length, mid, data, prefix) && hdr == Header(low, length, mid, data, prefix)
  {
    var x, a, b, c := hdr, 0, 0, 0;
    prefix, a := Split(hdr, 127, 1);
    data, b := Split(a, 126, 1);
    mid, c := Split(b, 106, 20);
    length, low := Split(c, 96, 10);
  }

  lemma Split(x: nat, at: nat, w: nat) returns (high: nat, low: nat)
    requires x < Pow2(at + w)
    ensures high < Pow2(w) && low < Pow2(at) && x == low + high * Pow2(at)
  {
    Pow2Sum(at, w);
    high, low := SplitAt(x, Pow2(at), Pow2(w));
  }

  lemma SplitAt(x: nat, p: nat, q: nat) returns (high: nat, low: nat)
    requires p > 0 && x < p * q
    ensures high < q && low < p && x == low + high * p
  {
    high, low := x / p, x % p;
    if high >= q {
      MulMonotone(p, q, high);
    }
  }

  /** Two fields among others. */
  lemma FieldsRead(low: nat, length: nat, mid: nat, data: nat, prefix: nat, a: nat, v: nat, b: nat, c: nat, w: nat, d: nat)
    requires a + v == b <= c && c + w == d
    requires low < Pow2(a) && length < Pow2(v) && mid < Pow2(c - b) && data < Pow2(w)
    ensures var x := Assembled(low, length, mid, data, prefix, a, b, c, d);
            Bits(x, c, w) == data && Bits(x, a, v) == length
  {
    var x1 := Added(low, a, length, b);
    PutReads(low, a, length, v);
    var x2 := Added(x1, b, mid, c);
    PutKeeps(x1, b, mid, a, v);
    var x3 := Added(x2, c, data, d);
    PutKeeps(x2, c, data, a, v);
    PutReads(x2, c, data, w);
    PutAdds(x3, d, prefix);
    MulNonNegative(prefix, Pow2(d));
    PutKeeps(x3, d, prefix, a, v);
    PutKeeps(x3, d, prefix, c, w);
  }

  lemma Added(x: nat, at: nat, f: nat, top: nat) returns (y: nat)
    requires x < Pow2(at) && at <= top && f < Pow2(top - at)
    ensures 0 <= f * Pow2(at) && y == Put(x, at, f) == x + f * Pow2(at) < Pow2(top)
  {
    y := Put(x, at, f);
    MulNonNegative(f, Pow2(at));
    PutAdds(x, at, f);
    PutBelow(x, at, f, top - at);
  }

  lemma HeaderReads(low: nat, length: nat, mid: nat, data: nat, prefix: nat)
    requires Fields(low, length, mid, data, prefix)
    ensures Bits(Header(low, length, mid, data, prefix), 126, 1) == data
    ensures Bits(Header(low, length, mid, data, prefix), 96, 10) == length
  {
    FieldsRead(low, length, mid, data, prefix, 96, 10, 106, 126, 1, 127);
  }

  /** A header announces data words if and only if bit 126 is set, and then as many as its length
      field says, 1024 for zero. */
  lemma Announces(low: nat, length: nat, mid: nat, data: nat, prefix: nat)
    requires Fields(low, length, mid, data, prefix)
    ensures DwordCount(Header(low, length, mid, data, prefix))
      == if data == 0 then 0 else if length == 0 then 1024 else length
  {
    HeaderReads(low, length, mid, data, prefix);
  }

  /** A TLP in one segment, as the sink hands it over: with data its first words, as many as the header
      says, without data none. */
  lemma OneSegment(done: seq<Frame>, s: Segment, low: nat, length: nat, mid: nat, data: nat, prefix: nat)
    requires Fields(low, length, mid, data, prefix) && s.hdr == Header(low, length, mid, data, prefix)
    requires s.valid && s.sop && s.eop && |s.data| == |s.parity|
    requires data == 1 ==> 0 < length <= |s.data|
    ensures var n := if data == 0 then 0 else length;
            && Take(Rx(None, 0, done), s) == Rx(None, 0, done +
                 [Frame(s.prefix, s.hdr, s.data[..n], s.prefixPar, s.hdrPar, s.parity[..n], s.func, s.vf, s.bar, s.error, s.seqNum)])
  {
    Announces(low, length, mid, data, prefix);
    var n := if data == 0 then 0 else length;
    Alone(s.data[..n]);
    Alone(s.parity[..n]);
  }

  /** Of every frame the sink lets through, in whatever segments it has come. */
  lemma AcceptedLength(t: seq<Segment>, i: nat, low: nat, length: nat, mid: nat, data: nat, prefix: nat)
    requires TakeAll(Rx(None, 0, []), t).Rx? && i < |TakeAll(Rx(None, 0, []), t).done|
    requires Fields(low, length, mid, data, prefix)
    requires TakeAll(Rx(None, 0, []), t).done[i].hdr == Header(low, length, mid, data, prefix)
    ensures |TakeAll(Rx(None, 0, []), t).done[i].data| == if data == 0 then 0 else if length == 0 then 1024 else length
  {
    AcceptedAgrees(Rx(None, 0, []), t);
    assert Agrees(TakeAll(Rx(None, 0, []), t).done[i]);
    Announces(low, length, mid, data, prefix);
  }

  // ---- signals ----

  /** Segment i of a transaction on the wires. */
  lemma OnTheWires(b: Bus, t: Transaction, ss: seq<Segment>, i: nat)
    requires Packs(b, t, ss) && i < |ss|
    ensures Bits(t.valid, i, 1) == 1 <==> ss[i].valid
    ensures Bits(t.sop, i, 1) == 1 <==> ss[i].sop
    ensures Bits(t.eop, i, 1) == 1 <==> ss[i].eop
    ensures Bits(t.prefix, 32 * i, 32) == ss[i].prefix && Bits(t.prefixPar, 4 * i, 4) == ss[i].prefixPar
    ensures Bits(t.hdr, 128 * i, 128) == ss[i].hdr && Bits(t.hdrPar, 16 * i, 16) == ss[i].hdrPar
    ensures Bits(t.bar, 3 * i, 3) == ss[i].bar && Bits(t.error, 4 * i, 4) == ss[i].error
    ensures Bits(t.vfActive, i, 1) == 1 <==> ss[i].vf.Some?
  {
    assert SegmentAt(b, t, i) == ss[i];
  }

  /** And its words. */
  lemma WordsOnTheWires(b: Bus, t: Transaction, ss: seq<Segment>, i: nat, k: nat)
    requires Packs(b, t, ss) && i < |ss| && k < b.lanes
    ensures 0 <= b.lanes * i && |ss[i].data| == |ss[i].parity| == b.lanes
    ensures Bits(t.data, 32 * (b.lanes * i + k), 32) == ss[i].data[k]
    ensures Bits(t.parity, 4 * (b.lanes * i + k), 4) == ss[i].parity[k]
  {
    assert SegmentAt(b, t, i) == ss[i];
    MulNonNegative(b.lanes, i);
    WordPlace(b, t.data, 32, i, k);
    WordPlace(b, t.parity, 4, i, k);
  }

  /** And the fields whose widths depend on the bus. */
  lemma NumbersOnTheWires(b: Bus, t: Transaction, ss: seq<Segment>, i: nat)
    requires Packs(b, t, ss) && i < |ss|
    ensures 0 <= b.func * i && 0 <= b.vf * i && 0 <= b.seqNum * i && 0 <= b.empty * i
    ensures Bits(t.func, b.func * i, b.func) == ss[i].func && Bits(t.seqNum, b.seqNum * i, b.seqNum) == ss[i].seqNum
    ensures ss[i].vf.Some? ==> Bits(t.vf, b.vf * i, b.vf) == ss[i].vf.value
    ensures Bits(t.empty, b.empty * i, b.empty) == ss[i].empty
  {
    assert SegmentAt(b, t, i) == ss[i];
    MulNonNegative(b.func, i);
    MulNonNegative(b.vf, i);
    MulNonNegative(b.seqNum, i);
    MulNonNegative(b.empty, i);
  }

  /** A frame's segments: the first has its header, the last ends it, and word k of the one from
      `offset` on is the frame's word offset + k; empty tells how many are none. */
  lemma SegmentsOfFrame(b: Bus, f: Frame, offset: nat)
    requires b.Valid() && Sendable(b, f) && (offset < |f.data| || (f.data == [] && offset == 0))
    ensures var s := CutSegment(b, f, offset == 0, offset);
            && s.valid && (s.sop <==> offset == 0) && (s.eop <==> offset + b.lanes >= |f.data|)
            && (offset == 0 ==> s.hdr == f.hdr && s.prefix == f.prefix && s.hdrPar == f.hdrPar && s.prefixPar == f.prefixPar)
            && s.bar == f.bar && s.error == f.error && s.seqNum == f.seqNum
            && |s.data| == |s.parity| == b.lanes
            && (forall k :: 0 <= k < b.lanes ==>
                  && s.data[k] == (if offset + k < |f.data| then f.data[offset + k] else 0)
                  && s.parity[k] == (if offset + k < |f.data| then f.parity[offset + k] else 0))
            && s.empty == if f.data == [] || offset + b.lanes <= |f.data| then 0 else offset + b.lanes - |f.data|
  {
  }
}
