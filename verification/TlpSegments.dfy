/** Frames, segments and transactions of the segmented TLP bus of src/pcie/tb/pcie_if.py: how a
    sink puts frames together from segments, and how segments are packed into the signals. */
module TlpSegments {
  import opened Arith
  import opened Base
  import opened Packed

  // ---- frames ----

  datatype Frame = Frame(
    prefix: nat,
    hdr: nat,
    data: seq<nat>,
    prefixPar: nat,
    hdrPar: nat,
    parity: seq<nat>,
    func: nat,
    vf: Option<nat>,
    bar: nat,
    error: nat,
    seqNum: nat
  )

  // Field widths.
  const PREFIX := 32
  const HDR := 128
  const PREFIX_PAR := 4
  const HDR_PAR := 16
  const BAR := 3
  const ERROR := 4
  const WORD := 32
  const NIBBLE := 4

  /** The number of data words a header announces: ten bits, where none set stands for 1024. */
  function DwordCount(hdr: nat): nat {
    if Bits(hdr, 126, 1) == 0 then 0
    else if Bits(hdr, 96, 10) == 0 then 1024
    else Bits(hdr, 96, 10)
  }

  /** Segments, words of a segment, and the widths that depend on the bus. */
  datatype Bus = Bus(segs: nat, lanes: nat, func: nat, vf: nat, seqNum: nat, empty: nat) {
    ghost predicate Valid() {
      0 < segs && 0 < lanes <= Pow2(empty)
    }
  }

  /** A frame whose parts fit their fields, with a parity nibble for every word; the function
      numbers are cut to their fields by the source. */
  predicate OnBus(b: Bus, f: Frame) {
    && f.prefix < Pow2(PREFIX) && f.prefixPar < Pow2(PREFIX_PAR) && f.hdr < Pow2(HDR) && f.hdrPar < Pow2(HDR_PAR)
    && f.bar < Pow2(BAR) && f.error < Pow2(ERROR) && f.seqNum < Pow2(b.seqNum)
    && |f.parity| == |f.data| && AllBelow(f.data, WORD) && AllBelow(f.parity, NIBBLE)
  }

  predicate AllBelow(words: seq<nat>, w: nat) {
    forall i :: 0 <= i < |words| ==> words[i] < Pow2(w)
  }

  /** The header's length is that of the data. */
  predicate Agrees(f: Frame) {
    DwordCount(f.hdr) == |f.data|
  }

  predicate Sendable(b: Bus, f: Frame) {
    OnBus(b, f) && Agrees(f)
  }

  function MaskedVf(b: Bus, vf: Option<nat>): Option<nat> {
    if vf.Some? then Some(vf.value % Pow2(b.vf)) else None
  }

  /** A frame with its function numbers cut to their fields. */
  function Masked(b: Bus, f: Frame): Frame {
    f.(func := f.func % Pow2(b.func), vf := MaskedVf(b, f.vf))
  }

  function AllMasked(b: Bus, fs: seq<Frame>): (ms: seq<Frame>)
    ensures |ms| == |fs|
  {
    seq(|fs|, i requires 0 <= i < |fs| => Masked(b, fs[i]))
  }

  predicate AllSendable(b: Bus, fs: seq<Frame>) {
    forall i :: 0 <= i < |fs| ==> Sendable(b, fs[i])
  }

  lemma MaskedAfter(b: Bus, fs: seq<Frame>, f: Frame)
    ensures AllMasked(b, fs + [f]) == AllMasked(b, fs) + [Masked(b, f)]
  {
  }

  lemma MaskedBefore(b: Bus, f: Frame, fs: seq<Frame>)
    ensures AllMasked(b, [f] + fs) == [Masked(b, f)] + AllMasked(b, fs)
  {
  }

  lemma MaskedUpTo(b: Bus, before: seq<Frame>, fs: seq<Frame>, i: nat)
    requires i < |fs|
    ensures before + AllMasked(b, fs[..i]) + [Masked(b, fs[i])] == before + AllMasked(b, fs[..i + 1])
  {
    MaskedAfter(b, fs[..i], fs[i]);
    Regrouped(before, AllMasked(b, fs[..i]), [Masked(b, fs[i])]);
    assert fs[..i + 1] == fs[..i] + [fs[i]];
  }

  // ---- segments ----

  /** The fields of one segment of a transaction. */
  datatype Segment = Segment(
    valid: bool,
    sop: bool,
    eop: bool,
    prefix: nat,
    hdr: nat,
    prefixPar: nat,
    hdrPar: nat,
    func: nat,
    vf: Option<nat>,
    bar: nat,
    error: nat,
    seqNum: nat,
    data: seq<nat>,
    parity: seq<nat>,
    empty: nat
  )

  function Zeros(n: nat): (words: seq<nat>)
    ensures |words| == n && forall k :: 0 <= k < n ==> words[k] == 0
  {
    seq(n, i => 0)
  }

  function NoSegment(b: Bus): Segment {
    Segment(false, false, false, 0, 0, 0, 0, 0, None, 0, 0, 0, Zeros(b.lanes), Zeros(b.lanes), 0)
  }

  // ---- transactions ----

  /** The signals of the bus, each with a field for every segment, or for every word. */
  datatype Transaction = Transaction(
    valid: nat,
    sop: nat,
    eop: nat,
    prefix: nat,
    hdr: nat,
    prefixPar: nat,
    hdrPar: nat,
    func: nat,
    vfActive: nat,
    vf: nat,
    bar: nat,
    error: nat,
    seqNum: nat,
    data: nat,
    parity: nat,
    empty: nat
  )

  function NoTransaction(): Transaction {
    Transaction(0, 0, 0, 0, 0, 0, 0, 0, 0, 0, 0, 0, 0, 0, 0, 0)
  }

  function Flag(f: bool): nat {
    if f then 1 else 0
  }

  /** Place i of fields w bits wide. */
  function At(w: nat, i: nat): nat {
    MulNonNegative(w, i);
    w * i
  }

  /** Words put in at place n and those after it. */
  function PutWords(x: nat, w: nat, n: nat, words: seq<nat>): nat {
    if words == [] then x
    else
      var last := |words| - 1;
      Put(PutWords(x, w, n, words[..last]), At(w, n + last), words[last])
  }

  /** A transaction with a segment or-ed in at place n. */
  function WithSegment(b: Bus, t: Transaction, n: nat, s: Segment): Transaction {
    Transaction(
      Put(t.valid, n, Flag(s.valid)),
      Put(t.sop, n, Flag(s.sop)),
      Put(t.eop, n, Flag(s.eop)),
      Put(t.prefix, At(PREFIX, n), s.prefix),
      Put(t.hdr, At(HDR, n), s.hdr),
      Put(t.prefixPar, At(PREFIX_PAR, n), s.prefixPar),
      Put(t.hdrPar, At(HDR_PAR, n), s.hdrPar),
      Put(t.func, At(b.func, n), s.func),
      Put(t.vfActive, n, Flag(s.vf.Some?)),
      Put(t.vf, At(b.vf, n), if s.vf.Some? then s.vf.value else 0),
      Put(t.bar, At(BAR, n), s.bar),
      Put(t.error, At(ERROR, n), s.error),
      Put(t.seqNum, At(b.seqNum, n), s.seqNum),
      PutWords(t.data, WORD, At(b.lanes, n), s.data),
      PutWords(t.parity, NIBBLE, At(b.lanes, n), s.parity),
      Put(t.empty, At(b.empty, n), s.empty))
  }

  /** Words of width w, each cut out of segment n, itself cut out of x. */
  function WordsAt(b: Bus, x: nat, w: nat, n: nat): (words: seq<nat>)
    ensures |words| == b.lanes
  {
    var width := At(w, b.lanes);
    seq(b.lanes, k requires 0 <= k < b.lanes => Bits(Bits(x, At(width, n), width), At(w, k), w))
  }

  /** What the sink reads of segment n. */
  function SegmentAt(b: Bus, t: Transaction, n: nat): (s: Segment)
    ensures |s.data| == b.lanes && |s.parity| == b.lanes
  {
    Segment(
      Bits(t.valid, n, 1) == 1,
      Bits(t.sop, n, 1) == 1,
      Bits(t.eop, n, 1) == 1,
      Bits(t.prefix, At(PREFIX, n), PREFIX),
      Bits(t.hdr, At(HDR, n), HDR),
      Bits(t.prefixPar, At(PREFIX_PAR, n), PREFIX_PAR),
      Bits(t.hdrPar, At(HDR_PAR, n), HDR_PAR),
      Bits(t.func, At(b.func, n), b.func),
      if Bits(t.vfActive, n, 1) == 1 then Some(Bits(t.vf, At(b.vf, n), b.vf)) else None,
      Bits(t.bar, At(BAR, n), BAR),
      Bits(t.error, At(ERROR, n), ERROR),
      Bits(t.seqNum, At(b.seqNum, n), b.seqNum),
      WordsAt(b, t.data, WORD, n),
      WordsAt(b, t.parity, NIBBLE, n),
      Bits(t.empty, At(b.empty, n), b.empty))
  }

  function Segments(b: Bus, t: Transaction): (ss: seq<Segment>)
    ensures |ss| == b.segs
  {
    seq(b.segs, i requires 0 <= i < b.segs => SegmentAt(b, t, i))
  }

  /** Nothing has been put in at place n or after it. */
  ghost predicate Below(b: Bus, t: Transaction, n: nat) {
    && t.valid < Pow2(n) && t.sop < Pow2(n) && t.eop < Pow2(n) && t.vfActive < Pow2(n)
    && t.prefix < Pow2(At(PREFIX, n)) && t.hdr < Pow2(At(HDR, n))
    && t.prefixPar < Pow2(At(PREFIX_PAR, n)) && t.hdrPar < Pow2(At(HDR_PAR, n))
    && t.func < Pow2(At(b.func, n)) && t.vf < Pow2(At(b.vf, n))
    && t.bar < Pow2(At(BAR, n)) && t.error < Pow2(At(ERROR, n)) && t.seqNum < Pow2(At(b.seqNum, n))
    && t.data < Pow2(At(WORD, At(b.lanes, n))) && t.parity < Pow2(At(NIBBLE, At(b.lanes, n)))
    && t.empty < Pow2(At(b.empty, n))
  }

  /** A segment whose parts fit their fields. */
  ghost predicate Fits(b: Bus, s: Segment) {
    && s.prefix < Pow2(PREFIX) && s.hdr < Pow2(HDR) && s.prefixPar < Pow2(PREFIX_PAR) && s.hdrPar < Pow2(HDR_PAR)
    && s.func < Pow2(b.func) && (s.vf.Some? ==> s.vf.value < Pow2(b.vf))
    && s.bar < Pow2(BAR) && s.error < Pow2(ERROR) && s.seqNum < Pow2(b.seqNum)
    && |s.data| == b.lanes && |s.parity| == b.lanes && AllBelow(s.data, WORD) && AllBelow(s.parity, NIBBLE)
    && s.empty < Pow2(b.empty)
  }

  /** y is x with field n put in: it reads as f, and the fields before it read as before. */
  ghost predicate Extends(w: nat, x: nat, y: nat, n: nat, f: nat) {
    && y < Pow2(At(w, n + 1))
    && Bits(y, At(w, n), w) == f
    && forall i :: 0 <= i < n ==> Bits(y, At(w, i), w) == Bits(x, At(w, i), w)
  }

  lemma Places(w: nat, i: nat, n: nat)
    requires i < n
    ensures At(w, i) + w == At(w, i + 1) && At(w, i + 1) <= At(w, n) && At(1, n) == n
  {
    MulMonotone(w, i + 1, n);
  }

  lemma FieldPut(w: nat, x: nat, n: nat, f: nat)
    requires x < Pow2(At(w, n)) && f < Pow2(w)
    ensures Extends(w, x, Put(x, At(w, n), f), n, f)
  {
    PutBelow(x, At(w, n), f, w);
    PutReads(x, At(w, n), f, w);
    Places(w, n, n + 1);
    forall i | 0 <= i < n
      ensures Bits(Put(x, At(w, n), f), At(w, i), w) == Bits(x, At(w, i), w)
    {
      Places(w, i, n);
      PutKeeps(x, At(w, n), f, At(w, i), w);
    }
  }

  /** Words put in read as they are, and those before them as before. */
  lemma {:induction false} WordsPut(x: nat, w: nat, n: nat, words: seq<nat>)
    requires x < Pow2(At(w, n)) && AllBelow(words, w)
    ensures PutWords(x, w, n, words) < Pow2(At(w, n + |words|))
    ensures forall k :: 0 <= k < |words| ==> Bits(PutWords(x, w, n, words), At(w, n + k), w) == words[k]
    ensures forall i :: 0 <= i < n ==> Bits(PutWords(x, w, n, words), At(w, i), w) == Bits(x, At(w, i), w)
    decreases |words|
  {
    if words != [] {
      var last := |words| - 1;
      var y := PutWords(x, w, n, words[..last]);
      WordsPut(x, w, n, words[..last]);
      FieldPut(w, y, n + last, words[last]);
      var z := PutWords(x, w, n, words);
      assert Extends(w, y, z, n + last, words[last]);
      forall k | 0 <= k < |words|
        ensures Bits(z, At(w, n + k), w) == words[k]
      {
        if k < last {
          assert Bits(z, At(w, n + k), w) == Bits(y, At(w, n + k), w);
        }
      }
    }
  }

  /** The sink's way to a word, by its segment, leads to its place. */
  lemma WordPlace(b: Bus, x: nat, w: nat, n: nat, k: nat)
    requires k < b.lanes
    ensures WordsAt(b, x, w, n)[k] == Bits(x, At(w, At(b.lanes, n) + k), w)
  {
    var width := At(w, b.lanes);
    Places(w, k, b.lanes);
    BitsOfBits(x, At(width, n), width, At(w, k), w);
    WordPlaces(w, b.lanes, n, k);
  }

  lemma WordPlaces(w: int, lanes: int, n: int, k: int)
    ensures w * lanes * n + w * k == w * (lanes * n + k)
  {
  }

  lemma WordsRead(b: Bus, x: nat, w: nat, n: nat, words: seq<nat>)
    requires x < Pow2(At(w, At(b.lanes, n))) && |words| == b.lanes && AllBelow(words, w)
    ensures var y := PutWords(x, w, At(b.lanes, n), words);
            && y < Pow2(At(w, At(b.lanes, n + 1))) && WordsAt(b, y, w, n) == words
            && forall i :: 0 <= i < n ==> WordsAt(b, y, w, i) == WordsAt(b, x, w, i)
  {
    var y := PutWords(x, w, At(b.lanes, n), words);
    WordsPut(x, w, At(b.lanes, n), words);
    Places(b.lanes, n, n + 1);
    forall k | 0 <= k < b.lanes
      ensures WordsAt(b, y, w, n)[k] == words[k]
    {
      WordPlace(b, y, w, n, k);
    }
    forall i | 0 <= i < n
      ensures WordsAt(b, y, w, i) == WordsAt(b, x, w, i)
    {
      forall k | 0 <= k < b.lanes
        ensures WordsAt(b, y, w, i)[k] == WordsAt(b, x, w, i)[k]
      {
        WordPlace(b, y, w, i, k);
        WordPlace(b, x, w, i, k);
        Places(b.lanes, i, n);
      }
    }
  }

  lemma FlagPut(x: nat, n: nat, f: bool)
    requires x < Pow2(n)
    ensures Put(x, n, Flag(f)) < Pow2(n + 1) && Bits(Put(x, n, Flag(f)), n, 1) == Flag(f)
    ensures forall i :: 0 <= i < n ==> Bits(Put(x, n, Flag(f)), i, 1) == Bits(x, i, 1)
  {
    PutBelow(x, n, Flag(f), 1);
    PutReads(x, n, Flag(f), 1);
    forall i | 0 <= i < n
      ensures Bits(Put(x, n, Flag(f)), i, 1) == Bits(x, i, 1)
    {
      PutKeeps(x, n, Flag(f), i, 1);
    }
  }

  lemma FlagsRead(b: Bus, t: Transaction, n: nat, s: Segment)
    requires Below(b, t, n)
    ensures var u := WithSegment(b, t, n, s);
            && u.valid < Pow2(n + 1) && u.sop < Pow2(n + 1) && u.eop < Pow2(n + 1) && u.vfActive < Pow2(n + 1)
            && Bits(u.valid, n, 1) == Flag(s.valid) && Bits(u.sop, n, 1) == Flag(s.sop)
            && Bits(u.eop, n, 1) == Flag(s.eop) && Bits(u.vfActive, n, 1) == Flag(s.vf.Some?)
            && forall i :: 0 <= i < n ==>
                 && Bits(u.valid, i, 1) == Bits(t.valid, i, 1) && Bits(u.sop, i, 1) == Bits(t.sop, i, 1)
                 && Bits(u.eop, i, 1) == Bits(t.eop, i, 1) && Bits(u.vfActive, i, 1) == Bits(t.vfActive, i, 1)
  {
    FlagPut(t.valid, n, s.valid);
    FlagPut(t.sop, n, s.sop);
    FlagPut(t.eop, n, s.eop);
    FlagPut(t.vfActive, n, s.vf.Some?);
  }

  /** A segment or-ed in reads as it is, and the segments before it as before. */
  lemma SegmentRead(b: Bus, t: Transaction, n: nat, s: Segment)
    requires Below(b, t, n) && Fits(b, s)
    ensures var u := WithSegment(b, t, n, s);
            && Below(b, u, n + 1) && SegmentAt(b, u, n) == s
            && forall i :: 0 <= i < n ==> SegmentAt(b, u, i) == SegmentAt(b, t, i)
  {
    FlagsRead(b, t, n, s);
    FieldPut(PREFIX, t.prefix, n, s.prefix);
    FieldPut(HDR, t.hdr, n, s.hdr);
    FieldPut(PREFIX_PAR, t.prefixPar, n, s.prefixPar);
    FieldPut(HDR_PAR, t.hdrPar, n, s.hdrPar);
    FieldPut(b.func, t.func, n, s.func);
    FieldPut(b.vf, t.vf, n, if s.vf.Some? then s.vf.value else 0);
    FieldPut(BAR, t.bar, n, s.bar);
    FieldPut(ERROR, t.error, n, s.error);
    FieldPut(b.seqNum, t.seqNum, n, s.seqNum);
    WordsRead(b, t.data, WORD, n, s.data);
    WordsRead(b, t.parity, NIBBLE, n, s.parity);
    FieldPut(b.empty, t.empty, n, s.empty);
    var u := WithSegment(b, t, n, s);
    forall i | 0 <= i < n
      ensures SegmentAt(b, u, i) == SegmentAt(b, t, i)
    {
      SameFields(b, t, u, i);
    }
  }

  lemma SameFields(b: Bus, t: Transaction, u: Transaction, i: nat)
    requires Bits(u.valid, i, 1) == Bits(t.valid, i, 1) && Bits(u.sop, i, 1) == Bits(t.sop, i, 1)
    requires Bits(u.eop, i, 1) == Bits(t.eop, i, 1) && Bits(u.vfActive, i, 1) == Bits(t.vfActive, i, 1)
    requires Bits(u.prefix, At(PREFIX, i), PREFIX) == Bits(t.prefix, At(PREFIX, i), PREFIX)
    requires Bits(u.hdr, At(HDR, i), HDR) == Bits(t.hdr, At(HDR, i), HDR)
    requires Bits(u.prefixPar, At(PREFIX_PAR, i), PREFIX_PAR) == Bits(t.prefixPar, At(PREFIX_PAR, i), PREFIX_PAR)
    requires Bits(u.hdrPar, At(HDR_PAR, i), HDR_PAR) == Bits(t.hdrPar, At(HDR_PAR, i), HDR_PAR)
    requires Bits(u.func, At(b.func, i), b.func) == Bits(t.func, At(b.func, i), b.func)
    requires Bits(u.vf, At(b.vf, i), b.vf) == Bits(t.vf, At(b.vf, i), b.vf)
    requires Bits(u.bar, At(BAR, i), BAR) == Bits(t.bar, At(BAR, i), BAR)
    requires Bits(u.error, At(ERROR, i), ERROR) == Bits(t.error, At(ERROR, i), ERROR)
    requires Bits(u.seqNum, At(b.seqNum, i), b.seqNum) == Bits(t.seqNum, At(b.seqNum, i), b.seqNum)
    requires Bits(u.empty, At(b.empty, i), b.empty) == Bits(t.empty, At(b.empty, i), b.empty)
    requires WordsAt(b, u.data, WORD, i) == WordsAt(b, t.data, WORD, i)
    requires WordsAt(b, u.parity, NIBBLE, i) == WordsAt(b, t.parity, NIBBLE, i)
    ensures SegmentAt(b, u, i) == SegmentAt(b, t, i)
  {
  }

  /** t holds the segments ss and nothing after them. */
  ghost predicate Packs(b: Bus, t: Transaction, ss: seq<Segment>) {
    && Below(b, t, |ss|) && forall i :: 0 <= i < |ss| ==> SegmentAt(b, t, i) == ss[i]
  }

  lemma PacksMore(b: Bus, t: Transaction, ss: seq<Segment>, s: Segment)
    requires Packs(b, t, ss) && Fits(b, s)
    ensures Packs(b, WithSegment(b, t, |ss|, s), ss + [s])
  {
    SegmentRead(b, t, |ss|, s);
    ReadsMore(b, t, WithSegment(b, t, |ss|, s), ss, s);
  }

  lemma ReadsMore(b: Bus, t: Transaction, u: Transaction, ss: seq<Segment>, s: Segment)
    requires Packs(b, t, ss) && Below(b, u, |ss| + 1) && SegmentAt(b, u, |ss|) == s
    requires forall i :: 0 <= i < |ss| ==> SegmentAt(b, u, i) == SegmentAt(b, t, i)
    ensures Packs(b, u, ss + [s])
  {
    forall i | 0 <= i < |ss|
      ensures SegmentAt(b, u, i) == (ss + [s])[i]
    {
      assert SegmentAt(b, t, i) == ss[i];
    }
  }

  /** A segment nothing is put into reads as no segment. */
  lemma PacksNone(b: Bus, t: Transaction, ss: seq<Segment>)
    requires Packs(b, t, ss)
    ensures Packs(b, t, ss + [NoSegment(b)])
  {
    var n := |ss|;
    NothingPut(b, t, n);
    NoneFits(b);
    PacksMore(b, t, ss, NoSegment(b));
  }

  lemma NoneFits(b: Bus)
    ensures Fits(b, NoSegment(b))
  {
  }

  lemma NothingPut(b: Bus, t: Transaction, n: nat)
    ensures WithSegment(b, t, n, NoSegment(b)) == t
  {
    forall x, at | true
      ensures Put(x, at, 0) == x
    {
      PutNothing(x, at);
    }
    ZerosPut(t.data, WORD, At(b.lanes, n), [], b.lanes);
    ZerosPut(t.parity, NIBBLE, At(b.lanes, n), [], b.lanes);
    Alone(Zeros(b.lanes));
  }

  lemma {:induction false} ZerosPut(x: nat, w: nat, n: nat, words: seq<nat>, k: nat)
    ensures PutWords(x, w, n, words + Zeros(k)) == PutWords(x, w, n, words)
    decreases k
  {
    if k == 0 {
      assert words + Zeros(k) == words;
    } else {
      var all := words + Zeros(k);
      assert all[..|all| - 1] == words + Zeros(k - 1);
      ZerosPut(x, w, n, words, k - 1);
      PutNothing(PutWords(x, w, n, words), At(w, n + |all| - 1));
    }
  }

  // ---- the sink, as a function of the segments ----

  datatype FramingError = SopInFrame | OutsideFrame | WrongLength

  /** The sink between two segments; a failed assertion stops it. */
  datatype Rx = Rx(frame: Option<Frame>, count: nat, done: seq<Frame>) | Failed(error: FramingError)

  function Opened(s: Segment): Frame {
    Frame(s.prefix, s.hdr, [], s.prefixPar, s.hdrPar, [], s.func, s.vf, s.bar, s.error, s.seqNum)
  }

  /** The words of a segment a sink takes when it expects count more. */
  function Taken(s: Segment, count: nat): nat {
    Min(count, Min(|s.data|, |s.parity|))
  }

  function Take(r: Rx, s: Segment): Rx {
    if r.Failed? || !s.valid then r
    else if s.sop && r.frame.Some? then Failed(SopInFrame)
    else if !s.sop && r.frame.None? then Failed(OutsideFrame)
    else
      var f := if s.sop then Opened(s) else r.frame.value;
      var count := if s.sop then DwordCount(s.hdr) else r.count;
      var n := Taken(s, count);
      var g := f.(data := f.data + s.data[..n], parity := f.parity + s.parity[..n]);
      if !s.eop then Rx(Some(g), count - n, r.done)
      else if count - n != 0 then Failed(WrongLength)
      else Rx(None, 0, r.done + [g])
  }

  function TakeAll(r: Rx, t: seq<Segment>): Rx {
    if t == [] then r else Take(TakeAll(r, t[..|t| - 1]), t[|t| - 1])
  }

  lemma TakeMore(r: Rx, t: seq<Segment>, s: Segment)
    ensures TakeAll(r, t + [s]) == Take(TakeAll(r, t), s)
  {
    assert (t + [s])[..|t|] == t;
  }

  /** While a frame is being received, its words and those to come are what its header announces. */
  predicate Counted(r: Rx) {
    r.Rx? ==>
      && (r.frame.Some? ==> |r.frame.value.data| + r.count == DwordCount(r.frame.value.hdr))
      && forall i :: 0 <= i < |r.done| ==> Agrees(r.done[i])
  }

  /** Whatever segments it is given, every frame the sink lets through agrees with its header. */
  lemma {:induction false} AcceptedAgrees(r: Rx, t: seq<Segment>)
    requires Counted(r)
    ensures Counted(TakeAll(r, t))
  {
    if t != [] {
      AcceptedAgrees(r, t[..|t| - 1]);
    }
  }

  /** A failure is final, and frames delivered stay delivered. */
  lemma {:induction false} TakeKeeps(r: Rx, t: seq<Segment>)
    ensures r.Failed? ==> TakeAll(r, t).Failed?
    ensures TakeAll(r, t).Rx? ==> r.Rx? && r.done <= TakeAll(r, t).done
  {
    if t != [] {
      TakeKeeps(r, t[..|t| - 1]);
    }
  }

  /** With nothing put in yet there are no segments. */
  lemma NothingPacked(b: Bus)
    ensures Packs(b, NoTransaction(), [])
  {
  }

  /** The segments after the last one put in are not valid, and do nothing to a sink. */
  lemma {:induction false} PadSegments(b: Bus, r: Rx, t: Transaction, ss: seq<Segment>)
    requires Packs(b, t, ss) && |ss| <= b.segs
    ensures TakeAll(r, Segments(b, t)) == TakeAll(r, ss)
    decreases b.segs - |ss|
  {
    if |ss| < b.segs {
      PacksNone(b, t, ss);
      TakeMore(r, ss, NoSegment(b));
      PadSegments(b, r, t, ss + [NoSegment(b)]);
    } else {
      assert Segments(b, t) == ss;
    }
  }

  // ---- cutting a frame into segments ----

  /** The words of a segment: those from offset on, as many as it has room for, and zeros. */
  function Filled(words: seq<nat>, offset: nat, lanes: nat): (s: seq<nat>)
    requires offset <= |words|
    ensures |s| == lanes
  {
    var cnt := Min(lanes, |words| - offset);
    words[offset..offset + cnt] + Zeros(lanes - cnt)
  }

  lemma FilledBelow(words: seq<nat>, offset: nat, lanes: nat, w: nat)
    requires offset <= |words| && AllBelow(words, w)
    ensures AllBelow(Filled(words, offset, lanes), w)
  {
    var s, cnt := Filled(words, offset, lanes), Min(lanes, |words| - offset);
    forall k | 0 <= k < |s|
      ensures s[k] < Pow2(w)
    {
      assert s[k] == if k < cnt then words[offset + k] else 0;
    }
  }

  /** The words a sink takes from it. */
  lemma FilledTaken(words: seq<nat>, offset: nat, lanes: nat)
    requires offset <= |words|
    ensures var cnt := Min(lanes, |words| - offset);
            words[..offset] + Filled(words, offset, lanes)[..cnt] == words[..offset + cnt]
    ensures words[..|words|] == words && words[..0] == []
  {
    var cnt := Min(lanes, |words| - offset);
    assert Filled(words, offset, lanes)[..cnt] == words[offset..offset + cnt];
    assert words[..offset] + words[offset..offset + cnt] == words[..offset + cnt];
  }

  /** The segment of a frame from word offset on. */
  function CutSegment(b: Bus, f: Frame, first: bool, offset: nat): Segment
    requires |f.parity| == |f.data| && offset <= |f.data|
  {
    var cnt := Min(b.lanes, |f.data| - offset);
    Segment(
      first || f.data != [],
      first,
      offset + cnt >= |f.data|,
      if first then f.prefix else 0,
      if first then f.hdr else 0,
      if first then f.prefixPar else 0,
      if first then f.hdrPar else 0,
      f.func % Pow2(b.func),
      MaskedVf(b, f.vf),
      f.bar,
      f.error,
      f.seqNum,
      Filled(f.data, offset, b.lanes),
      Filled(f.parity, offset, b.lanes),
      if f.data != [] then b.lanes - cnt else 0)
  }

  /** What a sink has of a frame after its first words. */
  function Part(b: Bus, f: Frame, words: nat): Frame
    requires words <= |f.data| == |f.parity|
  {
    Masked(b, f).(data := f.data[..words], parity := f.parity[..words])
  }

  lemma CutFits(b: Bus, f: Frame, first: bool, offset: nat)
    requires b.Valid() && OnBus(b, f) && offset <= |f.data| && (first ==> offset == 0) && (offset > 0 || first)
    requires offset < |f.data| || f.data == []
    ensures Fits(b, CutSegment(b, f, first, offset))
  {
    FilledBelow(f.data, offset, b.lanes, WORD);
    FilledBelow(f.parity, offset, b.lanes, NIBBLE);
  }

  /** A sink that has the frame's words before offset takes the segment's words behind them. */
  lemma CutTaken(b: Bus, f: Frame, first: bool, offset: nat, r: Rx)
    requires b.Valid() && Sendable(b, f) && offset <= |f.data| && (first <==> offset == 0)
    requires offset < |f.data| || f.data == []
    requires r.Rx? && r.frame == (if first then None else Some(Part(b, f, offset)))
    requires r.count == if first then 0 else |f.data| - offset
    ensures var n := offset + Min(b.lanes, |f.data| - offset);
            Take(r, CutSegment(b, f, first, offset)) ==
              if n >= |f.data| then Rx(None, 0, r.done + [Masked(b, f)])
              else Rx(Some(Part(b, f, n)), |f.data| - n, r.done)
  {
    FilledTaken(f.data, offset, b.lanes);
    FilledTaken(f.parity, offset, b.lanes);
    Alone(Filled(f.data, offset, b.lanes)[..Min(b.lanes, |f.data| - offset)]);
    Alone(Filled(f.parity, offset, b.lanes)[..Min(b.lanes, |f.data| - offset)]);
  }

  // ---- the source, between two segments ----

  datatype Sending = Sending(queue: seq<Frame>, frame: Option<Frame>, offset: nat, first: bool) {
    predicate Valid(b: Bus) {
      && AllSendable(b, queue)
      && (frame.Some? ==>
            && Sendable(b, frame.value) && (first <==> offset == 0)
            && (offset == 0 || offset < |frame.value.data|))
    }

    /** What a sink that has seen everything sent is in the middle of, and the words it expects. */
    function Flight(b: Bus): Option<Frame>
      requires Valid(b)
    {
      match frame
      case None => None
      case Some(f) => if first then None else Some(Part(b, f, offset))
    }

    function Left(b: Bus): nat
      requires Valid(b)
    {
      if frame.None? || first then 0 else |frame.value.data| - offset
    }

    /** The frames still to be delivered, as they will arrive. */
    function Todo(b: Bus): seq<Frame> {
      AllMasked(b, (if frame.None? then [] else [frame.value]) + queue)
    }

    /** Words of the current frame still to be sent, and one for the frame itself. */
    function Going(): int {
      if frame.None? then 0 else |frame.value.data| - offset + 1
    }

    /** Further than x. */
    predicate Past(x: Sending) {
      |queue| < |x.queue| || (|queue| == |x.queue| && Going() < x.Going())
    }

    /** With the next frame, when there is one. */
    function Fetched(): Sending {
      if queue == [] then this else Sending(queue[1..], Some(queue[0]), 0, true)
    }

    /** A segment of the current frame later. */
    function Cut(b: Bus): Sending
      requires Valid(b) && frame.Some?
    {
      var n := offset + Min(b.lanes, |frame.value.data| - offset);
      Sending(queue, if n >= |frame.value.data| then None else frame, n, false)
    }
  }

  lemma EnqueueKeeps(b: Bus, x: Sending, f: Frame)
    requires x.Valid(b) && Sendable(b, f)
    ensures var y := x.(queue := x.queue + [f]);
            && y.Valid(b) && y.Todo(b) == x.Todo(b) + [Masked(b, f)]
            && y.Flight(b) == x.Flight(b) && y.Left(b) == x.Left(b)
  {
    var head := if x.frame.None? then [] else [x.frame.value];
    MaskedAfter(b, head + x.queue, f);
    Regrouped(head, x.queue, [f]);
  }

  lemma FetchKeeps(b: Bus, x: Sending)
    requires x.Valid(b) && x.frame == None
    ensures x.Fetched().Valid(b) && x.Fetched().Todo(b) == x.Todo(b)
    ensures x.Fetched().Flight(b) == None && x.Fetched().Left(b) == 0
  {
    Alone(x.queue);
    if x.queue != [] {
      FrontSendable(b, x.queue);
    }
  }

  lemma FrontSendable(b: Bus, fs: seq<Frame>)
    requires fs != [] && AllSendable(b, fs)
    ensures Sendable(b, fs[0]) && AllSendable(b, fs[1..]) && fs == [fs[0]] + fs[1..]
  {
  }

  /** The segment cut brings a sink that has seen everything before to where the source then is. */
  lemma CutTodo(b: Bus, x: Sending) returns (sent: seq<Frame>)
    requires x.Valid(b) && x.frame.Some?
    ensures x.Todo(b) == sent + x.Cut(b).Todo(b)
    ensures sent == if x.Cut(b).frame == None then [Masked(b, x.frame.value)] else []
  {
    MaskedBefore(b, x.frame.value, x.queue);
    Alone(x.queue);
    Alone(x.Todo(b));
    sent := if x.Cut(b).frame == None then [Masked(b, x.frame.value)] else [];
  }

  lemma CutFlight(b: Bus, x: Sending)
    requires b.Valid() && x.Valid(b) && x.frame.Some?
    ensures x.Cut(b).Valid(b) && x.Cut(b).Past(x)
    ensures var f := x.frame.value; var n := x.offset + Min(b.lanes, |f.data| - x.offset);
            && x.Cut(b).frame == (if n >= |f.data| then None else Some(f))
            && x.Cut(b).Flight(b) == (if n >= |f.data| then None else Some(Part(b, f, n)))
            && x.Cut(b).Left(b) == if n >= |f.data| then 0 else |f.data| - n
  {
  }

  lemma CutReceived(b: Bus, x: Sending, r: Rx)
    requires b.Valid() && x.Valid(b) && x.frame.Some?
    requires r.Rx? && r.frame == x.Flight(b) && r.count == x.Left(b)
    ensures var f := x.frame.value;
            var n, s := x.offset + Min(b.lanes, |f.data| - x.offset), CutSegment(b, f, x.first, x.offset);
            && Fits(b, s)
            && Take(r, s) ==
                 if n >= |f.data| then Rx(None, 0, r.done + [Masked(b, f)])
                 else Rx(Some(Part(b, f, n)), |f.data| - n, r.done)
  {
    CutFits(b, x.frame.value, x.first, x.offset);
    CutTaken(b, x.frame.value, x.first, x.offset, r);
  }

  lemma CutKeeps(b: Bus, x: Sending, r: Rx) returns (sent: seq<Frame>)
    requires b.Valid() && x.Valid(b) && x.frame.Some?
    requires r.Rx? && r.frame == x.Flight(b) && r.count == x.Left(b)
    ensures x.Cut(b).Valid(b) && x.Cut(b).Past(x) && x.Todo(b) == sent + x.Cut(b).Todo(b)
    ensures var s := CutSegment(b, x.frame.value, x.first, x.offset);
            && Fits(b, s)
            && Take(r, s) == Rx(x.Cut(b).Flight(b), x.Cut(b).Left(b), r.done + sent)
  {
    CutFlight(b, x);
    CutReceived(b, x, r);
    Alone(r.done);
    sent := CutTodo(b, x);
  }

  /** What has been put into a transaction: the segments ss, which bring the sink from r to where
      the source has come from was. */
  ghost predicate Sent(b: Bus, r: Rx, t: Transaction, ss: seq<Segment>, was: Sending, now: Sending, sent: seq<Frame>) {
    && Packs(b, t, ss) && r.Rx? && now.Valid(b)
    && TakeAll(r, ss) == Rx(now.Flight(b), now.Left(b), r.done + sent)
    && was.Todo(b) == sent + now.Todo(b)
  }

  lemma SentMore(b: Bus, r: Rx, t: Transaction, ss: seq<Segment>, was: Sending, now: Sending, sent: seq<Frame>)
    returns (more: seq<Frame>)
    requires b.Valid() && Sent(b, r, t, ss, was, now, sent) && now.frame.Some?
    ensures var s := CutSegment(b, now.frame.value, now.first, now.offset);
            Sent(b, r, WithSegment(b, t, |ss|, s), ss + [s], was, now.Cut(b), sent + more)
    ensures now.Cut(b).Past(now)
  {
    var s := CutSegment(b, now.frame.value, now.first, now.offset);
    more := CutKeeps(b, now, TakeAll(r, ss));
    PacksMore(b, t, ss, s);
    SentStep(b, r, t, ss, was, now, sent, WithSegment(b, t, |ss|, s), s, now.Cut(b), more);
  }

  lemma SentStep(b: Bus, r: Rx, t: Transaction, ss: seq<Segment>, was: Sending, now: Sending, sent: seq<Frame>,
    u: Transaction, s: Segment, next: Sending, more: seq<Frame>)
    requires Sent(b, r, t, ss, was, now, sent) && Fits(b, s) && Packs(b, u, ss + [s])
    requires next.Valid(b) && now.Todo(b) == more + next.Todo(b)
    requires Take(TakeAll(r, ss), s) == Rx(next.Flight(b), next.Left(b), r.done + sent + more)
    ensures Sent(b, r, u, ss + [s], was, next, sent + more)
  {
    TakeMore(r, ss, s);
    Regrouped(r.done, sent, more);
    Regrouped(sent, more, next.Todo(b));
  }

  lemma SentFetch(b: Bus, r: Rx, t: Transaction, ss: seq<Segment>, was: Sending, now: Sending, sent: seq<Frame>)
    requires Sent(b, r, t, ss, was, now, sent) && now.frame == None && now.queue != []
    ensures Sent(b, r, t, ss, was, now.Fetched(), sent) && (now.Past(was) ==> now.Fetched().Past(was))
  {
    FetchKeeps(b, now);
  }

  lemma SentWhole(b: Bus, r: Rx, t: Transaction, ss: seq<Segment>, was: Sending, now: Sending, sent: seq<Frame>)
    requires Sent(b, r, t, ss, was, now, sent) && |ss| <= b.segs
    ensures now.Valid(b) && was.Todo(b) == sent + now.Todo(b)
    ensures TakeAll(r, Segments(b, t)) == Rx(now.Flight(b), now.Left(b), r.done + sent)
  {
    PadSegments(b, r, t, ss);
  }

  lemma SentNothing(b: Bus, r: Rx, x: Sending)
    requires x.Valid(b) && r.Rx? && r.frame == x.Flight(b) && r.count == x.Left(b)
    ensures Sent(b, r, NoTransaction(), [], x, x, [])
  {
    NothingPacked(b);
    Alone(x.Todo(b));
    Alone(r.done);
  }

  // ---- a segment or-ed in part by part ----

  function WithHeader(t: Transaction, n: nat, first: bool, f: Frame): Transaction {
    t.(valid := Put(t.valid, n, Flag(first)),
       sop := Put(t.sop, n, Flag(first)),
       hdr := Put(t.hdr, At(HDR, n), if first then f.hdr else 0),
       prefix := Put(t.prefix, At(PREFIX, n), if first then f.prefix else 0),
       hdrPar := Put(t.hdrPar, At(HDR_PAR, n), if first then f.hdrPar else 0),
       prefixPar := Put(t.prefixPar, At(PREFIX_PAR, n), if first then f.prefixPar else 0))
  }

  lemma NoHeader(t: Transaction, n: nat, f: Frame)
    ensures WithHeader(t, n, false, f) == t
  {
    PutNothing(t.valid, n);
    PutNothing(t.sop, n);
    PutNothing(t.hdr, At(HDR, n));
    PutNothing(t.prefix, At(PREFIX, n));
    PutNothing(t.hdrPar, At(HDR_PAR, n));
    PutNothing(t.prefixPar, At(PREFIX_PAR, n));
  }

  function WithSideband(b: Bus, t: Transaction, n: nat, f: Frame): Transaction {
    t.(bar := Put(t.bar, At(BAR, n), f.bar),
       func := Put(t.func, At(b.func, n), f.func % Pow2(b.func)),
       vfActive := Put(t.vfActive, n, Flag(f.vf.Some?)),
       vf := Put(t.vf, At(b.vf, n), if f.vf.Some? then f.vf.value % Pow2(b.vf) else 0),
       error := Put(t.error, At(ERROR, n), f.error),
       seqNum := Put(t.seqNum, At(b.seqNum, n), f.seqNum))
  }

  function WithWords(b: Bus, t: Transaction, n: nat, f: Frame, offset: nat): Transaction
    requires |f.parity| == |f.data| && offset <= |f.data|
  {
    var cnt := Min(b.lanes, |f.data| - offset);
    t.(valid := Put(t.valid, n, Flag(f.data != [])),
       empty := Put(t.empty, At(b.empty, n), if f.data != [] then b.lanes - cnt else 0),
       data := PutWords(t.data, WORD, At(b.lanes, n), Filled(f.data, offset, b.lanes)),
       parity := PutWords(t.parity, NIBBLE, At(b.lanes, n), Filled(f.parity, offset, b.lanes)))
  }

  /** All of it, as the source puts it in. */
  function WithCut(b: Bus, t: Transaction, n: nat, f: Frame, first: bool, offset: nat, eop: bool): Transaction
    requires |f.parity| == |f.data| && offset <= |f.data|
  {
    var u := WithWords(b, WithSideband(b, WithHeader(t, n, first, f), n, f), n, f, offset);
    u.(eop := Put(u.eop, n, Flag(eop)))
  }

  /** What is not put in, or put in twice, makes no difference. */
  lemma Assembled(b: Bus, t: Transaction, n: nat, f: Frame, first: bool, offset: nat)
    requires |f.parity| == |f.data| && offset <= |f.data|
    ensures var s := CutSegment(b, f, first, offset); WithCut(b, t, n, f, first, offset, s.eop) == WithSegment(b, t, n, s)
  {
    FlagTwice(t.valid, n, first, f.data != []);
  }

  lemma FilledPut(x: nat, w: nat, n: nat, words: seq<nat>, offset: nat, lanes: nat)
    requires offset <= |words|
    ensures PutWords(x, w, n, Filled(words, offset, lanes)) ==
      PutWords(x, w, n, words[offset..offset + Min(lanes, |words| - offset)])
  {
    var cnt := Min(lanes, |words| - offset);
    ZerosPut(x, w, n, words[offset..offset + cnt], lanes - cnt);
  }

  lemma FlagTwice(x: nat, at: nat, f: bool, g: bool)
    ensures Put(Put(x, at, Flag(f)), at, Flag(g)) == Put(x, at, Flag(f || g))
  {
    PutNothing(x, at);
    PutNothing(Put(x, at, 1), at);
    PutTwice(x, at);
  }

  // ---- both ends ----

  /** A sink at r that takes what is on the bus, x, and what is to be driven next, y, is then where
      the source is; with what the source still has that makes up all frames queued. */
  ghost predicate Coupled(b: Bus, r: Rx, x: seq<Segment>, y: seq<Segment>, now: Sending, queued: seq<Frame>) {
    && now.Valid(b)
    && var all := TakeAll(TakeAll(r, x), y);
       all.Rx? && all.frame == now.Flight(b) && all.count == now.Left(b) && queued == all.done + now.Todo(b)
  }

  lemma CoupledSend(b: Bus, r: Rx, x: seq<Segment>, y: seq<Segment>, now: Sending, queued: seq<Frame>, f: Frame)
    requires Coupled(b, r, x, y, now, queued) && Sendable(b, f)
    ensures Coupled(b, r, x, y, now.(queue := now.queue + [f]), queued + [Masked(b, f)])
  {
    EnqueueKeeps(b, now, f);
  }

  lemma CoupledMake(b: Bus, r: Rx, x: seq<Segment>, y: seq<Segment>, was: Sending, now: Sending, queued: seq<Frame>, sent: seq<Frame>)
    requires Coupled(b, r, x, [], was, queued) && now.Valid(b)
    requires was.Todo(b) == sent + now.Todo(b)
    requires TakeAll(TakeAll(r, x), y) == Rx(now.Flight(b), now.Left(b), TakeAll(r, x).done + sent)
    ensures Coupled(b, r, x, y, now, queued)
  {
    Regrouped(TakeAll(r, x).done, sent, now.Todo(b));
  }

  /** Nothing is delivered that was not queued, and the sink has not failed. */
  lemma CoupledArrives(b: Bus, r: Rx, x: seq<Segment>, y: seq<Segment>, now: Sending, queued: seq<Frame>)
    requires Coupled(b, r, x, y, now, queued)
    ensures r.Rx? && r.done <= queued
    ensures x == y == [] && now.Todo(b) == [] ==> r.done == queued
  {
    TakeKeeps(r, x);
    TakeKeeps(TakeAll(r, x), y);
  }
}
