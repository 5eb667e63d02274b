/** The 64b/66b block code of IEEE 802.3 section 49.2.4 as src/eth/tb/baser.py encodes
    and decodes it: eight XGMII lanes to a sync header and 64 bits, and back. */
module PcsCodec {
  /** One XGMII lane: an octet and its control flag. */
  datatype Lane = Lane(d: bv8, c: bool)

  /** A sync header and 64 bits of payload, bit 0 first. */
  datatype Block = Block(hdr: bv2, data: Word)

  type Word = w: seq<bool> | |w| == 64 witness seq(64, i => false)

  const SYNC_DATA: bv2 := 2
  const SYNC_CTRL: bv2 := 1

  // XGMII control characters
  const IDLE: bv8 := 0x07
  const LPI: bv8 := 0x06
  const START: bv8 := 0xfb
  const TERM: bv8 := 0xfd
  const ERROR: bv8 := 0xfe
  const SEQ_OS: bv8 := 0x9c
  const SIG_OS: bv8 := 0x5c
  const RES_0: bv8 := 0x1c
  const RES_1: bv8 := 0x3c
  const RES_2: bv8 := 0x7c
  const RES_3: bv8 := 0xbc
  const RES_4: bv8 := 0xdc
  const RES_5: bv8 := 0xf7

  // block types
  const BT_CTRL: bv8 := 0x1e
  const BT_OS_4: bv8 := 0x2d
  const BT_START_4: bv8 := 0x33
  const BT_OS_START: bv8 := 0x66
  const BT_OS_04: bv8 := 0x55
  const BT_START_0: bv8 := 0x78
  const BT_OS_0: bv8 := 0x4b

  // O codes
  const O_SEQ: bv8 := 0x0
  const O_SIG: bv8 := 0xf

  type Lanes = l: seq<Lane> | |l| == 8 witness seq(8, i => Lane(IDLE, true))

  /** The block type of a terminate character in lane k. */
  function BtTerm(k: nat): bv8
    requires k < 8
  {
    if k == 0 then 0x87
    else if k == 1 then 0x99
    else if k == 2 then 0xaa
    else if k == 3 then 0xb4
    else if k == 4 then 0xcc
    else if k == 5 then 0xd2
    else if k == 6 then 0xe1
    else 0xff
  }

  /** The seven-bit code of a control character; everything unknown is an error. */
  function ToCode(d: bv8): bv8 {
    if d == IDLE then 0x00
    else if d == LPI then 0x06
    else if d == RES_0 then 0x2d
    else if d == RES_1 then 0x33
    else if d == RES_2 then 0x4b
    else if d == RES_3 then 0x55
    else if d == RES_4 then 0x66
    else if d == RES_5 then 0x78
    else 0x1e
  }

  function FromCode(x: bv8): bv8 {
    if x == 0x00 then IDLE
    else if x == 0x06 then LPI
    else if x == 0x2d then RES_0
    else if x == 0x33 then RES_1
    else if x == 0x4b then RES_2
    else if x == 0x55 then RES_3
    else if x == 0x66 then RES_4
    else if x == 0x78 then RES_5
    else ERROR
  }

  /** Control characters that have a code of their own. */
  predicate Plain(d: bv8) {
    FromCode(ToCode(d)) == d
  }

  predicate IsOs(l: Lane) {
    l.c && (l.d == SEQ_OS || l.d == SIG_OS)
  }

  predicate AllData(l: Lanes, from: nat, to: nat)
    requires from <= to <= 8
  {
    forall i :: from <= i < to ==> !l[i].c
  }

  predicate AllPlain(l: Lanes, from: nat, to: nat)
    requires from <= to <= 8
  {
    forall i :: from <= i < to ==> l[i].c && Plain(l[i].d)
  }

  // Which block a column of lanes becomes.

  predicate Start0(l: Lanes) {
    l[0] == Lane(START, true) && AllData(l, 1, 8)
  }

  predicate Start4(l: Lanes) {
    l[4] == Lane(START, true) && AllData(l, 5, 8)
  }

  predicate Os0(l: Lanes) {
    IsOs(l[0]) && AllData(l, 1, 4)
  }

  predicate Os4(l: Lanes) {
    IsOs(l[4]) && AllData(l, 5, 8)
  }

  predicate TermAt(l: Lanes, k: nat)
    requires k < 8
  {
    l[k] == Lane(TERM, true) && AllData(l, 0, k)
  }

  // ---- bits ----

  predicate Bit(d: bv8, i: int) {
    if i == 0 then d & 0x01 != 0
    else if i == 1 then d & 0x02 != 0
    else if i == 2 then d & 0x04 != 0
    else if i == 3 then d & 0x08 != 0
    else if i == 4 then d & 0x10 != 0
    else if i == 5 then d & 0x20 != 0
    else if i == 6 then d & 0x40 != 0
    else i == 7 && d & 0x80 != 0
  }

  function Weight(i: nat): bv8 {
    if i == 0 then 0x01
    else if i == 1 then 0x02
    else if i == 2 then 0x04
    else if i == 3 then 0x08
    else if i == 4 then 0x10
    else if i == 5 then 0x20
    else if i == 6 then 0x40
    else 0x80
  }

  /** The number n bits of w from bit at on spell. */
  function Field(w: Word, at: nat, n: nat): bv8
    requires n <= 8 && at + n <= 64
  {
    if n == 0 then 0
    else Field(w, at, n - 1) | if w[at + n - 1] then Weight(n - 1) else 0
  }

  predicate Fits(d: bv8, n: nat) {
    forall i :: n <= i < 8 ==> !Bit(d, i)
  }

  /** The low n bits of d. */
  function Low(d: bv8, n: nat): bv8 {
    if n == 0 then 0
    else if n == 1 then d & 0x01
    else if n == 2 then d & 0x03
    else if n == 3 then d & 0x07
    else if n == 4 then d & 0x0f
    else if n == 5 then d & 0x1f
    else if n == 6 then d & 0x3f
    else if n == 7 then d & 0x7f
    else d
  }

  lemma {:induction false} FieldLow(w: Word, at: nat, n: nat, d: bv8)
    requires n <= 8 && at + n <= 64
    requires forall i :: 0 <= i < n ==> w[at + i] == Bit(d, i)
    ensures Field(w, at, n) == Low(d, n)
    decreases n
  {
    if n > 0 {
      FieldLow(w, at, n - 1, d);
      assert w[at + (n - 1)] == Bit(d, n - 1);
      LowStep(d, n);
    }
  }

  lemma LowStep(d: bv8, n: nat)
    requires 0 < n <= 8
    ensures Low(d, n) == Low(d, n - 1) | if Bit(d, n - 1) then Weight(n - 1) else 0
  {
  }

  lemma FieldIs(w: Word, at: nat, n: nat, d: bv8)
    requires n <= 8 && at + n <= 64 && Fits(d, n)
    requires forall i :: 0 <= i < n ==> w[at + i] == Bit(d, i)
    ensures Field(w, at, n) == d
  {
    FieldLow(w, at, n, d);
    LowAll(d, n);
  }

  lemma LowAll(d: bv8, n: nat)
    requires n <= 8 && Fits(d, n)
    ensures Low(d, n) == d
  {
    assert 0 >= n ==> !Bit(d, 0);
    assert 1 >= n ==> !Bit(d, 1);
    assert 2 >= n ==> !Bit(d, 2);
    assert 3 >= n ==> !Bit(d, 3);
    assert 4 >= n ==> !Bit(d, 4);
    assert 5 >= n ==> !Bit(d, 5);
    assert 6 >= n ==> !Bit(d, 6);
    assert 7 >= n ==> !Bit(d, 7);
  }

  /** d moved up to bit at. */
  function At(d: bv8, at: int): Word {
    seq(64, p => Bit(d, p - at))
  }

  function Or(x: Word, y: Word): Word {
    seq(64, p requires 0 <= p < 64 => x[p] || y[p])
  }

  /** x moved up n bits. */
  function Up(x: Word, n: nat): Word {
    seq(64, p requires 0 <= p < 64 => n <= p && x[p - n])
  }

  /** The bits [from, to) of x. */
  function Mask(x: Word, from: int, to: int): Word {
    seq(64, p requires 0 <= p < 64 => from <= p < to && x[p])
  }

  function Zero(): Word {
    seq(64, p => false)
  }

  predicate Clear(w: Word, from: int, to: int) {
    forall p :: 0 <= p < 64 && from <= p < to ==> !w[p]
  }

  // ---- encoder ----

  /** All eight codes, lane 0 lowest; they do not overlap. */
  function Codes(l: Lanes): Word {
    seq(64, p requires 0 <= p < 64 => p < 56 && Bit(ToCode(l[p / 7].d), p % 7))
  }

  /** base with the lanes [from, to) in it, lane i as byte i + lift. */
  function WithLanes(base: Word, l: Lanes, from: nat, to: nat, lift: nat): Word
    requires from <= to <= 8
  {
    seq(64, p requires 0 <= p < 64 =>
      base[p] || (from + lift <= p / 8 < to + lift && Bit(l[p / 8 - lift].d, p % 8)))
  }

  function WithSig(base: Word, l: Lane, at: int): Word {
    if l.d == SIG_OS then Or(base, At(O_SIG, at)) else base
  }

  /** Block type bt over the codes [from, to) of ctrl, moved up to bit at. */
  function OverCodes(bt: bv8, ctrl: Word, from: nat, to: nat, at: nat): Word {
    Or(At(bt, 0), Up(Mask(ctrl, 7 * from, 7 * to), at))
  }

  function WithCodes(bt: bv8, l: Lanes, from: nat, to: nat, at: nat): Word
    requires from <= to <= 8
  {
    OverCodes(bt, Codes(l), from, to, at)
  }

  function EncodeTerm(l: Lanes, k: nat): Word
    requires k < 8
  {
    WithLanes(WithCodes(BtTerm(k), l, k + 1, 8, 8), l, 0, k, 1)
  }

  function EncodeControl(l: Lanes): Word {
    if Start0(l) then
      WithLanes(At(BT_START_0, 0), l, 1, 8, 0)
    else if Start4(l) then
      if Os0(l) then
        WithLanes(WithSig(WithLanes(At(BT_OS_START, 0), l, 1, 4, 0), l[0], 32), l, 5, 8, 0)
      else
        WithLanes(WithCodes(BT_START_4, l, 0, 4, 8), l, 5, 8, 0)
    else if Os0(l) then
      if Os4(l) then
        WithSig(WithLanes(WithSig(WithLanes(At(BT_OS_04, 0), l, 5, 8, 0), l[4], 36), l, 1, 4, 0), l[0], 32)
      else
        WithSig(WithLanes(WithCodes(BT_OS_0, l, 0, 4, 40), l, 1, 4, 0), l[0], 32)
    else if Os4(l) then
      WithSig(WithLanes(WithCodes(BT_OS_4, l, 0, 4, 8), l, 5, 8, 0), l[4], 36)
    else if TermAt(l, 0) then EncodeTerm(l, 0)
    else if TermAt(l, 1) then EncodeTerm(l, 1)
    else if TermAt(l, 2) then EncodeTerm(l, 2)
    else if TermAt(l, 3) then EncodeTerm(l, 3)
    else if TermAt(l, 4) then EncodeTerm(l, 4)
    else if TermAt(l, 5) then EncodeTerm(l, 5)
    else if TermAt(l, 6) then EncodeTerm(l, 6)
    else if TermAt(l, 7) then EncodeTerm(l, 7)
    else WithCodes(BT_CTRL, l, 0, 8, 8)
  }

  function Encode(l: Lanes): Block {
    if AllData(l, 0, 8) then Block(SYNC_DATA, WithLanes(Zero(), l, 0, 8, 0))
    else Block(SYNC_CTRL, EncodeControl(l))
  }

  /** ctrl = sum(code(d) << i * 7), a lane at a time. */
  method PackCodes(l: Lanes) returns (ctrl: Word)
    ensures ctrl == Codes(l)
  {
    ctrl := Zero();
    for i := 0 to 8
      invariant forall p :: 0 <= p < 64 ==> ctrl[p] == (p < 7 * i && Codes(l)[p])
    {
      ghost var was := ctrl;
      var code := ToCode(l[i].d);
      ctrl := Or(ctrl, At(code, 7 * i));
      forall p | 0 <= p < 64
        ensures ctrl[p] == (p < 7 * i + 7 && Codes(l)[p])
      {
        assert ctrl[p] == (was[p] || Bit(code, p - 7 * i));
        if 7 * i <= p < 7 * i + 7 {
          assert p / 7 == i && p % 7 == p - 7 * i;
        } else {
          SevenBits(l[i].d, p - 7 * i);
        }
      }
    }
  }

  lemma SevenBits(d: bv8, i: int)
    requires i < 0 || 7 <= i
    ensures !Bit(ToCode(d), i)
  {
  }

  /** data |= dl[i] << (i + lift) * 8 for the lanes [from, to). */
  method OrLanes(base: Word, l: Lanes, from: nat, to: nat, lift: nat) returns (data: Word)
    requires from <= to <= 8
    ensures data == WithLanes(base, l, from, to, lift)
  {
    data := base;
    for i := from to to
      invariant data == WithLanes(base, l, from, i, lift)
    {
      ghost var was := data;
      data := Or(data, At(l[i].d, 8 * (i + lift)));
      forall p | 0 <= p < 64
        ensures data[p] == WithLanes(base, l, from, i + 1, lift)[p]
      {
        assert data[p] == (was[p] || Bit(l[i].d, p - 8 * (i + lift)));
        if p / 8 == i + lift {
          assert p % 8 == p - 8 * (i + lift);
        }
      }
    }
  }

  method EncodeTermBlock(l: Lanes, ctrl: Word, k: nat) returns (data: Word)
    requires k < 8 && ctrl == Codes(l)
    ensures data == EncodeTerm(l, k)
  {
    data := OrLanes(OverCodes(BtTerm(k), ctrl, k + 1, 8, 8), l, 0, k, 1);
  }

  method EncodeOrderedSets(l: Lanes, ctrl: Word) returns (data: Word)
    requires ctrl == Codes(l) && !AllData(l, 0, 8) && !Start0(l) && !Start4(l) && (Os0(l) || Os4(l))
    ensures data == EncodeControl(l)
  {
    if Os0(l) {
      if Os4(l) {
        data := OrLanes(At(BT_OS_04, 0), l, 5, 8, 0);
        if l[4].d == SIG_OS {
          data := Or(data, At(O_SIG, 36));
        }
      } else {
        data := OverCodes(BT_OS_0, ctrl, 0, 4, 40);
      }
      data := OrLanes(data, l, 1, 4, 0);
      if l[0].d == SIG_OS {
        data := Or(data, At(O_SIG, 32));
      }
    } else {
      data := OrLanes(OverCodes(BT_OS_4, ctrl, 0, 4, 8), l, 5, 8, 0);
      if l[4].d == SIG_OS {
        data := Or(data, At(O_SIG, 36));
      }
    }
  }

  method EncodeStarts(l: Lanes, ctrl: Word) returns (data: Word)
    requires ctrl == Codes(l) && !AllData(l, 0, 8) && (Start0(l) || Start4(l))
    ensures data == EncodeControl(l)
  {
    if Start0(l) {
      data := OrLanes(At(BT_START_0, 0), l, 1, 8, 0);
    } else {
      if Os0(l) {
        data := OrLanes(At(BT_OS_START, 0), l, 1, 4, 0);
        if l[0].d == SIG_OS {
          data := Or(data, At(O_SIG, 32));
        }
      } else {
        data := OverCodes(BT_START_4, ctrl, 0, 4, 8);
      }
      data := OrLanes(data, l, 5, 8, 0);
    }
  }

  /** One column of lanes to one block. */
  method EncodeColumn(l: Lanes) returns (b: Block)
    ensures b == Encode(l)
  {
    var ctrl := PackCodes(l);
    var data: Word;
    if AllData(l, 0, 8) {
      data := OrLanes(Zero(), l, 0, 8, 0);
      return Block(SYNC_DATA, data);
    }
    if Start0(l) || Start4(l) {
      data := EncodeStarts(l, ctrl);
    } else if Os0(l) || Os4(l) {
      data := EncodeOrderedSets(l, ctrl);
    } else if TermAt(l, 0) {
      data := EncodeTermBlock(l, ctrl, 0);
    } else if TermAt(l, 1) {
      data := EncodeTermBlock(l, ctrl, 1);
    } else if TermAt(l, 2) {
      data := EncodeTermBlock(l, ctrl, 2);
    } else if TermAt(l, 3) {
      data := EncodeTermBlock(l, ctrl, 3);
    } else if TermAt(l, 4) {
      data := EncodeTermBlock(l, ctrl, 4);
    } else if TermAt(l, 5) {
      data := EncodeTermBlock(l, ctrl, 5);
    } else if TermAt(l, 6) {
      data := EncodeTermBlock(l, ctrl, 6);
    } else if TermAt(l, 7) {
      data := EncodeTermBlock(l, ctrl, 7);
    } else {
      data := OverCodes(BT_CTRL, ctrl, 0, 8, 8);
    }
    b := Block(SYNC_CTRL, data);
  }

  // ---- decoder ----

  function DataLane(w: Word, i: nat): Lane
    requires i < 8
  {
    Lane(Field(w, 8 * i, 8), false)
  }

  function CtrlLane(w: Word, i: nat): Lane
    requires i < 8
  {
    Lane(FromCode(Field(w, 8 + 7 * i, 7)), true)
  }

  function OsLane(w: Word, at: nat): Lane
    requires at + 4 <= 64
  {
    var code := Field(w, at, 4);
    Lane(if code == O_SEQ then SEQ_OS else if code == O_SIG then SIG_OS else ERROR, true)
  }

  function ErrorLanes(): Lanes {
    seq(8, i => Lane(ERROR, true))
  }

  function TermLane(w: Word, k: nat, i: nat): Lane
    requires k < 8 && i < 8
  {
    if i < k then DataLane(w, i + 1)
    else if i == k then Lane(TERM, true)
    else CtrlLane(w, i)
  }

  function TermLanes(w: Word, k: nat): Lanes
    requires k < 8
  {
    [TermLane(w, k, 0), TermLane(w, k, 1), TermLane(w, k, 2), TermLane(w, k, 3),
     TermLane(w, k, 4), TermLane(w, k, 5), TermLane(w, k, 6), TermLane(w, k, 7)]
  }

  function DecodeControl(w: Word): Lanes {
    var bt := Field(w, 0, 8);
    if bt == BT_CTRL then
      [CtrlLane(w, 0), CtrlLane(w, 1), CtrlLane(w, 2), CtrlLane(w, 3),
       CtrlLane(w, 4), CtrlLane(w, 5), CtrlLane(w, 6), CtrlLane(w, 7)]
    else if bt == BT_OS_4 then
      [CtrlLane(w, 0), CtrlLane(w, 1), CtrlLane(w, 2), CtrlLane(w, 3),
       OsLane(w, 36), DataLane(w, 5), DataLane(w, 6), DataLane(w, 7)]
    else if bt == BT_START_4 then
      [CtrlLane(w, 0), CtrlLane(w, 1), CtrlLane(w, 2), CtrlLane(w, 3),
       Lane(START, true), DataLane(w, 5), DataLane(w, 6), DataLane(w, 7)]
    else if bt == BT_OS_START then
      [OsLane(w, 32), DataLane(w, 1), DataLane(w, 2), DataLane(w, 3),
       Lane(START, true), DataLane(w, 5), DataLane(w, 6), DataLane(w, 7)]
    else if bt == BT_OS_04 then
      [OsLane(w, 32), DataLane(w, 1), DataLane(w, 2), DataLane(w, 3),
       OsLane(w, 36), DataLane(w, 5), DataLane(w, 6), DataLane(w, 7)]
    else if bt == BT_START_0 then
      [Lane(START, true), DataLane(w, 1), DataLane(w, 2), DataLane(w, 3),
       DataLane(w, 4), DataLane(w, 5), DataLane(w, 6), DataLane(w, 7)]
    else if bt == BT_OS_0 then
      [OsLane(w, 32), DataLane(w, 1), DataLane(w, 2), DataLane(w, 3),
       CtrlLane(w, 4), CtrlLane(w, 5), CtrlLane(w, 6), CtrlLane(w, 7)]
    else if bt == BtTerm(0) then TermLanes(w, 0)
    else if bt == BtTerm(1) then TermLanes(w, 1)
    else if bt == BtTerm(2) then TermLanes(w, 2)
    else if bt == BtTerm(3) then TermLanes(w, 3)
    else if bt == BtTerm(4) then TermLanes(w, 4)
    else if bt == BtTerm(5) then TermLanes(w, 5)
    else if bt == BtTerm(6) then TermLanes(w, 6)
    else if bt == BtTerm(7) then TermLanes(w, 7)
    else ErrorLanes()
  }

  function Decode(b: Block): Lanes {
    if b.hdr == SYNC_DATA then
      [DataLane(b.data, 0), DataLane(b.data, 1), DataLane(b.data, 2), DataLane(b.data, 3),
       DataLane(b.data, 4), DataLane(b.data, 5), DataLane(b.data, 6), DataLane(b.data, 7)]
    else if b.hdr == SYNC_CTRL then DecodeControl(b.data)
    else ErrorLanes()
  }

  // ---- what each field of a word holds ----

  /** The n bits of w from bit at on are those of d. */
  predicate Holds(w: Word, at: nat, n: nat, d: bv8)
    requires at + n <= 64
  {
    forall j :: 0 <= j < n ==> w[at + j] == Bit(d, j)
  }

  lemma LanesHold(base: Word, l: Lanes, from: nat, to: nat, lift: nat, i: nat)
    requires from <= i < to <= 8 && i + lift < 8
    requires Clear(base, 8 * (i + lift), 8 * (i + lift) + 8)
    ensures Holds(WithLanes(base, l, from, to, lift), 8 * (i + lift), 8, l[i].d)
  {
    var at := 8 * (i + lift);
    forall j | 0 <= j < 8
      ensures WithLanes(base, l, from, to, lift)[at + j] == Bit(l[i].d, j)
    {
      assert (at + j) / 8 == i + lift && (at + j) % 8 == j;
      assert !base[at + j];
    }
  }

  lemma LanesKeep(base: Word, l: Lanes, from: nat, to: nat, lift: nat, at: nat, n: nat, d: bv8)
    requires from <= to <= 8 && at + n <= 64
    requires at + n <= 8 * (from + lift) || 8 * (to + lift) <= at
    requires Holds(base, at, n, d)
    ensures Holds(WithLanes(base, l, from, to, lift), at, n, d)
  {
    forall j | 0 <= j < n
      ensures WithLanes(base, l, from, to, lift)[at + j] == Bit(d, j)
    {
      assert base[at + j] == Bit(d, j);
    }
  }

  lemma OBits(i: int)
    requires i < 0 || 4 <= i
    ensures !Bit(O_SIG, i)
  {
  }

  lemma SigHolds(base: Word, l: Lane, at: nat)
    requires at + 4 <= 64 && Holds(base, at, 4, O_SEQ)
    ensures Holds(WithSig(base, l, at), at, 4, if l.d == SIG_OS then O_SIG else O_SEQ)
  {
    var code := if l.d == SIG_OS then O_SIG else O_SEQ;
    forall j | 0 <= j < 4
      ensures WithSig(base, l, at)[at + j] == Bit(code, j)
    {
      assert base[at + j] == Bit(O_SEQ, j);
    }
  }

  lemma SigKeeps(base: Word, l: Lane, sig: nat, at: nat, n: nat, d: bv8)
    requires sig + 4 <= 64 && at + n <= 64
    requires at + n <= sig || sig + 4 <= at
    requires Holds(base, at, n, d)
    ensures Holds(WithSig(base, l, sig), at, n, d)
  {
    forall j | 0 <= j < n
      ensures WithSig(base, l, sig)[at + j] == Bit(d, j)
    {
      OBits(at + j - sig);
      assert base[at + j] == Bit(d, j);
    }
  }

  lemma CodesHold(bt: bv8, l: Lanes, from: nat, to: nat, i: nat)
    requires from <= i < to <= 8
    ensures Holds(WithCodes(bt, l, from, to, 8), 8 + 7 * i, 7, ToCode(l[i].d))
  {
    forall j | 0 <= j < 7
      ensures WithCodes(bt, l, from, to, 8)[8 + 7 * i + j] == Bit(ToCode(l[i].d), j)
    {
      assert (7 * i + j) / 7 == i && (7 * i + j) % 7 == j;
      assert !At(bt, 0)[8 + 7 * i + j];
      assert Mask(Codes(l), 7 * from, 7 * to)[7 * i + j] == Bit(ToCode(l[i].d), j);
    }
  }

  /** Below its codes a word holds the block type and nothing else. */
  lemma TypeHolds(bt: bv8, l: Lanes, from: nat, to: nat)
    requires from <= to <= 8
    ensures Holds(WithCodes(bt, l, from, to, 8), 0, 8, bt)
    ensures Clear(WithCodes(bt, l, from, to, 8), 8, 8 + 7 * from)
    ensures Clear(WithCodes(bt, l, from, to, 8), 8 + 7 * to, 64)
  {
  }

  lemma AloneHolds(bt: bv8)
    ensures Holds(At(bt, 0), 0, 8, bt) && Clear(At(bt, 0), 8, 64)
  {
    forall p | 0 <= p < 64 && 8 <= p < 64
      ensures !At(bt, 0)[p]
    {
      assert !Bit(bt, p);
    }
  }

  lemma LanesClear(base: Word, l: Lanes, from: nat, to: nat, lift: nat, a: nat, b: nat)
    requires from <= to <= 8 && Clear(base, a, b)
    requires b <= 8 * (from + lift) || 8 * (to + lift) <= a
    ensures Clear(WithLanes(base, l, from, to, lift), a, b)
  {
  }

  lemma SigClear(base: Word, l: Lane, sig: nat, a: nat, b: nat)
    requires Clear(base, a, b) && (b <= sig || sig + 4 <= a)
    ensures Clear(WithSig(base, l, sig), a, b)
  {
    forall p | 0 <= p < 64 && a <= p < b
      ensures !WithSig(base, l, sig)[p]
    {
      OBits(p - sig);
    }
  }

  lemma ClearHolds(w: Word, at: nat, n: nat)
    requires at + n <= 64 && Clear(w, at, at + n)
    ensures Holds(w, at, n, O_SEQ)
  {
  }

  lemma HeldType(w: Word, bt: bv8)
    requires Holds(w, 0, 8, bt)
    ensures Field(w, 0, 8) == bt
  {
    FieldIs(w, 0, 8, bt);
  }

  lemma HeldData(w: Word, i: nat, d: bv8)
    requires i < 8 && Holds(w, 8 * i, 8, d)
    ensures DataLane(w, i) == Lane(d, false)
  {
    FieldIs(w, 8 * i, 8, d);
  }

  lemma HeldCode(w: Word, i: nat, d: bv8)
    requires i < 8 && Holds(w, 8 + 7 * i, 7, ToCode(d))
    ensures CtrlLane(w, i) == Lane(FromCode(ToCode(d)), true)
  {
    FieldIs(w, 8 + 7 * i, 7, ToCode(d));
  }

  lemma HeldOs(w: Word, at: nat, l: Lane)
    requires at + 4 <= 64 && IsOs(l)
    requires Holds(w, at, 4, if l.d == SIG_OS then O_SIG else O_SEQ)
    ensures OsLane(w, at) == l
  {
    FieldIs(w, at, 4, if l.d == SIG_OS then O_SIG else O_SEQ);
  }

  // ---- each block type, decoded ----

  /** l after the lanes [from, to) have gone through their seven-bit codes. */
  function Recoded(l: Lanes, from: nat, to: nat): Lanes {
    seq(8, i requires 0 <= i < 8 => if from <= i < to then Lane(FromCode(ToCode(l[i].d)), true) else l[i])
  }

  lemma DataField(l: Lanes, i: nat)
    requires AllData(l, 0, 8) && i < 8
    ensures DataLane(WithLanes(Zero(), l, 0, 8, 0), i) == l[i]
  {
    LanesHold(Zero(), l, 0, 8, 0, i);
    HeldData(WithLanes(Zero(), l, 0, 8, 0), i, l[i].d);
  }

  lemma DataBlock(l: Lanes)
    requires AllData(l, 0, 8)
    ensures Decode(Encode(l)) == l
  {
    DataField(l, 0);
    DataField(l, 1);
    DataField(l, 2);
    DataField(l, 3);
    DataField(l, 4);
    DataField(l, 5);
    DataField(l, 6);
    DataField(l, 7);
  }

  lemma Start0Field(l: Lanes, w: Word, i: nat)
    requires Start0(l) && 1 <= i < 8 && w == WithLanes(At(BT_START_0, 0), l, 1, 8, 0)
    ensures Field(w, 0, 8) == BT_START_0
    ensures DataLane(w, i) == l[i]
  {
    AloneHolds(BT_START_0);
    LanesKeep(At(BT_START_0, 0), l, 1, 8, 0, 0, 8, BT_START_0);
    HeldType(w, BT_START_0);
    LanesHold(At(BT_START_0, 0), l, 1, 8, 0, i);
    HeldData(w, i, l[i].d);
  }

  lemma Start0Word(l: Lanes, w: Word)
    requires Start0(l) && w == WithLanes(At(BT_START_0, 0), l, 1, 8, 0)
    ensures DecodeControl(w) == l
  {
    Start0Field(l, w, 1);
    Start0Field(l, w, 2);
    Start0Field(l, w, 3);
    Start0Field(l, w, 4);
    Start0Field(l, w, 5);
    Start0Field(l, w, 6);
    Start0Field(l, w, 7);
  }

  lemma CtrlField(l: Lanes, w: Word, i: nat)
    requires i < 8 && w == WithCodes(BT_CTRL, l, 0, 8, 8)
    ensures Field(w, 0, 8) == BT_CTRL
    ensures CtrlLane(w, i) == Recoded(l, 0, 8)[i]
  {
    TypeHolds(BT_CTRL, l, 0, 8);
    HeldType(w, BT_CTRL);
    CodesHold(BT_CTRL, l, 0, 8, i);
    HeldCode(w, i, l[i].d);
  }

  lemma CtrlWord(l: Lanes, w: Word)
    requires w == WithCodes(BT_CTRL, l, 0, 8, 8)
    ensures DecodeControl(w) == Recoded(l, 0, 8)
  {
    CtrlField(l, w, 0);
    CtrlField(l, w, 1);
    CtrlField(l, w, 2);
    CtrlField(l, w, 3);
    CtrlField(l, w, 4);
    CtrlField(l, w, 5);
    CtrlField(l, w, 6);
    CtrlField(l, w, 7);
  }

  lemma TermField(l: Lanes, w: Word, k: nat, i: nat)
    requires k < 8 && i < 8 && TermAt(l, k) && w == EncodeTerm(l, k)
    ensures Field(w, 0, 8) == BtTerm(k)
    ensures TermLane(w, k, i) == Recoded(l, k + 1, 8)[i]
  {
    var base := WithCodes(BtTerm(k), l, k + 1, 8, 8);
    TypeHolds(BtTerm(k), l, k + 1, 8);
    LanesKeep(base, l, 0, k, 1, 0, 8, BtTerm(k));
    HeldType(w, BtTerm(k));
    if i < k {
      LanesHold(base, l, 0, k, 1, i);
      HeldData(w, i + 1, l[i].d);
    } else if i > k {
      CodesHold(BtTerm(k), l, k + 1, 8, i);
      LanesKeep(base, l, 0, k, 1, 8 + 7 * i, 7, ToCode(l[i].d));
      HeldCode(w, i, l[i].d);
    }
  }

  /** A terminate block keeps the lanes before the terminate character and recodes those after it. */
  lemma TermWord(l: Lanes, w: Word, k: nat)
    requires k < 8 && TermAt(l, k) && w == EncodeTerm(l, k)
    ensures DecodeControl(w) == Recoded(l, k + 1, 8)
  {
    TermFields(l, w, k);
    TermChosen(w, k);
  }

  lemma TermFields(l: Lanes, w: Word, k: nat)
    requires k < 8 && TermAt(l, k) && w == EncodeTerm(l, k)
    ensures Field(w, 0, 8) == BtTerm(k)
    ensures TermLanes(w, k) == Recoded(l, k + 1, 8)
  {
    var r := Recoded(l, k + 1, 8);
    forall i | 0 <= i < 8
      ensures Field(w, 0, 8) == BtTerm(k) && TermLane(w, k, i) == r[i]
    {
      TermField(l, w, k, i);
    }
    TermListed(w, k, r);
  }

  lemma TermListed(w: Word, k: nat, r: Lanes)
    requires k < 8 && forall i :: 0 <= i < 8 ==> TermLane(w, k, i) == r[i]
    ensures TermLanes(w, k) == r
  {
    assert TermLane(w, k, 0) == r[0] && TermLane(w, k, 1) == r[1];
    assert TermLane(w, k, 2) == r[2] && TermLane(w, k, 3) == r[3];
    assert TermLane(w, k, 4) == r[4] && TermLane(w, k, 5) == r[5];
    assert TermLane(w, k, 6) == r[6] && TermLane(w, k, 7) == r[7];
  }

  lemma TermChosen(w: Word, k: nat)
    requires k < 8 && Field(w, 0, 8) == BtTerm(k)
    ensures DecodeControl(w) == TermLanes(w, k)
  {
  }

  /** Codes in lanes 0 to 3, data in lanes 5 to 7: what start and ordered set blocks in lane 4 share. */
  lemma UpperFields(bt: bv8, l: Lanes, w: Word, i: nat)
    requires i < 8 && i != 4 && w == WithLanes(WithCodes(bt, l, 0, 4, 8), l, 5, 8, 0)
    ensures Holds(w, 0, 8, bt) && Holds(w, 36, 4, O_SEQ)
    ensures i < 4 ==> Holds(w, 8 + 7 * i, 7, ToCode(l[i].d))
    ensures 4 < i ==> Holds(w, 8 * i, 8, l[i].d)
  {
    var base := WithCodes(bt, l, 0, 4, 8);
    TypeHolds(bt, l, 0, 4);
    LanesKeep(base, l, 5, 8, 0, 0, 8, bt);
    ClearHolds(base, 36, 4);
    LanesKeep(base, l, 5, 8, 0, 36, 4, O_SEQ);
    if i < 4 {
      CodesHold(bt, l, 0, 4, i);
      LanesKeep(base, l, 5, 8, 0, 8 + 7 * i, 7, ToCode(l[i].d));
    } else {
      LanesHold(base, l, 5, 8, 0, i);
    }
  }

  lemma Start4Field(l: Lanes, w: Word, i: nat)
    requires i < 8 && i != 4 && Start4(l)
    requires w == WithLanes(WithCodes(BT_START_4, l, 0, 4, 8), l, 5, 8, 0)
    ensures Field(w, 0, 8) == BT_START_4
    ensures (if i < 4 then CtrlLane(w, i) else DataLane(w, i)) == Recoded(l, 0, 4)[i]
  {
    UpperFields(BT_START_4, l, w, i);
    HeldType(w, BT_START_4);
    if i < 4 {
      HeldCode(w, i, l[i].d);
    } else {
      HeldData(w, i, l[i].d);
    }
  }

  lemma Start4Word(l: Lanes, w: Word)
    requires Start4(l) && w == WithLanes(WithCodes(BT_START_4, l, 0, 4, 8), l, 5, 8, 0)
    ensures DecodeControl(w) == Recoded(l, 0, 4)
  {
    Start4Field(l, w, 0);
    Start4Field(l, w, 1);
    Start4Field(l, w, 2);
    Start4Field(l, w, 3);
    Start4Field(l, w, 5);
    Start4Field(l, w, 6);
    Start4Field(l, w, 7);
  }

  lemma Os4Field(l: Lanes, w: Word, i: nat)
    requires i < 8 && i != 4 && Os4(l)
    requires w == WithSig(WithLanes(WithCodes(BT_OS_4, l, 0, 4, 8), l, 5, 8, 0), l[4], 36)
    ensures Field(w, 0, 8) == BT_OS_4 && OsLane(w, 36) == l[4]
    ensures (if i < 4 then CtrlLane(w, i) else DataLane(w, i)) == Recoded(l, 0, 4)[i]
  {
    var base := WithLanes(WithCodes(BT_OS_4, l, 0, 4, 8), l, 5, 8, 0);
    UpperFields(BT_OS_4, l, base, i);
    SigKeeps(base, l[4], 36, 0, 8, BT_OS_4);
    HeldType(w, BT_OS_4);
    SigHolds(base, l[4], 36);
    HeldOs(w, 36, l[4]);
    if i < 4 {
      SigKeeps(base, l[4], 36, 8 + 7 * i, 7, ToCode(l[i].d));
      HeldCode(w, i, l[i].d);
    } else {
      SigKeeps(base, l[4], 36, 8 * i, 8, l[i].d);
      HeldData(w, i, l[i].d);
    }
  }

  lemma Os4Word(l: Lanes, w: Word)
    requires Os4(l)
    requires w == WithSig(WithLanes(WithCodes(BT_OS_4, l, 0, 4, 8), l, 5, 8, 0), l[4], 36)
    ensures DecodeControl(w) == Recoded(l, 0, 4)
  {
    Os4Field(l, w, 0);
    Os4Field(l, w, 1);
    Os4Field(l, w, 2);
    Os4Field(l, w, 3);
    Os4Field(l, w, 5);
    Os4Field(l, w, 6);
    Os4Field(l, w, 7);
  }

  /** An ordered set in lane 0 and a start in lane 4. */
  lemma OsStartField(l: Lanes, w: Word, i: nat)
    requires i < 8 && i != 0 && i != 4 && Os0(l) && Start4(l)
    requires w == WithLanes(WithSig(WithLanes(At(BT_OS_START, 0), l, 1, 4, 0), l[0], 32), l, 5, 8, 0)
    ensures Field(w, 0, 8) == BT_OS_START && OsLane(w, 32) == l[0]
    ensures DataLane(w, i) == l[i]
  {
    var a := At(BT_OS_START, 0);
    var b := WithLanes(a, l, 1, 4, 0);
    var c := WithSig(b, l[0], 32);
    AloneHolds(BT_OS_START);
    LanesKeep(a, l, 1, 4, 0, 0, 8, BT_OS_START);
    SigKeeps(b, l[0], 32, 0, 8, BT_OS_START);
    LanesKeep(c, l, 5, 8, 0, 0, 8, BT_OS_START);
    HeldType(w, BT_OS_START);
    OsStartSet(l, w);
    LanesClear(a, l, 1, 4, 0, 32, 64);
    if i < 4 {
      LanesHold(a, l, 1, 4, 0, i);
      SigKeeps(b, l[0], 32, 8 * i, 8, l[i].d);
      LanesKeep(c, l, 5, 8, 0, 8 * i, 8, l[i].d);
    } else {
      SigClear(b, l[0], 32, 8 * i, 8 * i + 8);
      LanesHold(c, l, 5, 8, 0, i);
    }
    HeldData(w, i, l[i].d);
  }

  lemma OsStartSet(l: Lanes, w: Word)
    requires Os0(l)
    requires w == WithLanes(WithSig(WithLanes(At(BT_OS_START, 0), l, 1, 4, 0), l[0], 32), l, 5, 8, 0)
    ensures OsLane(w, 32) == l[0]
  {
    var a := At(BT_OS_START, 0);
    var b := WithLanes(a, l, 1, 4, 0);
    var c := WithSig(b, l[0], 32);
    AloneHolds(BT_OS_START);
    LanesClear(a, l, 1, 4, 0, 32, 64);
    ClearHolds(b, 32, 4);
    SigHolds(b, l[0], 32);
    var code := if l[0].d == SIG_OS then O_SIG else O_SEQ;
    LanesKeep(c, l, 5, 8, 0, 32, 4, code);
    HeldOs(w, 32, l[0]);
  }

  lemma OsStartWord(l: Lanes, w: Word)
    requires Os0(l) && Start4(l)
    requires w == WithLanes(WithSig(WithLanes(At(BT_OS_START, 0), l, 1, 4, 0), l[0], 32), l, 5, 8, 0)
    ensures DecodeControl(w) == l
  {
    OsStartField(l, w, 1);
    OsStartField(l, w, 2);
    OsStartField(l, w, 3);
    OsStartField(l, w, 5);
    OsStartField(l, w, 6);
    OsStartField(l, w, 7);
  }

  /** Two ordered sets. */
  lemma Os04Field(l: Lanes, w: Word, i: nat)
    requires i < 8 && i != 0 && i != 4 && Os0(l) && Os4(l)
    requires w == WithSig(WithLanes(WithSig(WithLanes(At(BT_OS_04, 0), l, 5, 8, 0), l[4], 36), l, 1, 4, 0), l[0], 32)
    ensures Field(w, 0, 8) == BT_OS_04 && OsLane(w, 32) == l[0] && OsLane(w, 36) == l[4]
    ensures DataLane(w, i) == l[i]
  {
    var a := At(BT_OS_04, 0);
    var b := WithLanes(a, l, 5, 8, 0);
    var c := WithSig(b, l[4], 36);
    var d := WithLanes(c, l, 1, 4, 0);
    AloneHolds(BT_OS_04);
    LanesKeep(a, l, 5, 8, 0, 0, 8, BT_OS_04);
    SigKeeps(b, l[4], 36, 0, 8, BT_OS_04);
    LanesKeep(c, l, 1, 4, 0, 0, 8, BT_OS_04);
    SigKeeps(d, l[0], 32, 0, 8, BT_OS_04);
    HeldType(w, BT_OS_04);
    Os04Sets(l, w);
    if i < 4 {
      LanesClear(a, l, 5, 8, 0, 8, 32);
      SigClear(b, l[4], 36, 8, 32);
      LanesHold(c, l, 1, 4, 0, i);
      SigKeeps(d, l[0], 32, 8 * i, 8, l[i].d);
    } else {
      LanesHold(a, l, 5, 8, 0, i);
      SigKeeps(b, l[4], 36, 8 * i, 8, l[i].d);
      LanesKeep(c, l, 1, 4, 0, 8 * i, 8, l[i].d);
      SigKeeps(d, l[0], 32, 8 * i, 8, l[i].d);
    }
    HeldData(w, i, l[i].d);
  }

  lemma Os04Sets(l: Lanes, w: Word)
    requires Os0(l) && Os4(l)
    requires w == WithSig(WithLanes(WithSig(WithLanes(At(BT_OS_04, 0), l, 5, 8, 0), l[4], 36), l, 1, 4, 0), l[0], 32)
    ensures OsLane(w, 32) == l[0] && OsLane(w, 36) == l[4]
  {
    var a := At(BT_OS_04, 0);
    var b := WithLanes(a, l, 5, 8, 0);
    var c := WithSig(b, l[4], 36);
    var d := WithLanes(c, l, 1, 4, 0);
    AloneHolds(BT_OS_04);
    LanesClear(a, l, 5, 8, 0, 32, 40);
    SigClear(b, l[4], 36, 32, 36);
    LanesClear(c, l, 1, 4, 0, 32, 36);
    ClearHolds(d, 32, 4);
    SigHolds(d, l[0], 32);
    HeldOs(w, 32, l[0]);
    ClearHolds(b, 36, 4);
    SigHolds(b, l[4], 36);
    var code := if l[4].d == SIG_OS then O_SIG else O_SEQ;
    LanesKeep(c, l, 1, 4, 0, 36, 4, code);
    SigKeeps(d, l[0], 32, 36, 4, code);
    HeldOs(w, 36, l[4]);
  }

  lemma Os04Word(l: Lanes, w: Word)
    requires Os0(l) && Os4(l)
    requires w == WithSig(WithLanes(WithSig(WithLanes(At(BT_OS_04, 0), l, 5, 8, 0), l[4], 36), l, 1, 4, 0), l[0], 32)
    ensures DecodeControl(w) == l
  {
    Os04Field(l, w, 1);
    Os04Field(l, w, 2);
    Os04Field(l, w, 3);
    Os04Field(l, w, 5);
    Os04Field(l, w, 6);
    Os04Field(l, w, 7);
  }

  // ---- round trip ----

  /** The lanes [coded.0, coded.1) a block carries as seven-bit codes. */
  function Coded(l: Lanes): (coded: (nat, nat))
    ensures coded.0 <= coded.1 <= 8
  {
    if AllData(l, 0, 8) || Start0(l) then (0, 0)
    else if Start4(l) then if Os0(l) then (0, 0) else (0, 4)
    else if Os0(l) then (0, 0)
    else if Os4(l) then (0, 4)
    else if TermAt(l, 0) then (1, 8)
    else if TermAt(l, 1) then (2, 8)
    else if TermAt(l, 2) then (3, 8)
    else if TermAt(l, 3) then (4, 8)
    else if TermAt(l, 4) then (5, 8)
    else if TermAt(l, 5) then (6, 8)
    else if TermAt(l, 6) then (7, 8)
    else if TermAt(l, 7) then (8, 8)
    else (0, 8)
  }

  /** An ordered set in lane 0 that shares its block with codes in lanes 4 to 7. */
  predicate OsZero(l: Lanes) {
    Os0(l) && !Start4(l) && !Os4(l)
  }

  /** The seven bits the decoder takes for lane i of such a block: the encoder puts the codes of
      lanes 0 to 3 at bit 40, the decoder reads those of lanes 4 to 7 from bit 36. */
  function Displaced(l: Lanes, i: nat): bv8
    requires 4 <= i < 8
  {
    Across(if i == 4 then 0 else ToCode(l[i - 5].d), ToCode(l[i - 4].d))
  }

  /** The upper four bits of one code and the lower three of the next. */
  function Across(c: bv8, d: bv8): bv8 {
    (c >> 3) | ((d & 0x07) << 4)
  }

  lemma AcrossBits(c: bv8, d: bv8, j: nat)
    requires c < 0x80 && j < 7
    ensures Bit(Across(c, d), j) == if j < 4 then Bit(c, j + 3) else Bit(d, j - 4)
  {
  }

  lemma AcrossFits(c: bv8, d: bv8)
    requires c < 0x80
    ensures Fits(Across(c, d), 7)
  {
    assert !Bit(Across(c, d), 7);
  }

  /** What a column of lanes arrives as. */
  function Arrived(l: Lanes): Lanes {
    if OsZero(l) then
      [l[0], l[1], l[2], l[3], Lane(FromCode(Displaced(l, 4)), true), Lane(FromCode(Displaced(l, 5)), true),
       Lane(FromCode(Displaced(l, 6)), true), Lane(FromCode(Displaced(l, 7)), true)]
    else Recoded(l, Coded(l).0, Coded(l).1)
  }

  /** Decoding an encoded column changes the coded lanes alone, each to the character its code
      stands for; behind an ordered set in lane 0 lanes 4 to 7 become what displaced codes stand for. */
  lemma DecodeEncode(l: Lanes)
    ensures Decode(Encode(l)) == Arrived(l)
  {
    if AllData(l, 0, 8) {
      DataBlock(l);
    } else {
      var w := EncodeControl(l);
      assert Decode(Encode(l)) == DecodeControl(w);
      if Start0(l) {
        Start0Word(l, w);
      } else if Start4(l) {
        if Os0(l) {
          OsStartWord(l, w);
        } else {
          Start4Word(l, w);
        }
      } else if Os0(l) && Os4(l) {
        Os04Word(l, w);
      } else if Os0(l) {
        Os0Word(l, w);
      } else if Os4(l) {
        Os4Word(l, w);
      } else {
        DecodeTermOrCtrl(l, w);
      }
    }
  }

  lemma DecodeTermOrCtrl(l: Lanes, w: Word)
    requires w == EncodeControl(l)
    requires !AllData(l, 0, 8) && !Start0(l) && !Start4(l) && !Os0(l) && !Os4(l)
    ensures DecodeControl(w) == Recoded(l, Coded(l).0, Coded(l).1)
  {
    if TermAt(l, 0) {
      TermWord(l, w, 0);
    } else if TermAt(l, 1) {
      TermWord(l, w, 1);
    } else if TermAt(l, 2) {
      TermWord(l, w, 2);
    } else if TermAt(l, 3) {
      TermWord(l, w, 3);
    } else if TermAt(l, 4) {
      TermWord(l, w, 4);
    } else if TermAt(l, 5) {
      TermWord(l, w, 5);
    } else if TermAt(l, 6) {
      TermWord(l, w, 6);
    } else if TermAt(l, 7) {
      TermWord(l, w, 7);
    } else {
      CtrlWord(l, w);
    }
  }

  /** What a caller can see of a column before it is sent: every lane the block carries as a code
      is a control character with a code of its own, or, behind an ordered set in lane 0, lanes 4
      to 7 are the characters that the displaced codes stand for. */
  predicate Survives(l: Lanes) {
    if OsZero(l) then forall i :: 4 <= i < 8 ==> l[i] == Lane(FromCode(Displaced(l, i)), true)
    else AllPlain(l, Coded(l).0, Coded(l).1)
  }

  /** A column comes back from its block exactly when it can be seen to survive. */
  lemma RoundTrip(l: Lanes)
    ensures Decode(Encode(l)) == l <==> Survives(l)
  {
    DecodeEncode(l);
    if OsZero(l) {
      OsZeroSame(l);
    } else {
      RecodedSame(l, Coded(l).0, Coded(l).1);
    }
  }

  lemma RecodedSame(l: Lanes, from: nat, to: nat)
    requires from <= to <= 8
    ensures Recoded(l, from, to) == l <==> AllPlain(l, from, to)
  {
    var r := Recoded(l, from, to);
    if r == l {
      forall i | from <= i < to
        ensures l[i].c && Plain(l[i].d)
      {
        assert r[i] == l[i];
      }
    }
    if AllPlain(l, from, to) {
      assert forall i :: 0 <= i < 8 ==> r[i] == l[i];
    }
  }

  lemma OsZeroSame(l: Lanes)
    requires OsZero(l)
    ensures Arrived(l) == l <==> Survives(l)
  {
    var r := Arrived(l);
    assert forall i :: 4 <= i < 8 ==> r[i] == Lane(FromCode(Displaced(l, i)), true);
    if Survives(l) {
      assert r[4] == l[4] && r[5] == l[5] && r[6] == l[6] && r[7] == l[7];
      assert r == l;
    }
  }

  /** Lane 4 of such a block is always an error, so the idles that belong there never arrive. */
  lemma OsZeroLost(l: Lanes)
    requires OsZero(l)
    ensures Decode(Encode(l))[4] == Lane(ERROR, true)
    ensures l[4] == Lane(IDLE, true) ==> Decode(Encode(l)) != l
  {
    DecodeEncode(l);
    assert ToCode(l[0].d) == 0x1e;
  }

  /** An ordered set of sequence type with message 1 in lane 0, and d in lanes 4 to 7. */
  function OsZeroColumn(d: bv8): Lanes {
    [Lane(SEQ_OS, true), Lane(0, false), Lane(0, false), Lane(1, false),
     Lane(d, true), Lane(d, true), Lane(d, true), Lane(d, true)]
  }

  /** A column that is lost. */
  lemma IdlesLost()
    ensures OsZero(OsZeroColumn(IDLE)) && Decode(Encode(OsZeroColumn(IDLE))) != OsZeroColumn(IDLE)
  {
    OsZeroLost(OsZeroColumn(IDLE));
  }

  /** A column that comes back. */
  lemma ErrorsKept()
    ensures OsZero(OsZeroColumn(ERROR)) && Decode(Encode(OsZeroColumn(ERROR))) == OsZeroColumn(ERROR)
  {
    var l := OsZeroColumn(ERROR);
    ColumnIs(ERROR);
    DisplacedErrors(l, 4);
    DisplacedErrors(l, 5);
    DisplacedErrors(l, 6);
    DisplacedErrors(l, 7);
    RoundTrip(l);
  }

  lemma ColumnIs(d: bv8)
    requires d != START && d != SEQ_OS && d != SIG_OS
    ensures OsZero(OsZeroColumn(d))
    ensures forall k :: 0 <= k < 4 ==> ToCode(OsZeroColumn(d)[k].d) == 0x1e
  {
  }

  lemma DisplacedErrors(l: Lanes, i: nat)
    requires 4 <= i < 8 && forall k :: 0 <= k < 4 ==> ToCode(l[k].d) == 0x1e
    ensures FromCode(Displaced(l, i)) == ERROR
  {
    assert Across(0, 0x1e) == 0x60 && Across(0x1e, 0x1e) == 0x63;
  }

  /** An ordered set in lane 0 before codes. */
  lemma Os0Word(l: Lanes, w: Word)
    requires Os0(l)
    requires w == WithSig(WithLanes(WithCodes(BT_OS_0, l, 0, 4, 40), l, 1, 4, 0), l[0], 32)
    ensures DecodeControl(w) ==
      [l[0], l[1], l[2], l[3], Lane(FromCode(Displaced(l, 4)), true), Lane(FromCode(Displaced(l, 5)), true),
       Lane(FromCode(Displaced(l, 6)), true), Lane(FromCode(Displaced(l, 7)), true)]
  {
    Os0Set(l, w);
    Os0Data(l, w, 1);
    Os0Data(l, w, 2);
    Os0Data(l, w, 3);
    Os0Code(l, w, 4);
    Os0Code(l, w, 5);
    Os0Code(l, w, 6);
    Os0Code(l, w, 7);
  }

  /** Below bit 40 the codes leave the word clear, but for its type. */
  lemma Os0Base(l: Lanes)
    ensures var a := WithCodes(BT_OS_0, l, 0, 4, 40); Holds(a, 0, 8, BT_OS_0) && Clear(a, 8, 40)
  {
    AloneHolds(BT_OS_0);
    UpClear(Mask(Codes(l), 0, 28), 40);
    OrBelow(At(BT_OS_0, 0), Up(Mask(Codes(l), 0, 28), 40));
  }

  lemma UpClear(x: Word, n: nat)
    ensures Clear(Up(x, n), 0, n)
  {
  }

  lemma OrBelow(x: Word, y: Word)
    requires Holds(x, 0, 8, BT_OS_0) && Clear(x, 8, 64) && Clear(y, 0, 40)
    ensures Holds(Or(x, y), 0, 8, BT_OS_0) && Clear(Or(x, y), 8, 40)
  {
  }

  lemma Os0Set(l: Lanes, w: Word)
    requires Os0(l)
    requires w == WithSig(WithLanes(WithCodes(BT_OS_0, l, 0, 4, 40), l, 1, 4, 0), l[0], 32)
    ensures Field(w, 0, 8) == BT_OS_0 && OsLane(w, 32) == l[0]
  {
    var a := WithCodes(BT_OS_0, l, 0, 4, 40);
    var b := WithLanes(a, l, 1, 4, 0);
    Os0Base(l);
    LanesKeep(a, l, 1, 4, 0, 0, 8, BT_OS_0);
    SigKeeps(b, l[0], 32, 0, 8, BT_OS_0);
    HeldType(w, BT_OS_0);
    LanesClear(a, l, 1, 4, 0, 32, 40);
    ClearHolds(b, 32, 4);
    SigHolds(b, l[0], 32);
    HeldOs(w, 32, l[0]);
  }

  lemma Os0Data(l: Lanes, w: Word, i: nat)
    requires Os0(l) && 1 <= i < 4
    requires w == WithSig(WithLanes(WithCodes(BT_OS_0, l, 0, 4, 40), l, 1, 4, 0), l[0], 32)
    ensures DataLane(w, i) == l[i]
  {
    var a := WithCodes(BT_OS_0, l, 0, 4, 40);
    Os0Base(l);
    LanesHold(a, l, 1, 4, 0, i);
    SigKeeps(WithLanes(a, l, 1, 4, 0), l[0], 32, 8 * i, 8, l[i].d);
    HeldData(w, i, l[i].d);
  }

  lemma Os0Code(l: Lanes, w: Word, i: nat)
    requires Os0(l) && 4 <= i < 8
    requires w == WithSig(WithLanes(WithCodes(BT_OS_0, l, 0, 4, 40), l, 1, 4, 0), l[0], 32)
    ensures CtrlLane(w, i) == Lane(FromCode(Displaced(l, i)), true)
  {
    var a := WithCodes(BT_OS_0, l, 0, 4, 40);
    var c, d := if i == 4 then 0 else ToCode(l[i - 5].d), ToCode(l[i - 4].d);
    forall j | 0 <= j < 7
      ensures a[8 + 7 * i + j] == Bit(Across(c, d), j)
    {
      AcrossBits(c, d, j);
      Os0Bit(l, i, j);
    }
    var b := WithLanes(a, l, 1, 4, 0);
    LanesKeep(a, l, 1, 4, 0, 8 + 7 * i, 7, Across(c, d));
    SigKeeps(b, l[0], 32, 8 + 7 * i, 7, Across(c, d));
    AcrossFits(c, d);
    FieldIs(w, 8 + 7 * i, 7, Across(c, d));
  }

  lemma Os0Bit(l: Lanes, i: nat, j: nat)
    requires 4 <= i < 8 && j < 7
    ensures WithCodes(BT_OS_0, l, 0, 4, 40)[8 + 7 * i + j] ==
      if j >= 4 then Bit(ToCode(l[i - 4].d), j - 4) else i > 4 && Bit(ToCode(l[i - 5].d), j + 3)
  {
    var p := 8 + 7 * i + j;
    Os0Base(l);
    assert WithCodes(BT_OS_0, l, 0, 4, 40)[p] == (p >= 40 && Codes(l)[p - 40]);
    if p >= 40 {
      if j >= 4 {
        assert (p - 40) / 7 == i - 4 && (p - 40) % 7 == j - 4;
      } else {
        assert (p - 40) / 7 == i - 5 && (p - 40) % 7 == j + 3;
      }
    }
  }
}
