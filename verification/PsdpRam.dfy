/** The segmented parallel RAM of src/dma/tb/dma_psdp_ram.py: a byte access is cut into words
    for independent segments, each with its own queue and handshake, and put back together. */
module PsdpRam {
  import opened Arith

  /** segs segments of lanes bytes in each of rows rows; chunk c is row c / segs of segment c % segs. */
  datatype Geometry = Geometry(segs: nat, lanes: nat, rows: nat) {
    predicate Valid() {
      segs > 0 && lanes > 0
    }

    function Size(): nat {
      MulNonNegative(rows, segs);
      MulNonNegative(rows * segs, lanes);
      rows * segs * lanes
    }
  }

  /** A word for one segment, as SegWriteData: its row, its bytes and which of them count. */
  datatype Op = Op(row: nat, data: seq<bv8>, be: seq<bool>)

  datatype Tagged = Tagged(seg: nat, op: Op)

  function Seg(g: Geometry, b: nat): nat
    requires g.Valid()
  {
    b / g.lanes % g.segs
  }

  // ---- flat memory ----

  function Store(mem: seq<bv8>, address: nat, data: seq<bv8>): (r: seq<bv8>)
    requires address + |data| <= |mem|
    ensures |r| == |mem|
  {
    mem[..address] + data + mem[address + |data|..]
  }

  datatype Write = Write(address: nat, data: seq<bv8>)

  predicate Fits(w: Write, size: nat) {
    w.address + |w.data| <= size
  }

  predicate AllFit(ws: seq<Write>, size: nat) {
    forall i :: 0 <= i < |ws| ==> Fits(ws[i], size)
  }

  function Stores(mem: seq<bv8>, ws: seq<Write>): (r: seq<bv8>)
    requires AllFit(ws, |mem|)
    ensures |r| == |mem|
  {
    if ws == [] then mem
    else Store(Stores(mem, ws[..|ws| - 1]), ws[|ws| - 1].address, ws[|ws| - 1].data)
  }

  // ---- words ----

  /** Word op of segment seg covers byte b. */
  predicate Covers(g: Geometry, seg: nat, op: Op, b: nat)
    requires g.Valid()
  {
    b / g.lanes == op.row * g.segs + seg && b % g.lanes < |op.be| && op.be[b % g.lanes]
  }

  predicate WordShaped(g: Geometry, op: Op) {
    |op.data| == g.lanes && |op.be| == g.lanes
  }

  /** Byte b, which held v, after a word. */
  function After(g: Geometry, v: bv8, seg: nat, op: Op, b: nat): bv8
    requires g.Valid() && WordShaped(g, op)
  {
    if Covers(g, seg, op, b) then op.data[b % g.lanes] else v
  }

  predicate AllShaped(g: Geometry, ts: seq<Tagged>) {
    forall i :: 0 <= i < |ts| ==> WordShaped(g, ts[i].op) && ts[i].seg < g.segs
  }

  /** Byte b, which held v, after all of ts in order. */
  function AfterAll(g: Geometry, v: bv8, ts: seq<Tagged>, b: nat): bv8
    requires g.Valid() && AllShaped(g, ts)
  {
    if ts == [] then v
    else
      var n := |ts| - 1;
      After(g, AfterAll(g, v, ts[..n], b), ts[n].seg, ts[n].op, b)
  }

  /** The words of segment s among ts. */
  function Only(ts: seq<Tagged>, s: nat): seq<Tagged> {
    if ts == [] then []
    else
      var n := |ts| - 1;
      if ts[n].seg == s then Only(ts[..n], s) + [ts[n]] else Only(ts[..n], s)
  }

  lemma {:induction false} OnlyFrom(ts: seq<Tagged>, s: nat, i: nat)
    requires i < |Only(ts, s)|
    ensures Only(ts, s)[i].seg == s && Only(ts, s)[i] in ts
  {
    var n := |ts| - 1;
    if i < |Only(ts[..n], s)| {
      OnlyFrom(ts[..n], s, i);
    }
  }

  lemma {:induction false} OnlyShaped(g: Geometry, ts: seq<Tagged>, s: nat)
    requires AllShaped(g, ts)
    ensures AllShaped(g, Only(ts, s))
  {
    if ts != [] {
      OnlyShaped(g, ts[..|ts| - 1], s);
    }
  }

  /** A byte is covered by words of its own segment alone. */
  lemma CoversOwn(g: Geometry, seg: nat, op: Op, b: nat)
    requires g.Valid() && seg < g.segs && Covers(g, seg, op, b)
    ensures seg == Seg(g, b)
  {
    DivUnique(b / g.lanes, g.segs, op.row, seg);
  }

  /** What happens to a byte is decided by the words of its segment. */
  lemma {:induction false} OwnSegment(g: Geometry, v: bv8, ts: seq<Tagged>, b: nat)
    requires g.Valid() && AllShaped(g, ts)
    ensures AllShaped(g, Only(ts, Seg(g, b)))
    ensures AfterAll(g, v, ts, b) == AfterAll(g, v, Only(ts, Seg(g, b)), b)
  {
    var s := Seg(g, b);
    OnlyShaped(g, ts, s);
    if ts != [] {
      var n := |ts| - 1;
      var rest := ts[..n];
      OwnSegment(g, v, rest, b);
      if ts[n].seg == s {
        assert Only(ts, s)[..|Only(rest, s)|] == Only(rest, s);
      } else if Covers(g, ts[n].seg, ts[n].op, b) {
        CoversOwn(g, ts[n].seg, ts[n].op, b);
        assert false;
      }
    }
  }

  // ---- cutting a write into words ----

  /** Words a write of len bytes at address touches. */
  function Segments(g: Geometry, address: nat, len: nat): nat
    requires g.Valid()
  {
    (len + address % g.lanes + g.lanes - 1) / g.lanes
  }

  /** Byte j of word k of a write holds a byte of it. */
  predicate Enabled(g: Geometry, w: Write, k: nat, j: nat)
    requires g.Valid()
  {
    w.address <= (w.address / g.lanes + k) * g.lanes + j < w.address + |w.data|
  }

  function WordByte(g: Geometry, w: Write, k: nat, j: nat): bv8
    requires g.Valid()
  {
    if Enabled(g, w, k, j) then w.data[(w.address / g.lanes + k) * g.lanes + j - w.address] else 0
  }

  function Word(g: Geometry, w: Write, k: nat): Tagged
    requires g.Valid()
  {
    var chunk := w.address / g.lanes + k;
    Tagged(chunk % g.segs,
      Op(chunk / g.segs, seq(g.lanes, j requires 0 <= j < g.lanes => WordByte(g, w, k, j)),
        seq(g.lanes, j requires 0 <= j < g.lanes => Enabled(g, w, k, j))))
  }

  function Words(g: Geometry, w: Write, n: nat): (r: seq<Tagged>)
    requires g.Valid()
    ensures |r| == n && AllShaped(g, r)
  {
    seq(n, k requires 0 <= k < n => Word(g, w, k))
  }

  /** Word k writes exactly the bytes of chunk address / lanes + k that the write has. */
  lemma WordCovers(g: Geometry, w: Write, k: nat, b: nat)
    requires g.Valid()
    ensures var t := Word(g, w, k);
            && (Covers(g, t.seg, t.op, b) <==>
                  b / g.lanes == w.address / g.lanes + k && w.address <= b < w.address + |w.data|)
            && (Covers(g, t.seg, t.op, b) ==> t.op.data[b % g.lanes] == w.data[b - w.address])
  {
    var chunk := w.address / g.lanes + k;
    assert chunk == chunk / g.segs * g.segs + chunk % g.segs;
    if b / g.lanes == chunk {
      assert b == b / g.lanes * g.lanes + b % g.lanes;
    }
  }

  /** After the first n words the bytes of the first n chunks are written. */
  lemma {:induction false} WordsWrite(g: Geometry, w: Write, n: nat, v: bv8, b: nat)
    requires g.Valid()
    ensures AfterAll(g, v, Words(g, w, n), b) ==
      if w.address <= b < w.address + |w.data| && b / g.lanes < w.address / g.lanes + n
      then w.data[b - w.address] else v
  {
    if n > 0 {
      WordsWrite(g, w, n - 1, v, b);
      WordCovers(g, w, n - 1, b);
      assert Words(g, w, n)[..n - 1] == Words(g, w, n - 1);
      if w.address <= b {
        DivMonotone(w.address, b, g.lanes);
      }
    } else if w.address <= b {
      DivMonotone(w.address, b, g.lanes);
    }
  }

  lemma DivMonotone(a: nat, b: nat, d: nat)
    requires a <= b && d > 0
    ensures a / d <= b / d
  {
    var p, q := a / d, b / d;
    assert a == d * p + a % d && b == d * q + b % d && d * (q + 1) == d * q + d;
    if p > q {
      MulMonotone(d, q + 1, p);
    }
  }

  /** The words reach to the end of the write. */
  lemma SegmentsReach(g: Geometry, w: Write, b: nat)
    requires g.Valid() && w.address <= b < w.address + |w.data|
    ensures b / g.lanes < w.address / g.lanes + Segments(g, w.address, |w.data|)
  {
    var q, off, l := w.address / g.lanes, w.address % g.lanes, g.lanes;
    var n := Segments(g, w.address, |w.data|);
    var x := |w.data| + off + l - 1;
    assert x == l * n + x % l;
    assert l * n >= |w.data| + off;
    assert w.address == l * q + off;
    var c := b / l;
    assert l * (q + n) == l * q + l * n && b == l * c + b % l;
    if c >= q + n {
      MulMonotone(l, q + n, c);
    }
  }

  /** All its words together are the write. */
  lemma SplitStores(g: Geometry, w: Write, mem: seq<bv8>, b: nat)
    requires g.Valid() && Fits(w, |mem|) && b < |mem|
    ensures AfterAll(g, mem[b], Words(g, w, Segments(g, w.address, |w.data|)), b) == Store(mem, w.address, w.data)[b]
  {
    WordsWrite(g, w, Segments(g, w.address, |w.data|), mem[b], b);
    if w.address <= b < w.address + |w.data| {
      SegmentsReach(g, w, b);
    }
  }

  // ---- several writes ----

  function AllWords(g: Geometry, ws: seq<Write>): (r: seq<Tagged>)
    requires g.Valid()
    ensures AllShaped(g, r)
  {
    if ws == [] then []
    else
      var n := |ws| - 1;
      AllWords(g, ws[..n]) + Words(g, ws[n], Segments(g, ws[n].address, |ws[n].data|))
  }

  lemma {:induction false} AfterBoth(g: Geometry, v: bv8, xs: seq<Tagged>, ys: seq<Tagged>, b: nat)
    requires g.Valid() && AllShaped(g, xs) && AllShaped(g, ys)
    ensures AllShaped(g, xs + ys) && AfterAll(g, v, xs + ys, b) == AfterAll(g, AfterAll(g, v, xs, b), ys, b)
  {
    if ys == [] {
      assert xs + ys == xs;
    } else {
      var n := |ys| - 1;
      AfterBoth(g, v, xs, ys[..n], b);
      assert (xs + ys)[..|xs| + n] == xs + ys[..n];
    }
  }

  /** The words of any number of writes leave memory as the writes do, one after another. */
  lemma {:induction false} AllWordsStore(g: Geometry, mem: seq<bv8>, ws: seq<Write>, b: nat)
    requires g.Valid() && AllFit(ws, |mem|) && b < |mem|
    ensures AfterAll(g, mem[b], AllWords(g, ws), b) == Stores(mem, ws)[b]
  {
    if ws != [] {
      var n := |ws| - 1;
      AllWordsStore(g, mem, ws[..n], b);
      SplitStores(g, ws[n], Stores(mem, ws[..n]), b);
      AfterBoth(g, mem[b], AllWords(g, ws[..n]), Words(g, ws[n], Segments(g, ws[n].address, |ws[n].data|)), b);
    }
  }

  lemma {:induction false} OnlyBoth(xs: seq<Tagged>, ys: seq<Tagged>, s: nat)
    ensures Only(xs + ys, s) == Only(xs, s) + Only(ys, s)
  {
    if ys == [] {
      assert xs + ys == xs;
    } else {
      var n := |ys| - 1;
      OnlyBoth(xs, ys[..n], s);
      assert (xs + ys)[..|xs| + n] == xs + ys[..n];
    }
  }

  // ---- where a word starts and ends ----

  function StartOf(g: Geometry, w: Write, k: nat): nat
    requires g.Valid()
  {
    if k == 0 then w.address % g.lanes else 0
  }

  function StopOf(g: Geometry, w: Write, k: nat): nat
    requires g.Valid()
  {
    if k == Segments(g, w.address, |w.data|) - 1 then (w.address + |w.data| - 1) % g.lanes + 1 else g.lanes
  }

  /** Bytes of the write in the words before word k. */
  function OffsetOf(g: Geometry, w: Write, k: nat): int
    requires g.Valid()
  {
    if k == 0 then 0 else k * g.lanes - w.address % g.lanes
  }

  /** The last word holds the last byte. */
  lemma LastWord(g: Geometry, w: Write)
    requires g.Valid() && Segments(g, w.address, |w.data|) > 0
    ensures w.address + |w.data| ==
      (w.address / g.lanes + Segments(g, w.address, |w.data|) - 1) * g.lanes + (w.address + |w.data| - 1) % g.lanes + 1
  {
    var q, off, l, n := w.address / g.lanes, w.address % g.lanes, g.lanes, Segments(g, w.address, |w.data|);
    var x := |w.data| + off + l - 1;
    assert x == l * n + x % l && w.address == l * q + off;
    var last := w.address + |w.data| - 1;
    assert last == l * (q + n - 1) + x % l by {
      assert l * (q + n - 1) == l * q + l * n - l;
    }
    DivUnique(last, l, q + n - 1, x % l);
  }

  /** Which bytes of word k are enabled, and where in the data they come from. */
  lemma WordBounds(g: Geometry, w: Write, k: nat)
    requires g.Valid() && k < Segments(g, w.address, |w.data|)
    ensures forall j :: 0 <= j < g.lanes ==> (Enabled(g, w, k, j) <==> StartOf(g, w, k) <= j < StopOf(g, w, k))
    ensures StartOf(g, w, k) <= StopOf(g, w, k) <= g.lanes
    ensures (w.address / g.lanes + k) * g.lanes + StartOf(g, w, k) - w.address == OffsetOf(g, w, k)
    ensures 0 <= OffsetOf(g, w, k) && OffsetOf(g, w, k) + StopOf(g, w, k) - StartOf(g, w, k) <= |w.data|
    ensures k + 1 < Segments(g, w.address, |w.data|) ==>
      OffsetOf(g, w, k + 1) == OffsetOf(g, w, k) + StopOf(g, w, k) - StartOf(g, w, k)
  {
    var q, off, l, n := w.address / g.lanes, w.address % g.lanes, g.lanes, Segments(g, w.address, |w.data|);
    LastWord(g, w);
    Multiples(q, k, n, l);
    assert w.address == q * l + off;
  }

  lemma Multiples(q: nat, k: nat, n: nat, l: nat)
    requires k < n && l > 0
    ensures (q + k) * l == q * l + k * l && (q + n - 1) * l == q * l + (n - 1) * l && (k + 1) * l == k * l + l
    ensures k > 0 ==> k * l >= l
    ensures k + 1 < n ==> k * l + l <= (n - 1) * l
    ensures q * l == l * q
  {
    if k > 0 {
      MulMonotone(l, 1, k);
    }
    if k + 1 < n {
      MulMonotone(l, k + 1, n - 1);
    }
  }

  lemma Distributes(l: int, a: int, b: int)
    ensures l * (a + b) == l * a + l * b
  {
  }

  lemma Regroups(l: int, m: int, n: int)
    ensures l * (m * n) == (l * m) * n
  {
  }

  /** The row the source computes is the row of the chunk. */
  lemma RowOf(g: Geometry, address: nat, k: nat)
    requires g.Valid()
    ensures g.lanes * g.segs > 0 && (address + k * g.lanes) / (g.lanes * g.segs) == (address / g.lanes + k) / g.segs
  {
    var q, off, l, m := address / g.lanes, address % g.lanes, g.lanes, g.segs;
    MulGrows(l, m);
    var c := q + k;
    var row, s := c / m, c % m;
    assert c == m * row + s && address == l * q + off;
    assert address + k * l == (l * m) * row + (l * s + off) by {
      Distributes(l, q, k);
      Distributes(l, m * row, s);
      Regroups(l, m, row);
    }
    assert 0 <= l * s + off < l * m by {
      MulNonNegative(l, s);
      MulMonotone(l, s + 1, m);
      assert l * (s + 1) == l * s + l;
    }
    DivUnique(address + k * l, l * m, row, l * s + off);
  }

  /** Where byte a of a write goes: to lane a % lanes of a row that counts whole turns of the segments,
      in the segment its word's number gives; and nothing else is enabled in that lane of the words. */
  lemma ByteGoes(g: Geometry, w: Write, a: nat)
    requires g.Valid() && w.address <= a < w.address + |w.data|
    ensures var k, j := a / g.lanes - w.address / g.lanes, a % g.lanes;
            && 0 <= k < Segments(g, w.address, |w.data|) && g.lanes * g.segs > 0
            && Word(g, w, k).seg == a / g.lanes % g.segs && Word(g, w, k).op.row == a / (g.lanes * g.segs)
            && j < |Word(g, w, k).op.be| == |Word(g, w, k).op.data|
            && Word(g, w, k).op.be[j] && Word(g, w, k).op.data[j] == w.data[a - w.address]
  {
    var q, k := w.address / g.lanes, a / g.lanes - w.address / g.lanes;
    var l := g.lanes;
    assert a == a / l * l + a % l && w.address == q * l + w.address % l;
    ChunkBelow(g, w, a);
    RowOf(g, a, 0);
    assert (q + k) * l + a % l == a;
  }

  lemma ChunkBelow(g: Geometry, w: Write, a: nat)
    requires g.Valid() && w.address <= a < w.address + |w.data|
    ensures 0 <= a / g.lanes - w.address / g.lanes < Segments(g, w.address, |w.data|)
  {
    SegmentsReach(g, w, a);
    if a / g.lanes < w.address / g.lanes {
      MulMonotone(g.lanes, a / g.lanes + 1, w.address / g.lanes);
    }
  }
}
