/** The wide signals of src/dma/tb/dma_psdp_ram.py: every segment has a field of each, which is
    cleared, or-ed in and cut out under shifted masks, and a bit that says whether it is valid. */
module PsdpWires {
  import opened Arith
  import opened Base
  import opened Packed

  /** One signal with its valid bits. */
  class Wide {
    const segs: nat
    const width: nat
    var valid: nat
    var value: nat

    constructor (n: nat, w: nat)
      ensures segs == n && width == w && fresh(this)
      ensures View() == seq(n, s => None)
    {
      segs, width, valid, value := n, w, 0, 0;
      new;
      forall s | 0 <= s < n
        ensures At(s) == None
      {
        NoBits(s);
      }
    }

    /** What the other end samples for segment s, if it is valid. */
    function At(s: nat): Option<nat>
      reads this
    {
      MulNonNegative(s, width);
      if Bits(valid, s, 1) == 1 then Some(Bits(value, s * width, width)) else None
    }

    /** The segments' fields, each by itself. */
    ghost function View(): (v: seq<Option<nat>>)
      reads this
      ensures |v| == segs
    {
      seq(segs, s requires 0 <= s < segs reads this => At(s))
    }

    /** A field driven: the segment's own changes, cut to its width, and no other. */
    method Drive(seg: nat, f: nat)
      requires seg < segs
      modifies this
      ensures View() == old(View())[seg := Some(f % Pow2(width))]
      ensures 0 <= seg * width && Bits(value, seg * width, width) == f % Pow2(width) && Bits(valid, seg, 1) == 1
    {
      MulNonNegative(seg, width);
      forall s | 0 <= s < segs
        ensures Bits(Put(valid, seg, 1), s, 1) == if s == seg then 1 else Bits(valid, s, 1)
        ensures 0 <= s * width && Bits(Set(value, seg * width, width, f), s * width, width)
          == if s == seg then f % Pow2(width) else Bits(value, s * width, width)
      {
        BitSet(valid, seg, s);
        SetAmong(value, seg, width, f, s);
      }
      value := Set(value, seg * width, width, f);
      valid := Put(valid, seg, 1);
    }

    /** A field taken back. */
    method Drop(seg: nat)
      requires seg < segs
      modifies this`valid
      ensures View() == old(View())[seg := None] && Bits(valid, seg, 1) == 0
    {
      MulNonNegative(1, Pow2(seg));
      forall s | 0 <= s < segs
        ensures Bits(Without(valid, 1 * Pow2(seg)), s, 1) == if s == seg then 0 else Bits(valid, s, 1)
      {
        BitSet(valid, seg, s);
      }
      valid := Without(valid, 1 * Pow2(seg));
    }
  }

  lemma NoBits(s: nat)
    ensures Bits(0, s, 1) == 0
  {
    DivUnique(0, Pow2(s), 0, 0);
  }

  // ---- bytes of a word ----

  /** val |= data[j] << 8 * j, for every byte of a word. */
  function Number(bytes: seq<bv8>): nat {
    if bytes == [] then 0
    else var n := |bytes| - 1; Put(Number(bytes[..n]), 8 * n, bytes[n] as nat)
  }

  /** Its bytes again, as the memory takes them out. */
  function BytesOf(x: nat, lanes: nat): (bytes: seq<bv8>)
    ensures |bytes| == lanes
  {
    seq(lanes, j requires 0 <= j < lanes => ByteAt(x, j))
  }

  function ByteAt(x: nat, j: nat): bv8 {
    var b := Bits(x, 8 * j, 8);
    if b < 256 then b as bv8 else 0
  }

  lemma {:induction false} NumberBelow(bytes: seq<bv8>)
    ensures Number(bytes) < Pow2(8 * |bytes|)
  {
    if bytes != [] {
      var n := |bytes| - 1;
      NumberBelow(bytes[..n]);
      Pow2Is8();
      PutBelow(Number(bytes[..n]), 8 * n, bytes[n] as nat, 8);
    }
  }

  lemma Pow2Is8()
    ensures Pow2(8) == 256
  {
    assert Pow2(4) == 16;
  }

  lemma {:induction false} ByteBack(bytes: seq<bv8>, j: nat)
    requires j < |bytes|
    ensures ByteAt(Number(bytes), j) == bytes[j] && Bits(Number(bytes), 8 * j, 8) == bytes[j] as nat
  {
    var n := |bytes| - 1;
    Pow2Is8();
    NumberBelow(bytes[..n]);
    if j < n {
      ByteBack(bytes[..n], j);
      PutKeeps(Number(bytes[..n]), 8 * n, bytes[n] as nat, 8 * j, 8);
    } else {
      PutReads(Number(bytes[..n]), 8 * n, bytes[n] as nat, 8);
    }
  }

  /** A word put together of its bytes and sent through its field of a wide signal comes back as these
      bytes. */
  lemma BytesBack(bytes: seq<bv8>)
    ensures BytesOf(Number(bytes) % Pow2(8 * |bytes|), |bytes|) == bytes
    ensures forall j :: 0 <= j < |bytes| ==> Bits(Number(bytes), 8 * j, 8) == bytes[j] as nat
  {
    NumberBelow(bytes);
    DivUnique(Number(bytes), Pow2(8 * |bytes|), 0, Number(bytes));
    forall j | 0 <= j < |bytes|
      ensures ByteAt(Number(bytes), j) == bytes[j] && Bits(Number(bytes), 8 * j, 8) == bytes[j] as nat
    {
      ByteBack(bytes, j);
    }
  }
}
