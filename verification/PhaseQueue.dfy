/** Completion and event queues as objects: the driver's side (cndm_cq.c, cndm_eq.c and
    the DPDK cndm_cq.c) and the device's (cndm_micro_queue_state.sv), on registers that wrap. */
module PhaseQueue {
  import opened Arith
  import opened Base
  import opened PhaseRing
  import SlotRing

  lemma Pow2IsRingSize(k: nat)
    requires k <= 15
    ensures RingSize(Pow2(k))
  {
    Pow2Sum(k + 1, 15 - k);
    Pow2Is16();
    DivUnique(U16, Pow2(k + 1), Pow2(15 - k), 0);
  }

  /** `roundup_pow_of_two`: the smallest power of two that is not below the request. */
  method RoundupPow2(size: nat) returns (n: nat)
    requires 1 <= size
    ensures exists k :: n == Pow2(k)
    ensures size <= n < 2 * size && forall k :: size <= Pow2(k) ==> n <= Pow2(k)
    ensures size <= 0x8000 ==> RingSize(n)
  {
    n := 1;
    ghost var k := 0;
    while n < size
      invariant n == Pow2(k) && n < 2 * size
      decreases size - n
    {
      n := 2 * n;
      k := k + 1;
    }
    SmallIsRingSize(size, k);
    forall j: nat | size <= Pow2(j)
      ensures n <= Pow2(j)
    {
      if j < k {
        Pow2Grows(j, k);
      } else if k < j {
        Pow2Grows(k, j);
      }
    }
  }

  lemma SmallIsRingSize(size: nat, k: nat)
    requires Pow2(k) < 2 * size
    ensures size <= 0x8000 ==> RingSize(Pow2(k))
  {
    Pow2Is16();
    if size <= 0x8000 {
      if k >= 16 {
        if k > 16 {
          Pow2Grows(16, k);
        }
        assert false;
      }
      Pow2IsRingSize(k);
    }
  }

  /** A ring larger than the 16-bit pointers can count never looks full to the device. */
  lemma LargeNeverFull(n: nat, prod: nat, cons: nat)
    requires n >= U16
    ensures (prod % U16 - cons % U16) % U16 < n
  {
  }

  class PhaseQueue<T(!new)> {
    const buf: array<Entry<T>>
    var consPtr: nat    // driver, 32 bits
    var prodReg: nat    // device, 16 bits
    var consReg: nat    // device, 16 bits

    /** Entries accepted by the device, how many the driver has consumed, and how many
        of those it has told the device about. */
    ghost var hist: seq<T>
    ghost var cons: nat
    ghost var told: nat

    ghost predicate Valid()
      reads this, buf
    {
      && RingSize(buf.Length)
      && Holds(buf[..], hist)
      && told <= cons <= |hist| <= told + buf.Length
      && consPtr == cons % U32
      && prodReg == |hist| % U16
      && consReg == told % U16
    }

    /** cndm_open_cq and cndm_open_eq: round the size up and clear all phase tags. The pointers of the
        device serve rings of up to 0x8000 entries. */
    constructor (size: nat, blank: T)
      requires 1 <= size
      ensures fresh(buf) && hist == [] && cons == told == 0
      ensures size <= buf.Length < 2 * size
      ensures forall k :: size <= Pow2(k) ==> buf.Length <= Pow2(k)
      ensures forall j :: 0 <= j < buf.Length ==> buf[j] == Entry(false, blank)
      ensures size <= 0x8000 ==> Valid()
    {
      var n := RoundupPow2(size);
      buf := new Entry<T>[n](i => Entry(false, blank));
      consPtr, prodReg, consReg := 0, 0, 0;
      hist, cons, told := [], 0, 0;
    }

    /** `(prod - cons) & (0xffff << log_size)` on 16-bit registers. */
    method Full() returns (full: bool)
      requires Valid()
      ensures full <==> |hist| == told + buf.Length
    {
      RingFitsRegisters(buf.Length);
      RegisterDifference(|hist|, told, U16);
      full := (prodReg - consReg) % U16 >= buf.Length;
    }

    /** The device writes an entry, or discards it when the ring looks full. */
    method DeviceWrite(x: T) returns (accepted: bool)
      requires Valid()
      modifies this`prodReg, this`hist, buf
      ensures Valid()
      ensures accepted <==> |old(hist)| < told + buf.Length
      ensures hist == if accepted then old(hist) + [x] else old(hist)
    {
      var full := Full();
      if full {
        return false;
      }
      RegistersAgree(buf[..], |hist|, x, 0);
      ProduceHolds(buf[..], hist, x);
      RegisterStep(|hist|, 1, U16);
      var index := prodReg % buf.Length;
      buf[index] := Entry(!Wrap(prodReg, buf.Length), x);
      assert buf[..] == Produce(old(buf[..]), prodReg, x);
      prodReg := (prodReg + 1) % U16;
      hist := hist + [x];
      accepted := true;
    }

    /** The phase test at a 32-bit cursor of the driver, and the entry behind it. */
    method Peek(ptr: nat, ghost at: nat) returns (entry: Option<T>)
      requires Valid() && ptr == at % U32 && cons <= at <= |hist|
      ensures entry == if at < |hist| then Some(hist[at]) else None
    {
      PhaseTest(buf[..], hist, at);
      RegistersAgree(buf[..], |hist|, buf[0].payload, at);
      RingFitsRegisters(buf.Length);
      Truncated(at, buf.Length, U32);
      var index := ptr % buf.Length;
      if buf[index].phase == Wrap(ptr, buf.Length) {
        entry := None;
      } else {
        entry := Some(buf[index].payload);
      }
    }

    /** Publishes the driver's cursor. */
    method Publish(ptr: nat, ghost at: nat)
      requires Valid() && ptr == at % U32 && cons <= at <= |hist|
      modifies this`consPtr, this`cons
      ensures Valid() && cons == at
    {
      consPtr := ptr;
      cons := at;
    }

    /** The consumer doorbell, with or without the arm bit. */
    method WriteConsPtr()
      requires Valid()
      modifies this`consReg, this`told
      ensures Valid() && told == cons
    {
      SlotRing.DoorbellOf(cons);
      consReg := consPtr % U16;
      told := cons;
    }
  }
}
