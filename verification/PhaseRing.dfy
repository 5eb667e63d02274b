/** Rings shared with the device whose entries carry a phase bit: completion queues
    and event queues (src/cndm/modules/cndm/cndm_cq.c, cndm_eq.c and the queue state
    in src/cndm/rtl/cndm_micro_queue_state.sv).

    Sizes are powers of two, so `p & size_mask` is `p % size` and `p & size` tells
    whether `p / size` is odd; registers of 16 and 32 bits keep both. */
module PhaseRing {
  import opened Arith

  const U16 := 0x1_0000
  const U32 := 0x1_0000_0000

  /** Powers of two up to 2^15: the sizes whose double divides the 16-bit pointer range. */
  predicate RingSize(n: nat) {
    n > 0 && U16 % (2 * n) == 0
  }

  /** `p & size_mask`. */
  function Slot(p: nat, n: nat): (i: nat)
    requires n > 0
    ensures i < n
  {
    p % n
  }

  /** `!!(p & size)`. */
  predicate Wrap(p: nat, n: nat)
    requires n > 0
  {
    (p / n) % 2 == 1
  }

  datatype Entry<+T> = Entry(phase: bool, payload: T)

  /** The device tags entry number `p` with the complement of its wrap bit. */
  function Produce<T>(buf: seq<Entry<T>>, p: nat, x: T): seq<Entry<T>>
    requires |buf| > 0
  {
    buf[Slot(p, |buf|) := Entry(!Wrap(p, |buf|), x)]
  }

  /** The driver's test for a new entry at consumer pointer `c`. */
  predicate Available<T>(buf: seq<Entry<T>>, c: nat)
    requires |buf| > 0
  {
    buf[Slot(c, |buf|)].phase != Wrap(c, |buf|)
  }

  /** `buf` is a ring cleared once and then filled with `hist`, oldest overwritten first. */
  ghost predicate Holds<T>(buf: seq<Entry<T>>, hist: seq<T>) {
    var n := |buf|;
    && n > 0
    && (forall i :: 0 <= i < |hist| && |hist| <= i + n ==> buf[Slot(i, n)] == Entry(!Wrap(i, n), hist[i]))
    && (forall j :: |hist| <= j < n ==> !buf[j].phase)
  }

  /** Cutting a pointer to a register that a double ring divides changes neither its
      slot nor its wrap bit. */
  lemma Truncated(p: nat, n: nat, m: nat)
    requires n > 0 && m > 0 && m % (2 * n) == 0
    ensures Slot(p % m, n) == Slot(p, n) && Wrap(p % m, n) == Wrap(p, n)
  {
    var q := m / (2 * n);
    DoubleRing(n, q);
    assert m == n * (2 * q);
    ModOfMod(p, n, 2 * q);
    EvenMultiple(q, p / m);
  }

  lemma DoubleRing(n: int, q: int)
    ensures 2 * n * q == n * (2 * q)
  {
  }

  lemma EvenMultiple(q: int, t: int)
    ensures 2 * q * t == 2 * (q * t)
  {
  }

  lemma RingFitsRegisters(n: nat)
    requires RingSize(n)
    ensures U32 % (2 * n) == 0 && n <= 0x8000
  {
    var q := U16 / (2 * n);
    assert U16 == 2 * n * q;
    assert U32 == 2 * n * (q * U16);
    DivUnique(U32, 2 * n, q * U16, 0);
    MulGrows(2 * n, q);
  }

  // ----- what the ring says -----

  lemma ProduceHolds<T>(buf: seq<Entry<T>>, hist: seq<T>, x: T)
    requires Holds(buf, hist)
    ensures Holds(Produce(buf, |hist|, x), hist + [x])
  {
    var n, p := |buf|, |hist|;
    var buf', hist' := Produce(buf, p, x), hist + [x];
    forall i | 0 <= i < |hist'| && |hist'| <= i + n
      ensures buf'[Slot(i, n)] == Entry(!Wrap(i, n), hist'[i])
    {
      if i < p {
        ModDiffers(i, p, n);
      }
    }
    forall j | |hist'| <= j < n
      ensures !buf'[j].phase
    {
      assert Slot(p, n) == p by { DivUnique(p, n, 0, p); }
    }
  }

  /** The newest pointer that shares the slot of `c`, `lead` entries ahead of it. */
  lemma LastInSlot(c: nat, lead: nat, n: nat) returns (i: int, k: int)
    requires n > 0
    ensures i % n == c % n && i / n == c / n + k
    ensures i < c + lead <= i + n
    ensures k >= 0 ==> i >= c
    ensures k < 0 ==> lead == 0 && k == -1
    ensures (lead + n - 1) / n == k + 1
  {
    k := (lead - 1) / n;
    i := c + n * k;
    AddMultiple(c, n, k);
    AddMultiple(lead - 1, n, 1);
    if lead == 0 {
      DivUnique(-1, n, -1, n - 1);
    }
    if k >= 0 {
      MulNonNegative(n, k);
    }
  }

  lemma Parity(a: int, k: int)
    ensures ((a + k) % 2 == 1) == (a % 2 == 1) <==> (k + 1) % 2 == 1
  {
  }

  /** Exactly what the phase test answers, however far the producer is ahead: it says
      yes for a lead in 1..size, 2*size+1..3*size, and so on. */
  lemma PhaseTestExactly<T>(buf: seq<Entry<T>>, hist: seq<T>, c: nat)
    requires Holds(buf, hist) && c <= |hist|
    ensures Available(buf, c) <==> ((|hist| - c + |buf| - 1) / |buf|) % 2 == 1
  {
    var n := |buf|;
    var i, k := LastInSlot(c, |hist| - c, n);
    if i < 0 {
      DivUnique(c, n, 0, c);
    } else {
      Parity(c / n, k);
      assert buf[Slot(i, n)].phase == !Wrap(i, n);
      assert buf[Slot(c, n)] == buf[Slot(i, n)];
    }
  }

  /** Phase test exactness: while the producer is at most one ring ahead, an entry is
      reported exactly when it has been produced, and it is the right one. */
  lemma PhaseTest<T>(buf: seq<Entry<T>>, hist: seq<T>, c: nat)
    requires Holds(buf, hist) && c <= |hist| <= c + |buf|
    ensures Available(buf, c) <==> c < |hist|
    ensures c < |hist| ==> buf[Slot(c, |buf|)].payload == hist[c]
  {
    PhaseTestExactly(buf, hist, c);
    var n, lead := |buf|, |hist| - c;
    if lead == 0 {
      DivUnique(n - 1, n, 0, n - 1);
    } else {
      DivUnique(lead + n - 1, n, 1, lead - 1);
    }
  }

  /** One ring and an entry ahead the test goes wrong: the bound cannot be relaxed. */
  lemma OverrunHides<T>(buf: seq<Entry<T>>, hist: seq<T>, c: nat)
    requires Holds(buf, hist) && |hist| == c + |buf| + 1 && |buf| > 1
    ensures !Available(buf, c)
  {
    PhaseTestExactly(buf, hist, c);
    DivUnique(2 * |buf|, |buf|, 2, 0);
  }

  /** The test and the device's tag on registers that wrap: a 32-bit consumer pointer
      and a 16-bit producer pointer see the same ring as counters that never do. */
  lemma RegistersAgree<T>(buf: seq<Entry<T>>, p: nat, x: T, c: nat)
    requires RingSize(|buf|)
    ensures Produce(buf, p % U16, x) == Produce(buf, p, x)
    ensures Available(buf, c % U32) == Available(buf, c)
  {
    RingFitsRegisters(|buf|);
    Truncated(p, |buf|, U16);
    Truncated(c, |buf|, U32);
  }
}
