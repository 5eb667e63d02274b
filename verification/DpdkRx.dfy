/** The receive burst of the DPDK driver (src/cndm/dpdk/cndm/cndm_rq.c): the ring is
    filled completely, in batches that are allocated whole or not at all. */
module DpdkRx {
  import opened Arith
  import opened Base
  import opened PhaseRing
  import opened PhaseQueue
  import SlotRing

  type Mbuf = int

  const BATCH_SIZE := 32
  const REFILL_BATCH := 8

  datatype Packet = Packet(mbuf: Mbuf, len: int)

  lemma Taken(before: seq<Mbuf>, pool: seq<Mbuf>, i: nat, batch: nat)
    requires i + batch <= |pool|
    ensures before + pool[..i] + pool[i..i + batch] == before + pool[..i + batch]
  {
  }

  class DpdkRx {
    const rxInfo: array<Option<Mbuf>>
    const cq: PhaseQueue<int>
    const dataRoom: int
    var prodPtr: nat
    var consPtr: nat
    var doorbell: nat
    var fetched: nat

    ghost var posted: seq<Mbuf>
    ghost var received: seq<Packet>
    ghost var rung: nat

    ghost predicate Valid()
      reads this, rxInfo, cq, cq.buf
    {
      && cq.Valid() && cq.buf.Length == rxInfo.Length
      && |received| <= |posted| && SlotRing.Exact(rxInfo[..], posted, |received|)
      && cq.told == cq.cons <= |received| <= |cq.hist| <= rung <= |posted| <= cq.cons + rxInfo.Length
      && (forall i :: 0 <= i < |received| ==> received[i] == Packet(posted[i], Min(cq.hist[i], dataRoom)))
      && prodPtr == |posted| % U32 && consPtr == cq.cons % U32
      && doorbell == rung % U16 && fetched == |cq.hist| % U16
    }

    constructor (size: nat, dataRoom: int)
      requires 1 <= size <= 0x8000
      ensures Valid() && fresh(rxInfo) && fresh(cq) && fresh(cq.buf)
      ensures posted == [] && received == [] && cq.hist == [] && this.dataRoom == dataRoom
    {
      var queue := new PhaseQueue<int>(size, 0);
      rxInfo := new Option<Mbuf>[queue.buf.Length](i => None);
      cq := queue;
      this.dataRoom := dataRoom;
      prodPtr, consPtr, doorbell, fetched := 0, 0, 0, 0;
      posted, received, rung := [], [], 0;
    }

    method DeviceReceive(len: int)
      requires Valid()
      modifies this`fetched, cq`prodReg, cq`hist, cq.buf
      ensures Valid()
      ensures cq.hist == if |old(cq.hist)| < rung then old(cq.hist) + [len] else old(cq.hist)
    {
      RingFitsRegisters(cq.buf.Length);
      RegisterEqual(rung, |cq.hist|, U16);
      if fetched != doorbell {
        RegisterStep(|cq.hist|, 1, U16);
        fetched := (fetched + 1) % U16;
        var accepted := cq.DeviceWrite(len);
        assert accepted;
      }
    }

    method PostOne(mbuf: Mbuf)
      requires Valid() && |posted| < cq.cons + rxInfo.Length
      modifies this`prodPtr, this`posted, rxInfo
      ensures Valid() && posted == old(posted) + [mbuf]
    {
      RingFitsRegisters(rxInfo.Length);
      Truncated(|posted|, rxInfo.Length, U32);
      SlotRing.Post(rxInfo[..], posted, |received|, mbuf);
      RegisterStep(|posted|, 1, U32);
      var index := prodPtr % rxInfo.Length;
      rxInfo[index] := Some(mbuf);
      prodPtr := (prodPtr + 1) % U32;
      posted := posted + [mbuf];
    }

    method PostBatch(mbufs: seq<Mbuf>)
      requires Valid() && |posted| + |mbufs| <= cq.cons + rxInfo.Length
      modifies this`prodPtr, this`posted, rxInfo
      ensures Valid() && posted == old(posted) + mbufs
    {
      for i := 0 to |mbufs|
        invariant Valid() && posted == old(posted) + mbufs[..i]
      {
        PostOne(mbufs[i]);
      }
    }

    method WriteProdPtr()
      requires Valid()
      modifies this`doorbell, this`rung
      ensures Valid() && rung == |posted|
    {
      SlotRing.DoorbellOf(|posted|);
      doorbell := prodPtr % U16;
      rung := |posted|;
    }

    method Missing() returns (missing: nat)
      requires Valid()
      ensures missing == cq.cons + rxInfo.Length - |posted|
    {
      RingFitsRegisters(rxInfo.Length);
      RegisterDifference(|posted|, cq.cons, U32);
      missing := rxInfo.Length - (prodPtr - consPtr) % U32;
    }

    /** Allocates and posts batches until nothing is missing or an allocation fails;
        `m` mbufs of the pool are used. */
    method PostBatches(pool: seq<Mbuf>, bulkOk: seq<bool>, want: nat) returns (ok: bool, ghost m: nat)
      requires Valid() && want == cq.cons + rxInfo.Length - |posted|
      requires |pool| >= want && |bulkOk| >= want
      modifies this`prodPtr, this`posted, rxInfo
      ensures Valid() && m <= want && posted == old(posted) + pool[..m]
      ensures ok <==> m == want
      ensures ok <==> forall j :: 0 <= j < (want + 31) / 32 ==> bulkOk[j]
      ensures !ok ==> m % 32 == 0 && m < want && !bulkOk[m / 32] && forall j :: 0 <= j < m / 32 ==> bulkOk[j]
    {
      var i, k := 0, 0;
      ok := true;
      while ok && i < want
        invariant Valid() && 0 <= k <= i <= want
        invariant posted == old(posted) + pool[..i]
        invariant !ok ==> i < want
        invariant i < want ==> i == BATCH_SIZE * k
        invariant i == want ==> k == (want + 31) / 32
        invariant forall j :: 0 <= j < k ==> bulkOk[j]
        invariant !ok ==> !bulkOk[k]
        decreases want - i, ok
      {
        var batch := Min(want - i, BATCH_SIZE);
        ok := bulkOk[k];
        if ok {
          PostBatch(pool[i..i + batch]);
          Taken(old(posted), pool, i, batch);
          i, k := i + batch, k + 1;
        }
      }
      m := i;
      if !ok {
        DivUnique(i, BATCH_SIZE, k, 0);
      }
    }

    /** cndm_refill_rx_buffers: `pool` supplies mbufs in order, `bulkOk[k]` whether the
        k-th bulk allocation succeeds. Fills the ring if all do that are needed, and otherwise
        stops in front of the batch of the first that does not. */
    method Refill(pool: seq<Mbuf>, bulkOk: seq<bool>) returns (ok: bool, ghost m: nat)
      requires Valid() && |pool| >= rxInfo.Length && |bulkOk| >= rxInfo.Length
      modifies this`prodPtr, this`posted, this`doorbell, this`rung, rxInfo
      ensures Valid() && m <= |pool| && posted == old(posted) + pool[..m]
      ensures cq.cons + rxInfo.Length - |old(posted)| < 8 ==> ok && m == 0 && rung == old(rung)
      ensures var w := cq.cons + rxInfo.Length - |old(posted)|; w >= 8 ==>
        && rung == |posted| && (ok <==> |posted| == cq.cons + rxInfo.Length)
        && (ok <==> forall j :: 0 <= j < (w + 31) / 32 ==> bulkOk[j])
        && (!ok ==> m % 32 == 0 && m < w && !bulkOk[m / 32] && forall j :: 0 <= j < m / 32 ==> bulkOk[j])
    {
      var missing := Missing();
      if missing < REFILL_BATCH {
        assert posted == old(posted) + pool[..0];
        return true, 0;
      }
      ok, m := PostBatches(pool, bulkOk, missing);
      WriteProdPtr();
    }

    method TakeOne(ptr: nat, cplLen: int)
      requires Valid() && ptr == |received| % U32 && |received| < |cq.hist| && cplLen == cq.hist[|received|]
      modifies this`received, rxInfo
      ensures Valid() && |received| == |old(received)| + 1 && old(received) <= received
    {
      RingFitsRegisters(rxInfo.Length);
      Truncated(|received|, rxInfo.Length, U32);
      SlotRing.Take(rxInfo[..], posted, |received|);
      var index := ptr % rxInfo.Length;
      var mbuf := rxInfo[index];
      if mbuf.None? {
        assert false;
      }
      var len := Min(cplLen, dataRoom);
      rxInfo[index] := None;
      received := received + [Packet(mbuf.value, len)];
    }

    /** One turn of the receive loop, after the device has completed what it likes. */
    method PollTurn(ptr: nat, arrival: Option<int>) returns (more: bool)
      requires Valid() && ptr == |received| % U32
      modifies this`fetched, this`received, rxInfo, cq`prodReg, cq`hist, cq.buf
      ensures Valid() && old(received) <= received && old(cq.hist) <= cq.hist
      ensures |received| == |old(received)| + (if more then 1 else 0)
      ensures more <==> |old(received)| < |cq.hist|
    {
      if arrival.Some? {
        DeviceReceive(arrival.value);
      }
      var cpl := cq.Peek(ptr, |received|);
      if cpl.None? {
        return false;
      }
      TakeOne(ptr, cpl.value);
      more := true;
    }

    method PollLoop(nbPkts: nat, arrivals: seq<Option<int>>) returns (recv: nat, ptr: nat)
      requires Valid() && |received| == cq.cons && |arrivals| >= nbPkts
      modifies this`fetched, this`received, rxInfo, cq`prodReg, cq`hist, cq.buf
      ensures Valid() && ptr == |received| % U32
      ensures old(received) <= received && |received| == |old(received)| + recv
      ensures old(cq.hist) <= cq.hist
      ensures recv <= nbPkts && (recv < nbPkts ==> |received| == |cq.hist|)
    {
      recv, ptr := 0, cq.consPtr;
      var more := true;
      while recv < nbPkts && more
        invariant Valid() && ptr == |received| % U32
        invariant old(received) <= received && |received| == |old(received)| + recv
        invariant old(cq.hist) <= cq.hist && recv <= nbPkts
        invariant !more ==> |received| == |cq.hist|
        decreases nbPkts - recv, more
      {
        more := PollTurn(ptr, arrivals[recv]);
        if more {
          RegisterStep(|received| - 1, 1, U32);
          ptr := (ptr + 1) % U32;
          recv := recv + 1;
        }
      }
    }

    method PublishCons(ptr: nat)
      requires Valid() && ptr == |received| % U32
      modifies this`consPtr, cq`consPtr, cq`cons, cq`consReg, cq`told
      ensures Valid() && cq.cons == |received|
    {
      cq.Publish(ptr, |received|);
      consPtr := ptr;
      cq.WriteConsPtr();
    }

    /** cndm_recv_pkt_burst: hands out completed buffers in the order they were posted,
        each once, with the length its own completion gives, and refills the ring. */
    method RecvPktBurst(nbPkts: nat, arrivals: seq<Option<int>>, pool: seq<Mbuf>, bulkOk: seq<bool>)
      returns (recv: nat)
      requires Valid() && |received| == cq.cons && |arrivals| >= nbPkts
      requires |pool| >= rxInfo.Length && |bulkOk| >= rxInfo.Length
      modifies this, rxInfo, cq, cq.buf
      ensures Valid() && |received| == cq.cons == |old(received)| + recv
      ensures old(received) <= received && old(posted) <= posted && old(cq.hist) <= cq.hist
      ensures recv <= nbPkts && (recv < nbPkts ==> |received| == |cq.hist|)
      ensures forall i :: |old(received)| <= i < |received| ==>
        received[i] == Packet(posted[i], if cq.hist[i] < dataRoom then cq.hist[i] else dataRoom)
      ensures |received| <= |old(posted)|
      ensures var w := |received| + rxInfo.Length - |old(posted)|;
              if recv == 0 || w < 8 then posted == old(posted) && rung == old(rung)
              else
                var m := |posted| - |old(posted)|;
                && rung == |posted| && 0 <= m <= w && posted == old(posted) + pool[..m]
                && (m == w <==> forall j :: 0 <= j < (w + 31) / 32 ==> bulkOk[j])
                && (m < w ==> m % 32 == 0 && !bulkOk[m / 32] && forall j :: 0 <= j < m / 32 ==> bulkOk[j])
    {
      var ptr;
      recv, ptr := PollLoop(nbPkts, arrivals);
      PublishCons(ptr);
      if recv > 0 {
        var _, _ := Refill(pool, bulkOk);
      }
    }
  }
}
