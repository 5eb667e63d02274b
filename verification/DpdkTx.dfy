/** The transmit burst of the DPDK driver (src/cndm/dpdk/cndm/cndm_sq.c): one call
    enqueues until the ring is full and then reaps completions. The completion queue is
    exactly as large as the ring. */
module DpdkTx {
  import opened Arith
  import opened Base
  import opened PhaseRing
  import opened PhaseQueue
  import SlotRing

  datatype Mbuf = Mbuf(id: int, segs: int)

  /** Packets a burst puts on a ring with `room` free entries: single-segment ones, in order. */
  function Accepted(pkts: seq<Mbuf>, room: nat): (a: seq<Mbuf>)
    ensures |a| <= room && |a| <= |pkts|
  {
    if pkts == [] || room == 0 then []
    else if pkts[0].segs > 1 then Accepted(pkts[1..], room)
    else [pkts[0]] + Accepted(pkts[1..], room - 1)
  }

  /** Leading packets of a single segment. */
  function Lead(pkts: seq<Mbuf>): (n: nat)
    ensures n <= |pkts| && forall i :: 0 <= i < n ==> pkts[i].segs <= 1
    ensures n < |pkts| ==> pkts[n].segs > 1
  {
    if pkts == [] || pkts[0].segs > 1 then 0 else 1 + Lead(pkts[1..])
  }

  /** The returned count names the packets taken, as its caller assumes, exactly when the ring is
      full before the first packet of several segments, or only such packets follow it. */
  lemma {:induction false} CountNamesPrefix(pkts: seq<Mbuf>, room: nat)
    ensures Accepted(pkts, room) == pkts[..|Accepted(pkts, room)|] <==>
      Lead(pkts) >= room || forall i :: Lead(pkts) <= i < |pkts| ==> pkts[i].segs > 1
  {
    if Lead(pkts) >= room {
      AllSingle(pkts, room, room);
      Alone(pkts[..room]);
    } else {
      LeadShort(pkts, room);
    }
  }

  lemma LeadShort(pkts: seq<Mbuf>, room: nat)
    requires Lead(pkts) < room
    ensures Accepted(pkts, room) == pkts[..|Accepted(pkts, room)|] <==>
      forall i :: Lead(pkts) <= i < |pkts| ==> pkts[i].segs > 1
  {
    var a, n := Accepted(pkts, room), Lead(pkts);
    var rest := pkts[n..];
    AllSingle(pkts, room, n);
    AcceptedNone(rest, room - n);
    RestLong(pkts, n);
    if Accepted(rest, room - n) == [] {
      Alone(pkts[..n]);
    } else {
      AcceptedSingle(pkts, room);
      assert a[n].segs <= 1 && a[n] != pkts[n];
    }
  }

  lemma RestLong(pkts: seq<Mbuf>, n: nat)
    requires n <= |pkts|
    ensures (forall i :: n <= i < |pkts| ==> pkts[i].segs > 1) <==> forall i :: 0 <= i < |pkts[n..]| ==> pkts[n..][i].segs > 1
  {
    var rest := pkts[n..];
    if forall i :: 0 <= i < |rest| ==> rest[i].segs > 1 {
      forall i | n <= i < |pkts|
        ensures pkts[i].segs > 1
      {
        assert pkts[i] == rest[i - n];
      }
    }
  }

  /** Nothing is taken exactly when there is no room or nothing of a single segment. */
  lemma {:induction false} AcceptedNone(pkts: seq<Mbuf>, room: nat)
    ensures Accepted(pkts, room) == [] <==> room == 0 || forall i :: 0 <= i < |pkts| ==> pkts[i].segs > 1
  {
    if pkts != [] && room > 0 && pkts[0].segs > 1 {
      AcceptedNone(pkts[1..], room);
      assert forall i :: 1 <= i < |pkts| ==> pkts[i] == pkts[1..][i - 1];
    }
  }

  /** The packets of one segment. */
  function Short(pkts: seq<Mbuf>): seq<Mbuf> {
    if pkts == [] then []
    else Short(pkts[..|pkts| - 1]) + if pkts[|pkts| - 1].segs > 1 then [] else [pkts[|pkts| - 1]]
  }

  /** Taken are the first of these, as many as there is room for. */
  lemma {:induction false} AcceptedShort(pkts: seq<Mbuf>, room: nat)
    ensures Accepted(pkts, room) == Short(pkts)[..if room < |Short(pkts)| then room else |Short(pkts)|]
    decreases |pkts|
  {
    if pkts != [] {
      ShortFront(pkts);
      if room > 0 {
        AcceptedShort(pkts[1..], if pkts[0].segs > 1 then room else room - 1);
      }
    }
  }

  lemma {:induction false} ShortFront(pkts: seq<Mbuf>)
    requires pkts != []
    ensures Short(pkts) == (if pkts[0].segs > 1 then [] else [pkts[0]]) + Short(pkts[1..])
    decreases |pkts|
  {
    var n := |pkts| - 1;
    if n == 0 {
      assert pkts[..0] == [] && pkts[1..] == [];
    } else {
      ShortFront(pkts[..n]);
      assert pkts[..n][1..] == pkts[1..][..n - 1] && pkts[1..][n - 1] == pkts[n];
    }
  }

  /** A burst whose count names another packet than the one taken. */
  lemma SkippedPacket(long: Mbuf, short: Mbuf)
    requires long.segs > 1 >= short.segs
    ensures Accepted([long, short], 1) == [short] && [long, short][..1] == [long] != [short]
  {
    assert [long, short][1..] == [short] && [short][1..] == [];
  }

  /** How far a burst has come: acc is taken, and the packets from i on are still to be looked at. */
  predicate Midway(all: seq<Mbuf>, pkts: seq<Mbuf>, i: nat, room: nat, acc: seq<Mbuf>) {
    i <= |pkts| && |acc| <= room && all == acc + Accepted(pkts[i..], room - |acc|)
  }

  lemma MidwaySkips(all: seq<Mbuf>, pkts: seq<Mbuf>, i: nat, room: nat, acc: seq<Mbuf>)
    requires Midway(all, pkts, i, room, acc) && i < |pkts| && |acc| < room && pkts[i].segs > 1
    ensures Midway(all, pkts, i + 1, room, acc)
  {
    assert pkts[i..][1..] == pkts[i + 1..];
  }

  lemma MidwayTakes(all: seq<Mbuf>, pkts: seq<Mbuf>, i: nat, room: nat, acc: seq<Mbuf>)
    requires Midway(all, pkts, i, room, acc) && i < |pkts| && |acc| < room && pkts[i].segs <= 1
    ensures Midway(all, pkts, i + 1, room, acc + [pkts[i]])
  {
    assert pkts[i..][1..] == pkts[i + 1..];
    Regrouped(acc, [pkts[i]], Accepted(pkts[i + 1..], room - |acc| - 1));
  }

  lemma MidwayBegins(pkts: seq<Mbuf>, room: nat)
    ensures Midway(Accepted(pkts, room), pkts, 0, room, [])
  {
    assert pkts[0..] == pkts;
    Alone(Accepted(pkts, room));
  }

  lemma MidwayEnds(all: seq<Mbuf>, pkts: seq<Mbuf>, i: nat, room: nat, acc: seq<Mbuf>)
    requires Midway(all, pkts, i, room, acc) && (i == |pkts| || |acc| == room)
    ensures all == acc
  {
    Alone(acc);
  }

  lemma {:induction false} AcceptedSingle(pkts: seq<Mbuf>, room: nat)
    ensures forall i :: 0 <= i < |Accepted(pkts, room)| ==> Accepted(pkts, room)[i].segs <= 1
    decreases |pkts|
  {
    if pkts != [] && room > 0 {
      AcceptedSingle(pkts[1..], if pkts[0].segs > 1 then room else room - 1);
    }
  }

  lemma {:induction false} AllSingle(pkts: seq<Mbuf>, room: nat, k: nat)
    requires k <= |pkts| && k <= room && forall i :: 0 <= i < k ==> pkts[i].segs <= 1
    ensures Accepted(pkts, room) == pkts[..k] + Accepted(pkts[k..], room - k)
    decreases k
  {
    if k == 0 {
      assert pkts[0..] == pkts && pkts[..0] == [];
    } else {
      AllSingle(pkts[1..], room - 1, k - 1);
      assert pkts[1..][..k - 1] == pkts[1..k] && pkts[1..][k - 1..] == pkts[k..];
      assert [pkts[0]] + (pkts[1..k] + Accepted(pkts[k..], room - k)) == pkts[..k] + Accepted(pkts[k..], room - k);
    }
  }

  class DpdkTx {
    const txInfo: array<Option<Mbuf>>
    const cq: PhaseQueue<int>
    var prodPtr: nat
    var consPtr: nat
    var doorbell: nat
    var fetched: nat

    ghost var sent: seq<Mbuf>
    ghost var freed: seq<Mbuf>
    ghost var rung: nat

    ghost predicate Valid()
      reads this, txInfo, cq, cq.buf
    {
      && cq.Valid() && cq.buf.Length == txInfo.Length
      && freed <= sent && SlotRing.Live(txInfo[..], sent, |freed|)
      && cq.told == cq.cons <= |freed| <= |cq.hist| <= rung <= |sent| <= cq.cons + txInfo.Length
      && prodPtr == |sent| % U32 && consPtr == cq.cons % U32
      && doorbell == rung % U16 && fetched == |cq.hist| % U16
    }

    constructor (size: nat)
      requires 1 <= size <= 0x8000
      ensures Valid() && fresh(txInfo) && fresh(cq) && fresh(cq.buf)
      ensures sent == [] && freed == [] && cq.hist == []
    {
      var queue := new PhaseQueue<int>(size, 0);
      txInfo := new Option<Mbuf>[queue.buf.Length](i => None);
      cq := queue;
      prodPtr, consPtr, doorbell, fetched := 0, 0, 0, 0;
      sent, freed, rung := [], [], 0;
    }

    /** The device completes the next announced descriptor; its queue is never full,
        although it has no entry to spare. */
    method DeviceComplete()
      requires Valid()
      modifies this`fetched, cq`prodReg, cq`hist, cq.buf
      ensures Valid() && old(cq.hist) <= cq.hist
      ensures |cq.hist| == if |old(cq.hist)| < rung then |old(cq.hist)| + 1 else |old(cq.hist)|
    {
      RingFitsRegisters(cq.buf.Length);
      RegisterEqual(rung, |cq.hist|, U16);
      if fetched != doorbell {
        RegisterStep(|cq.hist|, 1, U16);
        fetched := (fetched + 1) % U16;
        var accepted := cq.DeviceWrite(0);
        assert accepted;
      }
    }

    method Enqueue(pkt: Mbuf)
      requires Valid() && |sent| < cq.cons + txInfo.Length
      modifies this`prodPtr, this`sent, txInfo
      ensures Valid() && sent == old(sent) + [pkt]
    {
      RingFitsRegisters(txInfo.Length);
      Truncated(|sent|, txInfo.Length, U32);
      SlotRing.Post(txInfo[..], sent, |freed|, pkt);
      RegisterStep(|sent|, 1, U32);
      var index := prodPtr % txInfo.Length;
      txInfo[index] := Some(pkt);
      prodPtr := (prodPtr + 1) % U32;
      sent := sent + [pkt];
    }

    method RingFull() returns (full: bool)
      requires Valid()
      ensures full <==> |sent| == cq.cons + txInfo.Length
    {
      RingFitsRegisters(txInfo.Length);
      RegisterDifference(|sent|, cq.cons, U32);
      full := (prodPtr - consPtr) % U32 >= txInfo.Length;
    }

    /** A packet of several segments is passed over. */
    method TryEnqueue(pkt: Mbuf) returns (taken: bool)
      requires Valid() && |sent| < cq.cons + txInfo.Length
      modifies this`prodPtr, this`sent, txInfo
      ensures Valid() && taken == (pkt.segs <= 1)
      ensures sent == if taken then old(sent) + [pkt] else old(sent)
    {
      taken := pkt.segs <= 1;
      if taken {
        Enqueue(pkt);
      }
    }

    method EnqueueBurst(pkts: seq<Mbuf>) returns (pktSent: nat)
      requires Valid() && |freed| == cq.cons
      modifies this`prodPtr, this`sent, txInfo
      ensures Valid()
      ensures var a := Accepted(pkts, txInfo.Length - (|old(sent)| - cq.cons));
        sent == old(sent) + a && pktSent == |a|
    {
      pktSent := 0;
      ghost var before, room := sent, txInfo.Length - (|sent| - cq.cons);
      ghost var acc: seq<Mbuf>, all := [], Accepted(pkts, room);
      MidwayBegins(pkts, room);
      Alone(before);
      var i := 0;
      var full := RingFull();
      while i < |pkts| && !full
        invariant Valid() && i <= |pkts| && sent == before + acc && pktSent == |acc|
        invariant full <==> |acc| == room
        invariant Midway(all, pkts, i, room, acc)
      {
        var taken := TryEnqueue(pkts[i]);
        if taken {
          MidwayTakes(all, pkts, i, room, acc);
          Regrouped(before, acc, [pkts[i]]);
          acc := acc + [pkts[i]];
          pktSent := pktSent + 1;
        } else {
          MidwaySkips(all, pkts, i, room, acc);
        }
        i := i + 1;
        full := RingFull();
      }
      MidwayEnds(all, pkts, i, room, acc);
    }

    method WriteProdPtr()
      requires Valid()
      modifies this`doorbell, this`rung
      ensures Valid() && rung == |sent|
    {
      SlotRing.DoorbellOf(|sent|);
      doorbell := prodPtr % U16;
      rung := |sent|;
    }

    /** Frees the packet of the oldest completion; the slot is left as it is. */
    method ReapOne(ptr: nat)
      requires Valid() && |freed| < |cq.hist| && ptr == |freed| % U32
      modifies this`freed
      ensures Valid() && freed == old(freed) + [sent[|old(freed)|]]
    {
      RingFitsRegisters(txInfo.Length);
      Truncated(|freed|, txInfo.Length, U32);
      SlotRing.Take(txInfo[..], sent, |freed|);
      var index := ptr % txInfo.Length;
      if txInfo[index].None? {
        assert false;
      }
      freed := freed + [txInfo[index].value];
    }

    /** One turn of the reap loop, after the device has completed what it likes. */
    method ReapTurn(ptr: nat, busy: bool) returns (more: bool)
      requires Valid() && ptr == |freed| % U32
      modifies this`fetched, this`freed, cq`prodReg, cq`hist, cq.buf
      ensures Valid() && old(freed) <= freed && old(cq.hist) <= cq.hist
      ensures |freed| == |old(freed)| + (if more then 1 else 0)
      ensures more <==> |old(freed)| < |cq.hist|
    {
      if busy {
        DeviceComplete();
      }
      var cpl := cq.Peek(ptr, |freed|);
      if cpl.None? {
        return false;
      }
      ReapOne(ptr);
      more := true;
    }

    /** `busy[k]` tells whether the device completes something before the k-th test. */
    method Reap(busy: seq<bool>) returns (ptr: nat)
      requires Valid() && |freed| == cq.cons
      modifies this`fetched, this`freed, cq`prodReg, cq`hist, cq.buf
      ensures Valid() && ptr == |freed| % U32
      ensures old(freed) <= freed && old(cq.hist) <= cq.hist && |freed| == |cq.hist|
    {
      ptr := cq.consPtr;
      var k := 0;
      var more := true;
      while more
        invariant Valid() && ptr == |freed| % U32
        invariant old(freed) <= freed && old(cq.hist) <= cq.hist
        invariant !more ==> |freed| == |cq.hist|
        decreases more, |sent| - |freed|
      {
        more := ReapTurn(ptr, k < |busy| && busy[k]);
        k := k + 1;
        if more {
          RegisterStep(|freed| - 1, 1, U32);
          ptr := (ptr + 1) % U32;
        }
      }
    }

    method PublishCons(ptr: nat)
      requires Valid() && ptr == |freed| % U32
      modifies this`consPtr, cq`consPtr, cq`cons, cq`consReg, cq`told
      ensures Valid() && cq.cons == |freed|
    {
      cq.Publish(ptr, |freed|);
      consPtr := ptr;
      cq.WriteConsPtr();
    }

    /** cndm_xmit_pkt_burst: takes what fits, then frees everything completed, in order
        and once, with a ring that may be full to the last entry. */
    method XmitPktBurst(pkts: seq<Mbuf>, busy: seq<bool>) returns (pktSent: nat)
      requires Valid() && |freed| == cq.cons
      modifies this, txInfo, cq, cq.buf
      ensures Valid() && |freed| == cq.cons == |cq.hist|
      ensures var a := Accepted(pkts, txInfo.Length - (|old(sent)| - old(cq.cons)));
        sent == old(sent) + a && pktSent == |a|
      ensures old(freed) <= freed <= sent && old(cq.hist) <= cq.hist
      ensures rung == if pktSent > 0 then |sent| else old(rung)
    {
      pktSent := EnqueueBurst(pkts);
      if pktSent > 0 {
        WriteProdPtr();
      }
      var ptr := Reap(busy);
      PublishCons(ptr);
    }
  }
}
