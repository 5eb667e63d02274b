/** The transmit queue with its real registers and memory: 32-bit driver pointers, 16-bit
    doorbells and device pointers, the tx_info slots and the phase-tagged completion
    ring. Every method is one atomic step of TxProtocol, decided on the registers alone. */
module TxQueue {
  import opened Arith
  import opened Base
  import opened PhaseRing
  import SlotRing
  import opened TxProtocol

  class TxQueue {
    // driver
    const txInfo: array<Option<Skb>>
    var prodPtr: nat
    var consPtr: nat
    var queueStopped: bool
    const cqBuf: array<Entry<int>>
    var cqConsPtr: nat
    // locals of the poll in progress
    var pollCons: nat
    var pollCqCons: nat
    var done: nat
    var budget: nat
    // device
    var sqDoorbell: nat
    var sqFetched: nat
    var cqProd: nat
    var cqCons: nat

    /** The protocol state these registers stand for, and the completions written. */
    ghost var st: State
    ghost var cpls: seq<int>

    ghost predicate Valid()
      reads this, txInfo, cqBuf
    {
      && Inv(st)
      && txInfo.Length == RING_SIZE && cqBuf.Length == RING_SIZE
      && SlotRing.Exact(txInfo[..], st.sent, |st.freed|)
      && Holds(cqBuf[..], cpls) && |cpls| == st.completed
      && prodPtr == |st.sent| % U32
      && consPtr == cqConsPtr == st.cons % U32
      && queueStopped == st.stopped
      && (st.poll.PLoop? || st.poll.PPublish? ==> pollCons == pollCqCons == |st.freed| % U32)
      && (!st.poll.PIdle? && !st.poll.PArm? ==> done == st.poll.done && budget == st.poll.budget)
      && sqDoorbell == st.doorbell % U16
      && sqFetched == cqProd == st.completed % U16
      && cqCons == st.cqCons % U16
    }

    constructor ()
      ensures Valid() && st == Init && fresh(txInfo) && fresh(cqBuf)
    {
      txInfo := new Option<Skb>[RING_SIZE](i => None);
      cqBuf := new Entry<int>[RING_SIZE](i => Entry(false, 0));
      prodPtr, consPtr, cqConsPtr := 0, 0, 0;
      queueStopped := false;
      pollCons, pollCqCons, done, budget := 0, 0, 0, 0;
      sqDoorbell, sqFetched, cqProd, cqCons := 0, 0, 0, 0;
      st := Init;
      cpls := [];
    }

    // ----- cndm_start_xmit -----

    /** Fills the slot at the producer pointer, which is never one still in use. */
    method WriteDescriptor(skb: Skb)
      requires Valid() && Enabled(st, Write(skb))
      modifies this, txInfo
      ensures Valid() && st == Do(old(st), Write(skb)) && cpls == old(cpls)
      ensures old(txInfo[prodPtr % RING_SIZE]) == None
    {
      Truncated(|st.sent|, RING_SIZE, U32);
      SlotRing.Post(txInfo[..], st.sent, |st.freed|, skb);
      RegisterStep(|st.sent|, 1, U32);
      var index := prodPtr % RING_SIZE;
      txInfo[index] := Some(skb);
      prodPtr := (prodPtr + 1) % U32;
      InvStep(st, Write(skb));
      st := Do(st, Write(skb));
    }

    /** `sq->prod_ptr - sq->cons_ptr >= 128` on wrapping registers. */
    method CompareFull() returns (full: bool)
      requires Valid() && Enabled(st, Compare)
      modifies this`st
      ensures Valid() && st == Do(old(st), Compare)
      ensures full <==> st.xmit == XStop
    {
      RegisterDifference(|st.sent|, st.cons, U32);
      full := (prodPtr - consPtr) % U32 >= STOP_THRESHOLD;
      InvStep(st, Compare);
      st := Do(st, Compare);
    }

    method StopQueue()
      requires Valid() && Enabled(st, Stop)
      modifies this`queueStopped, this`st
      ensures Valid() && st == Do(old(st), Stop)
    {
      queueStopped := true;
      InvStep(st, Stop);
      st := Do(st, Stop);
    }

    method RingDoorbell()
      requires Valid() && Enabled(st, Ring)
      modifies this`sqDoorbell, this`st
      ensures Valid() && st == Do(old(st), Ring)
    {
      SlotRing.DoorbellOf(|st.sent|);
      sqDoorbell := prodPtr % U16;
      InvStep(st, Ring);
      st := Do(st, Ring);
    }

    // ----- cndm_poll_tx_cq -----

    method PollBegin(b: nat)
      requires Valid() && Enabled(st, Begin(b))
      modifies this`pollCons, this`pollCqCons, this`done, this`budget, this`st
      ensures Valid() && st == Do(old(st), Begin(b))
    {
      pollCqCons := cqConsPtr;
      pollCons := consPtr;
      done, budget := 0, b;
      InvStep(st, Begin(b));
      st := Do(st, Begin(b));
    }

    /** The phase test at the poll's consumer pointer: is there a completion to take? */
    method HasCompletion() returns (has: bool)
      requires Valid() && st.poll.PLoop?
      ensures has <==> |st.freed| < st.completed
    {
      PhaseTest(cqBuf[..], cpls, |st.freed|);
      RegistersAgree(cqBuf[..], 0, 0, |st.freed|);
      var index := pollCqCons % RING_SIZE;
      has := cqBuf[index].phase != Wrap(pollCqCons, RING_SIZE);
    }

    /** Frees the packet in the slot the poll has reached, which is the oldest one. */
    method FreeTxDesc() returns (skb: Skb)
      requires Valid() && Enabled(st, Take)
      modifies txInfo
      ensures skb == st.sent[|st.freed|]
      ensures SlotRing.Exact(txInfo[..], st.sent, |st.freed| + 1)
    {
      Truncated(|st.freed|, RING_SIZE, U32);
      SlotRing.Take(txInfo[..], st.sent, |st.freed|);
      var index := pollCons % RING_SIZE;
      skb := txInfo[index].value;
      txInfo[index] := None;
    }

    method TakeCompletion() returns (skb: Skb)
      requires Valid() && Enabled(st, Take)
      modifies this`pollCons, this`pollCqCons, this`done, this`st, txInfo
      ensures Valid() && st == Do(old(st), Take)
      ensures skb == old(st).sent[|old(st).freed|]
    {
      skb := FreeTxDesc();
      RegisterStep(|st.freed|, 1, U32);
      done := done + 1;
      pollCqCons := (pollCqCons + 1) % U32;
      pollCons := (pollCons + 1) % U32;
      InvStep(st, Take);
      st := Do(st, Take);
    }

    method LeaveLoop()
      requires Valid() && Enabled(st, Exit)
      modifies this`st
      ensures Valid() && st == Do(old(st), Exit)
    {
      InvStep(st, Exit);
      st := Do(st, Exit);
    }

    /** One turn of the poll loop: takes the next completion if the budget and the phase
        bit allow it, and frees the packet in its slot. */
    method PollNext() returns (freed: Option<Skb>)
      requires Valid() && st.poll.PLoop?
      modifies this`pollCons, this`pollCqCons, this`done, this`st, txInfo
      ensures Valid()
      ensures freed.None? ==> Enabled(old(st), Exit) && st == Do(old(st), Exit)
      ensures freed.Some? ==> Enabled(old(st), Take) && st == Do(old(st), Take)
      ensures freed.Some? ==> freed.value == old(st).sent[|old(st).freed|]
    {
      var has := HasCompletion();
      if done >= budget || !has {
        LeaveLoop();
        freed := None;
      } else {
        var skb := TakeCompletion();
        freed := Some(skb);
      }
    }

    method PublishCons()
      requires Valid() && Enabled(st, Publish)
      modifies this`cqConsPtr, this`consPtr, this`st
      ensures Valid() && st == Do(old(st), Publish)
    {
      cqConsPtr := pollCqCons;
      consPtr := pollCons;
      InvStep(st, Publish);
      st := Do(st, Publish);
    }

    method WriteCqConsPtr()
      requires Valid() && Enabled(st, CqDoorbell)
      modifies this`cqCons, this`st
      ensures Valid() && st == Do(old(st), CqDoorbell)
    {
      SlotRing.DoorbellOf(st.cons);
      cqCons := cqConsPtr % U16;
      InvStep(st, CqDoorbell);
      st := Do(st, CqDoorbell);
    }

    method CheckStopped() returns (stopped: bool)
      requires Valid() && Enabled(st, Check)
      modifies this`st
      ensures Valid() && st == Do(old(st), Check)
      ensures stopped <==> st.poll.PDecide?
    {
      stopped := queueStopped;
      InvStep(st, Check);
      st := Do(st, Check);
    }

    method DecideWake() returns (wake: bool)
      requires Valid() && Enabled(st, Decide)
      modifies this`st
      ensures Valid() && st == Do(old(st), Decide)
      ensures wake <==> st.poll.PWake?
    {
      RegisterEqual(|st.sent|, st.cons, U32);
      wake := done != 0 || prodPtr == consPtr;
      InvStep(st, Decide);
      st := Do(st, Decide);
    }

    method WakeQueue()
      requires Valid() && Enabled(st, Wake)
      modifies this`queueStopped, this`st
      ensures Valid() && st == Do(old(st), Wake)
    {
      queueStopped := false;
      InvStep(st, Wake);
      st := Do(st, Wake);
    }

    method PollReturn() returns (again: bool)
      requires Valid() && Enabled(st, Return)
      modifies this`st
      ensures Valid() && st == Do(old(st), Return)
      ensures again <==> st.poll.PIdle?
    {
      again := done == budget;
      InvStep(st, Return);
      st := Do(st, Return);
    }

    method WriteCqConsPtrArm()
      requires Valid() && Enabled(st, Arm)
      modifies this`cqCons, this`st
      ensures Valid() && st == Do(old(st), Arm)
    {
      SlotRing.DoorbellOf(st.cons);
      cqCons := cqConsPtr % U16;
      InvStep(st, Arm);
      st := Do(st, Arm);
    }

    // ----- device -----

    /** The queue state's test for a full completion ring: it never succeeds. */
    method CqFull() returns (full: bool)
      requires Valid()
      ensures !full
    {
      RegisterDifference(st.completed, st.cqCons, U16);
      full := (cqProd - cqCons) % U16 >= RING_SIZE;
    }

    method WriteCompletion(payload: int)
      requires Valid()
      modifies cqBuf, this`cpls
      ensures cpls == old(cpls) + [payload] && Holds(cqBuf[..], cpls)
    {
      RegistersAgree(cqBuf[..], st.completed, payload, 0);
      ProduceHolds(cqBuf[..], cpls, payload);
      var index := cqProd % RING_SIZE;
      cqBuf[index] := Entry(!Wrap(cqProd, RING_SIZE), payload);
      assert cqBuf[..] == Produce(old(cqBuf[..]), cqProd, payload);
      cpls := cpls + [payload];
    }

    method FinishDescriptor(payload: int)
      requires Valid() && Enabled(st, Complete)
      modifies this`sqFetched, this`cqProd, this`st, this`cpls, cqBuf
      ensures Valid() && st == Do(old(st), Complete)
      ensures cpls == old(cpls) + [payload]
    {
      WriteCompletion(payload);
      RegisterStep(st.completed, 1, U16);
      cqProd := (cqProd + 1) % U16;
      sqFetched := (sqFetched + 1) % U16;
      InvStep(st, Complete);
      st := Do(st, Complete);
    }

    /** The device works off descriptors while its 16-bit pointers differ, and writes a
        completion for each. */
    method DeviceComplete(payload: int) returns (worked: bool)
      requires Valid() && !st.notifying
      modifies this`sqFetched, this`cqProd, this`st, this`cpls, cqBuf
      ensures Valid()
      ensures !worked ==> st == old(st) && cpls == old(cpls) && !Enabled(st, Complete)
      ensures worked ==> Enabled(old(st), Complete) && st == Do(old(st), Complete)
      ensures worked ==> cpls == old(cpls) + [payload]
    {
      RegisterEqual(st.doorbell, st.completed, U16);
      if sqFetched == sqDoorbell {
        return false;
      }
      var full := CqFull();
      if full {
        assert false;
      }
      FinishDescriptor(payload);
      worked := true;
    }

    /** Marks the completion, raises the event, or hands it to NAPI: no register moves. */
    method DeviceEvent(a: Step)
      requires Valid() && Enabled(st, a) && (a == Notify || a == Scrub || a == Deliver)
      modifies this`st
      ensures Valid() && st == Do(old(st), a)
    {
      InvStep(st, a);
      st := Do(st, a);
    }

    // ----- cndm_free_tx_buf -----

    /** Closing the queue frees what is left: together with what polls freed, every
        packet sent comes back exactly once and in order. */
    method FreeTxBuf() returns (freed: seq<Skb>)
      requires Valid() && st.xmit == XIdle && st.poll == PIdle
      modifies this`consPtr, txInfo
      ensures st == old(st) && st.freed + freed == st.sent
      ensures forall j :: 0 <= j < RING_SIZE ==> txInfo[j] == None
    {
      freed := [];
      ghost var sent, cons, k := st.sent, st.cons, st.cons;
      RegisterEqual(|sent|, k, U32);
      while consPtr != prodPtr
        invariant st == old(st) && txInfo.Length == RING_SIZE
        invariant cons <= k <= |sent| <= cons + RING_SIZE && freed == sent[cons..k]
        invariant SlotRing.Exact(txInfo[..], sent, k)
        invariant prodPtr == |sent| % U32 && consPtr == k % U32
        invariant consPtr == prodPtr <==> k == |sent|
        decreases |sent| - k
      {
        ghost var slots := txInfo[..];
        Truncated(k, RING_SIZE, U32);
        SlotRing.Take(slots, sent, k);
        RegisterStep(k, 1, U32);
        var index := consPtr % RING_SIZE;
        SliceMore(sent, cons, k);
        freed := freed + [txInfo[index].value];
        txInfo[index] := None;
        assert txInfo[..] == slots[index := None];
        consPtr := (consPtr + 1) % U32;
        k := k + 1;
        RegisterEqual(|sent|, k, U32);
      }
      SlotRing.AllVacant(txInfo[..], sent);
    }
  }

  lemma SliceMore<T>(xs: seq<T>, a: nat, k: nat)
    requires a <= k < |xs|
    ensures xs[a..k + 1] == xs[a..k] + [xs[k]]
  {
  }
}
