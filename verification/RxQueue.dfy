/** The receive path of the kernel driver (src/cndm/modules/cndm/cndm_rq.c): pages are
    posted to the device, come back filled through the completion queue, and the ring
    is topped up. The device may complete posted descriptors between any two steps. */
module RxQueue {
  import opened Arith
  import opened Base
  import opened PhaseRing
  import opened PhaseQueue
  import SlotRing

  type Page = int

  const RING_SIZE := 256
  const FILL := 128
  const REFILL_BATCH := 8
  const PAGE_SIZE := 4096
  const ETH_HLEN := 14
  const MAX_BUDGET := 64

  /** What the kernel answers when a descriptor wants a page. */
  datatype Alloc = NoPage | MapError(page: Page) | Mapped(page: Page)

  /** Where a completed page went: into an skb of `len` bytes, or back to the allocator. */
  datatype Outcome = Delivered(page: Page, len: int) | Freed(page: Page)

  /** What becomes of a page whose completion says cplLen: an skb takes it if it holds a header and
      there is an skb, with no more than the page holds. */
  predicate Deserves(o: Outcome, page: Page, cplLen: int, skbOk: bool) {
    && o.page == page
    && (o.Delivered? <==> cplLen >= 14 && skbOk)
    && (o.Delivered? ==> o.len == if cplLen <= 4096 then cplLen else 4096)
  }

  /** Each page handed out went to the device or back. */
  ghost predicate Accounted(given: multiset<Page>, posted: seq<Page>, returned: seq<Page>) {
    given == multiset(posted) + multiset(returned)
  }

  lemma OneMoreGiven(given: multiset<Page>, posted: seq<Page>, returned: seq<Page>, page: Page)
    requires Accounted(given, posted, returned)
    ensures Accounted(given + multiset{page}, posted + [page], returned)
    ensures Accounted(given + multiset{page}, posted, returned + [page])
  {
  }

  /** From `from` on each completion has had its outcome, the skbs in turn. */
  predicate InTurn(outcomes: seq<Outcome>, from: nat, posted: seq<Page>, hist: seq<int>, skbOk: seq<bool>) {
    && from <= |outcomes| <= |posted| && |outcomes| <= |hist| && |outcomes| <= from + |skbOk|
    && forall i :: from <= i < |outcomes| ==> Deserves(outcomes[i], posted[i], hist[i], skbOk[i - from])
  }

  lemma InTurnMore(outcomes: seq<Outcome>, from: nat, posted: seq<Page>, was: seq<int>, hist: seq<int>, skbOk: seq<bool>)
    requires InTurn(outcomes, from, posted, was, skbOk) && was <= hist
    ensures InTurn(outcomes, from, posted, hist, skbOk)
  {
  }

  lemma InTurnNext(outcomes: seq<Outcome>, from: nat, posted: seq<Page>, hist: seq<int>, skbOk: seq<bool>, o: Outcome)
    requires InTurn(outcomes, from, posted, hist, skbOk)
    requires |outcomes| < |posted| && |outcomes| < |hist| && |outcomes| < from + |skbOk|
    requires Deserves(o, posted[|outcomes|], hist[|outcomes|], skbOk[|outcomes| - from])
    ensures InTurn(outcomes + [o], from, posted, hist, skbOk)
  {
  }

  /** The pages posted are those of the first answers, up to one that gives none if not `ok`. */
  predicate Topped(was: seq<Page>, now: seq<Page>, allocs: seq<Alloc>, ok: bool) {
    var k := |now| - |was|;
    && was <= now && k <= |allocs| && (ok || (k < |allocs| && !allocs[k].Mapped?))
    && forall i :: 0 <= i < k ==> allocs[i] == Mapped(now[|was| + i])
  }

  lemma ToppedMore(was: seq<Page>, now: seq<Page>, allocs: seq<Alloc>)
    requires Topped(was, now, allocs, true) && |now| - |was| < |allocs|
    ensures var a := allocs[|now| - |was|];
            if a.Mapped? then Topped(was, now + [a.page], allocs, true) else Topped(was, now, allocs, false)
  {
  }

  class RxQueue {
    // driver
    const rxInfo: array<Option<Page>>
    const cq: PhaseQueue<int>
    var prodPtr: nat
    var consPtr: nat
    // device
    var doorbell: nat
    var fetched: nat

    ghost var given: multiset<Page>   // every page the allocator has handed out
    ghost var posted: seq<Page>     // every page ever given a descriptor, oldest first
    ghost var outcomes: seq<Outcome>   // what became of the completed ones, in order
    ghost var returned: seq<Page>   // pages freed because they could not be mapped
    ghost var rung: nat             // descriptors announced to the device

    ghost predicate Valid()
      reads this, rxInfo, cq, cq.buf
    {
      && cq.Valid() && cq.buf.Length == RING_SIZE && rxInfo.Length == RING_SIZE
      && |outcomes| <= |posted| && Accounted(given, posted, returned)
      && SlotRing.Exact(rxInfo[..], posted, |outcomes|)
      && (forall i :: 0 <= i < |outcomes| ==> outcomes[i].page == posted[i])
      && cq.cons <= |outcomes| <= |cq.hist| <= rung <= |posted| <= cq.cons + FILL
      && |outcomes| <= cq.told + MAX_BUDGET
      && prodPtr == |posted| % U32 && consPtr == cq.cons % U32
      && doorbell == rung % U16 && fetched == |cq.hist| % U16
    }

    constructor ()
      ensures Valid() && fresh(rxInfo) && fresh(cq) && fresh(cq.buf)
      ensures given == multiset{} && posted == [] && outcomes == [] && returned == [] && cq.hist == []
    {
      rxInfo := new Option<Page>[RING_SIZE](i => None);
      cq := new PhaseQueue<int>(RING_SIZE, 0);
      prodPtr, consPtr, doorbell, fetched := 0, 0, 0, 0;
      given, posted, outcomes, returned, rung := multiset{}, [], [], [], 0;
      new;
      assert Pow2(8) == 2 * 2 * Pow2(6) == 16 * Pow2(4) == RING_SIZE;
    }

    /** The device takes the next announced descriptor, fills it and completes it. */
    method DeviceReceive(len: int) returns (worked: bool)
      requires Valid()
      modifies this`fetched, cq`prodReg, cq`hist, cq.buf
      ensures Valid() && worked == (|old(cq.hist)| < rung)
      ensures cq.hist == if worked then old(cq.hist) + [len] else old(cq.hist)
    {
      RegisterEqual(rung, |cq.hist|, U16);
      worked := fetched != doorbell;
      if worked {
        RegisterStep(|cq.hist|, 1, U16);
        fetched := (fetched + 1) % U16;
        var accepted := cq.DeviceWrite(len);
        assert accepted;
      }
    }

    /** cndm_prepare_rx_desc at the producer slot, and the pointer behind it. */
    method PostOne(alloc: Alloc) returns (ok: bool)
      requires Valid() && |posted| < cq.cons + FILL
      modifies this`prodPtr, this`given, this`posted, this`returned, rxInfo
      ensures Valid()
      ensures ok <==> alloc.Mapped?
      ensures posted == if alloc.Mapped? then old(posted) + [alloc.page] else old(posted)
      ensures returned == if alloc.MapError? then old(returned) + [alloc.page] else old(returned)
      ensures given == old(given) + if alloc.NoPage? then multiset{} else multiset{alloc.page}
    {
      match alloc
      case NoPage => ok := false;
      case MapError(page) =>
        OneMoreGiven(given, posted, returned, page);
        given, returned := given + multiset{page}, returned + [page];
        ok := false;
      case Mapped(page) =>
        PostPage(page);
        ok := true;
    }

    method PostPage(page: Page)
      requires Valid() && |posted| < cq.cons + FILL
      modifies this`prodPtr, this`given, this`posted, rxInfo
      ensures Valid() && posted == old(posted) + [page] && given == old(given) + multiset{page}
    {
      ghost var slots := rxInfo[..];
      OneMoreGiven(given, posted, returned, page);
      Truncated(|posted|, RING_SIZE, U32);
      SlotRing.Post(slots, posted, |outcomes|, page);
      RegisterStep(|posted|, 1, U32);
      var index := prodPtr % RING_SIZE;
      rxInfo[index] := Some(page);
      assert rxInfo[..] == slots[index := Some(page)];
      prodPtr := (prodPtr + 1) % U32;
      given, posted := given + multiset{page}, posted + [page];
    }

    method WriteProdPtr()
      requires Valid()
      modifies this`doorbell, this`rung
      ensures Valid() && rung == |posted|
    {
      SlotRing.DoorbellOf(|posted|);
      doorbell := prodPtr % U16;
      rung := |posted|;
    }

    /** cndm_refill_rx_buffers: fills up to 128 outstanding descriptors, but only once
        eight are missing. `allocs` answers the allocations in turn. */
    method Refill(allocs: seq<Alloc>) returns (ok: bool)
      requires Valid() && |allocs| >= FILL
      modifies this`prodPtr, this`given, this`posted, this`returned, this`doorbell, this`rung, rxInfo
      ensures Valid() && old(posted) <= posted && old(returned) <= returned
      ensures |old(posted)| - cq.cons > FILL - REFILL_BATCH ==>
        ok && posted == old(posted) && rung == old(rung)
      ensures |old(posted)| - cq.cons <= FILL - REFILL_BATCH ==>
        && rung == |posted| && (ok <==> |posted| == cq.cons + FILL) && |posted| - |old(posted)| <= FILL
        && (forall i :: 0 <= i < |posted| - |old(posted)| ==> allocs[i] == Mapped(posted[|old(posted)| + i]))
        && (!ok ==> |posted| - |old(posted)| < FILL && !allocs[|posted| - |old(posted)|].Mapped?)
    {
      RegisterDifference(|posted|, cq.cons, U32);
      var missing := FILL - (prodPtr - consPtr) % U32;
      if missing < REFILL_BATCH {
        return true;
      }
      ok := PostMissing(missing, allocs);
      WriteProdPtr();
    }

    /** The next answer posted. */
    method PostNext(allocs: seq<Alloc>, k: nat, ghost was: seq<Page>) returns (ok: bool)
      requires Valid() && |posted| < cq.cons + FILL
      requires Topped(was, posted, allocs, true) && k == |posted| - |was| < |allocs|
      modifies this`prodPtr, this`given, this`posted, this`returned, rxInfo
      ensures Valid() && old(returned) <= returned && Topped(was, posted, allocs, ok)
      ensures |posted| == |old(posted)| + if ok then 1 else 0
    {
      ghost var a, next := allocs[k], if allocs[k].Mapped? then posted + [allocs[k].page] else posted;
      ToppedMore(was, posted, allocs);
      assert Topped(was, next, allocs, a.Mapped?);
      ok := PostOne(allocs[k]);
      assert posted == next;
    }

    /** The loop that posts what is missing. */
    method PostMissing(count: nat, allocs: seq<Alloc>) returns (ok: bool)
      requires Valid() && count == cq.cons + FILL - |posted| && |allocs| >= FILL
      modifies this`prodPtr, this`given, this`posted, this`returned, rxInfo
      ensures Valid() && old(returned) <= returned && Topped(old(posted), posted, allocs, ok)
      ensures ok <==> |posted| == cq.cons + FILL
    {
      ghost var was := posted;
      var missing := count;
      ok := true;
      var k := 0;
      while ok && missing > 0
        invariant Valid() && old(returned) <= returned && (ok || missing > 0)
        invariant missing == cq.cons + FILL - |posted| && k + missing == count
        invariant Topped(was, posted, allocs, ok) && k == |posted| - |was|
        decreases missing, ok
      {
        ok := PostNext(allocs, k, was);
        if ok {
          k := k + 1;
          missing := missing - 1;
        }
      }
    }

    /** One completion: the page leaves its slot for an skb or for the allocator. The
        slot is never null when the device completes only what was posted. */
    method TakeOne(ptr: nat, cplLen: int, skbOk: bool) returns (o: Outcome)
      requires Valid() && ptr == |outcomes| % U32 && |outcomes| < |cq.hist|
      requires cplLen == cq.hist[|outcomes|] && |outcomes| < cq.told + MAX_BUDGET
      modifies this`outcomes, rxInfo
      ensures Valid() && outcomes == old(outcomes) + [o] && o.page == posted[|old(outcomes)|]
      ensures o.Delivered? <==> cplLen >= 14 && skbOk
      ensures o.Delivered? ==> o.len == if cplLen <= 4096 then cplLen else 4096
    {
      Truncated(|outcomes|, RING_SIZE, U32);
      SlotRing.Take(rxInfo[..], posted, |outcomes|);
      var index := ptr % RING_SIZE;
      var page := rxInfo[index];
      if page.None? {
        assert false;
      }
      rxInfo[index] := None;
      o := Hand(page.value, cplLen, skbOk);
      outcomes := outcomes + [o];
    }

    /** Where the page goes. */
    method Hand(page: Page, cplLen: int, skbOk: bool) returns (o: Outcome)
      ensures Deserves(o, page, cplLen, skbOk)
    {
      var len := Min(cplLen, PAGE_SIZE);
      if len < ETH_HLEN {
        return Freed(page);
      }
      if !skbOk {
        return Freed(page);
      }
      return Delivered(page, len);
    }

    method DeviceReceives(lens: seq<int>) returns (worked: bool)
      requires Valid()
      modifies this`fetched, cq`prodReg, cq`hist, cq.buf
      ensures Valid() && old(cq.hist) <= cq.hist
      ensures worked <==> lens != [] && |old(cq.hist)| < rung
      ensures worked <==> |old(cq.hist)| < |cq.hist|
      ensures |cq.hist| == Min(|old(cq.hist)| + |lens|, rung)
    {
      worked := false;
      for i := 0 to |lens|
        invariant Valid() && old(cq.hist) <= cq.hist
        invariant worked <==> i > 0 && |old(cq.hist)| < rung
        invariant worked <==> |old(cq.hist)| < |cq.hist|
        invariant |cq.hist| == Min(|old(cq.hist)| + i, rung)
      {
        var more := DeviceReceive(lens[i]);
        worked := worked || more;
      }
    }

    /** The phase test, after the device has completed what it likes. */
    method NextCompletion(ptr: nat, arriving: seq<int>) returns (cpl: Option<int>)
      requires Valid() && ptr == |outcomes| % U32
      modifies this`fetched, cq`prodReg, cq`hist, cq.buf
      ensures Valid() && old(cq.hist) <= cq.hist
      ensures cpl == if |outcomes| < |cq.hist| then Some(cq.hist[|outcomes|]) else None
    {
      var _ := DeviceReceives(arriving);
      cpl := cq.Peek(ptr, |outcomes|);
    }

    /** One turn of the poll loop, the `done`-th from `from`, after the device has completed what it
        likes. */
    method PollTurn(ptr: nat, arriving: seq<int>, skbOk: seq<bool>, done: nat, ghost from: nat)
      returns (more: bool, next: nat)
      requires Valid() && ptr == |outcomes| % U32 && |outcomes| < cq.told + MAX_BUDGET
      requires |outcomes| == from + done && done < |skbOk| && InTurn(outcomes, from, posted, cq.hist, skbOk)
      modifies this`fetched, this`outcomes, rxInfo, cq`prodReg, cq`hist, cq.buf
      ensures Valid() && old(cq.hist) <= cq.hist && old(outcomes) <= outcomes
      ensures more <==> |old(outcomes)| < |cq.hist|
      ensures |outcomes| == |old(outcomes)| + (if more then 1 else 0) && next == |outcomes| % U32
      ensures InTurn(outcomes, from, posted, cq.hist, skbOk)
    {
      ghost var was := cq.hist;
      var cpl := NextCompletion(ptr, arriving);
      InTurnMore(outcomes, from, posted, was, cq.hist, skbOk);
      more, next := cpl.Some?, ptr;
      if more {
        next := TakeTurn(ptr, cpl.value, skbOk, done, from);
      }
    }

    /** The completion found, and the pointer behind it. */
    method TakeTurn(ptr: nat, cplLen: int, skbOk: seq<bool>, done: nat, ghost from: nat) returns (next: nat)
      requires Valid() && ptr == |outcomes| % U32 && |outcomes| < cq.told + MAX_BUDGET
      requires |outcomes| < |cq.hist| && cplLen == cq.hist[|outcomes|]
      requires |outcomes| == from + done && done < |skbOk| && InTurn(outcomes, from, posted, cq.hist, skbOk)
      modifies this`outcomes, rxInfo
      ensures Valid() && old(outcomes) <= outcomes && |outcomes| == |old(outcomes)| + 1 && next == |outcomes| % U32
      ensures InTurn(outcomes, from, posted, cq.hist, skbOk)
    {
      RegisterStep(|outcomes|, 1, U32);
      ghost var before := outcomes;
      var o := TakeOne(ptr, cplLen, skbOk[done]);
      InTurnNext(before, from, posted, cq.hist, skbOk, o);
      next := (ptr + 1) % U32;
    }

    method PublishCons(ptr: nat)
      requires Valid() && ptr == |outcomes| % U32
      modifies this`consPtr, cq`consPtr, cq`cons
      ensures Valid() && cq.cons == |outcomes|
    {
      cq.Publish(ptr, |outcomes|);
      consPtr := ptr;
    }

    method WriteCqConsPtr()
      requires Valid() && cq.cons == |outcomes|
      modifies cq`consReg, cq`told
      ensures Valid() && cq.told == |outcomes|
    {
      cq.WriteConsPtr();
    }

    /** The loop of cndm_process_rx_cq. `arrivals[k]` is what the device completes before
        the k-th phase test, `skbOk[k]` whether the k-th skb can be had. */
    method PollLoop(budget: nat, arrivals: seq<seq<int>>, skbOk: seq<bool>) returns (done: nat, ptr: nat)
      requires Valid() && cq.told == cq.cons == |outcomes|
      requires budget <= MAX_BUDGET && |skbOk| >= budget && |arrivals| >= budget
      modifies this`fetched, this`outcomes, rxInfo, cq`prodReg, cq`hist, cq.buf
      ensures Valid() && ptr == |outcomes| % U32
      ensures old(outcomes) <= outcomes && old(cq.hist) <= cq.hist
      ensures |outcomes| == |old(outcomes)| + done
      ensures done <= budget && (done < budget ==> |outcomes| == |cq.hist|)
      ensures forall i :: |old(outcomes)| <= i < |outcomes| ==>
        && outcomes[i].page == posted[i]
        && (outcomes[i].Delivered? <==> cq.hist[i] >= 14 && skbOk[i - |old(outcomes)|])
        && (outcomes[i].Delivered? ==> outcomes[i].len == if cq.hist[i] <= 4096 then cq.hist[i] else 4096)
    {
      done, ptr := 0, cq.consPtr;
      var more := true;
      while done < budget && more
        invariant Valid() && old(cq.hist) <= cq.hist && old(outcomes) <= outcomes
        invariant |outcomes| == |old(outcomes)| + done && done <= budget
        invariant ptr == |outcomes| % U32
        invariant !more ==> |outcomes| == |cq.hist|
        invariant InTurn(outcomes, |old(outcomes)|, posted, cq.hist, skbOk)
        decreases budget - done, more
      {
        more, ptr := PollTurn(ptr, arrivals[done], skbOk, done, |old(outcomes)|);
        if more {
          done := done + 1;
        }
      }
    }

    /** cndm_process_rx_cq: each completion turns the page posted for it into the outcome
        it deserves, in order, and the ring is topped up before the device learns of it. */
    method ProcessRxCq(budget: nat, arrivals: seq<seq<int>>, skbOk: seq<bool>, allocs: seq<Alloc>)
      returns (done: nat)
      requires Valid() && cq.told == cq.cons == |outcomes|
      requires budget <= MAX_BUDGET && |skbOk| >= budget && |arrivals| >= budget && |allocs| >= FILL
      modifies this, rxInfo, cq, cq.buf
      ensures Valid() && cq.told == cq.cons == |outcomes| == |old(outcomes)| + done
      ensures old(outcomes) <= outcomes && old(posted) <= posted && old(cq.hist) <= cq.hist
      ensures done <= budget && (done < budget ==> |outcomes| == |cq.hist|)
      ensures forall i :: |old(outcomes)| <= i < |outcomes| ==>
        && outcomes[i].page == posted[i]
        && (outcomes[i].Delivered? <==> cq.hist[i] >= 14 && skbOk[i - |old(outcomes)|])
        && (outcomes[i].Delivered? ==> outcomes[i].len == if cq.hist[i] <= 4096 then cq.hist[i] else 4096)
      ensures |outcomes| <= |old(posted)|
      ensures if |old(posted)| - |outcomes| > 120 then posted == old(posted) && rung == old(rung)
              else
                var k := |posted| - |old(posted)|;
                && rung == |posted| && k <= |outcomes| + 128 - |old(posted)|
                && (forall i :: 0 <= i < k ==> allocs[i] == Mapped(posted[|old(posted)| + i]))
                && (|posted| < |outcomes| + 128 ==> !allocs[k].Mapped?)
    {
      done := Consume(budget, arrivals, skbOk);
      TopUp(allocs);
    }

    /** The loop, and the consumer pointers published. */
    method Consume(budget: nat, arrivals: seq<seq<int>>, skbOk: seq<bool>) returns (done: nat)
      requires Valid() && cq.told == cq.cons == |outcomes|
      requires budget <= MAX_BUDGET && |skbOk| >= budget && |arrivals| >= budget
      modifies this`fetched, this`outcomes, this`consPtr, rxInfo, cq`prodReg, cq`hist, cq`consPtr, cq`cons, cq.buf
      ensures Valid() && cq.cons == |outcomes| == |old(outcomes)| + done
      ensures old(outcomes) <= outcomes && old(cq.hist) <= cq.hist
      ensures done <= budget && (done < budget ==> |outcomes| == |cq.hist|)
      ensures forall i :: |old(outcomes)| <= i < |outcomes| ==>
        && (outcomes[i].Delivered? <==> cq.hist[i] >= 14 && skbOk[i - |old(outcomes)|])
        && (outcomes[i].Delivered? ==> outcomes[i].len == if cq.hist[i] <= 4096 then cq.hist[i] else 4096)
    {
      var ptr;
      done, ptr := PollLoop(budget, arrivals, skbOk);
      PublishCons(ptr);
    }

    /** The ring topped up, and then the device told what has been consumed. */
    method TopUp(allocs: seq<Alloc>)
      requires Valid() && cq.cons == |outcomes| && |allocs| >= FILL
      modifies this`prodPtr, this`given, this`posted, this`returned, this`doorbell, this`rung, rxInfo, cq`consReg, cq`told
      ensures Valid() && cq.told == |outcomes| && old(posted) <= posted
      ensures if |old(posted)| - |outcomes| > 120 then posted == old(posted) && rung == old(rung)
              else
                var k := |posted| - |old(posted)|;
                && rung == |posted| && k <= |outcomes| + 128 - |old(posted)|
                && (forall i :: 0 <= i < k ==> allocs[i] == Mapped(posted[|old(posted)| + i]))
                && (|posted| < |outcomes| + 128 ==> !allocs[k].Mapped?)
    {
      var _ := Refill(allocs);
      WriteCqConsPtr();
    }

    /** cndm_free_rx_buf: every page still posted goes back, in order, and no slot keeps one. */
    method FreeRxBuf() returns (freed: seq<Page>)
      requires Valid() && cq.cons == |outcomes|
      modifies this`consPtr, rxInfo
      ensures freed == posted[|outcomes|..]
      ensures forall j :: 0 <= j < RING_SIZE ==> rxInfo[j] == None
    {
      freed := [];
      ghost var k := |outcomes|;
      RegisterEqual(|posted|, k, U32);
      while consPtr != prodPtr
        invariant posted == old(posted) && outcomes == old(outcomes) && rxInfo.Length == RING_SIZE
        invariant |outcomes| <= k <= |posted| <= |outcomes| + FILL && freed == posted[|outcomes|..k]
        invariant SlotRing.Exact(rxInfo[..], posted, k)
        invariant prodPtr == |posted| % U32 && consPtr == k % U32
        invariant consPtr == prodPtr <==> k == |posted|
        decreases |posted| - k
      {
        Truncated(k, RING_SIZE, U32);
        SlotRing.Take(rxInfo[..], posted, k);
        RegisterStep(k, 1, U32);
        var index := consPtr % RING_SIZE;
        if rxInfo[index].Some? {
          freed := freed + [rxInfo[index].value];
          rxInfo[index] := None;
        }
        consPtr := (consPtr + 1) % U32;
        k := k + 1;
        RegisterEqual(|posted|, k, U32);
      }
      SlotRing.AllVacant(rxInfo[..], posted);
    }

    /** Between polls: everything completed has been consumed, and the device knows of every
        descriptor. */
    ghost predicate AtRest()
      reads this, cq
    {
      cq.told == cq.cons == |outcomes| == |cq.hist| && rung == |posted|
    }

    /** From rest to rest: frames come in, and if the device completes any it raises an event and
        the queue is polled, with room in the budget. That happens exactly if a descriptor is
        posted. */
    method Round(lens: seq<int>, budget: nat, arrivals: seq<seq<int>>, skbOk: seq<bool>, allocs: seq<Alloc>)
      returns (polled: bool, done: nat)
      requires Valid() && AtRest()
      requires budget <= MAX_BUDGET && |skbOk| >= budget && |arrivals| >= budget && |allocs| >= FILL
      modifies this, rxInfo, cq, cq.buf
      ensures Valid() && old(outcomes) <= outcomes && old(posted) <= posted
      ensures polled <==> lens != [] && |old(outcomes)| < |old(posted)|
      ensures polled && done < budget ==> AtRest()
      ensures !polled ==> AtRest() && posted == old(posted) && outcomes == old(outcomes) && cq.hist == old(cq.hist)
    {
      done := 0;
      polled := DeviceReceives(lens);
      if polled {
        done := ProcessRxCq(budget, arrivals, skbOk, allocs);
      }
    }

    /** With no descriptor posted reception has ended: whatever frames come in, nothing is completed,
        no event is raised, no poll refills the ring. */
    method Starves(frames: seq<seq<int>>)
      requires Valid() && AtRest() && |posted| == |outcomes|
      modifies this, rxInfo, cq, cq.buf
      ensures Valid() && AtRest() && posted == old(posted) && outcomes == old(outcomes)
    {
      for i := 0 to |frames|
        invariant Valid() && AtRest() && posted == old(posted) && outcomes == old(outcomes)
      {
        var polled, _ := Round(frames[i], 0, [], [], seq(FILL, k => NoPage));
      }
    }

    /** Page conservation: whatever has happened, each page the allocator handed out is in a slot of
        the ring, in an skb, freed after its completion or given back unposted, and in these
        together exactly as often as it was handed out. */
    lemma Conservation()
      requires Valid()
      ensures given == PagesIn(rxInfo[..]) + InSkb(outcomes) + GivenBack(outcomes) + multiset(returned)
    {
      OutcomesSplit(outcomes, posted[..|outcomes|]);
      assert posted == posted[..|outcomes|] + posted[|outcomes|..];
      SlotsHold(rxInfo[..], posted, |outcomes|);
    }
  }

  /** A queue that has run dry: filled with 128 pages, it receives 128 frames while there is no memory
      to allocate, in two polls, and is at rest then with nothing posted. */
  method RunDry(pages: seq<Page>) returns (q: RxQueue)
    requires |pages| == FILL
    ensures fresh(q) && fresh(q.rxInfo) && fresh(q.cq) && fresh(q.cq.buf)
    ensures q.Valid() && q.AtRest() && q.posted == pages && |q.outcomes| == FILL
  {
    q := new RxQueue();
    var allocs := seq(FILL, i requires 0 <= i < FILL => Mapped(pages[i]));
    var ok := q.Refill(allocs);
    AllGiven(q.posted, allocs, pages, ok);
    var _ := q.DeviceReceives(seq(FILL, i => 64));
    for k := 0 to 2
      invariant fresh(q) && fresh(q.rxInfo) && fresh(q.cq) && fresh(q.cq.buf)
      invariant q.Valid() && q.cq.told == q.cq.cons == |q.outcomes| == MAX_BUDGET * k
      invariant q.posted == pages && q.rung == |q.cq.hist| == FILL
    {
      PollDry(q, k);
    }
  }

  /** A poll of 64 completions that finds no memory. */
  method PollDry(q: RxQueue, k: nat)
    requires q.Valid() && q.cq.told == q.cq.cons == |q.outcomes| == MAX_BUDGET * k && k < 2
    requires q.rung == |q.posted| == |q.cq.hist| == FILL
    modifies q, q.rxInfo, q.cq, q.cq.buf
    ensures q.Valid() && q.cq.told == q.cq.cons == |q.outcomes| == MAX_BUDGET * (k + 1)
    ensures q.posted == old(q.posted) && q.rung == |q.cq.hist| == FILL
  {
    var none := seq(FILL, i => NoPage);
    ghost var was := q.posted;
    var _ := q.ProcessRxCq(MAX_BUDGET, seq(MAX_BUDGET, i => []), seq(MAX_BUDGET, i => true), none);
    NoneGiven(was, q.posted, none, |q.posted| == |q.outcomes| + FILL);
  }

  lemma AllGiven(now: seq<Page>, allocs: seq<Alloc>, pages: seq<Page>, ok: bool)
    requires Topped([], now, allocs, ok) && |allocs| == |pages| && |now| <= |pages| && (ok ==> |now| == |pages|)
    requires forall i :: 0 <= i < |pages| ==> allocs[i] == Mapped(pages[i])
    ensures now == pages
  {
    assert forall i :: 0 <= i < |now| ==> allocs[i] == Mapped(now[0 + i]);
  }

  lemma NoneGiven(was: seq<Page>, now: seq<Page>, allocs: seq<Alloc>, ok: bool)
    requires Topped(was, now, allocs, ok) && forall i :: 0 <= i < |allocs| ==> allocs[i] == NoPage
    ensures now == was
  {
    assert |allocs| > 0 ==> allocs[0] == NoPage;
  }

  /** Pages the slots of a ring hold. */
  ghost function PagesIn(slots: seq<Option<Page>>): multiset<Page> {
    if slots == [] then multiset{} else
      var last := slots[|slots| - 1];
      PagesIn(slots[..|slots| - 1]) + (if last.Some? then multiset{last.value} else multiset{})
  }

  lemma {:induction false} NoPages(slots: seq<Option<Page>>)
    requires forall j :: 0 <= j < |slots| ==> slots[j] == None
    ensures PagesIn(slots) == multiset{}
  {
    if slots != [] {
      NoPages(slots[..|slots| - 1]);
    }
  }

  lemma {:induction false} OnePageLess(slots: seq<Option<Page>>, j: nat)
    requires j < |slots| && slots[j].Some?
    ensures PagesIn(slots) == PagesIn(slots[j := None]) + multiset{slots[j].value}
  {
    var n := |slots| - 1;
    if j < n {
      OnePageLess(slots[..n], j);
      assert slots[j := None][..n] == slots[..n][j := None];
    } else {
      assert slots[j := None][..n] == slots[..n];
    }
  }

  /** The slots hold what is posted and not completed. */
  lemma {:induction false} SlotsHold(slots: seq<Option<Page>>, posted: seq<Page>, k: nat)
    requires |slots| == RING_SIZE && k <= |posted| && SlotRing.Exact(slots, posted, k)
    ensures PagesIn(slots) == multiset(posted[k..])
    decreases |posted| - k
  {
    if k == |posted| {
      SlotRing.AllVacant(slots, posted);
      NoPages(slots);
    } else {
      SlotRing.Take(slots, posted, k);
      OnePageLess(slots, Slot(k, RING_SIZE));
      SlotsHold(slots[Slot(k, RING_SIZE) := None], posted, k + 1);
      assert posted[k..] == [posted[k]] + posted[k + 1..];
    }
  }

  /** Pages handed to the stack, and pages returned to the allocator. */
  ghost function InSkb(os: seq<Outcome>): multiset<Page> {
    if os == [] then multiset{} else
      var last := os[|os| - 1];
      InSkb(os[..|os| - 1]) + (if last.Delivered? then multiset{last.page} else multiset{})
  }

  ghost function GivenBack(os: seq<Outcome>): multiset<Page> {
    if os == [] then multiset{} else
      var last := os[|os| - 1];
      GivenBack(os[..|os| - 1]) + (if last.Freed? then multiset{last.page} else multiset{})
  }

  lemma {:induction false} OutcomesSplit(os: seq<Outcome>, pages: seq<Page>)
    requires |os| == |pages| && forall i :: 0 <= i < |os| ==> os[i].page == pages[i]
    ensures multiset(pages) == InSkb(os) + GivenBack(os)
  {
    if os != [] {
      var k := |os| - 1;
      OutcomesSplit(os[..k], pages[..k]);
      assert pages == pages[..k] + [pages[k]];
    }
  }
}
