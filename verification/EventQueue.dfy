/** The event queue of the Corundum driver (src/cndm/modules/cndm/cndm_eq.c): one
    interrupt works off events until the phase bit says there is none left. */
module EventQueue {
  import opened Arith
  import opened PhaseRing
  import opened PhaseQueue

  datatype Event = Event(etype: int, source: int)

  /** A completion queue in the table, with or without a handler. */
  datatype Cq = Cq(handled: bool)

  /** The handler one event leads to, if any. */
  function Calls(table: map<int, Cq>, e: Event): seq<int> {
    if e.etype == 0 && e.source in table && table[e.source].handled then [e.source] else []
  }

  /** Completion queues whose handler runs for a series of events, in order. */
  function Dispatched(table: map<int, Cq>, events: seq<Event>): seq<int> {
    if events == [] then []
    else Dispatched(table, events[..|events| - 1]) + Calls(table, events[|events| - 1])
  }

  lemma OneMore(table: map<int, Cq>, events: seq<Event>, e: Event)
    ensures Dispatched(table, events + [e]) == Dispatched(table, events) + Calls(table, e)
  {
    assert (events + [e])[..|events|] == events;
  }

  /** Of the history the events from `from` up to `at` have been handled. */
  predicate Handled(table: map<int, Cq>, h: seq<Event>, from: nat, at: nat, called: seq<int>) {
    from <= at <= |h| && called == Dispatched(table, h[from..at])
  }

  lemma HandledMore(table: map<int, Cq>, h: seq<Event>, h': seq<Event>, from: nat, at: nat, called: seq<int>)
    requires h <= h' && Handled(table, h, from, at, called)
    ensures Handled(table, h', from, at, called)
    ensures at < |h'| ==> Handled(table, h', from, at + 1, called + Calls(table, h'[at]))
  {
    assert h'[from..at] == h[from..at];
    if at < |h'| {
      assert h'[from..at + 1] == h[from..at] + [h'[at]];
      OneMore(table, h[from..at], h'[at]);
    }
  }

  /** However events are interleaved, each completion event queue `q` has sent runs its handler
      once, if it has one, and no other event does. */
  lemma {:induction false} DispatchedCount(table: map<int, Cq>, events: seq<Event>, q: int)
    ensures multiset(Dispatched(table, events))[q] ==
      if q in table && table[q].handled then multiset(events)[Event(0, q)] else 0
  {
    if events != [] {
      var front, e := events[..|events| - 1], events[|events| - 1];
      DispatchedCount(table, front, q);
      CountMore(front, e, Event(0, q));
      assert events == front + [e];
      CallsCount(table, e, q);
      CountBoth(Dispatched(table, front), Calls(table, e), q);
    }
  }

  lemma CountMore<T>(xs: seq<T>, x: T, y: T)
    ensures multiset(xs + [x])[y] == multiset(xs)[y] + if x == y then 1 else 0
  {
  }

  lemma CountBoth<T>(xs: seq<T>, ys: seq<T>, x: T)
    ensures multiset(xs + ys)[x] == multiset(xs)[x] + multiset(ys)[x]
  {
  }

  lemma CallsCount(table: map<int, Cq>, e: Event, q: int)
    ensures multiset(Calls(table, e))[q] == if e == Event(0, q) && q in table && table[q].handled then 1 else 0
  {
  }

  method HandleEvent(table: map<int, Cq>, e: Event) returns (calls: seq<int>)
    ensures calls == Calls(table, e)
  {
    calls := [];
    if e.etype == 0 {
      if e.source in table && table[e.source].handled {
        calls := [e.source];
      }
    }
  }

  method DeviceAdds(q: PhaseQueue<Event>, events: seq<Event>)
    requires q.Valid()
    modifies q`prodReg, q`hist, q.buf
    ensures q.Valid() && old(q.hist) <= q.hist
    ensures events == [] ==> q.hist == old(q.hist)
  {
    for i := 0 to |events|
      invariant q.Valid() && old(q.hist) <= q.hist
      invariant i == 0 ==> q.hist == old(q.hist)
    {
      var _ := q.DeviceWrite(events[i]);
    }
  }

  /** One turn of the loop: what the device adds, the phase test, the handler. */
  method NextEvent(q: PhaseQueue<Event>, table: map<int, Cq>, arriving: seq<Event>, ptr: nat, ghost at: nat)
    returns (more: bool, calls: seq<int>)
    requires q.Valid() && q.cons <= at <= |q.hist| && ptr == at % U32
    modifies q`prodReg, q`hist, q.buf
    ensures q.Valid() && old(q.hist) <= q.hist
    ensures arriving == [] ==> q.hist == old(q.hist)
    ensures more <==> at < |q.hist|
    ensures more ==> calls == Calls(table, q.hist[at])
  {
    DeviceAdds(q, arriving);
    var event := q.Peek(ptr, at);
    if event.None? {
      return false, [];
    }
    more := true;
    calls := HandleEvent(table, event.value);
  }

  /** Publishes the consumer pointer and re-arms the queue. */
  method Finish(q: PhaseQueue<Event>, ptr: nat, ghost at: nat)
    requires q.Valid() && q.cons <= at <= |q.hist| && ptr == at % U32
    modifies q`consPtr, q`consReg, q`cons, q`told
    ensures q.Valid() && q.cons == q.told == at
  {
    q.Publish(ptr, at);
    q.WriteConsPtr();
  }

  /** The turns of the loop of cndm_process_eq as far as `arrivals` goes, the device adding
      `arrivals[k]` before the k-th phase test, which it may do for ever: every turn but a last one
      handles the next event, and after however many turns exactly the events so far are handled. */
  method Turns(q: PhaseQueue<Event>, table: map<int, Cq>, arrivals: seq<seq<Event>>)
    returns (called: seq<int>, ptr: nat, more: bool, ghost at: nat)
    requires q.Valid()
    modifies q`prodReg, q`hist, q.buf
    ensures q.Valid() && old(q.hist) <= q.hist && ptr == at % U32
    ensures Handled(table, q.hist, q.cons, at, called)
    ensures if more then at == q.cons + |arrivals| else at == |q.hist| < q.cons + |arrivals|
  {
    called, ptr, more := [], q.consPtr, true;
    at := q.cons;
    assert q.hist[at..at] == [];
    var k := 0;
    while more && k < |arrivals|
      invariant q.Valid() && old(q.hist) <= q.hist && k <= |arrivals|
      invariant Handled(table, q.hist, q.cons, at, called) && ptr == at % U32
      invariant if more then at == q.cons + k else at == |q.hist| < q.cons + k
      decreases |arrivals| - k
    {
      called, ptr, more, at := Turn(q, table, arrivals[k], called, ptr, at);
      k := k + 1;
    }
  }

  /** One of them: the next event handled, if there is one, and the pointer moved on. */
  method Turn(q: PhaseQueue<Event>, table: map<int, Cq>, arriving: seq<Event>, called: seq<int>, ptr: nat, ghost at: nat)
    returns (called': seq<int>, ptr': nat, more: bool, ghost at': nat)
    requires q.Valid() && Handled(table, q.hist, q.cons, at, called) && ptr == at % U32
    modifies q`prodReg, q`hist, q.buf
    ensures q.Valid() && old(q.hist) <= q.hist && (arriving == [] ==> q.hist == old(q.hist))
    ensures Handled(table, q.hist, q.cons, at', called') && ptr' == at' % U32
    ensures at' == at + (if more then 1 else 0) && (more <==> at < |q.hist|)
  {
    ghost var seen := q.hist;
    var calls;
    more, calls := NextEvent(q, table, arriving, ptr, at);
    HandledMore(table, seen, q.hist, q.cons, at, called);
    called', ptr', at' := called, ptr, at;
    if more {
      RegisterStep(at, 1, U32);
      called', ptr', at' := called + calls, (ptr + 1) % U32, at + 1;
    }
  }

  /** cndm_process_eq, with the device free to add `arrivals[k]` before the k-th phase
      test. Each accepted event is handled exactly once and in order, and none is left
      when the loop ends. */
  method ProcessEq(q: PhaseQueue<Event>, table: map<int, Cq>, arrivals: seq<seq<Event>>)
    returns (called: seq<int>)
    requires q.Valid()
    modifies q, q.buf
    ensures q.Valid() && old(q.hist) <= q.hist
    ensures q.cons == q.told == |q.hist|
    ensures called == Dispatched(table, q.hist[old(q.cons)..])
  {
    called := [];
    var ptr := q.consPtr;
    ghost var from, at := q.cons, q.cons;
    assert q.hist[from..at] == [];
    var k := 0;
    var more := true;
    while more
      invariant q.Valid() && old(q.hist) <= q.hist && q.cons == from
      invariant Handled(table, q.hist, from, at, called) && ptr == at % U32
      invariant !more ==> at == |q.hist|
      decreases if k < |arrivals| then |arrivals| - k else 0, more, |q.hist| - at
    {
      called, ptr, more, at := Turn(q, table, if k < |arrivals| then arrivals[k] else [], called, ptr, at);
      k := k + 1;
    }
    assert q.hist[from..at] == q.hist[from..];
    Finish(q, ptr, at);
  }
}
