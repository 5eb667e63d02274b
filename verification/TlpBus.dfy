/** The segmented TLP bus of src/pcie/tb/pcie_if.py: frames are cut into bus transactions of
    several segments, may start in any of them, and are put together again from the length
    field of their headers. */
module TlpBus {
  import opened Arith
  import opened Base
  import opened Packed
  import opened TlpSegments

  // ---- the source ----

  class Source {
    const bus: Bus

    var queue: seq<Frame>
    var frame: Option<Frame>
    var offset: nat
    var first: bool

    constructor (b: Bus)
      requires b.Valid()
      ensures Valid() && fresh(this) && bus == b && frame == None && queue == []
    {
      bus, queue, frame, offset, first := b, [], None, 0, true;
    }

    ghost function Now(): Sending
      reads this
    {
      Sending(queue, frame, offset, first)
    }

    ghost predicate Valid()
      reads this
    {
      bus.Valid() && Now().Valid(bus)
    }

    method Enqueue(f: Frame)
      requires Valid() && Sendable(bus, f)
      modifies this`queue
      ensures Valid() && Now() == old(Now()).(queue := old(queue) + [f])
    {
      queue := queue + [f];
    }

    /** The next frame, when there is one. */
    method Fetch()
      requires Valid() && frame == None
      modifies this
      ensures Valid() && Now() == old(Now()).Fetched()
    {
      FetchKeeps(bus, Now());
      if queue != [] {
        frame, queue := Some(queue[0]), queue[1..];
        offset, first := 0, true;
      }
    }

    /** Words of the frame or-ed in from place n on. */
    method PutData(t: Transaction, n: nat, data: seq<nat>, parity: seq<nat>) returns (u: Transaction)
      requires |parity| == |data|
      ensures u == t.(data := PutWords(t.data, WORD, n, data), parity := PutWords(t.parity, NIBBLE, n, parity))
    {
      u := t;
      for k := 0 to |data|
        invariant u == t.(data := PutWords(t.data, WORD, n, data[..k]), parity := PutWords(t.parity, NIBBLE, n, parity[..k]))
      {
        assert data[..k + 1][..k] == data[..k] && parity[..k + 1][..k] == parity[..k];
        u := u.(data := Put(u.data, At(WORD, n + k), data[k]), parity := Put(u.parity, At(NIBBLE, n + k), parity[k]));
      }
      assert data[..|data|] == data && parity[..|parity|] == parity;
    }

    /** The header of a frame that begins. */
    method PutFirst(t: Transaction, n: nat, f: Frame) returns (u: Transaction)
      ensures u == WithHeader(t, n, first, f)
    {
      u := t;
      if first {
        u := u.(valid := Put(u.valid, n, 1), sop := Put(u.sop, n, 1),
                hdr := Put(u.hdr, At(HDR, n), f.hdr), prefix := Put(u.prefix, At(PREFIX, n), f.prefix),
                hdrPar := Put(u.hdrPar, At(HDR_PAR, n), f.hdrPar),
                prefixPar := Put(u.prefixPar, At(PREFIX_PAR, n), f.prefixPar));
      } else {
        NoHeader(t, n, f);
      }
    }

    /** What goes with every segment of a frame. */
    method PutSideband(t: Transaction, n: nat, f: Frame) returns (u: Transaction)
      ensures u == WithSideband(bus, t, n, f)
    {
      u := t.(bar := Put(t.bar, At(BAR, n), f.bar), func := Put(t.func, At(bus.func, n), f.func % Pow2(bus.func)));
      if f.vf.Some? {
        u := u.(vfActive := Put(u.vfActive, n, 1), vf := Put(u.vf, At(bus.vf, n), f.vf.value % Pow2(bus.vf)));
      } else {
        PutNothing(u.vfActive, n);
        PutNothing(u.vf, At(bus.vf, n));
      }
      u := u.(error := Put(u.error, At(ERROR, n), f.error), seqNum := Put(u.seqNum, At(bus.seqNum, n), f.seqNum));
    }

    /** The words of a frame from offset on, as many as a segment has. */
    method PutWordsOf(t: Transaction, n: nat, f: Frame) returns (u: Transaction)
      requires |f.parity| == |f.data| && offset <= |f.data|
      ensures u == WithWords(bus, t, n, f, offset)
    {
      u := t;
      var cnt := Min(bus.lanes, |f.data| - offset);
      if f.data != [] {
        u := u.(valid := Put(u.valid, n, 1), empty := Put(u.empty, At(bus.empty, n), bus.lanes - cnt));
        u := PutData(u, At(bus.lanes, n), f.data[offset..offset + cnt], f.parity[offset..offset + cnt]);
      } else {
        PutNothing(t.valid, n);
        PutNothing(t.empty, At(bus.empty, n));
        assert f.data[offset..offset + cnt] == [] && f.parity[offset..offset + cnt] == [];
      }
      FilledPut(t.data, WORD, At(bus.lanes, n), f.data, offset, bus.lanes);
      FilledPut(t.parity, NIBBLE, At(bus.lanes, n), f.parity, offset, bus.lanes);
    }

    /** The current frame or-ed into segment n of a transaction. */
    method PutFrame(t: Transaction, n: nat) returns (u: Transaction)
      requires Valid() && frame.Some?
      ensures u == WithSegment(bus, t, n, CutSegment(bus, frame.value, first, offset))
    {
      var f := frame.value;
      u := PutFirst(t, n, f);
      u := PutSideband(u, n, f);
      u := PutWordsOf(u, n, f);
      if offset + Min(bus.lanes, |f.data| - offset) >= |f.data| {
        u := u.(eop := Put(u.eop, n, 1));
      } else {
        PutNothing(u.eop, n);
      }
      Assembled(bus, t, n, f, first, offset);
    }

    /** One segment of the current frame, or-ed into segment n. */
    method Emit(t: Transaction, n: nat) returns (u: Transaction)
      requires Valid() && frame.Some?
      modifies this`frame, this`offset, this`first
      ensures u == WithSegment(bus, t, n, CutSegment(bus, old(frame).value, old(first), old(offset)))
      ensures Now() == old(Now()).Cut(bus)
    {
      u := PutFrame(t, n);
      Advance();
    }

    /** Past the words of a segment. */
    method Advance()
      requires Valid() && frame.Some?
      modifies this`frame, this`offset, this`first
      ensures Now() == old(Now()).Cut(bus)
    {
      first := false;
      offset := offset + Min(bus.lanes, |frame.value.data| - offset);
      if offset >= |frame.value.data| {
        frame := None;
      }
    }

    /** One transaction, starting in the middle of a frame or with a new one. */
    method MakeTransaction(ghost r: Rx) returns (t: Transaction, ghost sent: seq<Frame>)
      requires Valid() && frame.Some? && r.Rx? && r.frame == Now().Flight(bus) && r.count == Now().Left(bus)
      modifies this
      ensures Valid() && Now().Past(old(Now())) && old(Now()).Todo(bus) == sent + Now().Todo(bus)
      ensures TakeAll(r, Segments(bus, t)) == Rx(Now().Flight(bus), Now().Left(bus), r.done + sent)
    {
      ghost var was, ss: seq<Segment> := Now(), [];
      SentNothing(bus, r, was);
      t, sent := NoTransaction(), [];
      var seg := 0;
      while seg < bus.segs
        invariant 0 <= seg == |ss| <= bus.segs && Sent(bus, r, t, ss, was, Now(), sent)
        invariant if seg == 0 then Now() == was else Now().Past(was)
      {
        var ready := Ready(r, t, ss, was, sent);
        if !ready {
          break;
        }
        t, ss, sent := AddSegment(r, t, seg, ss, was, sent);
        seg := seg + 1;
      }
      SentWhole(bus, r, t, ss, was, Now(), sent);
    }

    /** A segment's turn: without a frame the next one is begun, if there is one. */
    method Ready(ghost r: Rx, ghost t: Transaction, ghost ss: seq<Segment>, ghost was: Sending, ghost sent: seq<Frame>)
      returns (ready: bool)
      requires Valid() && Sent(bus, r, t, ss, was, Now(), sent)
      modifies this
      ensures Sent(bus, r, t, ss, was, Now(), sent) && ready == frame.Some?
      ensures old(frame).Some? ==> Now() == old(Now())
      ensures old(Now()).Past(was) ==> Now().Past(was)
    {
      if frame == None && queue != [] {
        SentFetch(bus, r, t, ss, was, Now(), sent);
        Fetch();
      }
      ready := frame != None;
    }

    method AddSegment(ghost r: Rx, t: Transaction, n: nat, ghost ss: seq<Segment>, ghost was: Sending, ghost sent: seq<Frame>)
      returns (u: Transaction, ghost longer: seq<Segment>, ghost all: seq<Frame>)
      requires Valid() && frame.Some? && n == |ss| && Sent(bus, r, t, ss, was, Now(), sent)
      modifies this`frame, this`offset, this`first
      ensures |longer| == n + 1 && Sent(bus, r, u, longer, was, Now(), all) && Now().Past(old(Now()))
    {
      ghost var more := SentMore(bus, r, t, ss, was, Now(), sent);
      longer, all := ss + [CutSegment(bus, frame.value, first, offset)], sent + more;
      u := Emit(t, n);
    }
  }

  // ---- the sink ----

  class Sink {
    const bus: Bus

    var frame: Option<Frame>
    var dwordCount: nat
    var queue: seq<Frame>
    var failed: Option<FramingError>

    constructor (b: Bus)
      ensures fresh(this) && bus == b && State() == Rx(None, 0, [])
    {
      bus, frame, dwordCount, queue, failed := b, None, 0, [], None;
    }

    ghost function State(): Rx
      reads this
    {
      if failed.Some? then Failed(failed.value) else Rx(frame, dwordCount, queue)
    }

    /** The words of a segment that the header still announces. */
    method Fill(s: Segment)
      requires |s.data| == bus.lanes && |s.parity| == bus.lanes && frame.Some?
      modifies this`frame, this`dwordCount
      ensures var f, n := old(frame).value, Min(old(dwordCount), bus.lanes);
              && dwordCount == old(dwordCount) - n
              && frame == Some(f.(data := f.data + s.data[..n], parity := f.parity + s.parity[..n]))
    {
      var f, n := frame.value, dwordCount;
      var data, parity := f.data, f.parity;
      for k := 0 to bus.lanes
        invariant dwordCount == n - Min(n, k) && frame == old(frame)
        invariant data == f.data + s.data[..Min(n, k)] && parity == f.parity + s.parity[..Min(n, k)]
      {
        if dwordCount > 0 {
          assert s.data[..k + 1] == s.data[..k] + [s.data[k]] && s.parity[..k + 1] == s.parity[..k] + [s.parity[k]];
          data, parity := data + [s.data[k]], parity + [s.parity[k]];
          dwordCount := dwordCount - 1;
        }
      }
      frame := Some(f.(data := data, parity := parity));
    }

    method TakeSegment(s: Segment)
      requires |s.data| == bus.lanes && |s.parity| == bus.lanes
      modifies this
      ensures State() == Take(old(State()), s)
    {
      if failed.Some? || !s.valid {
        return;
      }
      if s.sop {
        if frame != None {
          failed := Some(SopInFrame);
          return;
        }
        frame := Some(Frame(s.prefix, s.hdr, [], s.prefixPar, s.hdrPar, [], s.func, s.vf, s.bar, s.error, s.seqNum));
        dwordCount := DwordCount(s.hdr);
      }
      if frame == None {
        failed := Some(OutsideFrame);
        return;
      }
      Fill(s);
      if s.eop {
        if dwordCount != 0 {
          failed := Some(WrongLength);
          return;
        }
        queue := queue + [frame.value];
        frame := None;
      }
    }

    method TakeTransaction(t: Transaction)
      modifies this
      ensures State() == TakeAll(old(State()), Segments(bus, t))
    {
      ghost var ss, before := Segments(bus, t), State();
      for seg := 0 to bus.segs
        invariant State() == TakeAll(before, ss[..seg])
      {
        ghost var so := ss[..seg];
        TakeMore(before, so, ss[seg]);
        assert ss[..seg + 1] == so + [ss[seg]];
        TakeSegment(SegmentAt(bus, t, seg));
      }
      assert ss[..bus.segs] == ss;
    }
  }

  // ---- the bus between them ----

  class Link {
    const bus: Bus
    const source: Source
    const sink: Sink

    /** drive_obj, what is on the bus while valid, and the sink's ready. */
    var drive: Option<Transaction>
    var onBus: Option<Transaction>
    var ready: bool

    /** Every frame queued, as it will arrive. */
    ghost var queued: seq<Frame>

    constructor (b: Bus)
      requires b.Valid()
      ensures Valid() && fresh(this) && fresh(Repr()) && bus == b && queued == [] && Delivered() == []
    {
      bus := b;
      source := new Source(b);
      sink := new Sink(b);
      drive, onBus, ready := None, None, false;
      queued := [];
    }

    ghost function Repr(): set<object>
    {
      {this, source, sink}
    }

    function Flat(x: Option<Transaction>): seq<Segment> {
      if x.Some? then Segments(bus, x.value) else []
    }

    ghost function Delivered(): seq<Frame>
      reads sink
    {
      sink.queue
    }

    ghost predicate Valid()
      reads Repr()
    {
      && bus.Valid() && source.bus == bus && sink.bus == bus
      && Coupled(bus, sink.State(), Flat(onBus), Flat(drive), source.Now(), queued)
    }

    method Send(f: Frame)
      requires Valid() && Sendable(bus, f)
      modifies source, this`queued
      ensures Valid() && queued == old(queued) + [Masked(bus, f)]
    {
      CoupledSend(bus, sink.State(), Flat(onBus), Flat(drive), source.Now(), queued, f);
      source.Enqueue(f);
      queued := queued + [Masked(bus, f)];
    }

    method SendEach(frames: seq<Frame>)
      requires Valid() && AllSendable(bus, frames)
      modifies source, this`queued
      ensures Valid() && (old(queued) == [] ==> queued == AllMasked(bus, frames))
    {
      ghost var before := queued;
      for i := 0 to |frames|
        invariant Valid() && queued == before + AllMasked(bus, frames[..i])
      {
        Send(frames[i]);
        MaskedUpTo(bus, before, frames, i);
      }
      assert frames[..|frames|] == frames;
      Alone(AllMasked(bus, frames));
    }

    /** _run of the source: the next transaction, when the last one has been driven. */
    method Prepare()
      requires Valid()
      modifies this`drive, source
      ensures Valid() && (old(drive) != None ==> drive == old(drive) && source.Now() == old(source.Now()))
      ensures old(drive) == None && old(source.frame == None && source.queue == []) ==>
        drive == None && source.Now() == old(source.Now())
      ensures old(drive) == None && old(source.frame != None || source.queue != []) ==>
        drive != None && source.Now().Past(old(source.Now()))
    {
      if drive == None {
        if source.frame == None {
          FetchKeeps(bus, source.Now());
          source.Fetch();
        }
        if source.frame != None {
          Build();
        }
      }
    }

    method Build()
      requires Valid() && drive == None && source.frame != None
      modifies this`drive, source
      ensures Valid() && drive != None && source.Now().Past(old(source.Now()))
    {
      ghost var r, x, was := sink.State(), Flat(onBus), source.Now();
      CoupledArrives(bus, TakeAll(r, x), [], [], was, queued);
      var t;
      ghost var sent;
      t, sent := source.MakeTransaction(TakeAll(r, x));
      CoupledMake(bus, r, x, Segments(bus, t), was, source.Now(), queued, sent);
      drive := Some(t);
    }

    /** One clock edge: an accepted transaction reaches the sink, and the next one the bus. */
    method Edge(pauseSource: bool, room: bool)
      requires Valid()
      modifies this`drive, this`onBus, this`ready, sink
      ensures Valid() && ready == room
      ensures old(ready) || old(onBus) == None ==>
        if pauseSource then drive == old(drive) && onBus == None else drive == None && onBus == old(drive)
      ensures !old(ready) && old(onBus) != None ==> drive == old(drive) && onBus == old(onBus)
      ensures Delivered() <= queued && sink.failed == None
    {
      var readySample, validSample := ready, onBus != None;
      if readySample && validSample {
        sink.TakeTransaction(onBus.value);
        onBus := None;
      }
      if readySample || !validSample {
        if drive != None && !pauseSource {
          onBus, drive := drive, None;
        }
      }
      ready := room;
      CoupledArrives(bus, sink.State(), Flat(onBus), Flat(drive), source.Now(), queued);
    }

    /** How far what has left the source still has to go. */
    ghost function Stage(): nat
      reads this
    {
      (if drive != None then 4 else 0) + (if onBus != None then 2 else 0) + (if ready then 0 else 1)
    }

    /** With no pauses and room at the sink every frame queued arrives, and nothing has failed. */
    method Drain()
      requires Valid()
      modifies Repr()
      ensures Valid() && queued == old(queued) && Delivered() == queued && sink.failed == None
    {
      while drive != None || onBus != None || source.frame != None || source.queue != []
        invariant Valid() && queued == old(queued)
        decreases |source.queue|, source.Now().Going(), Stage()
      {
        Prepare();
        Edge(false, true);
      }
      CoupledArrives(bus, sink.State(), [], [], source.Now(), queued);
    }
  }

  /** Frames queued on a fresh bus come out as they went in, but for function numbers, which are
      cut to their fields. */
  method Deliver(b: Bus, frames: seq<Frame>) returns (received: seq<Frame>)
    requires b.Valid() && forall i :: 0 <= i < |frames| ==> Sendable(b, frames[i])
    ensures received == AllMasked(b, frames)
  {
    var link := new Link(b);
    link.SendEach(frames);
    link.Drain();
    received := link.sink.queue;
  }
}
