/** The BASE-R source and sink of src/eth/tb/baser.py on one serial link, a clock edge at a
    time: columns are encoded, scrambled and sent as beats of 8 to 64 bits, optionally bit
    reversed, with stall cycles anywhere; the sink undoes all of it. */
module PcsLink {
  import opened Base
  import opened PcsCodec
  import opened PcsMac
  import S = Scrambler

  /** What the sink sees at one edge. */
  datatype Beat = Stall | Beat(data: seq<bool>, hdr: seq<bool>, hdrValid: bool)

  datatype Config = Config(width: nat, scramble: bool, reverse: bool) {
    predicate Valid() {
      width == 8 || width == 16 || width == 32 || width == 64
    }

    function Count(): nat
      requires Valid()
    {
      64 / width
    }
  }

  // ---- beats ----

  function Reversed(bits: seq<bool>): seq<bool> {
    seq(|bits|, i requires 0 <= i < |bits| => bits[|bits| - 1 - i])
  }

  function Turned(bits: seq<bool>, reverse: bool): seq<bool> {
    if reverse then Reversed(bits) else bits
  }

  lemma TurnedTwice(bits: seq<bool>, reverse: bool)
    ensures Turned(Turned(bits, reverse), reverse) == bits
  {
  }

  function HdrBits(h: bv2): seq<bool> {
    [h & 1 != 0, h & 2 != 0]
  }

  function HdrOf(bits: seq<bool>): bv2
    requires |bits| == 2
  {
    (if bits[0] then 1 else 0) | (if bits[1] then 2 else 0)
  }

  lemma HdrTurned(h: bv2, reverse: bool)
    ensures |Turned(HdrBits(h), reverse)| == 2
    ensures HdrOf(Turned(Turned(HdrBits(h), reverse), reverse)) == h
  {
    TurnedTwice(HdrBits(h), reverse);
  }

  /** Bits as a word, moved up to bit at. */
  function Placed(bits: seq<bool>, at: nat): Word {
    seq(64, p requires 0 <= p < 64 => at <= p < at + |bits| && bits[p - at])
  }

  /** The first n bits of w. */
  function Prefix(w: Word, n: nat): Word {
    seq(64, p requires 0 <= p < 64 => p < n && w[p])
  }

  lemma PlaceNext(w: Word, n: nat, k: nat)
    requires n + k <= 64
    ensures Or(Prefix(w, n), Placed(w[n..n + k], n)) == Prefix(w, n + k)
  {
  }

  lemma PlaceFirst(w: Word, k: nat)
    requires k <= 64
    ensures Placed(w[..k], 0) == Prefix(w, k)
    ensures Prefix(w, 64) == w
  {
  }

  /** n beats sent leave room for another until all Count are. */
  lemma Room(c: Config, n: nat)
    requires c.Valid()
    ensures c.width * c.Count() == 64 && c.width * (n + 1) == c.width * n + c.width
    ensures n < c.Count() ==> c.width * n + c.width <= 64
  {
    if c.width == 8 {
    } else if c.width == 16 {
    } else if c.width == 32 {
    } else {
    }
  }

  // ---- blocks on the line ----

  /** line is the payload w as it goes out from scrambler register s. */
  ghost predicate Sent(c: Config, s: S.State, w: Word, line: Word) {
    if c.scramble then S.Scrambles(s, w, line) else line == w
  }

  /** The register after a block; it rests when scrambling is off. */
  function Register(c: Config, s: S.State, line: Word): S.State {
    if c.scramble then S.After(s, line) else s
  }

  class SerdesSource {
    const c: Config
    const mac: Source

    var scrambler: S.State
    var data: Word
    var hdr: bv2
    var packSeq: nat

    constructor (config: Config, dic: bool, ifg: int, force: bool)
      requires config.Valid() && 0 <= ifg
      ensures Valid() && fresh(this) && fresh(mac) && c == config && packSeq == 0
      ensures mac.Todo() == [] && mac.Flight() == None && scrambler == seq(58, i => false)
    {
      c := config;
      mac := new Source(dic, ifg, force);
      scrambler := seq(58, i => false);
      data := seq(64, i => false);
      hdr, packSeq := 0, 0;
    }

    ghost predicate Valid()
      reads this, mac
    {
      c.Valid() && packSeq < c.Count() && mac.Valid() && !mac.sof && !mac.inTerm && mac.Ledger(0)
    }

    /** A new column as a block. */
    method NextBlock(ghost r: Rx) returns (ghost l: Lanes, ghost w: Word, ghost sent: seq<Frame>)
      requires Valid() && packSeq == 0 && r.frame == mac.Flight()
      modifies this, mac
      ensures Valid() && old(mac.Todo()) == sent + mac.Todo()
      ensures TakeAll(r, l) == Rx(mac.Flight(), r.done + sent)
      ensures Decode(Block(hdr, w)) == l && Block(hdr, w) == Encode(l) && Sent(c, old(scrambler), w, data)
      ensures scrambler == Register(c, old(scrambler), data)
      ensures if c.scramble then S.Scrambles(old(scrambler), w, data) && scrambler == S.After(old(scrambler), data)
              else data == w && scrambler == old(scrambler)
      ensures packSeq == c.Count() - 1 && Moved(old(mac.Ahead()), mac.Ahead(), 8, mac.Deciding())
    {
      var lanes;
      ghost var s;
      lanes, s, sent := mac.Column(r);
      ShapedRoundTrip(lanes, s);
      var b := EncodeColumn(lanes);
      l, w := lanes, b.data;
      hdr, data := b.hdr, b.data;
      if c.scramble {
        data, scrambler := S.ScrambleBlock(scrambler, data);
      }
      packSeq := c.Count() - 1;
    }

    /** One clock edge that is not a stall; r is what the sink makes of everything sent before. */
    method Edge(ghost r: Rx) returns (b: Beat, ghost l: Lanes, ghost w: Word, ghost sent: seq<Frame>)
      requires Valid() && (packSeq == 0 ==> r.frame == mac.Flight())
      modifies this, mac
      ensures Valid()
      ensures old(packSeq) > 0 ==>
        && unchanged(mac) && unchanged(`data) && unchanged(`hdr) && unchanged(`scrambler)
        && packSeq == old(packSeq) - 1 && b == BeatOf(c, data, hdr, c.Count() - old(packSeq))
      ensures old(packSeq) == 0 ==>
        && packSeq == c.Count() - 1 && b == BeatOf(c, data, hdr, 0)
        && old(mac.Todo()) == sent + mac.Todo() && TakeAll(r, l) == Rx(mac.Flight(), r.done + sent)
        && Decode(Block(hdr, w)) == l && Sent(c, old(scrambler), w, data)
        && scrambler == Register(c, old(scrambler), data) && Moved(old(mac.Ahead()), mac.Ahead(), 8, mac.Deciding())
      ensures old(packSeq) == 0 ==> Block(hdr, w) == Encode(l)
      ensures old(packSeq) == 0 ==>
        if c.scramble then S.Scrambles(old(scrambler), w, data) && scrambler == S.After(old(scrambler), data)
        else data == w && scrambler == old(scrambler)
      ensures b.Beat? && |b.data| == c.width && b.hdrValid == (old(packSeq) == 0)
      ensures var at := c.width * (c.Count() - 1 - packSeq);
              0 <= at <= 64 - c.width && forall i :: 0 <= i < c.width ==>
                b.data[i] == data[if c.reverse then at + c.width - 1 - i else at + i]
      ensures b.hdr == if old(packSeq) > 0 then [false, false]
                       else if c.reverse then [hdr & 2 != 0, hdr & 1 != 0] else [hdr & 1 != 0, hdr & 2 != 0]
    {
      l, w, sent := Advance(r);
      b := Put(c.Count() - 1 - packSeq);
    }

    /** On to the next beat, with a new block if the last is done. */
    method Advance(ghost r: Rx) returns (ghost l: Lanes, ghost w: Word, ghost sent: seq<Frame>)
      requires Valid() && (packSeq == 0 ==> r.frame == mac.Flight())
      modifies this, mac
      ensures Valid()
      ensures old(packSeq) > 0 ==>
        && unchanged(mac) && unchanged(`data) && unchanged(`hdr) && unchanged(`scrambler) && packSeq == old(packSeq) - 1
      ensures old(packSeq) == 0 ==>
        && packSeq == c.Count() - 1 && old(mac.Todo()) == sent + mac.Todo() && TakeAll(r, l) == Rx(mac.Flight(), r.done + sent)
        && Decode(Block(hdr, w)) == l && Block(hdr, w) == Encode(l) && Sent(c, old(scrambler), w, data)
        && scrambler == Register(c, old(scrambler), data) && Moved(old(mac.Ahead()), mac.Ahead(), 8, mac.Deciding())
      ensures old(packSeq) == 0 ==>
        if c.scramble then S.Scrambles(old(scrambler), w, data) && scrambler == S.After(old(scrambler), data)
        else data == w && scrambler == old(scrambler)
    {
      if packSeq > 0 {
        l, w, sent := Decode(Block(hdr, data)), data, [];
        packSeq := packSeq - 1;
      } else {
        l, w, sent := NextBlock(r);
      }
    }

    /** Beat n of the block at hand, as it goes out. */
    method Put(n: nat) returns (b: Beat)
      requires Valid() && n < c.Count()
      ensures b == BeatOf(c, data, hdr, n) && |b.data| == c.width && b.hdrValid == (n == 0)
      ensures var at := c.width * n;
              0 <= at <= 64 - c.width && forall i :: 0 <= i < c.width ==>
                b.data[i] == data[if c.reverse then at + c.width - 1 - i else at + i]
      ensures b.hdr == if n > 0 then [false, false]
                       else if c.reverse then [hdr & 2 != 0, hdr & 1 != 0] else [hdr & 1 != 0, hdr & 2 != 0]
    {
      Room(c, n);
      BeatBits(c, data, hdr, n);
      var out := data[c.width * n..c.width * n + c.width];
      b := Beat(Turned(out, c.reverse), if n == 0 then Turned(HdrBits(hdr), c.reverse) else [false, false], n == 0);
    }
  }

  /** Beat n of a block. */
  ghost function BeatOf(c: Config, data: Word, hdr: bv2, n: nat): Beat
    requires c.Valid() && n < c.Count()
  {
    Room(c, n);
    Beat(Turned(data[c.width * n..c.width * n + c.width], c.reverse),
      if n == 0 then Turned(HdrBits(hdr), c.reverse) else [false, false], n == 0)
  }

  /** Bit by bit. */
  lemma BeatBits(c: Config, data: Word, hdr: bv2, n: nat)
    requires c.Valid() && n < c.Count()
    ensures var b, at := BeatOf(c, data, hdr, n), c.width * n;
            && 0 <= at <= 64 - c.width && |b.data| == c.width
            && forall i :: 0 <= i < c.width ==> b.data[i] == data[if c.reverse then at + c.width - 1 - i else at + i]
    ensures var b := BeatOf(c, data, hdr, n);
            && b.hdrValid == (n == 0)
            && b.hdr == if n > 0 then [false, false]
                        else if c.reverse then [hdr & 2 != 0, hdr & 1 != 0] else [hdr & 1 != 0, hdr & 2 != 0]
  {
    Room(c, n);
  }

  class SerdesSink {
    const c: Config
    const mac: Sink

    var scrambler: S.State
    var data: Word
    var hdr: bv2
    var packSeq: nat

    constructor (config: Config)
      requires config.Valid()
      ensures Valid() && fresh(this) && fresh(mac) && c == config && packSeq == 0
      ensures mac.State() == Rx(None, []) && scrambler == seq(58, i => false)
    {
      c := config;
      mac := new Sink();
      scrambler := seq(58, i => false);
      data := seq(64, i => false);
      hdr, packSeq := 0, 0;
    }

    ghost predicate Valid()
      reads this
    {
      c.Valid() && packSeq < c.Count()
    }

    /** A complete block: descramble, decode, take the lanes. */
    method FinishBlock(ghost w: Word)
      requires Valid() && Sent(c, scrambler, w, data)
      modifies mac, this`scrambler, this`data
      ensures Valid() && scrambler == Register(c, old(scrambler), old(data)) && data == w
      ensures mac.State() == TakeAll(old(mac.State()), Decode(Block(hdr, data)))
    {
      Recover(w);
      mac.TakeColumn(Decode(Block(hdr, data)));
    }

    /** The payload of the block collected: descrambled if and only if that is asked for. */
    method Recover(ghost w: Word)
      requires Sent(c, scrambler, w, data)
      modifies this`scrambler, this`data
      ensures scrambler == Register(c, old(scrambler), old(data)) && data == w
      ensures if c.scramble then S.Descrambles(old(scrambler), old(data), data) && scrambler == S.After(old(scrambler), old(data))
              else data == old(data) && scrambler == old(scrambler)
    {
      if c.scramble {
        ghost var s, line := scrambler, data;
        data, scrambler := S.DescrambleBlock(scrambler, data);
        S.InSync(s, w, line, data);
      }
    }

    /** The first bits of a block and its header, turned round if that is asked for. */
    method Collect(b: Beat)
      requires Valid() && b.Beat? && |b.data| == c.width && |b.hdr| == 2
      modifies this`data, this`hdr
      ensures data == Placed(Turned(b.data, c.reverse), 0) && hdr == HdrOf(Turned(b.hdr, c.reverse))
      ensures forall p :: 0 <= p < 64 ==>
        data[p] == (p < c.width && b.data[if c.reverse then c.width - 1 - p else p])
      ensures hdr & 1 != 0 <==> b.hdr[if c.reverse then 1 else 0]
      ensures hdr & 2 != 0 <==> b.hdr[if c.reverse then 0 else 1]
    {
      var dataIn := Turned(b.data, c.reverse);
      var hdrIn := HdrOf(Turned(b.hdr, c.reverse));
      data, hdr := Placed(dataIn, 0), hdrIn;
    }

    /** The next bits, from bit `at` on. */
    method CollectMore(b: Beat, at: nat)
      requires Valid() && b.Beat? && |b.data| == c.width && at + c.width <= 64
      modifies this`data
      ensures data == Or(old(data), Placed(Turned(b.data, c.reverse), at))
      ensures forall p :: 0 <= p < 64 ==>
        data[p] == (old(data[p]) || (at <= p < at + c.width && b.data[if c.reverse then at + c.width - 1 - p else p - at]))
    {
      data := Or(data, Placed(Turned(b.data, c.reverse), at));
    }

    /** The beat that opens a block. */
    method First(b: Beat, ghost from: Word, ghost h: bv2, ghost w: Word)
      requires Valid() && b == BeatOf(c, from, h, 0) && Sent(c, scrambler, w, from)
      modifies this, mac
      ensures Valid()
      ensures c.Count() > 1 ==>
        && unchanged(mac) && unchanged(`scrambler)
        && packSeq == 1 && hdr == h && data == Prefix(from, c.width)
      ensures c.Count() == 1 ==>
        && packSeq == old(packSeq) && scrambler == Register(c, old(scrambler), from)
        && mac.State() == TakeAll(old(mac.State()), Decode(Block(h, w)))
    {
      Room(c, 0);
      PlaceFirst(from, c.width);
      TurnedTwice(from[..c.width], c.reverse);
      HdrTurned(h, c.reverse);
      Collect(b);
      if c.Count() > 1 {
        packSeq := 1;
      } else {
        FinishBlock(w);
      }
    }

    /** A beat that goes on with a block. */
    method Next(b: Beat, ghost from: Word, ghost w: Word)
      requires Valid() && packSeq > 0 && b == BeatOf(c, from, hdr, packSeq)
      requires data == Prefix(from, c.width * packSeq) && Sent(c, scrambler, w, from)
      modifies this, mac
      ensures Valid() && hdr == old(hdr)
      ensures old(packSeq) + 1 < c.Count() ==>
        && unchanged(mac) && unchanged(`scrambler)
        && packSeq == old(packSeq) + 1 && data == Prefix(from, c.width * packSeq)
      ensures old(packSeq) + 1 == c.Count() ==>
        && packSeq == 0 && scrambler == Register(c, old(scrambler), from)
        && mac.State() == TakeAll(old(mac.State()), Decode(Block(hdr, w)))
    {
      var at := c.width * packSeq;
      Room(c, packSeq);
      TurnedTwice(from[at..at + c.width], c.reverse);
      PlaceNext(from, at, c.width);
      PlaceFirst(from, 64);
      CollectMore(b, at);
      packSeq := packSeq + 1;
      if packSeq == c.Count() {
        packSeq := 0;
        FinishBlock(w);
      }
    }

    /** One clock edge. The sink is told which beat opens a block, or needs no telling. */
    method Edge(b: Beat, ghost from: Word, ghost h: bv2, ghost w: Word)
      requires Valid() && !b.Stall? && Sent(c, scrambler, w, from)
      requires packSeq == 0 ==> b == BeatOf(c, from, h, 0)
      requires packSeq > 0 ==>
        h == hdr && b == BeatOf(c, from, h, packSeq) && data == Prefix(from, c.width * packSeq)
      modifies this, mac
      ensures Valid()
      ensures old(packSeq) + 1 < c.Count() ==>
        && unchanged(mac) && unchanged(`scrambler)
        && packSeq == old(packSeq) + 1 && hdr == h && data == Prefix(from, c.width * packSeq)
      ensures old(packSeq) + 1 == c.Count() ==>
        && packSeq == 0 && scrambler == Register(c, old(scrambler), from)
        && mac.State() == TakeAll(old(mac.State()), Decode(Block(h, w)))
    {
      if c.Count() == 1 || b.hdrValid {
        First(b, from, h, w);
      } else {
        Next(b, from, w);
      }
    }
  }

  class Link {
    const source: SerdesSource
    const sink: SerdesSink

    /** What the source has put on the line, for the sink to sample at the next edge. */
    var line: Beat

    /** Every frame queued since the start. */
    ghost var queued: seq<Frame>
    /** The block on the line: its lanes, its payload and the frames that end in it. */
    ghost var lanes: Lanes
    ghost var payload: Word
    ghost var ending: seq<Frame>

    constructor (c: Config, dic: bool, ifg: int, force: bool)
      requires c.Valid() && 0 <= ifg
      ensures Valid() && fresh(this) && fresh(Repr()) && queued == [] && Delivered() == []
    {
      source := new SerdesSource(c, dic, ifg, force);
      sink := new SerdesSink(c);
      line := Stall;
      queued, ending := [], [];
      lanes, payload := seq(8, i => Lane(IDLE, true)), Zero();
    }

    ghost function Repr(): set<object>
    {
      {this, source, source.mac, sink, sink.mac}
    }

    ghost predicate Ends()
      reads Repr()
    {
      source.Valid() && sink.Valid() && source.c == sink.c
    }

    ghost predicate Valid()
      reads Repr()
    {
      Ends() && if line.Stall? then Coupled() else Flying()
    }

    ghost function Delivered(): seq<Frame>
      reads sink.mac
    {
      sink.mac.queue
    }

    /** The sink is in the middle of the block that the source sends, and has had its first beats. */
    ghost predicate Within()
      requires Ends()
      reads Repr()
    {
      var c := source.c;
      && (sink.packSeq > 0 ==> sink.hdr == source.hdr && sink.data == Prefix(source.data, c.width * sink.packSeq))
      && Decode(Block(source.hdr, payload)) == lanes
      && Sent(c, sink.scrambler, payload, source.data)
      && source.scrambler == Register(c, sink.scrambler, source.data)
      && TakeAll(sink.mac.State(), lanes) == Rx(source.mac.Flight(), Delivered() + ending)
      && queued == Delivered() + ending + source.mac.Todo()
    }

    /** The sink has exactly the part of the current frame that the source has sent, and the
        registers agree. */
    ghost predicate Level()
      requires Ends()
      reads Repr()
    {
      && sink.mac.State() == Rx(source.mac.Flight(), Delivered())
      && sink.scrambler == source.scrambler
      && queued == Delivered() + source.mac.Todo()
    }

    /** With nothing on the line the sink has had all the beats sent. */
    ghost predicate Coupled()
      requires Ends()
      reads Repr()
    {
      if source.packSeq == 0 then sink.packSeq == 0 && Level()
      else source.packSeq + sink.packSeq == source.c.Count() && Within()
    }

    /** A beat on the line is the one the sink has to have next. */
    ghost predicate Flying()
      requires Ends()
      reads Repr()
    {
      && source.packSeq + sink.packSeq + 1 == source.c.Count() && Within()
      && line == BeatOf(source.c, source.data, source.hdr, sink.packSeq)
    }

    method Send(f: Frame)
      requires Valid() && Sendable(f)
      modifies this`queued, source.mac
      ensures Valid() && queued == old(queued) + [f]
    {
      ghost var todo, before := source.mac.Todo(), if line.Stall? && source.packSeq == 0 then Delivered() else Delivered() + ending;
      source.mac.Send(f);
      Regrouped(before, todo, [f]);
      queued := queued + [f];
    }

    method SendEach(frames: seq<Frame>)
      requires Valid() && forall i :: 0 <= i < |frames| ==> Sendable(frames[i])
      modifies this`queued, source.mac
      ensures Valid() && (old(queued) == [] ==> queued == frames)
    {
      ghost var before := queued;
      Alone(before);
      for i := 0 to |frames|
        invariant Valid() && queued == before + frames[..i]
      {
        Send(frames[i]);
        assert frames[..i + 1] == frames[..i] + [frames[i]];
        Regrouped(before, frames[..i], [frames[i]]);
      }
      assert frames[..|frames|] == frames;
      Alone(frames);
    }

    /** One clock edge: the sink samples what was put on the line an edge ago, and the source puts
        out the next beat, or nothing in a stall cycle. */
    method Edge(stall: bool)
      requires Valid()
      modifies Repr()
      ensures Valid() && queued == old(queued) && Delivered() <= queued
      ensures stall ==> line == Stall && source.mac.Ahead() == old(source.mac.Ahead()) && source.packSeq == old(source.packSeq)
      ensures !stall ==> line != Stall
      ensures !stall && old(source.packSeq) > 0 ==>
        source.packSeq == old(source.packSeq) - 1 && source.mac.Ahead() == old(source.mac.Ahead())
      ensures !stall && old(source.packSeq) == 0 ==>
        Moved(old(source.mac.Ahead()), source.mac.Ahead(), 8, source.mac.Deciding())
    {
      Sample();
      if !stall {
        if source.packSeq == 0 {
          Open();
        } else {
          Continue();
        }
      }
      InOrder();
    }

    /** The sink's part of an edge. */
    method Sample()
      requires Valid()
      modifies this`line, sink, sink.mac
      ensures Valid() && line == Stall
    {
      if !line.Stall? {
        ghost var last := source.packSeq == 0;
        ghost var done := Delivered();
        sink.Edge(line, source.data, source.hdr, payload);
        line := Stall;
        if last {
          assert sink.mac.State() == Rx(source.mac.Flight(), done + ending);
        }
      }
    }

    /** A beat that opens a block. */
    method Open()
      requires Valid() && line == Stall && source.packSeq == 0
      modifies this`line, this`lanes, this`payload, this`ending, source, source.mac
      ensures Valid() && line != Stall
      ensures Moved(old(source.mac.Ahead()), source.mac.Ahead(), 8, source.mac.Deciding())
    {
      ghost var todo, done := source.mac.Todo(), Delivered();
      line, lanes, payload, ending := source.Edge(sink.mac.State());
      Regrouped(done, ending, source.mac.Todo());
    }

    /** A beat that goes on with the block. */
    method Continue()
      requires Valid() && line == Stall && source.packSeq > 0
      modifies this`line, source, source.mac
      ensures Valid() && line != Stall && source.packSeq == old(source.packSeq) - 1
      ensures source.mac.Ahead() == old(source.mac.Ahead())
    {
      ghost var l, w, e;
      assert Within();
      line, l, w, e := source.Edge(sink.mac.State());
      assert Within() && Flying();
    }

    /** What has arrived is a beginning of what was queued. */
    lemma InOrder()
      requires Valid()
      ensures Delivered() <= queued
    {
    }

    /** Any schedule of stall cycles: whatever has arrived is what was queued, in order and unchanged. */
    method Run(stalls: seq<bool>)
      requires Valid()
      modifies Repr()
      ensures Valid() && queued == old(queued) && Delivered() <= queued
    {
      for i := 0 to |stalls|
        invariant Valid() && queued == old(queued)
      {
        Edge(stalls[i]);
      }
      InOrder();
    }

    /** Left to itself the link delivers every queued frame, and stops with nothing on the line. */
    method Drain()
      requires Valid()
      modifies Repr()
      ensures Valid() && queued == old(queued) && line == Stall
      ensures Delivered() == queued && sink.mac.frame == None
    {
      while source.packSeq > 0 || source.mac.frame.Some? || source.mac.queue != []
        invariant Valid() && queued == old(queued)
        decreases source.mac.Ahead().queued, source.mac.Ahead().left, source.mac.Ahead().debt, source.packSeq
      {
        Edge(false);
      }
      Edge(true);
      assert source.mac.Todo() == [];
    }
  }

  /** Frames queued on a fresh link come out as they went in, whichever lanes they start in. */
  method Deliver(c: Config, dic: bool, ifg: int, force: bool, frames: seq<Frame>) returns (received: seq<Frame>)
    requires c.Valid() && 0 <= ifg
    requires forall i :: 0 <= i < |frames| ==> Sendable(frames[i])
    ensures received == frames
  {
    var link := new Link(c, dic, ifg, force);
    link.SendEach(frames);
    link.Drain();
    received := link.sink.mac.queue;
  }
}
