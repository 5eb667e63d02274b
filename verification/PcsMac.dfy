/** The lane side of the BASE-R models in src/eth/tb/baser.py: the source that fills columns
    of eight XGMII lanes with frames and inter-frame gaps, and the sink that takes them apart. */
module PcsMac {
  import opened Arith
  import opened Base
  import opened PcsCodec

  const PRE: bv8 := 0x55

  type Frame = seq<Lane>

  /** What the source sends: a preamble octet first, no error octets, at least the eight
      octets of a full preamble. */
  predicate Sendable(f: Frame) {
    && |f| >= 8
    && f[0] == Lane(PRE, false)
    && forall i :: 0 <= i < |f| ==> !f[i].c
  }

  // ---- the sink, as a function of the lanes ----

  /** The sink between two lanes: the frame being received and the frames received. */
  datatype Rx = Rx(frame: Option<Frame>, done: seq<Frame>)

  function Take(r: Rx, l: Lane): Rx {
    match r.frame
    case None =>
      if l == Lane(START, true) then r.(frame := Some([Lane(PRE, false)])) else r
    case Some(f) =>
      if !l.c then r.(frame := Some(f + [l]))
      else Rx(None, r.done + [if l.d == TERM then f else f + [l]])
  }

  function TakeAll(r: Rx, l: seq<Lane>): Rx {
    if l == [] then r else Take(TakeAll(r, l[..|l| - 1]), l[|l| - 1])
  }

  lemma TakeMore(r: Rx, l: seq<Lane>, x: Lane)
    ensures TakeAll(r, l + [x]) == Take(TakeAll(r, l), x)
  {
    assert (l + [x])[..|l|] == l;
  }

  // ---- columns the source can fill ----

  predicate Idle(l: seq<Lane>, from: int, to: int)
    requires 0 <= from <= to <= |l|
  {
    forall i :: from <= i < to ==> l[i] == Lane(IDLE, true)
  }

  predicate Data(l: seq<Lane>, from: int, to: int)
    requires 0 <= from <= to <= |l|
  {
    forall i :: from <= i < to ==> !l[i].c
  }

  /** The first lanes of a column: idle, a frame that started in lane at, a frame going on,
      or a frame that ended in lane at. */
  datatype Shape = Quiet | Started(at: int) | Ongoing | Ended(at: int)

  predicate Shaped(l: seq<Lane>, s: Shape) {
    match s
    case Quiet => Idle(l, 0, |l|)
    case Started(at) =>
      && (at == 0 || at == 4) && at < |l|
      && Idle(l, 0, at) && l[at] == Lane(START, true) && Data(l, at + 1, |l|)
    case Ongoing => Data(l, 0, |l|)
    case Ended(at) =>
      && 0 <= at < |l|
      && Data(l, 0, at) && l[at] == Lane(TERM, true) && Idle(l, at + 1, |l|)
  }

  /** How lane k = x takes a column from shape s to shape t. */
  predicate Grows(s: Shape, k: int, x: Lane, t: Shape) {
    match s
    case Quiet => (t == s && x == Lane(IDLE, true)) || (t == Started(k) && k % 4 == 0 && x == Lane(START, true))
    case Started(at) => t == s && !x.c
    case Ongoing => (t == s && !x.c) || (t == Ended(k) && x == Lane(TERM, true))
    case Ended(at) => t == s && x == Lane(IDLE, true)
  }

  lemma ShapeStep(l: seq<Lane>, s: Shape, x: Lane, t: Shape)
    requires |l| < 8 && Shaped(l, s) && Grows(s, |l|, x, t)
    ensures Shaped(l + [x], t)
  {
  }

  /** Every column the source fills survives the block code. */
  lemma ShapedRoundTrip(l: Lanes, s: Shape)
    requires Shaped(l, s)
    ensures Decode(Encode(l)) == l
  {
    match s {
      case Quiet => QuietSurvives(l);
      case Started(at) => StartedSurvives(l, at);
      case Ongoing =>
      case Ended(at) => EndedCoded(l, at);
    }
    RoundTrip(l);
  }

  lemma QuietSurvives(l: Lanes)
    requires Shaped(l, Quiet)
    ensures Survives(l)
  {
    assert l[0] == Lane(IDLE, true) && l[4] == Lane(IDLE, true);
  }

  lemma StartedSurvives(l: Lanes, at: int)
    requires Shaped(l, Started(at))
    ensures Survives(l)
  {
    if at == 4 {
      assert l[0] == Lane(IDLE, true);
    }
  }

  lemma EndedCoded(l: Lanes, at: int)
    requires Shaped(l, Ended(at))
    ensures !OsZero(l) && Coded(l) == (at + 1, 8)
  {
    assert TermAt(l, at);
    assert at > 0 ==> !l[0].c;
    forall k | 0 <= k < at
      ensures !TermAt(l, k)
    {
      assert !l[k].c;
    }
    assert at < 4 ==> l[4] == Lane(IDLE, true);
    assert at > 4 ==> !l[4].c;
  }

  // ---- the source ----

  /** A gap between two frames of a burst: the lane of the terminate character it starts with,
      its length in lanes, and the deficit before and after it. */
  datatype Gap = Gap(lane: int, len: int, before: int, after: int)

  /** The gap asked for, unless the rest of the terminate column is longer already. */
  function Due(ifg: int, lane: int): int {
    Max(ifg, 8 - lane)
  }

  predicate Exact(g: Gap, ifg: int, dic: bool) {
    && 0 <= g.lane < 8 && 0 <= g.before <= 3 && 0 <= g.after <= 3
    && if dic then g.len == Due(ifg, g.lane) + g.before - g.after
       else g.before == 0 && g.after == 0 && Due(ifg, g.lane) <= g.len <= Due(ifg, g.lane) + 3
  }

  predicate AllExact(gaps: seq<Gap>, ifg: int, dic: bool) {
    forall i :: 0 <= i < |gaps| ==> Exact(gaps[i], ifg, dic)
  }

  /** Each gap starts from the deficit the one before it left; the last left deficit d. */
  predicate Linked(gaps: seq<Gap>, d: int) {
    && (forall i :: 0 <= i < |gaps| - 1 ==> gaps[i].after == gaps[i + 1].before)
    && (gaps != [] ==> gaps[|gaps| - 1].after == d)
  }

  lemma OneMoreGap(gaps: seq<Gap>, g: Gap, ifg: int, dic: bool)
    requires AllExact(gaps, ifg, dic) && Linked(gaps, g.before) && Exact(g, ifg, dic)
    ensures AllExact(gaps + [g], ifg, dic) && Linked(gaps + [g], g.after)
  {
  }

  /** Frames queued, octets of the current frame to go, lanes of gap to go. */
  datatype Pace = Pace(queued: int, left: int, debt: int)

  /** What lane k of a column does to the pace; a busy column starts no frame, any other gets on
      in lane at. */
  predicate Moves(p: Pace, q: Pace, k: int, busy: bool, at: int) {
    && q.queued <= p.queued && (busy ==> q.queued == p.queued)
    && (p.left > 0 ==> q.left < p.left)
    && (p.left == 0 && q.queued == p.queued ==>
          && q.left == 0 && q.debt <= p.debt
          && (k == at && !busy && q.queued > 0 ==> q.debt < p.debt))
  }

  /** What the first k lanes of a column do to the pace: a column always gets on. */
  predicate Moved(p: Pace, q: Pace, k: int, at: int) {
    && q.queued <= p.queued
    && (p.left > 0 ==> q.queued == p.queued && if k == 0 then q == p else q.left < p.left)
    && (p.left == 0 && q.queued == p.queued ==>
          && q.left == 0 && q.debt <= p.debt
          && (k > at && q.queued > 0 ==> q.debt < p.debt))
  }

  /** Where a source is in its frames, its books on the gaps and what it still owes. */
  datatype Account = Account(queue: seq<Frame>, frame: Option<Frame>, offset: int,
    gaps: seq<Gap>, burst: bool, lane: int, gap: int, mark: int, debt: int)

  /** The account of a frame begun when lane k of a column is next and `quiet` lanes of it are past. */
  predicate Begun(x: Account, quiet: int, offset: int, y: Account) {
    && x.queue != [] && 0 <= y.mark <= x.debt
    && y == Account(x.queue[1..], Some(x.queue[0]), offset,
         if x.burst then x.gaps + [Gap(x.lane, x.gap + quiet, x.mark, y.mark)] else [],
         x.burst, x.lane, x.gap + quiet, y.mark, y.debt)
  }

  /** What the first k lanes of a column of shape s have made of an account. */
  predicate Accounts(x: Account, s: Shape, k: int, y: Account) {
    match s
    case Quiet =>
      && x.frame.None? && y.frame.None? && y.queue == x.queue && y.debt <= x.debt
      && (x.queue != [] ==> y == x.(gap := x.gap + k, offset := y.offset, debt := y.debt))
    case Started(at) => 0 <= at < k && x.frame.None? && Begun(x, at, k - at, y)
    case Ongoing => x.frame.Some? && y == x.(offset := x.offset + k, debt := y.debt) && y.offset <= |x.frame.value|
    case Ended(at) =>
      && 0 <= at < k && x.frame.Some? && x.offset + at == |x.frame.value|
      && y == x.(frame := None, offset := y.offset, burst := true, lane := at, gap := k - at, debt := y.debt)
  }

  /** What lane k does to an account. */
  predicate LaneAccounts(x: Account, s: Shape, k: int, t: Shape, y: Account) {
    match x.frame
    case Some(f) =>
      if x.offset < |f| then t == s && y == x.(offset := x.offset + 1, debt := y.debt)
      else
        && (s == Ongoing ==> t == Ended(k))
        && y == x.(frame := None, offset := y.offset, burst := true, lane := k, gap := 1, debt := y.debt)
    case None =>
      if t == s then
        && y.frame.None? && y.queue == x.queue && (s == Quiet ==> y.debt <= x.debt)
        && (x.queue != [] || s.Ended? ==> y == x.(gap := x.gap + 1, offset := y.offset, debt := y.debt))
      else t == Started(k) && Begun(x, 0, 1, y)
  }

  /** What the decision before a lane does to an account. */
  predicate Decided(x: Account, inTerm: bool, y: Account) {
    if x.frame.Some? || inTerm then y == x.(debt := y.debt)
    else if y.frame.Some? then Begun(x, 0, 0, y)
    else y.queue == x.queue && y.debt <= x.debt && (x.queue != [] ==> y == x.(debt := y.debt))
  }

  lemma AccountStep(x: Account, s: Shape, k: int, y: Account, t: Shape, z: Account)
    requires 0 <= k && Accounts(x, s, k, y) && LaneAccounts(y, s, k, t, z) && (s.Ended? ==> t == s)
    requires s.Started? ==> y.offset < |y.frame.value|
    ensures Accounts(x, t, k + 1, z)
  {
  }

  class Source {
    const enableDic: bool
    const ifg: int
    const forceOffset: bool

    var queue: seq<Frame>
    var frame: Option<Frame>
    var offset: int
    var sof: bool
    var inTerm: bool
    var ifgCnt: int
    var deficit: int
    var active: bool

    /** The gaps of the burst being sent, and the one being made. */
    ghost var gaps: seq<Gap>
    ghost var burst: bool
    ghost var mark: int
    ghost var lane: int
    ghost var gap: int

    constructor (dic: bool, gapLanes: int, force: bool)
      requires 0 <= gapLanes
      ensures Valid() && Ledger(0) && fresh(this)
      ensures enableDic == dic && ifg == gapLanes && forceOffset == force
      ensures queue == [] && frame == None && !sof && !inTerm && ifgCnt == deficit == mark == 0 && !burst
    {
      enableDic, ifg, forceOffset := dic, gapLanes, force;
      queue, frame, offset, sof, inTerm, ifgCnt, deficit, active := [], None, 0, false, false, 0, 0, false;
      gaps, burst, mark, lane, gap := [], false, 0, 0, 0;
    }

    ghost predicate Valid()
      reads this
    {
      && 0 <= ifg && 0 <= deficit <= 3 && 0 <= ifgCnt
      && (!enableDic ==> deficit == 0)
      && (forall i :: 0 <= i < |queue| ==> Sendable(queue[i]))
      && match frame
         case None => !sof
         case Some(f) =>
           && Sendable(f) && ifgCnt == 0 && 0 <= offset <= |f|
           && (sof <==> offset == 0)
    }

    /** The books on the gap being made: owed lanes of it are charged but not yet sent. With a
        forced start lane every other half column goes uncharged, and there are no books. */
    ghost predicate Ledger(owed: int)
      reads this
    {
      forceOffset || Books(owed)
    }

    ghost predicate Books(owed: int)
      reads this
    {
      && 0 <= mark <= 3 && (!enableDic ==> mark == 0)
      && AllExact(gaps, ifg, enableDic)
      && (frame.Some? ==> deficit == mark && Linked(gaps, mark))
      && (frame.None? && !burst ==> ifgCnt == 0 && deficit == 0)
      && (frame.None? && burst ==> Linked(gaps, mark) && 0 <= lane < 8 && Charged(owed))
    }

    ghost predicate Charged(owed: int)
      reads this
    {
      var due := Due(ifg, lane);
      if enableDic then gap + owed + ifgCnt + deficit == due + mark
      else if ifgCnt > 0 then gap + owed + ifgCnt == due
      else due <= gap + owed <= due + 3
    }

    /** The part of the current frame that is on the line. */
    ghost function Flight(): Option<Frame>
      requires Valid()
      reads this
    {
      if frame.None? || sof then None else Some(frame.value[..offset])
    }

    /** The frames not yet sent to the end. */
    ghost function Todo(): seq<Frame>
      reads this
    {
      (if frame.None? then [] else [frame.value]) + queue
    }

    /** How far the source still has to go. */
    ghost function Ahead(): Pace
      reads this
    {
      Pace(|queue|, if frame.None? then 0 else |frame.value| - offset + 1, ifgCnt + deficit)
    }

    ghost function Now(): Account
      reads this
    {
      Account(queue, frame, offset, gaps, burst, lane, gap, mark, ifgCnt + deficit)
    }

    /** Send, without the occupancy limits. */
    method Send(f: Frame)
      requires Valid() && Ledger(0) && Sendable(f)
      modifies this`queue
      ensures Valid() && Ledger(0) && queue == old(queue) + [f]
      ensures Todo() == old(Todo()) + [f] && Flight() == old(Flight())
    {
      queue := queue + [f];
    }

    /** Four more lanes of gap. */
    method ChargeGap()
      requires Valid() && Ledger(0)
      requires ifgCnt + deficit > 3 || (!enableDic && ifgCnt > 0)
      modifies this`ifgCnt, this`deficit
      ensures Valid() && Ledger(4) && ifgCnt + deficit < old(ifgCnt + deficit)
    {
      ifgCnt := ifgCnt - 4;
      if ifgCnt < 0 {
        if enableDic {
          deficit := Max(deficit + ifgCnt, 0);
        }
        ifgCnt := 0;
      }
    }

    /** The next frame, when the gap is long enough: what is missing of it becomes the deficit. */
    method BeginFrame()
      requires Valid() && Ledger(0) && frame == None && queue != []
      requires ifgCnt + deficit <= 3 && (enableDic || ifgCnt == 0)
      modifies this
      ensures Valid() && Ledger(4) && inTerm == old(inTerm)
      ensures sof && frame == Some(old(queue)[0]) && queue == old(queue)[1..] && offset == 0
      ensures deficit <= old(ifgCnt + deficit)
      ensures Begun(old(Now()), 0, 0, Now())
    {
      var f := queue[0];
      queue := queue[1..];
      frame := Some(f);
      if enableDic {
        deficit := Max(deficit + ifgCnt, 0);
      }
      ifgCnt := 0;
      active := true;
      offset := 0;
      sof := true;
      RecordGap();
    }

    /** The gap that ends goes into the books, which the next one starts with. */
    ghost method RecordGap()
      requires !forceOffset ==> AllExact(gaps, ifg, enableDic)
      requires !forceOffset && burst ==> Linked(gaps, mark) && Exact(Gap(lane, gap, mark, deficit), ifg, enableDic)
      modifies this`gaps, this`mark
      ensures gaps == if burst then old(gaps) + [Gap(lane, gap, old(mark), deficit)] else []
      ensures mark == deficit && (!forceOffset ==> AllExact(gaps, ifg, enableDic) && Linked(gaps, mark))
    {
      if burst {
        ghost var g := Gap(lane, gap, mark, deficit);
        if !forceOffset {
          OneMoreGap(gaps, g, ifg, enableDic);
        }
        gaps := gaps + [g];
      } else {
        gaps := [];
      }
      mark := deficit;
    }

    /** What the source decides at the head of each half column outside a terminate column. */
    method Decide()
      requires Valid() && !sof && !inTerm && Ledger(0)
      modifies this
      ensures Valid() && !inTerm && Ledger(4) && Todo() == old(Todo()) && Flight() == old(Flight())
      ensures old(frame.Some?) ==> !sof && frame == old(frame) && queue == old(queue) && offset == old(offset)
      ensures frame.Some? && old(frame.None?) ==> sof
      ensures Decided(old(Now()), false, Now())
      ensures frame.None? ==> !sof && queue == old(queue) && ifgCnt + deficit <= old(ifgCnt + deficit)
      ensures frame.None? && queue != [] ==> ifgCnt + deficit < old(ifgCnt + deficit)
      ensures old(frame.None? && queue != [] && enableDic && ifgCnt + deficit <= 3) ==> frame.Some?
    {
      if ifgCnt + deficit > 3 || (!enableDic && ifgCnt > 0) {
        ChargeGap();
      } else if frame == None {
        if queue != [] {
          BeginFrame();
        } else {
          deficit := 0;
          ifgCnt := 0;
          active := false;
          burst := false;
        }
      }
    }

    /** One lane. r is a sink that has seen everything so far; sent is the frame that ends here, if any. */
    method EmitLane(k: int, ghost owed: int, ghost r: Rx) returns (l: Lane, ghost sent: seq<Frame>)
      requires Valid() && 0 <= k < 8 && Ledger(owed) && r.frame == Flight()
      requires frame.Some? ==> !inTerm
      modifies this
      ensures Valid() && !sof && old(Todo()) == sent + Todo() && queue == old(queue)
      ensures Take(r, l) == Rx(Flight(), r.done + sent)
      ensures Ledger(if inTerm && !old(inTerm) then 7 - k else owed - 1)
      ensures old(frame.None?) ==>
        && l == Lane(IDLE, true) && frame == None && inTerm == old(inTerm)
        && ifgCnt == old(ifgCnt) && deficit == old(deficit) && lane == old(lane) && burst == old(burst)
      ensures old(sof) ==> l == Lane(START, true)
      ensures old(frame.Some? && offset < |frame.value|) ==>
        && frame == old(frame) && offset == old(offset) + 1 && inTerm == old(inTerm)
        && (!old(sof) ==> !l.c)
      ensures old(frame.Some? && offset >= |frame.value|) ==>
        l == Lane(TERM, true) && frame == None && inTerm && burst && lane == k
      ensures old(frame.Some?) && frame.Some? ==> burst == old(burst) && lane == old(lane)
      ensures mark == old(mark) && gaps == old(gaps) && gap == if old(frame.None?) then old(gap) + 1 else if frame.None? then 1 else old(gap)
    {
      l, sent := Lane(IDLE, true), [];
      match frame {
        case None =>
          gap := gap + 1;
        case Some(f) =>
          if sof {
            sof := false;
            l := Lane(START, true);
            assert f[..1] == [f[0]];
          } else if offset >= |f| {
            l := Lane(TERM, true);
            assert f[..offset] == f;
            inTerm := true;
            ifgCnt := Max(ifg - (8 - k), 0);
            frame := None;
            sent := [f];
            lane, gap, burst := k, 1, true;
          } else {
            l := f[offset];
            assert f[..offset + 1] == f[..offset] + [l];
          }
      }
      offset := offset + 1;
    }

    /** The lane's place in the column: how the shape of the lanes so far and the state agree. */
    ghost predicate Fits(s: Shape, k: int)
      reads this
    {
      match s
      case Quiet => frame.None? && !inTerm
      case Started(at) => 0 <= at < k && frame.Some? && !inTerm && !sof && offset == k - at
      case Ongoing => frame.Some? && !inTerm && !sof
      case Ended(at) => 0 <= at < k && frame.None? && inTerm
    }

    /** Lanes of the current gap already charged when lane k is next. */
    ghost function Owed(k: int): int
      reads this
    {
      if inTerm then 8 - k else if k % 4 == 0 then 0 else 4 - k % 4
    }

    /** The lane in which a column without a frame gets on. */
    function Deciding(): int {
      if forceOffset then 4 else 0
    }

    /** A frame waits, and no more gap is to be made. */
    predicate DueNow()
      reads this
    {
      frame.None? && queue != [] && enableDic && ifgCnt + deficit <= 3
    }

    /** The part of the lane loop's body that decides what lane k is for. */
    method DecideAt(k: int, ghost s: Shape) returns (ghost owed: int)
      requires Valid() && 0 <= k < 8 && !sof && Fits(s, k) && Ledger(Owed(k))
      modifies this
      ensures Valid() && Todo() == old(Todo()) && Flight() == old(Flight()) && inTerm == old(inTerm)
      ensures Ledger(owed) && Owed(k + 1) == owed - 1
      ensures old(frame.Some?) ==> !sof && frame == old(frame) && queue == old(queue) && offset == old(offset)
      ensures frame.Some? && old(frame.None?) ==>
        k % 4 == 0 && s == Quiet && sof && offset == 0 && |queue| < |old(queue)|
      ensures frame.None? ==> !sof && queue == old(queue) && ifgCnt + deficit <= old(ifgCnt + deficit)
      ensures frame.None? && queue != [] && k == Deciding() && s == Quiet ==> ifgCnt + deficit < old(ifgCnt + deficit)
      ensures k == 0 && s == Quiet && !forceOffset && old(DueNow()) ==> frame.Some?
      ensures Decided(old(Now()), inTerm, Now())
    {
      owed := if k % 4 == 0 && !inTerm then 4 else Owed(k);
      if k % 4 == 0 && !(forceOffset && k == 0) && !inTerm {
        Decide();
      }
    }

    /** The lane loop's body. */
    method NextLane(k: int, ghost s: Shape, ghost r: Rx) returns (l: Lane, ghost t: Shape, ghost sent: seq<Frame>)
      requires Valid() && 0 <= k < 8 && !sof && Fits(s, k) && Ledger(Owed(k)) && r.frame == Flight()
      modifies this
      ensures Valid() && !sof && Fits(t, k + 1) && Ledger(Owed(k + 1)) && old(Todo()) == sent + Todo()
      ensures Take(r, l) == Rx(Flight(), r.done + sent)
      ensures Grows(s, k, l, t)
      ensures Moves(old(Ahead()), Ahead(), k, s != Quiet, Deciding())
      ensures LaneAccounts(old(Now()), s, k, t, Now()) && (s.Ended? ==> t == s)
      ensures k == 0 && s == Quiet && !forceOffset && old(DueNow()) ==> t == Started(0)
    {
      ghost var owed := DecideAt(k, s);
      l, sent := EmitLane(k, owed, r);
      t := if s == Quiet && frame.Some? then Started(k) else if s == Ongoing && frame.None? then Ended(k) else s;
    }

    /** One column of eight lanes. */
    method Column(ghost r: Rx) returns (l: Lanes, ghost s: Shape, ghost sent: seq<Frame>)
      requires Valid() && !sof && !inTerm && Ledger(0) && r.frame == Flight()
      modifies this
      ensures Valid() && !sof && !inTerm && Ledger(0) && old(Todo()) == sent + Todo()
      ensures TakeAll(r, l) == Rx(Flight(), r.done + sent)
      ensures Shaped(l, s)
      ensures Moved(old(Ahead()), Ahead(), 8, Deciding())
      ensures Accounts(old(Now()), s, 8, Now())
      ensures old(DueNow()) && !forceOffset ==> s == Started(0)
    {
      ghost var was, books, todo, due := Ahead(), Now(), Todo(), DueNow() && !forceOffset;
      var lanes: seq<Lane> := [];
      s, sent := if frame == None then Quiet else Ongoing, [];
      AlongStart(r, s);
      for k := 0 to 8
        invariant Along(r, lanes, s, k, sent, todo, was, books)
        invariant due ==> if k == 0 then DueNow() else s == Started(0)
      {
        ghost var more;
        lanes, s, more := ColumnLane(k, lanes, s, r, sent, todo, was, books);
        sent := sent + more;
      }
      EndColumn(r, lanes, s, sent, todo, was, books);
      l := lanes;
    }

    lemma AlongStart(r: Rx, s: Shape)
      requires Valid() && !sof && !inTerm && Ledger(0) && r.frame == Flight()
      requires s == if frame == None then Quiet else Ongoing
      ensures Along(r, [], s, 0, [], Todo(), Ahead(), Now())
    {
      Alone(r.done);
      Alone(Todo());
    }

    /** Between columns nothing is in a terminate column. */
    method EndColumn(ghost r: Rx, l: Lanes, ghost s: Shape, ghost sent: seq<Frame>, ghost todo: seq<Frame>,
      ghost was: Pace, ghost books: Account)
      requires Along(r, l, s, 8, sent, todo, was, books)
      modifies this`inTerm
      ensures Valid() && !sof && !inTerm && Ledger(0) && todo == sent + Todo() && Shaped(l, s)
      ensures TakeAll(r, l) == Rx(Flight(), r.done + sent)
      ensures Moved(was, Ahead(), 8, Deciding()) && Accounts(books, s, 8, Now())
    {
      inTerm := false;
    }

    /** Where the first k lanes of a column have brought a sink, and the source itself. */
    ghost predicate Along(r: Rx, lanes: seq<Lane>, s: Shape, k: int, sent: seq<Frame>, todo: seq<Frame>, was: Pace, books: Account)
      reads this
    {
      && 0 <= k <= 8 && |lanes| == k && Shaped(lanes, s)
      && Valid() && !sof && Fits(s, k) && Ledger(Owed(k)) && todo == sent + Todo()
      && TakeAll(r, lanes) == Rx(Flight(), r.done + sent)
      && GotOn(was, books, s, k, Ahead(), Now(), Deciding())
    }

    method ColumnLane(k: int, lanes: seq<Lane>, ghost s: Shape, ghost r: Rx, ghost sent: seq<Frame>, ghost todo: seq<Frame>,
      ghost was: Pace, ghost books: Account) returns (l: seq<Lane>, ghost t: Shape, ghost more: seq<Frame>)
      requires k < 8 && Along(r, lanes, s, k, sent, todo, was, books)
      modifies this
      ensures Along(r, l, t, k + 1, sent + more, todo, was, books)
      ensures k == 0 && s == Quiet && !forceOffset && old(DueNow()) ==> t == Started(0)
      ensures s.Started? ==> t == s
    {
      var x;
      ghost var now, account := Ahead(), Now();
      x, t, more := NextLane(k, s, TakeAll(r, lanes));
      LaneStep(r, lanes, s, x, t, sent, more, todo, Todo());
      GotOnStep(was, books, s, k, now, account, t, Ahead(), Now(), Deciding());
      l := lanes + [x];
    }
  }

  lemma LaneStep(r: Rx, lanes: seq<Lane>, s: Shape, x: Lane, t: Shape, sent: seq<Frame>, more: seq<Frame>,
    todo: seq<Frame>, left: seq<Frame>)
    requires |lanes| < 8 && Shaped(lanes, s) && Grows(s, |lanes|, x, t)
    requires TakeAll(r, lanes).done == r.done + sent && todo == sent + (more + left)
    ensures Shaped(lanes + [x], t) && TakeAll(r, lanes + [x]) == Take(TakeAll(r, lanes), x)
    ensures r.done + sent + more == r.done + (sent + more) && todo == sent + more + left
  {
    TakeMore(r, lanes, x);
    ShapeStep(lanes, s, x, t);
    Regrouped(r.done, sent, more);
    Regrouped(sent, more, left);
  }

  /** How far the first k lanes of a column have brought the source, in its pace and its account. */
  predicate GotOn(was: Pace, x: Account, s: Shape, k: int, now: Pace, y: Account, at: int) {
    && (if was.left > 0 then s == Ongoing || s.Ended? else s == Quiet || s.Started?)
    && (s.Started? ==> now.queued < was.queued)
    && Moved(was, now, k, at) && Accounts(x, s, k, y)
  }

  lemma GotOnStep(was: Pace, x: Account, s: Shape, k: int, now: Pace, y: Account, t: Shape, next: Pace, z: Account, at: int)
    requires 0 <= k && GotOn(was, x, s, k, now, y, at) && 0 <= now.left && (s.Ended? ==> t == s && now.left == 0)
    requires Moves(now, next, k, s != Quiet, at) && LaneAccounts(y, s, k, t, z)
    requires s.Started? ==> y.offset < |y.frame.value|
    requires s == Ongoing ==> t == Ongoing || t.Ended?
    requires t.Started? && !s.Started? ==> s == Quiet && next.queued < was.queued
    ensures GotOn(was, x, t, k + 1, next, z, at)
  {
    PaceStep(was, now, next, k, s, at);
    AccountStep(x, s, k, y, t, z);
  }

  lemma PaceStep(was: Pace, now: Pace, next: Pace, k: int, s: Shape, at: int)
    requires 0 <= k && 0 <= now.left && Moved(was, now, k, at) && Moves(now, next, k, s != Quiet, at)
    requires if was.left > 0 then s == Ongoing || s.Ended? else s == Quiet || s.Started?
    requires s.Started? ==> now.queued < was.queued
    requires s.Ended? ==> now.left == 0
    ensures Moved(was, next, k + 1, at)
  {
  }

  // ---- the deficit idle count ----

  function Total(gaps: seq<Gap>): int {
    if gaps == [] then 0 else Total(gaps[..|gaps| - 1]) + gaps[|gaps| - 1].len
  }

  /** The terminate column leaves no more gap than was asked for. */
  predicate Roomy(gaps: seq<Gap>, ifg: int) {
    forall i :: 0 <= i < |gaps| ==> 8 - gaps[i].lane <= ifg
  }

  lemma {:induction false} TotalOf(gaps: seq<Gap>, ifg: int, d: int)
    requires gaps != [] && Linked(gaps, d)
    requires AllExact(gaps, ifg, true)
    ensures Total(gaps) >= |gaps| * ifg + gaps[0].before - d
    ensures Total(gaps) == |gaps| * ifg + gaps[0].before - d <==> Roomy(gaps, ifg)
  {
    var n := |gaps| - 1;
    var rest, last := gaps[..n], gaps[n];
    assert last.len == Due(ifg, last.lane) + last.before - last.after;
    GapsFront(gaps, ifg, d);
    if n > 0 {
      TotalOf(rest, ifg, last.before);
      OneTimesMore(n, ifg);
    } else {
      assert Total(rest) == 0;
    }
  }

  lemma OneTimesMore(n: int, k: int)
    ensures (n + 1) * k == n * k + k
  {
  }

  lemma GapsFront(gaps: seq<Gap>, ifg: int, d: int)
    requires gaps != [] && Linked(gaps, d)
    ensures var rest, last := gaps[..|gaps| - 1], gaps[|gaps| - 1];
            && last.after == d && (rest != [] ==> Linked(rest, last.before))
            && (Roomy(gaps, ifg) <==> Roomy(rest, ifg) && 8 - last.lane <= ifg)
  {
    var n := |gaps| - 1;
    var rest := gaps[..n];
    assert forall i :: 0 <= i < n ==> rest[i] == gaps[i];
    if n > 0 {
      assert gaps[n - 1].after == gaps[n - 1 + 1].before;
    }
  }

  /** Without the deficit count every gap is at least what was asked for, or what the terminate column
      leaves, and at most three lanes more. */
  lemma GapsWithoutDic(src: Source)
    requires src.Valid() && src.Ledger(0) && !src.enableDic && !src.forceOffset
    ensures forall i :: 0 <= i < |src.gaps| ==>
      var g := src.gaps[i]; var due := if src.ifg < 8 - g.lane then 8 - g.lane else src.ifg;
      0 <= g.lane < 8 && due <= g.len <= due + 3
  {
    assert forall i :: 0 <= i < |src.gaps| ==> Exact(src.gaps[i], src.ifg, false);
  }

  /** With a gap of at least eight lanes, whatever is queued, every gap of a burst is within three lanes of it,
      and all of them together miss n times the gap by the change of the deficit alone. */
  lemma DeficitIdleCount(src: Source)
    requires src.Valid() && src.Ledger(0) && src.enableDic && !src.forceOffset && src.ifg >= 8
    requires src.frame.Some? && src.gaps != []
    ensures 0 <= src.deficit <= 3 && 0 <= src.gaps[0].before <= 3
    ensures Total(src.gaps) == |src.gaps| * src.ifg + src.gaps[0].before - src.deficit
    ensures forall i :: 0 <= i < |src.gaps| ==> src.ifg - 3 <= src.gaps[i].len <= src.ifg + 3
  {
    assert Exact(src.gaps[0], src.ifg, true);
    assert Roomy(src.gaps, src.ifg) by {
      forall i | 0 <= i < |src.gaps|
        ensures 8 - src.gaps[i].lane <= src.ifg
      {
        assert Exact(src.gaps[i], src.ifg, true);
      }
    }
    TotalOf(src.gaps, src.ifg, src.deficit);
    forall i | 0 <= i < |src.gaps|
      ensures src.ifg - 3 <= src.gaps[i].len <= src.ifg + 3
    {
      assert Exact(src.gaps[i], src.ifg, true);
    }
  }

  /** An eight-octet frame, which started in lane 0 ends in lane 0. */
  function Shortest(): (f: Frame)
    ensures Sendable(f) && |f| == 8
  {
    seq(8, i => Lane(PRE, false))
  }

  /** A gap asked for below eight lanes is missed: of two shortest frames the first ends in lane 0
      and its terminate column alone leaves eight lanes, with no deficit to make up for it. */
  method GapTooLong(ifg: int) returns (src: Source)
    requires 0 <= ifg < 8
    ensures fresh(src) && src.Valid() && src.Ledger(0) && src.enableDic && !src.forceOffset && src.ifg == ifg
    ensures src.frame.Some? && |src.gaps| == 1
    ensures Total(src.gaps) == ifg + src.gaps[0].before - src.deficit + (8 - ifg)
  {
    src := new Source(true, ifg, false);
    src.Send(Shortest());
    src.Send(Shortest());
    for n := 0 to 3
      invariant fresh(src) && src.Valid() && src.Ledger(0) && src.enableDic && !src.forceOffset && src.ifg == ifg
      invariant !src.sof && !src.inTerm && ShortRun(src.Now(), n)
    {
      var _, _, _ := src.Column(Rx(src.Flight(), []));
    }
    TotalOne(src.gaps[0]);
  }

  /** The account of a source of two shortest frames after n of the columns to the beginning of the
      second. */
  predicate ShortRun(x: Account, n: int) {
    && x.mark == 0
    && match n
       case 0 => x.queue == [Shortest(), Shortest()] && x.frame == None && !x.burst && x.debt == 0
       case 1 => x.queue == [Shortest()] && x.frame == Some(Shortest()) && x.offset == 8 && x.gaps == []
       case 2 => x.queue == [Shortest()] && x.frame == None && x.burst && x.lane == 0 && x.gap == 8 && x.gaps == []
       case _ => x.frame.Some? && x.gaps == [Gap(0, 8, 0, 0)]
  }

  lemma TotalOne(g: Gap)
    ensures Total([g]) == g.len
  {
    assert [g][..0] == [];
  }

  // ---- the sink ----

  class Sink {
    var frame: Option<Frame>
    var queue: seq<Frame>

    constructor ()
      ensures fresh(this) && frame == None && queue == []
    {
      frame, queue := None, [];
    }

    ghost function State(): Rx
      reads this
    {
      Rx(frame, queue)
    }

    method TakeLane(l: Lane)
      modifies this
      ensures State() == Take(old(State()), l)
    {
      match frame {
        case None =>
          if l.c && l.d == START {
            frame := Some([Lane(PRE, false)]);
          }
        case Some(f) =>
          if l.c {
            var data := f;
            if l.d != TERM {
              data := data + [l];
            }
            queue := queue + [data];
            frame := None;
          } else {
            frame := Some(f + [l]);
          }
      }
    }

    method TakeColumn(l: Lanes)
      modifies this
      ensures State() == TakeAll(old(State()), l)
    {
      for k := 0 to 8
        invariant State() == TakeAll(old(State()), l[..k])
      {
        TakeLane(l[k]);
        TakeMore(old(State()), l[..k], l[k]);
        assert l[..k + 1] == l[..k] + [l[k]];
      }
      assert l[..8] == l;
    }
  }
}
