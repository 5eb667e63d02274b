/** Time distribution in src/ptp/tb/ptp_td.py: the source sends its clock over the serial line
    every 256 cycles, the sink takes it over td_delay cycles after the message has arrived. */
module PtpTd {
  import opened Arith
  import opened Base
  import opened PtpClock
  import opened PtpSerial

  const WORDS := 14
  const FRAME := 256

  /** Everything a message has room for fits it. */
  predicate Fits(r: Rate, t: Time) {
    && r.Valid() && t.Valid()
    && r.periodNs < 256 && r.driftNum < 0x1_0000 && r.driftDenom < 0x1_0000
    && t.todNs < SECOND && t.driftCnt < 0x1_0000
  }

  lemma FitsOn(r: Rate, t: Time)
    requires Fits(r, t)
    ensures Fits(r, Tick(r, t))
  {
    TickValid(r, t);
  }

  lemma {:induction false} FitsLater(r: Rate, t: Time, n: nat)
    requires Fits(r, t)
    ensures Fits(r, Ticks(r, t, n))
  {
    if n > 0 {
      FitsLater(r, t, n - 1);
      FitsOn(r, Ticks(r, t, n - 1));
    }
  }

  // ---- messages ----

  function Lo(x: int): int {
    x % 0x1_0000
  }

  function Mid(x: int): int {
    x / 0x1_0000 % 0x1_0000
  }

  function Hi(x: int): int {
    x / 0x1_0000_0000 % 0x1_0000
  }

  function If(b: bool, x: int): int {
    if b then x else 0
  }

  /** Words 1 to 5, which depend on the index. */
  function Head(r: Rate, t: Time, index: int, todUpdated: bool): (h: seq<int>)
    ensures |h| == 5
  {
    var o := OffsetsOf(t);
    if index == 0 then
      [Lo(t.todNs), t.todNs / 0x1_0000 % 0x4000 + If(todUpdated, 0x8000), Lo(t.todS), Mid(t.todS), Hi(t.todS)]
    else if index == 1 then
      [Lo(o.offset), Mid(o.offset), r.driftNum, r.driftDenom, t.driftCnt]
    else
      [Lo(o.altOffset), Mid(o.altOffset), Lo(o.altS), Mid(o.altS), Hi(o.altS)]
  }

  function Message(r: Rate, t: Time, index: int, relUpdated: bool, todUpdated: bool): (m: seq<int>)
    ensures |m| == WORDS
  {
    [index + If(relUpdated, 0x100) + If(t.todS % 2 == 1, 0x200)]
    + Head(r, t, index, todUpdated)
    + [Lo(t.fns), Mid(t.fns), Lo(t.relNs), Mid(t.relNs), Hi(t.relNs),
       Lo(r.periodFns), Mid(r.periodFns), r.periodNs % 0x100]
  }

  lemma MessageWords(r: Rate, t: Time, index: int, relUpdated: bool, todUpdated: bool)
    requires Fits(r, t) && 0 <= index < 3
    ensures forall i :: 0 <= i < WORDS ==> 0 <= Message(r, t, index, relUpdated, todUpdated)[i] < 0x1_0000
  {
    var h := Head(r, t, index, todUpdated);
    assert forall i :: 0 <= i < 5 ==> 0 <= h[i] < 0x1_0000;
  }

  /** What a sink makes of a message. */
  function Applied(m: seq<int>, r: Rate, t: Time): (Rate, Time)
    requires |m| == WORDS
  {
    var index := m[0] % 16;
    var todNs := if index == 0 then m[2] % 0x4000 * 0x1_0000 + m[1] else t.todNs;
    var todS := if index == 0 then m[5] * 0x1_0000_0000 + m[4] * 0x1_0000 + m[3] else t.todS;
    var num := if index == 1 then m[3] else r.driftNum;
    var denom := if index == 1 then m[4] else r.driftDenom;
    var cnt := if index == 1 then m[5] else t.driftCnt;
    (Rate(m[13] % 0x100, m[12] * 0x1_0000 + m[11], num, denom),
     Time(m[7] * 0x1_0000 + m[6], m[10] * 0x1_0000_0000 + m[9] * 0x1_0000 + m[8], todS, todNs, cnt))
  }

  lemma TwoWords(x: int)
    requires 0 <= x < 0x1_0000_0000
    ensures Mid(x) * 0x1_0000 + Lo(x) == x
  {
  }

  lemma ThreeWords(x: int)
    ensures Hi(x) * 0x1_0000_0000 + Mid(x) * 0x1_0000 + Lo(x) == x % REL
  {
    var a := x / 0x1_0000;
    var b := a / 0x1_0000;
    var c := b / 0x1_0000;
    assert x == a * 0x1_0000 + Lo(x) && a == b * 0x1_0000 + a % 0x1_0000;
    DivUnique(x, 0x1_0000_0000, b, a % 0x1_0000 * 0x1_0000 + Lo(x));
    assert b == c * 0x1_0000 + Hi(x);
    DivUnique(x, REL, c, Hi(x) * 0x1_0000_0000 + Mid(x) * 0x1_0000 + Lo(x));
  }

  lemma NsWords(x: int, flag: bool)
    requires 0 <= x < SECOND
    ensures (x / 0x1_0000 % 0x4000 + If(flag, 0x8000)) % 0x4000 * 0x1_0000 + Lo(x) == x
  {
  }

  /** A message carries the clock exactly; the seconds modulo 2^48. */
  lemma Carried(r: Rate, t: Time, index: int, relUpdated: bool, todUpdated: bool, r': Rate, t': Time)
    requires Fits(r, t) && 0 <= index < 3
    ensures var m := Message(r, t, index, relUpdated, todUpdated);
            var a := Applied(m, r', t');
            && a.0.periodNs == r.periodNs && a.0.periodFns == r.periodFns
            && a.1.fns == t.fns && a.1.relNs == t.relNs
            && (if index == 1 then a.0 == r && a.1.driftCnt == t.driftCnt
                else a.0.driftNum == r'.driftNum && a.0.driftDenom == r'.driftDenom && a.1.driftCnt == t'.driftCnt)
            && (if index == 0 then a.1.todNs == t.todNs && a.1.todS == t.todS % REL
                else a.1.todNs == t'.todNs && a.1.todS == t'.todS)
  {
    TwoWords(t.fns);
    ThreeWords(t.relNs);
    TwoWords(r.periodFns);
    if index == 0 {
      NsWords(t.todNs, todUpdated);
      ThreeWords(t.todS);
    }
  }

  // ---- the two ends ----

  class Source {
    const clock: Clock
    const sender: Sender
    const tdDelay: nat

    var relUpdated: bool
    var todUpdated: bool
    var offsets: Offsets
    var msgIndex: int
    var msgDelay: int
    var delayed: seq<Time>

    constructor (r: Rate, t: Time, td: nat, rel: bool, tod: bool)
      ensures fresh(this) && fresh(clock) && fresh(sender) && tdDelay == td
      ensures clock.RateNow() == r && clock.Now() == t && msgIndex == 0 && msgDelay == 0
      ensures sender.word == None && sender.msg == [] && sender.data && delayed == [Time(0, 0, 0, 0, 0)]
    {
      clock := new Clock(r, t);
      sender := new Sender();
      tdDelay, relUpdated, todUpdated, offsets := td, rel, tod, OffsetsOf(t);
      msgIndex, msgDelay, delayed := 0, 0, [Time(0, 0, 0, 0, 0)];
    }

    /** Cycles after which delayed is full. */
    function Depth(): nat {
      WORDS * WORD + tdDelay
    }

    method Delay()
      modifies this`delayed
      ensures delayed == Newest(old(delayed) + [clock.Now()], Depth())
    {
      delayed := delayed + [clock.Now()];
      ghost var all := delayed;
      while |delayed| > Depth()
        invariant Depth() <= |delayed| <= |all| || delayed == all
        invariant delayed == Newest(all, |delayed|)
      {
        delayed := delayed[1..];
      }
    }

    /** A message of the clock as it stands. */
    method Build() returns (m: seq<int>)
      requires 0 <= msgIndex < 3
      modifies this`relUpdated, this`todUpdated, this`msgIndex, this`msgDelay
      ensures IsMessage(m, clock.RateNow(), clock.Now(), old(msgIndex))
      ensures m == Message(clock.RateNow(), clock.Now(), old(msgIndex), old(relUpdated), old(todUpdated))
      ensures !relUpdated && todUpdated == (old(todUpdated) && old(msgIndex) != 0)
      ensures msgIndex == (old(msgIndex) + 1) % 3 && msgDelay == 255
    {
      m := Message(clock.RateNow(), clock.Now(), msgIndex, relUpdated, todUpdated);
      IsMessageNow(clock.RateNow(), clock.Now(), msgIndex, relUpdated, todUpdated);
      relUpdated := false;
      if msgIndex == 0 {
        todUpdated := false;
      }
      msgIndex := (msgIndex + 1) % 3;
      msgDelay := FRAME - 1;
    }

    /** One edge, u cycles after the message being sent was started. */
    method Edge(ghost words: seq<int>, ghost u: nat) returns (ghost sent: seq<int>)
      requires clock.RateNow().Valid() && clock.Now().Valid() && 0 <= msgIndex < 3
      requires if msgDelay <= 0 then sender.word == None && sender.msg == [] else sender.Sending(words, u)
      modifies this, clock, sender
      ensures clock.RateNow() == old(clock.RateNow()) && clock.Now() == Tick(clock.RateNow(), old(clock.Now()))
      ensures offsets == OffsetsOf(clock.Now())
      ensures delayed == Newest(old(delayed) + [old(clock.Now())], Depth())
      ensures old(msgDelay) <= 0 ==>
        && IsMessage(sent, clock.RateNow(), clock.Now(), old(msgIndex)) && sender.Sending(sent, 0)
        && msgIndex == (old(msgIndex) + 1) % 3 && msgDelay == FRAME - 1
      ensures old(msgDelay) > 0 ==>
        sender.Sending(words, u + 1) && msgIndex == old(msgIndex) && msgDelay == old(msgDelay) - 1
    {
      Delay();
      clock.Advance();
      offsets := OffsetsOf(clock.Now());
      sent := words;
      if msgDelay <= 0 {
        var m := Build();
        sent := m;
        sender.Start(m);
      } else {
        msgDelay := msgDelay - 1;
        sender.Continue(words, u);
      }
    }
  }

  /** The last n of s, or all of it. */
  function Newest<T>(s: seq<T>, n: nat): seq<T> {
    if |s| <= n then s else s[|s| - n..]
  }

  ghost predicate IsMessage(m: seq<int>, r: Rate, t: Time, index: int) {
    exists rel: bool, tod: bool :: m == Message(r, t, index, rel, tod)
  }

  lemma IsMessageNow(r: Rate, t: Time, index: int, rel: bool, tod: bool)
    ensures IsMessage(Message(r, t, index, rel, tod), r, t, index)
  {
  }

  class Sink {
    const clock: Clock
    const receiver: Receiver
    const tdDelay: nat

    var msg: Option<seq<int>>
    var msgDelay: int

    constructor (r: Rate, t: Time, td: nat)
      ensures fresh(this) && fresh(clock) && fresh(receiver) && tdDelay == td
      ensures clock.RateNow() == r && clock.Now() == t
      ensures receiver.State().Quiet() && msg == None && msgDelay == 0
    {
      clock := new Clock(r, t);
      receiver := new Receiver();
      tdDelay, msg, msgDelay := td, None, 0;
    }

    /** The part of an edge that takes over a message once its delay is up. */
    method Process()
      requires msg.Some? ==> |msg.value| == WORDS
      requires 0 <= msgDelay
      modifies this, clock
      ensures msgDelay == Max(old(msgDelay) - 1, 0)
      ensures var due := old(msg).Some? && msgDelay == 0;
              && msg == (if due then None else old(msg))
              && (clock.RateNow(), clock.Now()) ==
                 (if due then Applied(old(msg).value, old(clock.RateNow()), old(clock.Now()))
                  else (old(clock.RateNow()), old(clock.Now())))
    {
      if msgDelay > 0 {
        msgDelay := msgDelay - 1;
      }
      if msgDelay == 0 && msg != None {
        var m := msg.value;
        var index := m[0] % 16;
        if index == 0 {
          clock.todNs := m[2] % 0x4000 * 0x1_0000 + m[1];
          clock.todS := m[5] * 0x1_0000_0000 + m[4] * 0x1_0000 + m[3];
        } else if index == 1 {
          clock.driftNum := m[3];
          clock.driftDenom := m[4];
          clock.driftCnt := m[5];
        }
        clock.fns := m[7] * 0x1_0000 + m[6];
        clock.relNs := m[10] * 0x1_0000_0000 + m[9] * 0x1_0000 + m[8];
        clock.periodFns := m[12] * 0x1_0000 + m[11];
        clock.periodNs := m[13] % 0x100;
        msg := None;
      }
    }

    /** The part of an edge that samples the line. */
    method Receive(sample: bool) returns (ghost done: Option<seq<int>>)
      requires receiver.State().Valid()
      modifies this, receiver
      ensures receiver.State() == old(receiver.State()).Then(sample) && done == old(receiver.State()).Done(sample)
      ensures done == None ==> msg == old(msg) && msgDelay == old(msgDelay)
      ensures done != None ==> msg == done && msgDelay == tdDelay
    {
      var d := receiver.Edge(sample);
      done := d;
      if d != None {
        msg, msgDelay := d, tdDelay;
      }
    }
  }

  /** The clock part of a sink's edge, at place p of a link. */
  method SinkTime(x: Sink, ghost r: Rate, ghost t: Time, ghost sent: seq<seq<int>>, ghost p: Place)
    requires p.Valid() && |sent| == p.j + 1 && Fits(r, t) && Messages(r, t, sent) && 1 <= x.tdDelay < FRAME
    requires PendingAt(x, sent, p) && InStep(x.clock.RateNow(), x.clock.Now(), r, t, p, x.tdDelay)
    modifies x, x.clock
    ensures p.Next().Valid() && InStep(x.clock.RateNow(), x.clock.Now(), r, t, p.Next(), x.tdDelay)
    ensures p.Arrived() >= 0 && p.Age() + 1 < x.tdDelay ==>
      x.msg == Some(sent[p.Arrived()]) && x.msgDelay == x.tdDelay - p.Age() - 1
    ensures !(p.Arrived() >= 0 && p.Age() + 1 < x.tdDelay) ==> x.msg == None && x.msgDelay == 0
  {
    TakenNext(p, x.tdDelay);
    MessagesLong(r, t, sent);
    ghost var rate, now := x.clock.RateNow(), x.clock.Now();
    x.clock.Advance();
    x.Process();
    if Due(p, x.tdDelay) {
      InStepTake(rate, now, r, t, p, x.tdDelay, sent[p.Arrived()]);
    } else {
      InStepTick(rate, now, r, t, p, x.tdDelay);
    }
  }

  /** One edge of a sink at place p of a link. */
  method SinkEdge(x: Sink, sample: bool, ghost r: Rate, ghost t: Time, ghost sent: seq<seq<int>>, ghost p: Place)
    requires p.Valid() && |sent| == p.j + 1 && Fits(r, t) && Messages(r, t, sent) && 1 <= x.tdDelay < FRAME
    requires SinkAt(x, r, t, sent, p) && LineAt(sample, sent, p)
    modifies x, x.clock, x.receiver
    ensures p.Next().Valid() && SinkAt(x, r, t, sent, p.Next())
  {
    SinkTime(x, r, t, sent, p);
    ReceiverNext(x.receiver.State(), sample, r, t, sent, p);
    ghost var done := x.Receive(sample);
  }

  /** The receiver goes along with the line, and hands over message j as its last word ends. */
  lemma ReceiverNext(x: Rx, sample: bool, r: Rate, t: Time, sent: seq<seq<int>>, p: Place)
    requires p.Valid() && |sent| == p.j + 1 && Fits(r, t) && Messages(r, t, sent)
    requires ReceiverAt(x, sent, p) && LineAt(sample, sent, p)
    ensures x.Valid() && p.Next().Valid() && ReceiverAt(x.Then(sample), sent, p.Next())
    ensures x.Done(sample) == if p.j >= 0 && p.u == WORDS * WORD then Some(sent[p.j]) else None
  {
    if p.j >= 0 {
      MessagesLong(r, t, sent);
      MessagesFit(r, t, sent, p.j);
      ReceiverWithin(x, sample, sent, p);
    }
  }

  lemma ReceiverWithin(x: Rx, sample: bool, sent: seq<seq<int>>, p: Place)
    requires p.Valid() && p.j >= 0 && |sent| == p.j + 1 && |sent[p.j]| == WORDS
    requires forall i :: 0 <= i < WORDS ==> 0 <= sent[p.j][i] < 0x1_0000
    requires ReceiverAt(x, sent, p) && sample == Line(sent[p.j], p.u)
    ensures x.Valid() && p.Next().Valid() && ReceiverAt(x.Then(sample), sent, p.Next())
    ensures x.Done(sample) == if p.u == WORDS * WORD then Some(sent[p.j]) else None
  {
    ReceiverStep(x, sample, sent[p.j], p.u);
  }

  lemma ReceiverStep(x: Rx, sample: bool, words: seq<int>, u: nat)
    requires |words| == WORDS && forall i :: 0 <= i < WORDS ==> 0 <= words[i] < 0x1_0000
    requires sample == Line(words, u) && if u == 0 then x.Quiet() else x.Sampled(words, u - 1)
    ensures x.Valid() && x.Then(sample).Sampled(words, u)
    ensures u > WORDS * WORD ==> x.Then(sample).Quiet()
    ensures x.Done(sample) == if u == WORDS * WORD then Some(words) else None
  {
    AllWords(words);
    if u == 0 {
      FirstSample(x, words);
    } else {
      NextSample(x, words, u - 1);
    }
  }

  lemma MessagesFit(r: Rate, t: Time, sent: seq<seq<int>>, j: nat)
    requires Fits(r, t) && Messages(r, t, sent) && j < |sent|
    ensures forall i :: 0 <= i < |sent[j]| ==> 0 <= sent[j][i] < 0x1_0000
  {
    var k: nat := FRAME * j + 1;
    FitsLater(r, t, k);
    assert IsMessage(sent[j], r, Ticks(r, t, k), j % 3);
    var rel: bool, tod: bool :| sent[j] == Message(r, Ticks(r, t, k), j % 3, rel, tod);
    MessageWords(r, Ticks(r, t, k), j % 3, rel, tod);
  }

  lemma MessagesLong(r: Rate, t: Time, sent: seq<seq<int>>)
    requires Messages(r, t, sent)
    ensures forall i :: 0 <= i < |sent| ==> |sent[i]| == WORDS
  {
  }

  // ---- the link ----

  /** The line as the sink samples it. */
  ghost predicate LineAt(sample: bool, sent: seq<seq<int>>, p: Place)
    requires p.Valid() && |sent| == p.j + 1
  {
    sample == if p.j >= 0 then Line(sent[p.j], p.u) else true
  }

  /** a is b: all of it, or all but the time of day; the seconds modulo 2^48. */
  predicate Same(a: Time, b: Time, tod: bool) {
    && a.fns == b.fns && a.relNs == b.relNs && a.driftCnt == b.driftCnt
    && (tod ==> a.todNs == b.todNs && (a.todS - b.todS) % REL == 0)
  }

  lemma SameTicks(r: Rate, a: Time, b: Time, tod: bool)
    requires Same(a, b, tod)
    ensures Same(Tick(r, a), Tick(r, b), tod)
  {
  }

  /** Every message sent so far was made of the clock at its start. */
  ghost predicate Messages(r: Rate, t: Time, sent: seq<seq<int>>) {
    forall i :: 0 <= i < |sent| ==> IsMessage(sent[i], r, Ticks(r, t, FRAME * i + 1), i % 3)
  }

  /** The place of an edge: cycle u of message j. */
  datatype Place = Place(j: int, u: int) {
    predicate Valid() {
      -1 <= j && 0 <= u < FRAME && (j == -1 ==> u == FRAME - 1)
    }

    /** Edges that have passed. */
    function Edges(): int {
      FRAME * j + u + 1
    }

    function Next(): Place {
      if u == FRAME - 1 then Place(j + 1, 0) else Place(j, u + 1)
    }

    /** The last message to have arrived, and how long ago. */
    function Arrived(): int {
      if u > WORDS * WORD then j else j - 1
    }

    function Age(): int {
      if u > WORDS * WORD then u - WORDS * WORD - 1 else u + FRAME - WORDS * WORD - 1
    }

    /** The last message to have been taken over. */
    function Taken(td: int): int {
      if Age() >= td then Arrived() else Arrived() - 1
    }
  }

  /** How many cycles the sink runs behind the source. */
  function Lag(td: int): int {
    WORDS * WORD + 1 + td
  }

  /** A message is taken over when the sink is exactly Lag behind the clock it carries. */
  lemma TakenInStep(p: Place, td: int)
    requires p.Valid() && 1 <= td < FRAME && p.Arrived() >= 0 && p.Age() + 1 == td
    ensures p.Next().Edges() - Lag(td) == FRAME * p.Arrived() + 1
  {
  }

  predicate ReceiverAt(x: Rx, sent: seq<seq<int>>, p: Place)
    requires p.Valid() && |sent| >= p.j + if p.u > 0 then 1 else 0
  {
    if p.u == 0 || p.j == -1 then x.Quiet() else x.Sampled(sent[p.j], p.u - 1)
  }

  ghost predicate PendingAt(x: Sink, sent: seq<seq<int>>, p: Place)
    requires p.Valid() && |sent| >= p.j + if p.u > 0 then 1 else 0
    reads x
  {
    if p.Arrived() >= 0 && p.Age() < x.tdDelay
    then x.msg == Some(sent[p.Arrived()]) && x.msgDelay == x.tdDelay - p.Age()
    else x.msg == None && x.msgDelay == 0
  }

  /** From the first drift message on the sink's clock is the source's, Lag cycles ago; from
      the time of day message after that on, its time of day is too. */
  predicate InStep(rate: Rate, now: Time, r: Rate, t: Time, p: Place, td: int)
    requires p.Valid()
  {
    && rate.Valid() && now.Valid()
    && (p.Taken(td) >= 1 ==>
          && rate == r && p.Edges() >= Lag(td)
          && Same(now, Ticks(r, t, p.Edges() - Lag(td)), p.Taken(td) >= 3))
  }

  /** A message is taken over at the edge after p. */
  predicate Due(p: Place, td: int) {
    p.Arrived() >= 0 && p.Age() + 1 == td
  }

  lemma TakenNext(p: Place, td: int)
    requires p.Valid() && 1 <= td < FRAME
    ensures p.Next().Valid() && p.Next().Edges() == p.Edges() + 1
    ensures p.Arrived() >= 0 ==> p.Next().Taken(td) == if Due(p, td) then p.Arrived() else p.Taken(td)
    ensures p.Arrived() < 0 ==> p.Next().Taken(td) < 0
    ensures Due(p, td) ==> p.Taken(td) == p.Arrived() - 1
  {
  }

  /** An edge without a message. */
  lemma InStepTick(rate: Rate, now: Time, r: Rate, t: Time, p: Place, td: int)
    requires p.Valid() && 1 <= td < FRAME && InStep(rate, now, r, t, p, td) && !Due(p, td)
    ensures InStep(rate, Tick(rate, now), r, t, p.Next(), td)
  {
    TakenNext(p, td);
    TickValid(rate, now);
    if p.Taken(td) >= 1 {
      var n: nat := p.Edges() - Lag(td);
      SameTicks(r, now, Ticks(r, t, n), p.Taken(td) >= 3);
      assert Ticks(r, t, n + 1) == Tick(r, Ticks(r, t, n));
    }
  }

  /** What a message brings, whatever its flags say. */
  lemma MessageCarried(r: Rate, t: Time, index: int, m: seq<int>, r': Rate, t': Time)
    requires Fits(r, t) && 0 <= index < 3 && |m| == WORDS && IsMessage(m, r, t, index)
    ensures var a := Applied(m, r', t');
            && a.0.periodNs == r.periodNs && a.0.periodFns == r.periodFns
            && a.1.fns == t.fns && a.1.relNs == t.relNs
            && (if index == 1 then a.0 == r && a.1.driftCnt == t.driftCnt
                else a.0.driftNum == r'.driftNum && a.0.driftDenom == r'.driftDenom && a.1.driftCnt == t'.driftCnt)
            && (if index == 0 then a.1.todNs == t.todNs && a.1.todS == t.todS % REL
                else a.1.todNs == t'.todNs && a.1.todS == t'.todS)
  {
    var rel: bool, tod: bool :| m == Message(r, t, index, rel, tod);
    Carried(r, t, index, rel, tod, r', t');
  }

  /** An edge at which message m, the one that arrived last, is taken over. */
  lemma InStepTake(rate: Rate, now: Time, r: Rate, t: Time, p: Place, td: int, m: seq<int>)
    requires p.Valid() && 1 <= td < FRAME && InStep(rate, now, r, t, p, td) && Due(p, td) && Fits(r, t)
    requires IsMessage(m, r, Ticks(r, t, FRAME * p.Arrived() + 1), p.Arrived() % 3) && |m| == WORDS
    ensures var a := Applied(m, rate, Tick(rate, now)); InStep(a.0, a.1, r, t, p.Next(), td)
  {
    TakenNext(p, td);
    TakenInStep(p, td);
    TickValid(rate, now);
    var k: nat := FRAME * p.Arrived() + 1;
    var sentAs := Ticks(r, t, k);
    FitsLater(r, t, k);
    MessageCarried(r, sentAs, p.Arrived() % 3, m, rate, Tick(rate, now));
    if p.Taken(td) >= 1 {
      SameTicks(r, now, Ticks(r, t, k - 1), p.Taken(td) >= 3);
    }
    SecondsMod(sentAs.todS);
  }

  lemma SecondsMod(s: int)
    ensures (s % REL - s) % REL == 0
  {
    AddMultiple(s % REL - s, REL, s / REL);
  }

  /** What has gone into the delay line: its initial entry and the times before each edge. */
  function History(r: Rate, t: Time, k: nat): (h: seq<Time>)
    ensures |h| == k + 1
  {
    if k == 0 then [Time(0, 0, 0, 0, 0)] else History(r, t, k - 1) + [Ticks(r, t, k - 1)]
  }

  lemma {:induction false} HistoryAt(r: Rate, t: Time, k: nat, i: nat)
    requires 1 <= i <= k
    ensures History(r, t, k)[i] == Ticks(r, t, i - 1)
  {
    if i < k {
      HistoryAt(r, t, k - 1, i);
    }
  }

  lemma NewestOn<T>(s: seq<T>, x: T, n: nat)
    requires n > 0
    ensures Newest(Newest(s, n) + [x], n) == Newest(s + [x], n)
  {
  }

  lemma HistoryOn(r: Rate, t: Time, k: nat, depth: nat)
    requires depth > 0
    ensures Newest(Newest(History(r, t, k), depth) + [Ticks(r, t, k)], depth) == Newest(History(r, t, k + 1), depth)
  {
    NewestOn(History(r, t, k), Ticks(r, t, k), depth);
  }

  /** The messages after the edge at p, which starts one when the last has had its time. */
  function SentAfter(sent: seq<seq<int>>, m: seq<int>, p: Place): seq<seq<int>> {
    if p.u == FRAME - 1 then sent + [m] else sent
  }

  lemma MessagesAfter(r: Rate, t: Time, sent: seq<seq<int>>, m: seq<int>, p: Place)
    requires p.Valid() && |sent| == p.j + 1 && Messages(r, t, sent)
    requires p.u == FRAME - 1 ==> IsMessage(m, r, Ticks(r, t, p.Edges() + 1), (p.j + 1) % 3)
    ensures Messages(r, t, SentAfter(sent, m, p)) && |SentAfter(sent, m, p)| == p.Next().j + 1
  {
    if p.u == FRAME - 1 {
      assert FRAME * |sent| + 1 == p.Edges() + 1;
    }
  }

  ghost predicate SourceAt(x: Source, r: Rate, t: Time, sent: seq<seq<int>>, p: Place)
    requires p.Valid() && |sent| == p.j + 1
    reads x, x.clock, x.sender
  {
    && 1 <= x.tdDelay < FRAME
    && x.clock.RateNow() == r && x.clock.Now() == Ticks(r, t, p.Edges())
    && x.msgDelay == FRAME - 1 - p.u && x.msgIndex == (p.j + 1) % 3
    && if p.j >= 0 then x.sender.Sending(sent[p.j], p.u)
       else x.sender.word == None && x.sender.msg == [] && x.sender.data
  }

  /** One edge of a source at place p of a link; m is the message it starts, if it does. */
  method SourceEdge(x: Source, ghost r: Rate, ghost t: Time, ghost sent: seq<seq<int>>, ghost p: Place)
    returns (ghost m: seq<int>)
    requires p.Valid() && |sent| == p.j + 1 && r.Valid() && Ticks(r, t, p.Edges()).Valid() && SourceAt(x, r, t, sent, p)
    requires p.j >= 0 ==> |sent[p.j]| == WORDS
    modifies x, x.clock, x.sender
    ensures p.Next().Valid() && x.delayed == Newest(old(x.delayed) + [Ticks(r, t, p.Edges())], x.Depth())
    ensures p.u == FRAME - 1 ==> IsMessage(m, r, Ticks(r, t, p.Edges() + 1), (p.j + 1) % 3)
    ensures |SentAfter(sent, m, p)| == p.Next().j + 1 && SourceAt(x, r, t, SentAfter(sent, m, p), p.Next())
  {
    ghost var k: nat := p.Edges();
    NextPlace(r, t, p);
    ghost var words := if p.j >= 0 then sent[p.j] else [];
    m := x.Edge(words, p.u);
  }

  lemma NextPlace(r: Rate, t: Time, p: Place)
    requires p.Valid()
    ensures (p.j + 2) % 3 == ((p.j + 1) % 3 + 1) % 3
    ensures p.Next().Edges() == p.Edges() + 1 && Ticks(r, t, p.Edges() + 1) == Tick(r, Ticks(r, t, p.Edges()))
  {
    RegisterStep(p.j + 1, 1, 3);
  }

  ghost predicate SinkAt(x: Sink, r: Rate, t: Time, sent: seq<seq<int>>, p: Place)
    requires p.Valid() && |sent| >= p.j + if p.u > 0 then 1 else 0
    reads x, x.clock, x.receiver
  {
    && ReceiverAt(x.receiver.State(), sent, p) && PendingAt(x, sent, p)
    && InStep(x.clock.RateNow(), x.clock.Now(), r, t, p, x.tdDelay)
  }

  /** A new message does not concern what the sink is receiving. */
  lemma SinkGrows(x: Sink, r: Rate, t: Time, sent: seq<seq<int>>, m: seq<int>, p: Place)
    requires p.Valid() && p.Next().Valid() && |sent| == p.j + 1 && SinkAt(x, r, t, sent, p.Next())
    requires |SentAfter(sent, m, p)| == p.Next().j + 1
    ensures SinkAt(x, r, t, SentAfter(sent, m, p), p.Next())
  {
  }

  lemma LaunchReady(r: Rate, t: Time, sent: seq<seq<int>>, p: Place)
    requires p.Valid() && |sent| == p.j + 1 && Fits(r, t) && Messages(r, t, sent)
    ensures Ticks(r, t, p.Edges()).Valid() && (p.j >= 0 ==> |sent[p.j]| == WORDS)
  {
    TicksValid(r, t, p.Edges());
    MessagesLong(r, t, sent);
  }

  lemma LaunchDone(r: Rate, t: Time, sent: seq<seq<int>>, m: seq<int>, p: Place, depth: nat)
    requires p.Valid() && |sent| == p.j + 1 && Messages(r, t, sent) && depth > 0
    requires p.u == FRAME - 1 ==> IsMessage(m, r, Ticks(r, t, p.Edges() + 1), (p.j + 1) % 3)
    ensures p.Next().Valid() && Messages(r, t, SentAfter(sent, m, p)) && |SentAfter(sent, m, p)| == p.Next().j + 1
    ensures Newest(Newest(History(r, t, p.Edges()), depth) + [Ticks(r, t, p.Edges())], depth)
         == Newest(History(r, t, p.Next().Edges()), depth)
  {
    MessagesAfter(r, t, sent, m, p);
    HistoryOn(r, t, p.Edges(), depth);
  }

  class Link {
    const source: Source
    const sink: Sink

    ghost const rate: Rate
    ghost const start: Time
    ghost var place: Place
    ghost var sent: seq<seq<int>>

    /** Both ends out of reset: the source with its rate and time, the sink with any it may hold. */
    constructor (r: Rate, t: Time, sinkRate: Rate, sinkTime: Time, td: nat, relUpdated: bool, todUpdated: bool)
      requires Fits(r, t) && sinkRate.Valid() && sinkTime.Valid() && 1 <= td < FRAME
      ensures Valid() && fresh(this) && fresh(Repr())
      ensures rate == r && start == t && source.tdDelay == td && place == Place(-1, FRAME - 1)
    {
      source := new Source(r, t, td, relUpdated, todUpdated);
      sink := new Sink(sinkRate, sinkTime, td);
      rate, start, place, sent := r, t, Place(-1, FRAME - 1), [];
      new;
      assert Ticks(r, t, 0) == t && History(r, t, 0) == [Time(0, 0, 0, 0, 0)];
    }

    ghost function Repr(): set<object>
    {
      {this, source, source.clock, source.sender, sink, sink.clock, sink.receiver}
    }

    ghost predicate Valid()
      reads Repr()
    {
      && place.Valid() && |sent| == place.j + 1 && Fits(rate, start) && Messages(rate, start, sent)
      && source.clock != sink.clock && SourceAt(source, rate, start, sent, place)
      && source.delayed == Newest(History(rate, start, place.Edges()), source.Depth()) && SinkAt(sink, rate, start, sent, place)
      && sink.tdDelay == source.tdDelay
    }

    /** One clock edge: the sink samples what the source put on the line an edge ago. */
    method Edge()
      requires Valid()
      modifies Repr()
      ensures Valid() && place == old(place).Next()
    {
      var sample := source.sender.data;
      SinkEdge(sink, sample, rate, start, sent, place);
      Launch();
    }

    /** The source's part of an edge. */
    method Launch()
      requires Sampled()
      modifies this, source, source.clock, source.sender
      ensures Valid() && place == old(place).Next()
    {
      ghost var m := SourcePart();
      SinkGrows(sink, rate, start, sent, m, place);
      sent := SentAfter(sent, m, place);
      place := place.Next();
    }

    method SourcePart() returns (ghost m: seq<int>)
      requires Sampled()
      modifies source, source.clock, source.sender
      ensures place.Next().Valid() && |SentAfter(sent, m, place)| == place.Next().j + 1
      ensures Messages(rate, start, SentAfter(sent, m, place))
      ensures SourceAt(source, rate, start, SentAfter(sent, m, place), place.Next())
      ensures source.delayed == Newest(History(rate, start, place.Next().Edges()), source.Depth())
    {
      LaunchReady(rate, start, sent, place);
      m := SourceEdge(source, rate, start, sent, place);
      LaunchDone(rate, start, sent, m, place, source.Depth());
    }

    /** The sink has had its part of an edge and the source has not. */
    ghost predicate Sampled()
      reads Repr()
    {
      && place.Valid() && |sent| == place.j + 1 && Fits(rate, start) && Messages(rate, start, sent)
      && source.clock != sink.clock && SourceAt(source, rate, start, sent, place)
      && source.delayed == Newest(History(rate, start, place.Edges()), source.Depth())
      && place.Next().Valid() && SinkAt(sink, rate, start, sent, place.Next())
      && sink.tdDelay == source.tdDelay
    }

    /** Any number of edges. */
    method Run(n: nat)
      requires Valid()
      modifies Repr()
      ensures Valid() && place.Edges() == old(place.Edges()) + n
    {
      for i := 0 to n
        invariant Valid() && place.Edges() == old(place.Edges()) + i
      {
        Edge();
      }
    }
  }

  /** After a drift message and then a time of day message have been taken over, the sink's
      clock is the source's of Lag cycles ago, at every later edge and whatever the sink held
      before; one more cycle makes it what the source's own delay line gives out. */
  lemma SinkLocks(link: Link)
    requires link.Valid() && link.place.Edges() > 1007 + link.source.tdDelay
    ensures var now, was := link.sink.clock.Now(), Ticks(link.rate, link.start, link.place.Edges() - 239 - link.source.tdDelay);
            && link.sink.clock.RateNow() == link.rate
            && now.fns == was.fns && now.relNs == was.relNs && now.driftCnt == was.driftCnt
            && now.todNs == was.todNs && (now.todS - was.todS) % 0x1_0000_0000_0000 == 0
    ensures |link.source.delayed| > 0
    ensures link.source.delayed[0] == Ticks(link.rate, link.start, link.place.Edges() - 238 - link.source.tdDelay)
  {
    var p, td := link.place, link.source.tdDelay;
    assert p.Taken(td) >= 3;
    var k: nat, depth := p.Edges(), link.source.Depth();
    var h := History(link.rate, link.start, k);
    assert link.source.delayed[0] == h[k + 1 - depth];
    HistoryAt(link.rate, link.start, k, k + 1 - depth);
  }
}
