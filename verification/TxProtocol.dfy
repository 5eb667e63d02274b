/** The transmit path of the Corundum kernel driver (src/cndm/modules/cndm/cndm_sq.c)
    against its device, as atomic steps that interleave freely.

    Three parties run at once: the stack calling `cndm_start_xmit` (serialised with
    itself), NAPI calling `cndm_poll_tx_cq`, and the device. Pointers count without
    wrapping here; TxQueue.dfy proves that the wrapping registers behave the same. */
module TxProtocol {
  type Skb = int

  const RING_SIZE := 256
  const STOP_THRESHOLD := 128
  const MAX_BUDGET := 64

  /** Where `cndm_start_xmit` stands. */
  datatype Xmit = XIdle | XCompare | XStop | XRing

  /** Where `cndm_poll_tx_cq` stands; `done` completions of at most `budget` so far. NAPI calls it when
      the queue is scheduled; without a budget anyone may, at any time no other poll runs. */
  datatype Poll =
    | PIdle
    | PLoop(budget: nat, done: nat)
    | PPublish(budget: nat, done: nat)
    | PDoorbell(budget: nat, done: nat)
    | PCheck(budget: nat, done: nat)
    | PDecide(budget: nat, done: nat)
    | PWake(budget: nat, done: nat)
    | PReturn(budget: nat, done: nat)
    | PArm

  datatype State = State(
    sent: seq<Skb>,     // packets given a descriptor, oldest first: prod_ptr is |sent|
    freed: seq<Skb>,    // packets handed back, oldest first: the poll's own cons_ptr is |freed|
    cons: nat,          // sq->cons_ptr as published
    doorbell: nat,      // descriptors announced to the device
    stopped: bool,      // the stack's view of the queue
    xmit: Xmit,
    poll: Poll,
    scheduled: bool,    // NAPI owes the queue a poll, or is in one
    missed: bool,       // an event arrived while it was scheduled
    completed: nat,     // completions the device has written
    cqCons: nat,        // CQ consumer count the device has been told
    notifying: bool,    // a completion is written but not yet marked in the queue state
    fire: bool,         // the queue state asks for an event
    arm: bool,          // the driver has asked to be told
    event: bool,        // an event is on its way to the interrupt handler
    dropped: bool)      // a completion was discarded because its queue looked full

  datatype Step =
    | Write(skb: Skb) | Compare | Stop | Ring
    | Begin(budget: nat) | Take | Exit | Publish | CqDoorbell | Check | Decide | Wake | Return | Arm
    | Complete | Notify | Scrub | Deliver

  const Init := State([], [], 0, 0, false, XIdle, PIdle, false, false, 0, 0, false, false, true, false, false)

  function Outstanding(s: State): int { |s.sent| - s.cons }

  predicate Enabled(s: State, a: Step) {
    match a
    case Write(_) => s.xmit == XIdle && !s.stopped
    case Compare => s.xmit == XCompare
    case Stop => s.xmit == XStop
    case Ring => s.xmit == XRing
    case Begin(budget) => s.poll == PIdle && budget <= MAX_BUDGET && (budget > 0 ==> s.scheduled)
    case Take => s.poll.PLoop? && s.poll.done < s.poll.budget && |s.freed| < s.completed && |s.freed| < |s.sent|
    case Exit => s.poll.PLoop? && (s.poll.done >= s.poll.budget || |s.freed| >= s.completed)
    case Publish => s.poll.PPublish?
    case CqDoorbell => s.poll.PDoorbell?
    case Check => s.poll.PCheck?
    case Decide => s.poll.PDecide?
    case Wake => s.poll.PWake?
    case Return => s.poll.PReturn?
    case Arm => s.poll.PArm?
    case Complete => s.completed < s.doorbell && !s.notifying
    case Notify => s.notifying
    case Scrub => s.arm && s.fire && !s.event
    case Deliver => s.event
  }

  function Do(s: State, a: Step): State
    requires Enabled(s, a)
  {
    match a
    case Write(skb) => s.(sent := s.sent + [skb], xmit := XCompare)
    case Compare => s.(xmit := if |s.sent| - s.cons >= STOP_THRESHOLD then XStop else XRing)
    case Stop => s.(stopped := true, xmit := XRing)
    case Ring => s.(doorbell := |s.sent|, xmit := XIdle)
    case Begin(budget) => s.(poll := PLoop(budget, 0))
    case Take => s.(freed := s.freed + [s.sent[|s.freed|]], poll := PLoop(s.poll.budget, s.poll.done + 1))
    case Exit => s.(poll := PPublish(s.poll.budget, s.poll.done))
    case Publish => s.(cons := |s.freed|, poll := PDoorbell(s.poll.budget, s.poll.done))
    case CqDoorbell => s.(cqCons := |s.freed|, poll := PCheck(s.poll.budget, s.poll.done))
    case Check =>
      s.(poll := if s.stopped then PDecide(s.poll.budget, s.poll.done) else PReturn(s.poll.budget, s.poll.done))
    case Decide =>
      s.(poll := if s.poll.done != 0 || |s.sent| == s.cons then PWake(s.poll.budget, s.poll.done)
                 else PReturn(s.poll.budget, s.poll.done))
    case Wake => s.(stopped := false, poll := PReturn(s.poll.budget, s.poll.done))
    case Return =>
      if s.poll.done == s.poll.budget then s.(poll := PIdle)
      else s.(poll := PArm, scheduled := s.missed, missed := false)
    case Arm => s.(cqCons := |s.freed|, arm := true, poll := PIdle)
    case Complete =>
      if s.completed - s.cqCons >= RING_SIZE then s.(dropped := true)
      else s.(completed := s.completed + 1, notifying := true)
    case Notify => s.(fire := true, notifying := false)
    case Scrub => s.(arm := false, fire := false, event := true)
    case Deliver =>
      if s.scheduled then s.(event := false, missed := true) else s.(event := false, scheduled := true)
  }

  /** A history of the system: every state follows from the one before by one step. */
  ghost predicate Run(ss: seq<State>, acts: seq<Step>) {
    && |ss| == |acts| + 1
    && forall i :: 0 <= i < |acts| ==> Enabled(ss[i], acts[i]) && ss[i + 1] == Do(ss[i], acts[i])
  }

  ghost predicate Reachable(s: State) {
    exists ss, acts :: Run(ss, acts) && ss[0] == Init && ss[|acts|] == s
  }

  // ----- the invariant -----

  /** A poll that took something has published it but not yet decided about waking. */
  predicate WakePending(s: State) {
    (s.poll.PDoorbell? || s.poll.PCheck? || s.poll.PDecide? || s.poll.PWake?) && s.poll.done > 0
  }

  /** Pointers in order, and where each party is with them. */
  predicate Ordered(s: State) {
    && s.cons <= |s.freed| <= s.completed <= s.doorbell <= |s.sent|
    && s.doorbell == (if s.xmit == XIdle then |s.sent| else |s.sent| - 1)
    && (s.xmit == XCompare || s.xmit == XStop ==> !s.stopped)
    && |s.freed| == s.cons + (if s.poll.PLoop? || s.poll.PPublish? then s.poll.done else 0)
    && s.cons == s.cqCons + (if s.poll.PDoorbell? then s.poll.done else 0)
    && (!s.poll.PIdle? && !s.poll.PArm? ==> s.poll.done <= s.poll.budget <= MAX_BUDGET)
    && !s.dropped
  }

  /** What has been handed back is what was sent first. */
  predicate InOrder(s: State) {
    s.freed <= s.sent
  }

  /** How far the ring may be filled, by who is where. */
  predicate Bounded(s: State) {
    Outstanding(s) <=
      (if s.xmit == XIdle || s.xmit == XRing then (if s.stopped then 129 else 128) else 129)
      - (if WakePending(s) then 1 else 0)
  }

  predicate WakeOwed(s: State) {
    && (s.stopped ==> Outstanding(s) > 0 || WakePending(s))
    && (s.poll.PDecide? || s.poll.PWake? ==> s.stopped)
    && (s.poll.PWake? ==> s.poll.done > 0)
  }

  /** Exactly one of the device, an event and NAPI has the duty to look at the queue next. */
  predicate OneToken(s: State) {
    && (if s.arm then 1 else 0) + (if s.event then 1 else 0) + (if s.scheduled then 1 else 0)
       + (if s.poll.PArm? then 1 else 0) == 1
    && (!s.poll.PIdle? && !s.poll.PArm? && s.poll.budget > 0 ==> s.scheduled)
    && !s.missed
  }

  /** Once a poll has found nothing more, later completions are remembered by the device. */
  predicate Remembered(s: State) {
    s.completed > |s.freed| ==>
      || s.fire || s.notifying || s.event || (s.scheduled && (s.poll.PIdle? || s.poll.PLoop?))
      || (s.scheduled && !s.poll.PIdle? && !s.poll.PArm? && s.poll.done == s.poll.budget)
  }

  predicate Inv(s: State) {
    Ordered(s) && InOrder(s) && Bounded(s) && WakeOwed(s) && OneToken(s) && Remembered(s)
  }

  predicate Xmits(a: Step) {
    a.Write? || a.Compare? || a.Stop? || a.Ring?
  }

  predicate Devices(a: Step) {
    a.Complete? || a.Notify? || a.Scrub? || a.Deliver?
  }

  lemma OrderedStep(s: State, a: Step)
    requires Inv(s) && Enabled(s, a)
    ensures Ordered(Do(s, a))
  {
    if Xmits(a) {
      OrderedXmit(s, a);
    } else if Devices(a) {
      OrderedDevice(s, a);
    } else {
      OrderedPoll(s, a);
    }
  }

  lemma OrderedXmit(s: State, a: Step)
    requires Inv(s) && Enabled(s, a) && Xmits(a)
    ensures Ordered(Do(s, a))
  {
  }

  lemma OrderedDevice(s: State, a: Step)
    requires Inv(s) && Enabled(s, a) && Devices(a)
    ensures Ordered(Do(s, a))
  {
  }

  lemma OrderedPoll(s: State, a: Step)
    requires Inv(s) && Enabled(s, a) && !Xmits(a) && !Devices(a)
    ensures Ordered(Do(s, a))
  {
  }

  lemma InOrderStep(s: State, a: Step)
    requires Inv(s) && Enabled(s, a)
    ensures InOrder(Do(s, a))
  {
  }

  lemma BoundedStep(s: State, a: Step)
    requires Inv(s) && Enabled(s, a)
    ensures Bounded(Do(s, a))
  {
    if Xmits(a) {
      BoundedXmit(s, a);
    } else if Devices(a) {
      BoundedDevice(s, a);
    } else {
      BoundedPoll(s, a);
    }
  }

  lemma BoundedXmit(s: State, a: Step)
    requires Inv(s) && Enabled(s, a) && Xmits(a)
    ensures Bounded(Do(s, a))
  {
  }

  lemma BoundedDevice(s: State, a: Step)
    requires Inv(s) && Enabled(s, a) && Devices(a)
    ensures Bounded(Do(s, a))
  {
  }

  lemma BoundedPoll(s: State, a: Step)
    requires Inv(s) && Enabled(s, a) && !Xmits(a) && !Devices(a)
    ensures Bounded(Do(s, a))
  {
  }

  lemma WakeOwedStep(s: State, a: Step)
    requires Inv(s) && Enabled(s, a)
    ensures WakeOwed(Do(s, a))
  {
  }

  lemma TokenStep(s: State, a: Step)
    requires Inv(s) && Enabled(s, a)
    ensures OneToken(Do(s, a)) && Remembered(Do(s, a))
  {
    if Xmits(a) {
      TokenXmit(s, a);
    } else if Devices(a) {
      TokenDevice(s, a);
    } else {
      TokenPoll(s, a);
    }
  }

  lemma TokenXmit(s: State, a: Step)
    requires Inv(s) && Enabled(s, a) && Xmits(a)
    ensures OneToken(Do(s, a)) && Remembered(Do(s, a))
  {
  }

  lemma TokenDevice(s: State, a: Step)
    requires Inv(s) && Enabled(s, a) && Devices(a)
    ensures OneToken(Do(s, a)) && Remembered(Do(s, a))
  {
  }

  lemma TokenPoll(s: State, a: Step)
    requires Inv(s) && Enabled(s, a) && !Xmits(a) && !Devices(a)
    ensures OneToken(Do(s, a)) && Remembered(Do(s, a))
  {
  }

  /** Every step of every party keeps the invariant. */
  lemma InvStep(s: State, a: Step)
    requires Inv(s) && Enabled(s, a)
    ensures Inv(Do(s, a))
  {
    OrderedStep(s, a);
    InOrderStep(s, a);
    BoundedStep(s, a);
    WakeOwedStep(s, a);
    TokenStep(s, a);
  }

  lemma {:induction false} InvRun(ss: seq<State>, acts: seq<Step>, n: nat)
    requires Run(ss, acts) && Inv(ss[0]) && n <= |acts|
    ensures Inv(ss[n])
  {
    if n > 0 {
      InvRun(ss, acts, n - 1);
      InvStep(ss[n - 1], acts[n - 1]);
    }
  }

  lemma ReachableInv(s: State)
    requires Reachable(s)
    ensures Inv(s)
  {
    var ss, acts :| Run(ss, acts) && ss[0] == Init && ss[|acts|] == s;
    InvRun(ss, acts, |acts|);
  }

  // ----- safety -----

  /** No lost wakeup, as a state property: while the queue is stopped a completion is
      still owed, or a poll that consumed one is still short of its wake check. */
  lemma NoLostWakeup(s: State)
    requires Reachable(s) && s.stopped
    ensures s.cons != |s.sent| || WakePending(s)
  {
    ReachableInv(s);
  }

  /** The wake check never fires on an empty ring alone: `done != 0` decides it. */
  lemma EmptyTestIsRedundant(s: State)
    requires Reachable(s) && s.poll.PDecide?
    ensures Do(s, Decide).poll.PWake? <==> s.poll.done != 0
  {
    ReachableInv(s);
  }

  /** The ring never holds more than 129 packets, so the slot a new descriptor takes
      is not one the poll has still to free. */
  lemma RingNeverOverruns(s: State)
    requires Reachable(s)
    ensures 0 <= Outstanding(s) <= 129
    ensures |s.sent| - |s.freed| <= 256
    ensures s.xmit == XIdle && !s.stopped ==> Outstanding(s) <= 128
  {
    ReachableInv(s);
  }

  /** Packets come back in the order they were sent, each once, and only after the
      device has completed them. */
  lemma FreedInOrder(s: State)
    requires Reachable(s)
    ensures |s.freed| <= s.completed <= s.doorbell <= |s.sent|
    ensures s.freed == s.sent[..|s.freed|]
  {
    ReachableInv(s);
  }

  /** A packet the phase test offers is always one that was sent. */
  lemma TakeIsSafe(s: State)
    requires Reachable(s) && s.poll.PLoop? && |s.freed| < s.completed
    ensures |s.freed| < |s.sent|
  {
    ReachableInv(s);
  }

  /** The completion queue never looks full to the device, so it discards nothing. */
  lemma NothingDropped(s: State)
    requires Reachable(s)
    ensures s.completed - s.cqCons <= 193 < 256
    ensures !s.dropped
  {
    ReachableInv(s);
  }

  /** Events cannot overlap a poll, but for one without a budget: NAPI never records a missed one,
      and a poll never starts before the previous one has re-armed the queue. */
  lemma PollsAreSerial(s: State)
    requires Reachable(s)
    ensures !s.missed
    ensures s.poll.PArm? || (!s.poll.PIdle? && s.poll.budget > 0) ==> !s.arm && !s.event
    ensures s.poll.PArm? ==> !s.scheduled
  {
    ReachableInv(s);
  }

  // ----- progress -----

  /** Work left before the system comes to rest if no further packet is sent. */
  function Rank(s: State): int {
    23 * (|s.sent| - s.completed) + 10 * (s.completed - |s.freed|)
    + (if s.notifying then 12 else 0) + (if s.fire then 11 else 0) + (if s.event then 10 else 0)
    + (match s.xmit case XIdle => 0 case XCompare => 3 case XStop => 2 case XRing => 1)
    + PollRank(s.poll, s.scheduled)
  }

  function PollRank(poll: Poll, scheduled: bool): nat {
    match poll
    case PIdle => if scheduled then 9 else 0
    case PLoop(b, d) => Held(b, d, scheduled) + 8
    case PPublish(b, d) => Held(b, d, scheduled) + 7
    case PDoorbell(b, d) => Held(b, d, scheduled) + 6
    case PCheck(b, d) => Held(b, d, scheduled) + 5
    case PDecide(b, d) => Held(b, d, scheduled) + 4
    case PWake(b, d) => Held(b, d, scheduled) + 3
    case PReturn(b, d) => Held(b, d, scheduled) + 2
    case PArm => 1
  }

  /** A poll that took something may use its whole budget and be called again, and so is one that
      was called without a budget. */
  function Held(budget: nat, done: nat, scheduled: bool): nat {
    if done > 0 || (budget == 0 && scheduled) then 9 else 0
  }

  lemma RankIsNatural(s: State)
    requires Inv(s)
    ensures Rank(s) >= 0
  {
  }

  lemma RankFallsXmit(s: State, a: Step)
    requires Inv(s) && Enabled(s, a) && Xmits(a) && !a.Write?
    ensures Rank(Do(s, a)) < Rank(s)
  {
  }

  lemma RankFallsDevice(s: State, a: Step)
    requires Inv(s) && Enabled(s, a) && Devices(a)
    ensures Rank(Do(s, a)) < Rank(s)
  {
    DeliverRank(s.poll);
  }

  lemma DeliverRank(poll: Poll)
    ensures PollRank(poll, true) <= PollRank(poll, false) + 9
  {
  }

  lemma RankFallsPoll(s: State, a: Step)
    requires Inv(s) && Enabled(s, a) && !Xmits(a) && !Devices(a) && a != Begin(0)
    ensures Rank(Do(s, a)) < Rank(s)
  {
  }

  lemma RankFalls(s: State, a: Step)
    requires Inv(s) && Enabled(s, a) && !a.Write?
    ensures 0 <= Rank(Do(s, a)) && (if a == Begin(0) then Rank(Do(s, a)) <= Rank(s) + 8 else Rank(Do(s, a)) < Rank(s))
  {
    InvStep(s, a);
    RankIsNatural(Do(s, a));
    if Xmits(a) {
      RankFallsXmit(s, a);
    } else if Devices(a) {
      RankFallsDevice(s, a);
    } else if a != Begin(0) {
      RankFallsPoll(s, a);
    }
  }

  /** Nothing that can stop the machinery leaves the queue stopped. */
  lemma SomeoneMoves(s: State) returns (a: Step)
    requires Inv(s) && s.stopped
    ensures Enabled(s, a) && !a.Write? && a != Begin(0)
  {
    a := if s.xmit == XCompare then Compare
    else if s.xmit == XStop then Stop
    else if s.xmit == XRing then Ring
    else if s.poll.PLoop? then (if s.poll.done < s.poll.budget && |s.freed| < s.completed then Take else Exit)
    else if s.poll.PPublish? then Publish
    else if s.poll.PDoorbell? then CqDoorbell
    else if s.poll.PCheck? then Check
    else if s.poll.PDecide? then Decide
    else if s.poll.PWake? then Wake
    else if s.poll.PReturn? then Return
    else if s.poll.PArm? then Arm
    else if s.scheduled then Begin(MAX_BUDGET)
    else if s.event then Deliver
    else if s.notifying then Notify
    else if s.fire then Scrub
    else Complete;
  }

  /** A stopped queue never deadlocks: some party other than the stack has a step. */
  lemma StoppedCanMove(s: State)
    requires Reachable(s) && s.stopped
    ensures exists a :: Enabled(s, a) && !a.Write? && a != Begin(0)
  {
    ReachableInv(s);
    var a := SomeoneMoves(s);
  }

  /** Polls without a budget, which consume nothing. */
  function ZeroPolls(acts: seq<Step>): nat {
    if acts == [] then 0
    else ZeroPolls(acts[..|acts| - 1]) + if acts[|acts| - 1] == Begin(0) then 1 else 0
  }

  /** No lost wakeup, over runs: whatever the scheduler does, a queue that is stopped
      is woken within `Rank` steps, and nine for every poll without a budget. */
  lemma {:induction false} StoppedQueueWakes(ss: seq<State>, acts: seq<Step>)
    requires Run(ss, acts) && Reachable(ss[0])
    requires |acts| >= Rank(ss[0]) + 9 * ZeroPolls(acts)
    ensures exists i :: 0 <= i <= |acts| && !ss[i].stopped
  {
    ReachableInv(ss[0]);
    if forall i :: 0 <= i <= |acts| ==> ss[i].stopped {
      RankAlong(ss, acts, |acts|);
      assert acts[..|acts|] == acts;
      InvRun(ss, acts, |acts|);
      var a := SomeoneMoves(ss[|acts|]);
      RankFalls(ss[|acts|], a);
    }
  }

  lemma {:induction false} RankAlong(ss: seq<State>, acts: seq<Step>, n: nat)
    requires Run(ss, acts) && Inv(ss[0]) && n <= |acts|
    requires forall i :: 0 <= i <= n ==> ss[i].stopped
    ensures Rank(ss[n]) <= Rank(ss[0]) - n + 9 * ZeroPolls(acts[..n])
  {
    if n > 0 {
      assert acts[..n][..n - 1] == acts[..n - 1];
      RankAlong(ss, acts, n - 1);
      InvRun(ss, acts, n - 1);
      RankFalls(ss[n - 1], acts[n - 1]);
    }
  }

  // ----- the bound is met -----

  lemma RunExtends(ss: seq<State>, acts: seq<Step>, a: Step)
    requires Run(ss, acts) && Enabled(ss[|acts|], a)
    ensures Run(ss + [Do(ss[|acts|], a)], acts + [a])
  {
    var ss', acts' := ss + [Do(ss[|acts|], a)], acts + [a];
    forall i | 0 <= i < |acts'|
      ensures Enabled(ss'[i], acts'[i]) && ss'[i + 1] == Do(ss'[i], acts'[i])
    {
      if i < |acts| {
        assert ss'[i] == ss[i] && ss'[i + 1] == ss[i + 1] && acts'[i] == acts[i];
      }
    }
  }

  lemma Extends(s: State, a: Step) returns (t: State)
    requires Reachable(s) && Enabled(s, a)
    ensures t == Do(s, a) && Reachable(t)
  {
    t := Do(s, a);
    var ss, acts :| Run(ss, acts) && ss[0] == Init && ss[|acts|] == s;
    RunExtends(ss, acts, a);
    assert (ss + [t])[|acts + [a]|] == t;
  }

  lemma {:induction false} Fill(k: nat) returns (s: State)
    requires k < STOP_THRESHOLD
    ensures Reachable(s) && |s.sent| == k && s == Init.(sent := s.sent, doorbell := k)
  {
    if k == 0 {
      s := Init;
      assert Run([Init], []) && [Init][0] == Init;
    } else {
      s := Fill(k - 1);
      s := SendOne(s);
    }
  }

  lemma SendOne(s: State) returns (t: State)
    requires Reachable(s) && s.xmit == XIdle && !s.stopped && |s.sent| + 1 - s.cons < STOP_THRESHOLD
    ensures Reachable(t) && |t.sent| == |s.sent| + 1 && t == s.(sent := t.sent, doorbell := |t.sent|)
  {
    t := Extends(s, Write(0));
    t := Extends(t, Compare);
    t := Extends(t, Ring);
  }

  lemma OneCompleted(s: State) returns (t: State)
    requires Reachable(s) && |s.sent| == 127 && s == Init.(sent := s.sent, doorbell := 127)
    ensures Reachable(t) && t == s.(completed := 1, arm := false, scheduled := true)
  {
    t := Extends(s, Complete);
    t := Extends(t, Notify);
    t := Extends(t, Scrub);
    t := Extends(t, Deliver);
  }

  lemma OneTaken(s: State) returns (t: State)
    requires Reachable(s) && |s.sent| == 127 && s.freed == [] && s.completed == 1
    requires s.scheduled && s.poll == PIdle
    ensures Reachable(t) && |t.freed| == 1 && t == s.(freed := t.freed, poll := PLoop(1, 1))
  {
    t := Extends(s, Begin(1));
    t := Extends(t, Take);
  }

  /** A poll that has taken one packet and published it, its wake check still ahead. */
  lemma OnePublished(s: State) returns (t: State)
    requires Reachable(s) && |s.sent| == 127 && s.freed == [] && s.completed == 1
    requires s.scheduled && s.poll == PIdle
    ensures Reachable(t) && |t.freed| == 1
    ensures t == s.(freed := t.freed, cons := 1, poll := PDoorbell(1, 1))
  {
    t := OneTaken(s);
    t := Extends(t, Exit);
    t := Extends(t, Publish);
  }

  /** The packet that reaches the threshold: the queue is stopped behind it. */
  lemma OneStops(s: State) returns (t: State)
    requires Reachable(s) && s.xmit == XIdle && !s.stopped && |s.sent| + 1 - s.cons == STOP_THRESHOLD
    ensures Reachable(t) && |t.sent| == |s.sent| + 1
    ensures t == s.(sent := t.sent, stopped := true, doorbell := |t.sent|)
  {
    t := Extends(s, Write(0));
    t := Extends(t, Compare);
    t := Extends(t, Stop);
    t := Extends(t, Ring);
  }

  /** A wake decided on completions older than the stop lets one packet more in than
      the threshold: the bound of 129 is reached, so 128 would not be one. */
  lemma BoundIsTight()
    ensures exists s :: Reachable(s) && Outstanding(s) == 129
  {
    var s := Fill(127);
    s := OneCompleted(s);
    s := OnePublished(s);
    s := SendOne(s);
    s := OneStops(s);
    s := Extends(s, CqDoorbell);
    s := Extends(s, Check);
    s := Extends(s, Decide);
    s := Extends(s, Wake);
    s := Extends(s, Write(0));
  }
}
