/** The bus master of src/lss/rtl/taxi_i2c_master.sv as the init module sees it: its two handshakes
    and the states between them, for the write and stop commands the module sends; and both on one
    board. The bit engine below is the time it takes. */
module I2cHost {
  import opened Arith
  import opened Base
  import opened I2cInit
  import opened I2cFsm
  import opened I2cCompile
  import opened I2cBus

  datatype HostState = Free | ActiveWrite | StartWait | Address1 | Address2 | Write1 | Write2 | Write3

  /** What the outside decides at an edge: whether anyone holds the bus, and for how many edges an
      operation that begins now keeps the bit engine busy. */
  datatype Env = Env(busActive: bool, latency: nat)

  class Master {
    const stopOnIdle: bool

    var state: HostState
    var phyWait: nat
    var addr: septet
    var data: byte
    var bitCount: nibble
    var modeStop: bool
    var cmdReady: bool
    var txReady: bool

    /** Whether the byte to come follows a start, and what has been put on the bus. */
    var started: bool
    var bus: seq<BusOp>

    constructor (stop: bool, wait: nat)
      ensures Valid() && fresh(this) && View() == Released && phyWait == wait && stopOnIdle == stop && bus == []
    {
      stopOnIdle, state, phyWait, addr, data, bitCount := stop, Free, wait, 0, 0, 0;
      modeStop, cmdReady, txReady, started, bus := false, false, false, false, [];
    }

    ghost predicate Valid()
      reads this
    {
      && (cmdReady ==> phyWait == 0 && (state == Free || state == ActiveWrite))
      && (txReady ==> phyWait == 0 && state == Write1)
    }

    /** A write command has been taken, and its byte has not. */
    predicate Awaiting()
      reads this`state
    {
      state == StartWait || state == Address1 || state == Address2 || state == Write1
    }

    function View(): (v: Hold)
      reads this`state, this`addr, this`started, this`modeStop
      ensures v.Awaits? <==> Awaiting()
    {
      if Awaiting() then Awaits(addr, started, modeStop)
      else if state == Free then Released
      else Holding(addr, modeStop)
    }

    /** Operations of the bit engine, and steps of its own, until the master is ready again. */
    function Ahead(): nat
      reads this`state, this`bitCount, this`cmdReady, this`txReady
    {
      match state
      case Free => if cmdReady then 0 else 1
      case ActiveWrite => if cmdReady then 0 else 1
      case StartWait => 11
      case Address1 => bitCount + 2
      case Address2 => 1
      case Write1 => if txReady then 0 else 1
      case Write2 => bitCount + 3
      case Write3 => 2
    }

    /** Edges until it is ready, with operations of at most l edges. */
    function Distance(l: nat): nat
      reads this`state, this`phyWait, this`bitCount, this`cmdReady, this`txReady
    {
      phyWait + Ahead() * (l + 1)
    }

    /** It has what it needs for its next step. */
    predicate Served(cmdValid: bool, txValid: bool)
      reads this`state
    {
      if Awaiting() then txValid else cmdValid
    }

    predicate Takes(cmdValid: bool, txValid: bool)
      reads this`cmdReady, this`txReady
    {
      (cmdReady && cmdValid) || (txReady && txValid)
    }

    /** Waiting for someone else's stop condition. */
    predicate Held(e: Env)
      reads this`state, this`phyWait
    {
      phyWait == 0 && state == StartWait && e.busActive
    }

    method Begin(e: Env)
      modifies this`state, this`phyWait, this`bitCount
      ensures state == Address1 && phyWait == e.latency && bitCount == 8
    {
      phyWait := e.latency;
      bitCount := 8;
      state := Address1;
    }

    /** A command taken while the bus is free. */
    method TakeFree(cmd: Beat, e: Env)
      requires Valid() && state == Free && cmd.write && phyWait == 0
      modifies this
      ensures Valid() && View() == Awaits(cmd.addr, true, cmd.stop) && bus == old(bus)
      ensures phyWait <= e.latency && Ahead() <= 11
    {
      addr, modeStop, started := cmd.addr, cmd.stop, true;
      cmdReady := false;
      if e.busActive {
        state := StartWait;
      } else {
        Begin(e);
      }
    }

    /** A command taken while the bus is ours. */
    method TakeActive(cmd: Beat, e: Env) returns (ghost news: seq<BusOp>)
      requires Valid() && state == ActiveWrite && phyWait == 0
      modifies this
      ensures Valid() && bus == old(bus) + news && Moves(old(View()), true, true, cmd, false, 0, View(), news)
      ensures phyWait <= e.latency && Ahead() <= 11
    {
      Alone(bus);
      news := [];
      cmdReady := false;
      if cmd.write {
        var again := cmd.start || cmd.addr != addr;
        addr, modeStop, started := cmd.addr, cmd.stop, again;
        if again {
          Begin(e);
        } else {
          txReady := true;
          state := Write1;
        }
      } else if cmd.stop {
        news := [StopCond(addr)];
        PutStop(e);
      }
    }

    /** A stop condition. */
    method PutStop(e: Env)
      requires Valid() && phyWait == 0 && !Awaiting() && !cmdReady
      modifies this`state, this`phyWait, this`bus
      ensures Valid() && state == Free && phyWait == e.latency && bus == old(bus) + [StopCond(addr)]
    {
      phyWait := e.latency;
      state := Free;
      bus := bus + [StopCond(addr)];
    }

    /** One bit of the byte or of its acknowledgement. */
    method SendBit(e: Env, next: HostState)
      requires Valid() && phyWait == 0 && ((state == Address1 && next == Address2) || (state == Write2 && next == Write3))
      modifies this`state, this`phyWait, this`bitCount
      ensures Valid() && phyWait == e.latency && Ahead() == old(Ahead()) - 1
      ensures View() == old(View())
    {
      var last := bitCount == 0;
      phyWait := e.latency;
      bitCount := (bitCount + 15) % 16;
      if last {
        state := next;
      }
    }

    /** One clock edge of the host side. */
    method Edge(cmdValid: bool, cmd: Beat, txValid: bool, txData: byte, e: Env, ghost l: nat) returns (ghost news: seq<BusOp>)
      requires Valid() && phyWait <= l && e.latency <= l
      modifies this
      ensures Valid() && phyWait <= l
      ensures bus == old(bus) + news
      ensures Moves(old(View()), cmdValid, old(cmdReady) && cmdValid, cmd, old(txReady) && txValid, txData, View(), news)
      ensures old(txReady) && txValid ==> state == Write2
      ensures old(state) == Write2 ==> View() == old(View())
      ensures old(Served(cmdValid, txValid)) && !old(Takes(cmdValid, txValid)) && !old(Held(e)) ==>
        Distance(l) < old(Distance(l))
      ensures old(Held(e)) ==> Distance(l) == old(Distance(l))
    {
      Alone(bus);
      news := [];
      if phyWait > 0 {
        phyWait := phyWait - 1;
      } else {
        ghost var ahead := Ahead();
        news := Step(cmdValid, cmd, txValid, txData, e);
        if Ahead() < ahead {
          OneLess(l + 1, Ahead(), ahead);
        }
      }
    }

    /** A step of its own, the bit engine being ready. */
    method Step(cmdValid: bool, cmd: Beat, txValid: bool, txData: byte, e: Env) returns (ghost news: seq<BusOp>)
      requires Valid() && phyWait == 0
      modifies this
      ensures Valid() && phyWait <= e.latency
      ensures bus == old(bus) + news
      ensures Moves(old(View()), cmdValid, old(cmdReady) && cmdValid, cmd, old(txReady) && txValid, txData, View(), news)
      ensures old(txReady) && txValid ==> state == Write2
      ensures old(state) == Write2 ==> View() == old(View())
      ensures old(Served(cmdValid, txValid)) && !old(Takes(cmdValid, txValid)) && !old(Held(e)) ==> Ahead() < old(Ahead())
      ensures old(Held(e)) ==> Ahead() == old(Ahead()) && phyWait == 0
    {
      Alone(bus);
      news := [];
      match state {
        case Free =>
          if cmdReady && cmdValid && cmd.write {
            TakeFree(cmd, e);
          } else {
            cmdReady := true;
          }
        case ActiveWrite =>
          if cmdReady && cmdValid {
            news := TakeActive(cmd, e);
          } else if stopOnIdle && cmdReady {
            cmdReady := false;
            news := [StopCond(addr)];
            PutStop(e);
          } else {
            cmdReady := true;
          }
        case StartWait =>
          if !e.busActive {
            Begin(e);
          }
        case Address1 => SendBit(e, Address2);
        case Address2 =>
          txReady := true;
          state := Write1;
        case Write1 =>
          if txReady && txValid {
            news := [Write(started, addr, txData)];
            TakeByte(txData);
          } else {
            txReady := true;
          }
        case Write2 => SendBit(e, Write3);
        case Write3 =>
          if modeStop {
            news := [StopCond(addr)];
            PutStop(e);
          } else {
            state := ActiveWrite;
          }
      }
    }

    method TakeByte(txData: byte)
      requires Valid() && state == Write1 && txReady
      modifies this`data, this`bitCount, this`txReady, this`state, this`bus
      ensures Valid() && state == Write2 && bitCount == 8 && !cmdReady && bus == old(bus) + [Write(started, addr, txData)]
    {
      data := txData;
      bitCount := 8;
      txReady := false;
      state := Write2;
      bus := bus + [Write(started, addr, txData)];
    }
  }

  /** Edges at which the bus is not free. */
  function Taken(es: seq<Env>): (n: nat)
    ensures n <= |es|
  {
    if es == [] then 0 else Taken(es[..|es| - 1]) + if es[|es| - 1].busActive then 1 else 0
  }

  predicate Quick(es: seq<Env>, l: nat) {
    forall i :: 0 <= i < |es| ==> es[i].latency <= l
  }

  /** The longest operation among them. */
  function Slowest(es: seq<Env>): (l: nat)
    ensures Quick(es, l) && (l == 0 || exists i :: 0 <= i < |es| && es[i].latency == l)
  {
    if es == [] then 0
    else
      var l, last := Slowest(es[..|es| - 1]), es[|es| - 1].latency;
      if l < last then last else l
  }

  /** More edges than the master ever is from being ready, with operations of at most l edges. */
  function Unit(l: nat): nat {
    19 * (l + 1)
  }

  /** Edges enough to use up `work` with this master, whatever it is at when they begin. */
  function Enough(work: nat, l: nat): int {
    (work + 1) * Unit(l)
  }

  /** The edges of es at which the bus is free are enough for that. */
  predicate LongEnough(es: seq<Env>, work: nat) {
    |es| - Taken(es) >= Enough(work, Slowest(es))
  }

  /** As many writes as bytes have been taken, but for the one whose byte is awaited. */
  /** With the bus free all the time so many edges are enough, if no operation takes more than l. */
  lemma FreeBus(es: seq<Env>, work: nat, l: nat)
    requires forall i :: 0 <= i < |es| ==> !es[i].busActive && es[i].latency <= l
    requires |es| >= (work + 1) * (19 * (l + 1))
    ensures LongEnough(es, work)
  {
    NoneTaken(es);
    MulMonotone(work + 1, 19 * (Slowest(es) + 1), 19 * (l + 1));
  }

  lemma {:induction false} NoneTaken(es: seq<Env>)
    requires forall i :: 0 <= i < |es| ==> !es[i].busActive
    ensures Taken(es) == 0
  {
    if es != [] {
      NoneTaken(es[..|es| - 1]);
    }
  }

  predicate Matched(beats: seq<Beat>, bytes: seq<byte>, awaiting: bool) {
    Writes(beats) == |bytes| + if awaiting then 1 else 0
  }

  lemma MatchedMore(beats: seq<Beat>, bytes: seq<byte>, awaiting: bool, cmd: bool, x: Beat, tx: bool, y: byte)
    requires Matched(beats, bytes, awaiting) && (cmd ==> !awaiting && !tx) && (tx ==> awaiting)
    ensures Matched(beats + (if cmd then [x] else []), bytes + (if tx then [y] else []),
      if cmd then x.write else awaiting && !tx)
  {
    if cmd {
      WireMore(beats, bytes, x);
    } else {
      Alone(beats);
    }
  }

  /** The init module and its bus master, as the board wires them. */
  class Board {
    const init: Module
    const host: Master

    /** Whether the command executed last is a write. */
    ghost var hot: bool

    constructor (m: Module, h: Master)
      requires m.Valid() && m.startFlag && h.Valid() && m.beats == [] && m.bytes == [] && h.View() == Released
      ensures Valid() && fresh(this) && init == m && host == h && !hot
    {
      init, host, hot := m, h, false;
    }

    ghost function Now(): Snap
      reads init
    {
      Snap(init.Now(), init.delayCounter, init.cmdValid, init.Output(), init.txValid, init.txData, init.beats, init.bytes)
    }

    /** What a device sees on the bus is what the module's outputs say, and stays so for n commands. */
    ghost predicate Follows(n: nat)
      reads this, init, host
    {
      Following(init.rom, Here(), n)
    }

    ghost function Here(): Side
      reads this, init, host
    {
      Side(hot, Now(), host.View(), host.state == Write2, host.bus)
    }

    /** The master is to take a byte exactly if it has taken one write more. */
    ghost predicate Valid()
      reads this, init, host
    {
      && init.Valid() && init.startFlag && host.Valid()
      && Matched(init.beats, init.bytes, host.Awaiting())
    }

    /** Then what waits on the outputs is what the master waits for. */
    lemma Served()
      requires Valid()
      ensures init.Busy() ==> host.Served(init.cmdValid, init.txValid)
      ensures host.Awaiting() ==> init.txValid && !init.cmdValid
    {
      WritesOnWire(init.cmdValid, init.Output(), init.txValid, init.txData, init.beats, init.bytes, init.ops);
      if init.cmdValid && init.txValid {
        WriteShown(init.Output(), init.txData, init.beats, init.bytes, init.ops);
      }
    }

    /** What is still to be done takes no more than `edges` of this master. */
    ghost predicate Within(n: nat, l: nat, edges: int)
      reads init, host
    {
      init.Left(n) == 0 || init.Left(n) * Unit(l) + host.Distance(l) <= edges
    }

    /** One clock edge of both, each seeing the registers of the other. */
    method Edge(e: Env, ghost n: nat, ghost l: nat, ghost edges: int)
      returns (ghost left: nat)
      requires Valid() && Steps(init.rom, init.Now(), n).state == Idle && host.phyWait <= l && e.latency <= l
      requires Within(n, l, edges)
      modifies this, init, host
      ensures Valid() && host.phyWait <= l && Tracks(init.rom, old(init.Now()), n, init.Now(), left)
      ensures Within(left, l, edges - if e.busActive then 0 else 1)
      ensures Timed(old(init.Now()), old(init.delayCounter), init.Now(), init.delayCounter, init.speedup, 1)
      ensures old(Follows(n)) ==> Follows(left)
    {
      ghost var was, far := init.Left(n), host.Distance(l);
      left := Together(e, n, l);
      Near(host, l);
      if init.Left(left) > 0 {
        Falls(was, init.Left(left), Unit(l), far, host.Distance(l), if e.busActive then 0 else 1);
      }
    }

    method Together(e: Env, ghost n: nat, ghost l: nat) returns (ghost left: nat)
      requires Valid() && Steps(init.rom, init.Now(), n).state == Idle && host.phyWait <= l && e.latency <= l
      modifies this, init, host
      ensures Valid() && host.phyWait <= l && Tracks(init.rom, old(init.Now()), n, init.Now(), left)
      ensures old(Follows(n)) ==> Follows(left)
      ensures Nearer(old(init.Left(n)), old(host.Distance(l)), init.Left(left), host.Distance(l), e)
      ensures Timed(old(init.Now()), old(init.delayCounter), init.Now(), init.delayCounter, init.speedup, 1)
    {
      ghost var a := Here();
      ghost var r, news;
      left, r, news := Both(e, n, l);
      if Following(init.rom, a, n) {
        EdgeFollows(init.rom, a, r, Here(), news, n, left);
      }
    }

    /** What was executed last is noted. */
    method Both(e: Env, ghost n: nat, ghost l: nat) returns (ghost left: nat, ghost r: Ready, ghost news: seq<BusOp>)
      requires Valid() && Steps(init.rom, init.Now(), n).state == Idle && host.phyWait <= l && e.latency <= l
      modifies this, init, host
      ensures Valid() && host.phyWait <= l && Tracks(init.rom, old(init.Now()), n, init.Now(), left)
      ensures Joint(init.rom, old(Here()), r, Here(), news, n, left)
      ensures Nearer(old(init.Left(n)), old(host.Distance(l)), init.Left(left), host.Distance(l), e)
      ensures Timed(old(init.Now()), old(init.delayCounter), init.Now(), init.delayCounter, init.speedup, 1)
    {
      ghost var a := Here();
      hot := if Now().Executes() then Writes1(init.rom, init.Now()) else hot;
      left, r, news := Ends(e, n, l);
      ghost var b := Here();
      assert Edged(init.rom, a.x, r, b.x, n, left) && Agreed(a.x, a.v) && Hosted(a.x, a.v, a.late, r, b.v, news, b.late);
      assert Joint(init.rom, a, r, b, news, n, left);
    }

    method Ends(e: Env, ghost n: nat, ghost l: nat) returns (ghost left: nat, ghost r: Ready, ghost news: seq<BusOp>)
      requires Valid() && Steps(init.rom, init.Now(), n).state == Idle && host.phyWait <= l && e.latency <= l
      modifies init, host
      ensures Valid() && host.phyWait <= l && Tracks(init.rom, old(init.Now()), n, init.Now(), left)
      ensures Edged(init.rom, old(Now()), r, Now(), n, left) && Agreed(old(Now()), old(host.View()))
      ensures Hosted(old(Now()), old(host.View()), old(host.state == Write2), r, host.View(), news, host.state == Write2)
      ensures host.bus == old(host.bus) + news
      ensures Nearer(old(init.Left(n)), old(host.Distance(l)), init.Left(left), host.Distance(l), e)
      ensures Timed(old(init.Now()), old(init.delayCounter), init.Now(), init.delayCounter, init.speedup, 1)
    {
      ghost var x, v := Now(), host.View();
      Served();
      var offer;
      offer, news := HostEdge(e, l);
      r := offer;
      left := ModuleEdge(offer, n);
      BothMatched(init.rom, x, v, r, Now(), host.View(), news, n, left);
    }

    /** The master's part of an edge: r is what it has offered. */
    method HostEdge(e: Env, ghost l: nat) returns (r: Ready, ghost news: seq<BusOp>)
      requires host.Valid() && host.phyWait <= l && e.latency <= l
      requires init.Busy() ==> host.Served(init.cmdValid, init.txValid)
      modifies host
      ensures host.Valid() && host.phyWait <= l && host.bus == old(host.bus) + news
      ensures Hosted(Now(), old(host.View()), old(host.state == Write2), r, host.View(), news, host.state == Write2)
      ensures init.Stuck(r) ==> host.Distance(l) + (if e.busActive then 0 else 1) <= old(host.Distance(l))
    {
      r := Ready(host.cmdReady, host.txReady);
      news := host.Edge(init.cmdValid, init.Output(), init.txValid, init.txData, e, l);
    }

    /** The module's part of it. */
    method ModuleEdge(r: Ready, ghost n: nat) returns (ghost left: nat)
      requires init.Valid() && init.startFlag && Steps(init.rom, init.Now(), n).state == Idle
      modifies init
      ensures init.Valid() && init.startFlag && Tracks(init.rom, old(init.Now()), n, init.Now(), left)
      ensures Edged(init.rom, old(Now()), r, Now(), n, left)
      ensures Timed(old(init.Now()), old(init.delayCounter), init.Now(), init.delayCounter, init.speedup, 1)
      ensures if old(init.Stuck(r)) then init.Left(left) == old(init.Left(n))
              else init.Left(left) < old(init.Left(n)) || init.Left(left) == 0
    {
      left := init.Edge(r, n);
    }

    /** The board runs the program to its end, however long the operations on the bus take and
        whenever others hold it, and the master has then taken exactly its operations; before the
        end, a beginning of them. */
    method Run(es: seq<Env>, ghost n: nat, ghost l: nat)
      requires Valid() && Steps(init.rom, init.Now(), n).state == Idle && host.phyWait <= l && Quick(es, l)
      modifies this, init, host
      ensures old(Follows(n)) ==> Alike(host.View(), host.bus, init.beats, init.bytes)
      ensures Valid() && init.Done(old(Steps(init.rom, init.Now(), n)).core.out)
      ensures |es| - Taken(es) >= Enough(old(init.Left(n)), l) ==> init.AtEnd()
      ensures old(init.state) != Idle && init.AtEnd() ==>
        Waited(old(Steps(init.rom, init.Now(), n)).core.out, init.speedup) + old(init.delayCounter)
          <= Waited(old(init.ops), init.speedup) + |es|
    {
      ghost var edges := Enough(init.Left(n), l) - 1;
      ghost var left := RunEdges(es, n, l);
      init.Accepted(left);
      if |es| - Taken(es) > edges {
        Spent(left, l, edges - (|es| - Taken(es)));
        init.AllDone(left);
      }
      if init.state == Idle {
        StaysIdle(init.rom, init.Now(), left);
      }
    }

    method RunEdges(es: seq<Env>, ghost n: nat, ghost l: nat) returns (ghost left: nat)
      requires Valid() && Steps(init.rom, init.Now(), n).state == Idle && host.phyWait <= l && Quick(es, l)
      modifies this, init, host
      ensures Valid() && host.phyWait <= l && Tracks(init.rom, old(init.Now()), n, init.Now(), left)
      ensures Within(left, l, Enough(old(init.Left(n)), l) - 1 - (|es| - Taken(es)))
      ensures old(Follows(n)) ==> Follows(left)
      ensures Timed(old(init.Now()), old(init.delayCounter), init.Now(), init.delayCounter, init.speedup, |es|)
    {
      ghost var m, d, follows := init.Now(), init.delayCounter, Follows(n);
      ghost var edges := Enough(init.Left(n), l) - 1;
      left := n;
      Near(host, l);
      OneLess(Unit(l), init.Left(n), init.Left(n) + 1);
      assert es[..|es|] == es;
      for i := 0 to |es|
        invariant Valid() && host.phyWait <= l && Tracks(init.rom, m, n, init.Now(), left)
        invariant Within(left, l, edges - (i - Taken(es[..i]))) && (follows ==> Follows(left))
        invariant Timed(m, d, init.Now(), init.delayCounter, init.speedup, i)
      {
        TakenMore(es, i);
        ghost var x, was, c := init.Now(), left, init.delayCounter;
        left := Edge(es[i], left, l, edges - (i - Taken(es[..i])));
        TracksOn(init.rom, m, n, x, was, init.Now(), left);
        TimedMore(m, d, x, c, init.Now(), init.delayCounter, init.speedup, i);
      }
    }

    lemma Spent(n: nat, l: nat, edges: int)
      requires Within(n, l, edges) && edges < 0
      ensures init.Left(n) == 0
    {
      MulNonNegative(init.Left(n), Unit(l));
    }
  }

  /** Less work is left, or as much and the master is nearer, unless someone else holds the bus. */
  predicate Nearer(was: nat, far: nat, now: nat, near: nat, e: Env) {
    now == 0 || now < was || (now == was && near + (if e.busActive then 0 else 1) <= far)
  }

  /** What a device sees on the bus is what the outputs have said, and stays so for n commands. */
  ghost predicate Following(rom: seq<int>, a: Side, n: nat) {
    Steady(a.hot, a.x, a.v, a.late) && Alike(a.v, a.bus, a.x.beats, a.x.bytes) && Tight(rom, a.x.m, a.hot, n)
  }

  /** What an edge does to the module. */
  ghost predicate Edged(rom: seq<int>, x: Snap, r: Ready, y: Snap, n: nat, left: nat) {
    && x.Wired() && y.Wired()
    && y.beats == x.beats + (if x.cmdValid && r.cmd then [x.out] else [])
    && y.bytes == x.bytes + (if x.txValid && r.tx then [x.data] else [])
    && y.m == (if x.Executes() then Step(rom, x.m) else x.m) && left == n - (if x.Executes() then 1 else 0)
    && (x.Busy() ==> y.delay == x.delay && y.cmdValid == (x.cmdValid && !r.cmd) && y.txValid == (x.txValid && !r.tx))
    && (x.Busy() && y.cmdValid ==> y.out == x.out)
    && (!x.Busy() && !x.Executes() ==> !y.Busy())
    && (x.Executes() ==> y.delay == 0 || IsDelay(At(rom, x.m.pc)))
  }

  predicate Agreed(x: Snap, v: Hold) {
    Matched(x.beats, x.bytes, v.Awaits?) && (v.Awaits? ==> !x.cmdValid)
  }

  /** What an edge does to the master. */
  predicate Hosted(x: Snap, v: Hold, late: bool, r: Ready, w: Hold, news: seq<BusOp>, late': bool) {
    && (r.cmd ==> !v.Awaits? && !r.tx) && (r.tx ==> v.Awaits?) && (x.txValid && r.tx ==> late') && (late ==> w == v)
    && Moves(v, x.cmdValid, x.cmdValid && r.cmd, x.out, x.txValid && r.tx, x.data, w, news)
  }

  /** Both still agree on whether a byte is awaited. */
  lemma BothMatched(rom: seq<int>, x: Snap, v: Hold, r: Ready, y: Snap, w: Hold, news: seq<BusOp>, n: nat, left: nat)
    requires Matched(x.beats, x.bytes, v.Awaits?) && Edged(rom, x, r, y, n, left)
    requires exists late, late' :: Hosted(x, v, late, r, w, news, late')
    ensures Matched(y.beats, y.bytes, w.Awaits?)
  {
    MatchedMore(x.beats, x.bytes, v.Awaits?, x.cmdValid && r.cmd, x.out, x.txValid && r.tx, x.data);
  }

  /** Both ends at an edge, and the bus between the master and the device. */
  datatype Side = Side(hot: bool, x: Snap, v: Hold, late: bool, bus: seq<BusOp>)

  ghost predicate Joint(rom: seq<int>, a: Side, r: Ready, b: Side, news: seq<BusOp>, n: nat, left: nat) {
    && Edged(rom, a.x, r, b.x, n, left) && Hosted(a.x, a.v, a.late, r, b.v, news, b.late) && Agreed(a.x, a.v)
    && b.bus == a.bus + news && b.hot == if a.x.Executes() then Writes1(rom, a.x.m) else a.hot
  }

  /** So what a device sees stays what the outputs say. */
  lemma EdgeFollows(rom: seq<int>, a: Side, r: Ready, b: Side, news: seq<BusOp>, n: nat, left: nat)
    requires Following(rom, a, n) && Joint(rom, a, r, b, news, n, left)
    ensures Following(rom, b, left)
  {
    AlikeEdge(a.hot, a.x, a.v, a.late, r.cmd, r.tx, a.bus, b.x, b.v, news);
    if a.x.Busy() {
      SteadyBusy(a.hot, a.x, a.v, a.late, r.cmd, r.tx, b.x, b.v, news, b.late);
    } else if a.x.Executes() {
      TightOn(rom, a.x.m, a.hot, n);
      Alone(a.x.beats);
      Alone(a.x.bytes);
      SteadyExecutes(rom, a.hot, a.x, a.v, a.late, b.x, b.v, news, b.late);
    } else {
      SteadyWaits(a.hot, a.x, a.v, a.late, b.x, b.v, news, b.late);
    }
  }

  lemma TakenMore(es: seq<Env>, i: nat)
    requires i < |es|
    ensures Taken(es[..i + 1]) == Taken(es[..i]) + if es[i].busActive then 1 else 0
  {
    assert es[..i + 1][..i] == es[..i];
  }

  /** Either less work is left, or as much and the master is nearer. */
  lemma Falls(was: nat, now: nat, u: nat, far: nat, near: nat, step: nat)
    requires (now < was && near + step <= u) || (now == was && near + step <= far)
    ensures now * u + near + step <= was * u + far
  {
    if now < was {
      OneLess(u, now, was);
    }
  }

  lemma Near(h: Master, l: nat)
    requires h.phyWait <= l
    ensures h.Distance(l) < Unit(l)
  {
    OneLess(l + 1, h.Ahead(), 19);
  }

  lemma OneLess(u: nat, a: nat, b: nat)
    requires a < b
    ensures a * u + u <= b * u
  {
    MulMonotone(u, a + 1, b);
  }
}
