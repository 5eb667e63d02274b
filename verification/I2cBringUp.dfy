/** From a register list to the device: the compiler, the init module it is compiled for, and the
    device at the other end of src/eth/example/HTG9200/fpga/pll/si5341_i2c_init.py. */
module I2cBringUp {
  import opened Arith
  import opened Base
  import opened I2cInit
  import opened I2cCompile
  import opened I2cFsm
  import opened I2cBus
  import I2cHost

  /** A device takes no notice of delays, which the outputs do not carry. */
  lemma {:induction false} DelaysUnseen(dev: septet, d: Device, ops: seq<BusOp>)
    ensures SeesAll(dev, d, NoWaits(ops)) == SeesAll(dev, d, ops)
  {
    if ops != [] {
      var n := |ops| - 1;
      DelaysUnseen(dev, d, ops[..n]);
      if ops[n].Wait? {
        assert NoWaits(ops) == NoWaits(ops[..n]);
      } else {
        SeesMore(dev, d, NoWaits(ops[..n]), ops[n]);
      }
    }
  }

  /** Edges that a program can use up, waiting for the outputs apart. */
  function Enough(items: seq<Item>, fast: bool): nat {
    Work(Rom(Code(items) + [Halt]), fast, Begin(), Count(items) + 1)
  }

  /** Without blocks that is three for every command, and the cycles it waits. */
  lemma PlainEnough(cs: seq<Cmd>, fast: bool)
    requires AllPlain(cs)
    ensures Enough([Straight(cs)], fast) == 3 * (|cs| + 1) + Waited(Effects(cs, Begin().core).out, fast)
  {
    RomHolds(cs);
    var item := [Straight(cs)];
    Alone(cs);
    assert item[1..] == [] && Code(item) == item[0].Code() + Code([]) && Count(item) == item[0].Count() + Count([]);
    assert Waited(Begin().core.out, fast) == 0;
    PlainWork(Rom(cs + [Halt]), cs, fast, Begin());
  }

  lemma {:induction false} PlainWork(rom: seq<int>, cs: seq<Cmd>, fast: bool, m: Machine)
    requires AllPlain(cs) && m.state == Run && Holds(rom, m.pc, cs) && At(rom, m.pc + |cs|) == Word(Halt)
    ensures Work(rom, fast, m, |cs| + 1) + Waited(m.core.out, fast)
      == 3 * (|cs| + 1) + Waited(Effects(cs, m.core).out, fast)
    decreases |cs|
  {
    if cs == [] {
      var end := Step(rom, m);
      assert Work(rom, fast, end, 0) == 0;
    } else {
      HoldsTail(rom, m.pc, cs);
      PlainStep(rom, m, cs[0]);
      PlainWork(rom, cs[1..], fast, Step(rom, m));
      WordReads(cs[0]);
      EffectWaited(cs[0], m.core, fast);
    }
  }

  lemma EffectWaited(c: Cmd, y: Core, fast: bool)
    requires Plain(c)
    ensures Waited(Effect(c, y).out, fast) == Waited(y.out, fast) + if c.Delay? then Cycles(c.d, fast) else 0
  {
    match c
    case Wr(data) => WaitedMore(y.out, Write(y.pending, y.addr, data), fast);
    case Stop => WaitedMore(y.out, StopCond(y.addr), fast);
    case Delay(d) => WaitedMore(y.out, Wait(d), fast);
    case Start(a) =>
  }

  /** What a program does with its blocks written out, and the stop at its end. */
  function Operations(items: seq<Item>): seq<BusOp>
    requires AllOk(items)
  {
    DoStop(Effects(WrittenOut(items), Begin().core)).out
  }

  /** A beginning of the operations has been accepted, and all of them if the program is over. */
  predicate Carried(items: seq<Item>, over: bool, beats: seq<Beat>, bytes: seq<byte>)
    requires AllOk(items)
  {
    CarriedOf(Operations(items), over, beats, bytes)
  }

  predicate CarriedOf(ops: seq<BusOp>, over: bool, beats: seq<Beat>, bytes: seq<byte>) {
    && beats <= Beats(ops) && bytes <= Bytes(ops) && FromWire(beats, bytes) <= NoWaits(ops)
    && (over ==> beats == Beats(ops) && bytes == Bytes(ops) && FromWire(beats, bytes) == NoWaits(ops))
  }

  /** A program with any number of blocks, run on the module: whatever the outputs are offered, they
      carry a beginning of what the program does with its blocks written out, and all of it once it is
      over. It is over after enough edges besides the `stuck` ones at which an output waits and is not
      taken, and so after enough rounds in each of which either output has been ready. */
  method RunProgram(items: seq<Item>, fast: bool, rs: seq<Ready>)
    returns (over: bool, stuck: nat, beats: seq<Beat>, bytes: seq<byte>)
    requires AllOk(items)
    ensures Carried(items, over, beats, bytes)
    ensures FullRounds(rs) + stuck <= |rs|
    ensures |rs| - stuck >= Enough(items, fast) ==> over
    ensures over ==> Waited(Operations(items), fast) <= |rs|
  {
    RunsProgram(items);
    over, stuck, beats, bytes := RunModule(Rom(Code(items) + [Halt]), fast, rs, Count(items) + 1);
  }

  method RunModule(rom: seq<int>, fast: bool, rs: seq<Ready>, ghost n: nat)
    returns (over: bool, stuck: nat, beats: seq<Beat>, bytes: seq<byte>)
    requires Steps(rom, Begin(), n).state == Idle
    ensures CarriedOf(Steps(rom, Begin(), n).core.out, over, beats, bytes)
    ensures FullRounds(rs) + stuck <= |rs| && (|rs| - stuck >= Work(rom, fast, Begin(), n) ==> over)
    ensures over ==> Waited(Steps(rom, Begin(), n).core.out, fast) <= |rs|
  {
    var init := Started(rom, fast);
    ghost var done;
    stuck, done := init.RunToEnd(rs, n);
    over, beats, bytes := init.AtEnd(), init.beats, init.bytes;
  }

  /** The same on the board, with the bus master the module is wired to: however long its operations
      on the bus take and whenever others hold it, the program comes to its end, and the master has
      then taken exactly its operations. If every write stands behind a start or another write, what
      the master puts on the bus makes any device write what these operations make it write, even
      if it gives up the bus whenever no command is there. */
  method RunOnBoard(items: seq<Item>, fast: bool, stopOnIdle: bool, es: seq<I2cHost.Env>)
    returns (over: bool, beats: seq<Beat>, bytes: seq<byte>, bus: seq<BusOp>)
    requires AllOk(items)
    ensures Carried(items, over, beats, bytes)
    ensures I2cHost.LongEnough(es, Enough(items, fast)) ==> over
    ensures over ==> Waited(Operations(items), fast) <= |es|
    ensures Tight(Rom(Code(items) + [Halt]), Begin(), false, Count(items) + 1) ==> Heard(bus, beats, bytes)
  {
    RunsProgram(items);
    over, beats, bytes, bus := RunWords(Rom(Code(items) + [Halt]), fast, stopOnIdle, es, Count(items) + 1);
  }

  method RunWords(rom: seq<int>, fast: bool, stopOnIdle: bool, es: seq<I2cHost.Env>, ghost n: nat)
    returns (over: bool, beats: seq<Beat>, bytes: seq<byte>, bus: seq<BusOp>)
    requires Steps(rom, Begin(), n).state == Idle
    ensures CarriedOf(Steps(rom, Begin(), n).core.out, over, beats, bytes)
    ensures I2cHost.LongEnough(es, Work(rom, fast, Begin(), n)) ==> over
    ensures over ==> Waited(Steps(rom, Begin(), n).core.out, fast) <= |es|
    ensures Tight(rom, Begin(), false, n) ==> Heard(bus, beats, bytes)
  {
    var board := OnBoard(rom, fast, stopOnIdle, n);
    over, beats, bytes, bus := RunBoard(board, es, n, I2cHost.Slowest(es));
  }

  /** Module and master wired together, the module about to begin. */
  method OnBoard(words: seq<int>, fast: bool, stopOnIdle: bool, ghost n: nat) returns (board: I2cHost.Board)
    ensures fresh(board) && fresh(board.init) && fresh(board.host) && board.Valid() && board.host.phyWait == 0
    ensures board.init.rom == words && board.init.Now() == Begin() && board.init.Left(n) == Work(words, fast, Begin(), n)
    ensures board.init.speedup == fast && board.init.delayCounter == 0
    ensures Tight(words, Begin(), false, n) ==> board.Follows(n)
  {
    var init := Started(words, fast);
    var host := new I2cHost.Master(stopOnIdle, 0);
    board := new I2cHost.Board(init, host);
    AlikeAtFirst();
  }

  method RunBoard(board: I2cHost.Board, es: seq<I2cHost.Env>, ghost n: nat, ghost l: nat)
    returns (over: bool, beats: seq<Beat>, bytes: seq<byte>, bus: seq<BusOp>)
    requires board.Valid() && board.host.phyWait <= l && I2cHost.Quick(es, l)
    requires Steps(board.init.rom, board.init.Now(), n).state == Idle
    modifies board, board.init, board.host
    ensures CarriedOf(old(Steps(board.init.rom, board.init.Now(), n)).core.out, over, beats, bytes)
    ensures |es| - I2cHost.Taken(es) >= I2cHost.Enough(old(board.init.Left(n)), l) ==> over
    ensures over && old(board.init.state) != Idle ==>
      Waited(old(Steps(board.init.rom, board.init.Now(), n)).core.out, board.init.speedup) + old(board.init.delayCounter)
        <= Waited(old(board.init.ops), board.init.speedup) + |es|
    ensures old(board.Follows(n)) ==> Heard(bus, beats, bytes)
  {
    board.Run(es, n, l);
    over, beats, bytes, bus := board.init.AtEnd(), board.init.beats, board.init.bytes, board.host.bus;
    if Alike(board.host.View(), bus, beats, bytes) {
      AlikeHeard(board.host.View(), bus, beats, bytes);
    }
  }

  /** Any device has written for the bus what it would have for the two outputs. */
  ghost predicate Heard(bus: seq<BusOp>, beats: seq<Beat>, bytes: seq<byte>) {
    forall dev, d0 :: LogOf(dev, d0, bus) == LogOf(dev, d0, FromWire(beats, bytes))
  }

  function LogOf(dev: septet, d0: Device, ops: seq<BusOp>): seq<Access> {
    SeesAll(dev, d0, ops).log
  }

  lemma AlikeAtFirst()
    ensures Alike(Released, [], [], [])
  {
    forall dev, d0
      ensures AlikeTo(dev, d0, Released, [], [], [])
    {
    }
  }

  lemma AlikeHeard(v: Hold, bus: seq<BusOp>, beats: seq<Beat>, bytes: seq<byte>)
    requires Alike(v, bus, beats, bytes)
    ensures Heard(bus, beats, bytes)
  {
    forall dev, d0
      ensures LogOf(dev, d0, bus) == LogOf(dev, d0, FromWire(beats, bytes))
    {
      assert AlikeTo(dev, d0, v, bus, beats, bytes);
    }
  }

  /** A module out of reset that has seen the start signal. */
  method Started(words: seq<int>, fast: bool) returns (init: Module)
    ensures fresh(init) && init.rom == words && init.speedup == fast
    ensures init.Valid() && init.startFlag && init.Now() == Begin() && !init.Busy() && init.delayCounter == 0
    ensures init.beats == [] && init.bytes == []
  {
    init := new Module(words, fast);
    init.Clock(true, false, false);
  }

  /** Commands before the list, such as a multiplexer's, that leave the device as it is. */
  predicate Before(pre: seq<Item>, dev: septet, d0: Device) {
    && AllOk(pre)
    && var x := Effects(WrittenOut(pre), Begin().core);
       !x.pending && 0 <= SeesAll(dev, d0, x.out).ptr < 256 && SeesAll(dev, d0, x.out).log == []
  }

  /** What the device has had written once the program is over. */
  lemma WrittenAtEnd(dev: septet, d0: Device, pre: seq<Item>, lines: seq<Line>)
    requires Before(pre, dev, d0)
    ensures AllPlain(Compiled(dev, lines).0) && AllOk(pre + [Straight(Compiled(dev, lines).0)])
    ensures Code(pre + [Straight(Compiled(dev, lines).0)]) == Code(pre) + Compiled(dev, lines).0
    ensures var out := WrittenOut(pre + [Straight(Compiled(dev, lines).0)]);
            SeesAll(dev, d0, NoWaits(DoStop(Effects(out, Begin().core)).out)).log
            == AfterList(dev, d0, Effects(WrittenOut(pre), Begin().core), lines).log
  {
    Follows(dev, d0, Effects(WrittenOut(pre), Begin().core), lines);
    var cs := Compiled(dev, lines).0;
    ItemAfter(pre, Straight(cs));
    EffectsBoth(WrittenOut(pre), cs, Begin().core);
    LogAtEnd(dev, d0, Effects(cs, Effects(WrittenOut(pre), Begin().core)));
  }

  /** The stop writes nothing. */
  lemma LogAtEnd(dev: septet, d0: Device, y: Core)
    ensures SeesAll(dev, d0, NoWaits(DoStop(y).out)).log == SeesAll(dev, d0, y.out).log
  {
    DelaysUnseen(dev, d0, DoStop(y).out);
    SeesMore(dev, d0, y.out, StopCond(y.addr));
  }

  lemma {:induction false} LogGrows(dev: septet, d: Device, early: seq<BusOp>, ops: seq<BusOp>)
    requires early <= ops
    ensures SeesAll(dev, d, early).log <= SeesAll(dev, d, ops).log
  {
    if early != ops {
      LogGrows(dev, d, early, ops[..|ops| - 1]);
    }
  }

  lemma {:induction false} PickedGrows(early: seq<Access>, log: seq<Access>, mask: seq<bool>)
    requires early <= log && |log| == |mask|
    ensures Picked(early, mask[..|early|]) <= Picked(log, mask)
  {
    if early != log {
      var n := |log| - 1;
      PickedGrows(early, log[..n], mask[..n]);
      assert mask[..n][..|early|] == mask[..|early|];
    } else {
      assert mask[..|early|] == mask;
    }
  }

  /** Of a device's log, what the compiled list has had written so far. */
  ghost predicate Listing(dev: septet, lines: seq<Line>, over: bool, log: seq<Access>) {
    var kept := InRange(Listed(lines)) && PagesKept(Listed(lines));
    && |log| <= |Mask(dev, lines)|
    && (kept ==> Picked(log, Mask(dev, lines)[..|log|]) <= Listed(lines))
    && (over ==> (Written(dev, lines, log) == Listed(lines) <==> kept))
  }

  /** What the outputs have carried makes a beginning of the writes listed, or all of them. */
  lemma ListedSoFar(dev: septet, d0: Device, pre: seq<Item>, lines: seq<Line>, over: bool, beats: seq<Beat>, bytes: seq<byte>)
    requires Before(pre, dev, d0) && AllPlain(Compiled(dev, lines).0) && AllOk(pre + [Straight(Compiled(dev, lines).0)])
    requires Carried(pre + [Straight(Compiled(dev, lines).0)], over, beats, bytes)
    ensures Listing(dev, lines, over, SeesAll(dev, d0, FromWire(beats, bytes)).log)
  {
    var x := Effects(WrittenOut(pre), Begin().core);
    var ops := NoWaits(Operations(pre + [Straight(Compiled(dev, lines).0)]));
    var log, all := SeesAll(dev, d0, FromWire(beats, bytes)).log, AfterList(dev, d0, x, lines).log;
    WrittenAtEnd(dev, d0, pre, lines);
    WritesListed(dev, d0, x, lines);
    LogGrows(dev, d0, FromWire(beats, bytes), ops);
    assert log <= all;
    PickedGrows(log, all, Mask(dev, lines));
  }

  // ---- delays ----

  function WaitsIn(ops: seq<BusOp>): nat {
    if ops == [] then 0 else WaitsIn(ops[..|ops| - 1]) + if ops[|ops| - 1].Wait? then 1 else 0
  }

  lemma WaitsMore(ops: seq<BusOp>, op: BusOp)
    ensures WaitsIn(ops + [op]) == WaitsIn(ops) + if op.Wait? then 1 else 0
  {
    assert (ops + [op])[..|ops|] == ops;
  }

  /** Commands whose delays are all the same wait that often. */
  lemma {:induction false} WaitsOf(cs: seq<Cmd>, x: Core, fast: bool, c: nat)
    requires AllPlain(cs) && (forall p :: 0 <= p < |cs| && cs[p].Delay? ==> cs[p] == Delay(10)) && c == Cycles(10, fast)
    ensures WaitsIn(Effects(cs, x).out) == WaitsIn(x.out) + Delays(cs)
    ensures Waited(Effects(cs, x).out, fast) == Waited(x.out, fast) + Delays(cs) * c
  {
    if cs != [] {
      var n := |cs| - 1;
      var y := Effects(cs[..n], x);
      WaitsOf(cs[..n], x, fast, c);
      LastEffect(cs, x);
      EffectWaits(cs[n], y, fast, c);
      Once(Delays(cs[..n]), c);
    }
  }

  lemma Once(n: int, c: int)
    ensures (n + 1) * c == n * c + c
  {
  }

  lemma LastEffect(cs: seq<Cmd>, x: Core)
    requires AllPlain(cs) && cs != []
    ensures var n := |cs| - 1; Effects(cs, x) == Effect(cs[n], Effects(cs[..n], x))
  {
    var n := |cs| - 1;
    assert cs == cs[..n] + [cs[n]];
    EffectsBoth(cs[..n], [cs[n]], x);
    assert [cs[n]][1..] == [] && Effects([cs[n]], Effects(cs[..n], x)) == Effect(cs[n], Effects(cs[..n], x));
  }

  lemma EffectWaits(c: Cmd, y: Core, fast: bool, cycles: nat)
    requires Plain(c) && (c.Delay? ==> c == Delay(10)) && cycles == Cycles(10, fast)
    ensures WaitsIn(Effect(c, y).out) == WaitsIn(y.out) + if c.Delay? then 1 else 0
    ensures Waited(Effect(c, y).out, fast) == Waited(y.out, fast) + if c.Delay? then cycles else 0
  {
    match c
    case Wr(data) => OpWaits(y.out, Write(y.pending, y.addr, data), fast);
    case Stop => OpWaits(y.out, StopCond(y.addr), fast);
    case Delay(d) => OpWaits(y.out, Wait(d), fast);
    case Start(a) =>
  }

  lemma OpWaits(ops: seq<BusOp>, op: BusOp, fast: bool)
    ensures WaitsIn(ops + [op]) == WaitsIn(ops) + if op.Wait? then 1 else 0
    ensures Waited(ops + [op], fast) == Waited(ops, fast) + if op.Wait? then Cycles(op.d, fast) else 0
  {
    WaitsMore(ops, op);
    WaitedMore(ops, op, fast);
  }

  /** Line i of a list asks for a delay, and among the operations there is one where, of the lines' own
      bytes, the device has had written exactly those listed before it. */
  ghost predicate Heeded(dev: septet, d0: Device, lines: seq<Line>, i: nat, ops: seq<BusOp>)
    requires i < |lines|
  {
    exists p :: 0 <= p < |ops| && ops[p] == Wait(10)
      && |SeesAll(dev, d0, ops[..p]).log| == |Mask(dev, lines[..i])|
      && (Picked(SeesAll(dev, d0, ops[..p]).log, Mask(dev, lines[..i])) == Listed(lines[..i]) <==>
            InRange(Listed(lines[..i])) && PagesKept(Listed(lines[..i])))
  }

  /** The delays of a compiled list among the operations of the program it is part of. */
  lemma DelaysKept(dev: septet, d0: Device, pre: seq<Item>, lines: seq<Line>, fast: bool, c: nat)
    requires Before(pre, dev, d0) && c == Cycles(10, fast)
    ensures AllPlain(Compiled(dev, lines).0) && AllOk(pre + [Straight(Compiled(dev, lines).0)])
    ensures var ops, x := Operations(pre + [Straight(Compiled(dev, lines).0)]), Effects(WrittenOut(pre), Begin().core);
            && WaitsIn(ops) == WaitsIn(x.out) + Asked(lines)
            && Waited(ops, fast) == Waited(x.out, fast) + Asked(lines) * c
            && forall i :: 0 <= i < |lines| && lines[i] == Comment(true) ==> Heeded(dev, d0, lines, i, ops)
  {
    var cs, x := Compiled(dev, lines).0, Effects(WrittenOut(pre), Begin().core);
    WrittenAtEnd(dev, d0, pre, lines);
    DelaysAsked(dev, lines);
    ItemAfter(pre, Straight(cs));
    EffectsBoth(WrittenOut(pre), cs, Begin().core);
    WaitsOf(cs, x, fast, c);
    var y := Effects(cs, x);
    OpWaits(y.out, StopCond(y.addr), fast);
    forall i | 0 <= i < |lines| && lines[i] == Comment(true)
      ensures Heeded(dev, d0, lines, i, y.out + [StopCond(y.addr)])
    {
      DelayHeeded(dev, d0, x, lines, i, StopCond(y.addr));
    }
  }

  lemma DelayHeeded(dev: septet, d0: Device, x: Core, lines: seq<Line>, i: nat, last: BusOp)
    requires !x.pending && 0 <= SeesAll(dev, d0, x.out).ptr < 256 && SeesAll(dev, d0, x.out).log == []
    requires i < |lines| && lines[i] == Comment(true)
    ensures AllPlain(Compiled(dev, lines).0)
    ensures Heeded(dev, d0, lines, i, Effects(Compiled(dev, lines).0, x).out + [last])
  {
    DelayHeard(dev, d0, x, lines, i);
    WritesListed(dev, d0, x, lines[..i]);
    var out, p := Effects(Compiled(dev, lines).0, x).out, |Effects(Compiled(dev, lines[..i]).0, x).out|;
    assert (out + [last])[p] == Wait(10) && (out + [last])[..p] == out[..p];
  }

  /** The list is compiled, the module runs the program, and its outputs go to the device, which
      may be in any state at first. Whatever the outputs are offered, the lines' own bytes are, if
      every address has 16 bits and no line strays into another page, a beginning of the listed
      writes; and once the program is over, as RunProgram says it will be, they are exactly these if
      and only if that is so. */
  method Initialise(dev: septet, d0: Device, pre: seq<Item>, lines: seq<Line>, fast: bool, rs: seq<Ready>)
    returns (program: seq<Cmd>, over: bool, stuck: nat, log: seq<Access>, ghost ops: seq<BusOp>)
    requires Before(pre, dev, d0)
    ensures program == Code(pre) + Compiled(dev, lines).0 + [Halt]
    ensures Listing(dev, lines, over, log) && log <= SeesAll(dev, d0, ops).log && (over ==> log == SeesAll(dev, d0, ops).log)
    ensures WaitsIn(ops) == WaitsIn(Effects(WrittenOut(pre), Begin().core).out) + Asked(lines)
    ensures forall i :: 0 <= i < |lines| && lines[i] == Comment(true) ==> Heeded(dev, d0, lines, i, ops)
    ensures over ==> Asked(lines) * (if fast then 1024 else 0x400_0000) <= |rs|
    ensures FullRounds(rs) + stuck <= |rs|
    ensures |rs| - stuck >= Enough(pre + [Straight(Compiled(dev, lines).0)], fast) ==> over
  {
    var cmds := Compile(dev, lines);
    WrittenAtEnd(dev, d0, pre, lines);
    var items := pre + [Straight(cmds)];
    program := Code(items) + [Halt];
    var beats, bytes;
    over, stuck, beats, bytes := RunProgram(items, fast, rs);
    log := SeesAll(dev, d0, FromWire(beats, bytes)).log;
    ops := Operations(items);
    ListedSoFar(dev, d0, pre, lines, over, beats, bytes);
    LogSoFar(dev, d0, ops, over, beats, bytes);
    ghost var c := Ten(fast);
    DelaysKept(dev, d0, pre, lines, fast, c);
  }

  /** The cycles of a delay of ten. */
  lemma Ten(fast: bool) returns (c: nat)
    ensures c == Cycles(10, fast) && c == if fast then 1024 else 0x400_0000
  {
    c := Cycles(10, fast);
    Pow2Is16();
    Pow2Sum(10, 16);
    assert Pow2(10) == 32 * Pow2(5) == 32 * 32;
  }

  lemma LogSoFar(dev: septet, d0: Device, ops: seq<BusOp>, over: bool, beats: seq<Beat>, bytes: seq<byte>)
    requires CarriedOf(ops, over, beats, bytes)
    ensures var log := SeesAll(dev, d0, FromWire(beats, bytes)).log;
            log <= SeesAll(dev, d0, ops).log && (over ==> log == SeesAll(dev, d0, ops).log)
  {
    LogGrows(dev, d0, FromWire(beats, bytes), NoWaits(ops));
    DelaysUnseen(dev, d0, ops);
  }

  /** The same on the board, behind other plain commands such as a multiplexer's: however long the
      operations on the bus take, whenever others hold it, and whether or not the master gives the bus
      up when no command is there, the device has been written a beginning of the list, and all of it
      in the end, exactly under the same condition. */
  method InitialiseOnBoard(dev: septet, d0: Device, pre: seq<Cmd>, lines: seq<Line>, fast: bool,
    stopOnIdle: bool, es: seq<I2cHost.Env>)
    returns (program: seq<Cmd>, over: bool, log: seq<Access>, ghost ops: seq<BusOp>)
    requires AllPlain(pre) && Joined(pre) && Before([Straight(pre)], dev, d0)
    ensures program == pre + Compiled(dev, lines).0 + [Halt]
    ensures Listing(dev, lines, over, log) && log <= SeesAll(dev, d0, ops).log && (over ==> log == SeesAll(dev, d0, ops).log)
    ensures forall i :: 0 <= i < |lines| && lines[i] == Comment(true) ==> Heeded(dev, d0, lines, i, ops)
    ensures over ==> Asked(lines) * (if fast then 1024 else 0x400_0000) <= |es|
    ensures I2cHost.LongEnough(es, Enough([Straight(pre), Straight(Compiled(dev, lines).0)], fast)) ==> over
  {
    var cmds := Compile(dev, lines);
    var items := [Straight(pre)] + [Straight(cmds)];
    WrittenAtEnd(dev, d0, [Straight(pre)], lines);
    StraightCode(pre, cmds);
    CompiledJoined(dev, lines);
    JoinedBoth(pre, cmds);
    JoinedTight(pre + cmds);
    program := pre + cmds + [Halt];
    var beats, bytes, bus;
    over, beats, bytes, bus := RunOnBoard(items, fast, stopOnIdle, es);
    log := SeesAll(dev, d0, bus).log;
    assert LogOf(dev, d0, bus) == LogOf(dev, d0, FromWire(beats, bytes));
    ops := Operations(items);
    ListedSoFar(dev, d0, [Straight(pre)], lines, over, beats, bytes);
    LogSoFar(dev, d0, ops, over, beats, bytes);
    ghost var c := Ten(fast);
    DelaysKept(dev, d0, [Straight(pre)], lines, fast, c);
  }

  lemma StraightCode(xs: seq<Cmd>, ys: seq<Cmd>)
    ensures [Straight(xs)] + [Straight(ys)] == [Straight(xs), Straight(ys)]
    ensures Code([Straight(xs), Straight(ys)]) == xs + ys && Count([Straight(xs), Straight(ys)]) == |xs + ys|
  {
    var items, last := [Straight(xs), Straight(ys)], [Straight(ys)];
    Alone(ys);
    assert last[1..] == [] && Code(last) == last[0].Code() + Code([]) && Count(last) == last[0].Count() + Count([]);
    assert items[1..] == last && Code(items) == items[0].Code() + Code(last);
  }
}
