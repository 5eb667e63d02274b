/** The command words and the interpreter of src/eth/example/HTG9200/fpga/pll/si5341_i2c_init.py,
    one executed command at a time: plain commands, and data blocks run once for every address
    of an address block. */
module I2cInit {
  import opened Base

  // ---- command words ----

  datatype Cmd =
    | Halt
    | Exit
    | StartCur
    | BlkAddr
    | BlkData
    | Delay(d: nibble)
    | Stop
    | Start(addr: septet)
    | Wr(data: byte)

  /** The nine bits of a command. */
  function Word(c: Cmd): int {
    match c
    case Halt => 0
    case Exit => 1
    case StartCur => 3
    case BlkAddr => 8
    case BlkData => 9
    case Delay(d) => 0x10 + d
    case Stop => 0x41
    case Start(a) => 0x80 + a
    case Wr(x) => 0x100 + x
  }

  // The tests the interpreter makes on a word, by its upper bits, and the fields it takes from it.

  predicate IsWr(w: int) {
    w / 0x100 == 1
  }

  predicate IsStart(w: int) {
    w / 0x80 == 1
  }

  predicate IsDelay(w: int) {
    w / 0x10 == 1
  }

  function Low8(w: int): byte {
    w % 0x100
  }

  function Low7(w: int): septet {
    w % 0x80
  }

  function Low4(w: int): nibble {
    w % 0x10
  }

  /** A word reads as the command it was made from, by each test. */
  lemma WordReads(c: Cmd)
    ensures IsWr(Word(c)) <==> c.Wr?
    ensures IsStart(Word(c)) <==> c.Start?
    ensures IsDelay(Word(c)) <==> c.Delay?
    ensures Word(c) == 0 <==> c.Halt?
    ensures Word(c) == 1 <==> c.Exit?
    ensures Word(c) == 3 <==> c.StartCur?
    ensures Word(c) == 8 <==> c.BlkAddr?
    ensures Word(c) == 9 <==> c.BlkData?
    ensures Word(c) == 0x41 <==> c.Stop?
    ensures c.Wr? ==> Low8(Word(c)) == c.data
    ensures c.Start? ==> Low7(Word(c)) == c.addr
    ensures c.Delay? ==> Low4(Word(c)) == c.d
  {
  }

  // ---- what happens on the bus ----

  datatype BusOp = Write(start: bool, addr: septet, data: byte) | StopCond(addr: septet) | Wait(d: nibble)

  /** The output side: a start that is to go with the next write, its address, and all operations so far. */
  datatype Core = Core(pending: bool, addr: septet, out: seq<BusOp>)

  function DoWrite(c: Core, data: byte): Core {
    Core(false, c.addr, c.out + [Write(c.pending, c.addr, data)])
  }

  function DoStart(c: Core, addr: septet): Core {
    c.(pending := true, addr := addr)
  }

  function DoStop(c: Core): Core {
    Core(false, c.addr, c.out + [StopCond(c.addr)])
  }

  function DoWait(c: Core, d: nibble): Core {
    c.(out := c.out + [Wait(d)])
  }

  // ---- the interpreter ----

  datatype State = Idle | Run | Table1 | Table2 | Table3

  datatype Machine = Machine(state: State, pc: nat, dataPtr: nat, addrPtr: nat, cur: septet, core: Core)

  /** The word at pc; past the end of the ROM nothing is known of it, and it is taken as a halt. */
  function At(rom: seq<int>, pc: nat): int {
    if pc < |rom| then rom[pc] else 0
  }

  function Next(m: Machine): Machine {
    m.(pc := m.pc + 1)
  }

  /** Commands that act alike while running and inside a data block. */
  predicate PlainWord(w: int) {
    IsWr(w) || IsStart(w) || IsDelay(w) || w == 0x41
  }

  function PlainCore(w: int, c: Core): Core {
    if IsWr(w) then DoWrite(c, Low8(w))
    else if IsStart(w) then DoStart(c, Low7(w))
    else if IsDelay(w) then DoWait(c, Low4(w))
    else DoStop(c)
  }

  /** One executed command, as each state takes it. */
  function Step(rom: seq<int>, m: Machine): Machine {
    var w := At(rom, m.pc);
    match m.state
    case Idle => m
    case Run =>
      if PlainWord(w) then Next(m).(core := PlainCore(w, m.core))
      else if w == 9 then Next(m).(dataPtr := m.pc + 1, state := Table1)
      else if w == 0 then m.(core := DoStop(m.core), state := Idle)
      else Next(m)
    case Table1 =>
      if w == 8 then Next(m).(addrPtr := m.pc + 1, state := Table2)
      else if w == 9 then Next(m).(dataPtr := m.pc + 1)
      else if w == 1 then Next(m).(state := Run)
      else if w == 0 then m.(core := DoStop(m.core), state := Idle)
      else Next(m)
    case Table2 =>
      if IsStart(w) then m.(cur := Low7(w), addrPtr := m.pc + 1, pc := m.dataPtr, state := Table3)
      else if w == 9 then Next(m).(dataPtr := m.pc + 1, state := Table1)
      else if w == 1 then Next(m).(state := Run)
      else if w == 0 then m.(core := DoStop(m.core), state := Idle)
      else Next(m)
    case Table3 =>
      if PlainWord(w) then Next(m).(core := PlainCore(w, m.core))
      else if w == 3 then Next(m).(core := DoStart(m.core, m.cur))
      else if w == 9 then Next(m).(dataPtr := m.pc + 1, state := Table1)
      else if w == 8 then m.(pc := m.addrPtr, state := Table2)
      else if w == 1 then Next(m).(state := Run)
      else if w == 0 then m.(core := DoStop(m.core), state := Idle)
      else Next(m)
  }

  /** In any table state a halt stops the bus and the program, an exit goes on behind it, and the start of
      a data block begins a table anew. */
  lemma LeavesTable(rom: seq<int>, m: Machine)
    requires m.state == Table1 || m.state == Table2 || m.state == Table3
    ensures At(rom, m.pc) == 0 ==> Step(rom, m) == m.(state := Idle, core := DoStop(m.core))
    ensures At(rom, m.pc) == 1 ==> Step(rom, m) == m.(state := Run, pc := m.pc + 1)
    ensures At(rom, m.pc) == 9 ==> Step(rom, m) == m.(state := Table1, pc := m.pc + 1, dataPtr := m.pc + 1)
  {
  }

  function Steps(rom: seq<int>, m: Machine, n: nat): Machine
    decreases n
  {
    if n == 0 then m else Steps(rom, Step(rom, m), n - 1)
  }

  lemma {:induction false} StepsSplit(rom: seq<int>, m: Machine, a: nat, b: nat)
    ensures Steps(rom, m, a + b) == Steps(rom, Steps(rom, m, a), b)
    decreases a
  {
    if a > 0 {
      StepsSplit(rom, Step(rom, m), a - 1, b);
    }
  }

  lemma StepsOn(rom: seq<int>, m: Machine, a: nat, x: Machine, b: nat, y: Machine)
    requires Steps(rom, m, a) == x && Steps(rom, x, b) == y
    ensures Steps(rom, m, a + b) == y
  {
    StepsSplit(rom, m, a, b);
  }

  // ---- what a list of commands does ----

  /** The commands that stand for themselves, in a data block and outside. */
  predicate Plain(c: Cmd) {
    c.Delay? || c.Stop? || c.Start? || c.Wr?
  }

  function Effect(c: Cmd, x: Core): Core
    requires Plain(c)
  {
    match c
    case Wr(d) => DoWrite(x, d)
    case Start(a) => DoStart(x, a)
    case Delay(d) => DoWait(x, d)
    case Stop => DoStop(x)
  }

  predicate AllPlain(cs: seq<Cmd>) {
    forall i :: 0 <= i < |cs| ==> Plain(cs[i])
  }

  function Effects(cs: seq<Cmd>, x: Core): Core
    requires AllPlain(cs)
  {
    if cs == [] then x else Effects(cs[1..], Effect(cs[0], x))
  }

  lemma {:induction false} EffectsBoth(xs: seq<Cmd>, ys: seq<Cmd>, x: Core)
    requires AllPlain(xs) && AllPlain(ys)
    ensures AllPlain(xs + ys) && Effects(xs + ys, x) == Effects(ys, Effects(xs, x))
  {
    if xs == [] {
      assert xs + ys == ys;
    } else {
      EffectsBoth(xs[1..], ys, Effect(xs[0], x));
      assert (xs + ys)[1..] == xs[1..] + ys;
    }
  }

  /** The words of cs stand in the ROM from pc on. */
  predicate Holds(rom: seq<int>, pc: nat, cs: seq<Cmd>) {
    && pc + |cs| <= |rom|
    && forall i :: 0 <= i < |cs| ==> rom[pc + i] == Word(cs[i])
  }

  lemma HoldsTail(rom: seq<int>, pc: nat, cs: seq<Cmd>)
    requires cs != [] && Holds(rom, pc, cs)
    ensures At(rom, pc) == Word(cs[0]) && Holds(rom, pc + 1, cs[1..])
  {
    forall i | 0 <= i < |cs| - 1
      ensures rom[pc + 1 + i] == Word(cs[1..][i])
    {
      assert rom[pc + (i + 1)] == Word(cs[i + 1]);
    }
  }

  lemma HoldsParts(rom: seq<int>, pc: nat, xs: seq<Cmd>, ys: seq<Cmd>)
    requires Holds(rom, pc, xs + ys)
    ensures Holds(rom, pc, xs) && Holds(rom, pc + |xs|, ys)
  {
    forall i | 0 <= i < |xs|
      ensures rom[pc + i] == Word(xs[i])
    {
      assert (xs + ys)[i] == xs[i];
    }
    forall i | 0 <= i < |ys|
      ensures rom[pc + |xs| + i] == Word(ys[i])
    {
      assert (xs + ys)[|xs| + i] == ys[i];
      assert rom[pc + (|xs| + i)] == Word((xs + ys)[|xs| + i]);
    }
  }

  /** A plain command does the same while running and inside a data block. */
  lemma PlainStep(rom: seq<int>, m: Machine, c: Cmd)
    requires (m.state == Run || m.state == Table3) && Plain(c) && At(rom, m.pc) == Word(c)
    ensures Step(rom, m) == m.(pc := m.pc + 1, core := Effect(c, m.core))
  {
    WordReads(c);
  }

  /** Plain commands are executed one after another. */
  lemma {:induction false} RunsPlain(rom: seq<int>, m: Machine, cs: seq<Cmd>)
    requires m.state == Run && AllPlain(cs) && Holds(rom, m.pc, cs)
    ensures Steps(rom, m, |cs|) == m.(pc := m.pc + |cs|, core := Effects(cs, m.core))
    decreases |cs|
  {
    if cs != [] {
      HoldsTail(rom, m.pc, cs);
      PlainStep(rom, m, cs[0]);
      RunsPlain(rom, Step(rom, m), cs[1..]);
    }
  }

  // ---- blocks ----

  /** What a data block may hold: plain commands and starts for the address at hand. */
  predicate BlockCmd(c: Cmd) {
    Plain(c) || c.StartCur?
  }

  predicate AllBlock(cs: seq<Cmd>) {
    forall i :: 0 <= i < |cs| ==> BlockCmd(cs[i])
  }

  /** A data block for one address. */
  function Bound(body: seq<Cmd>, a: septet): (cs: seq<Cmd>)
    requires AllBlock(body)
    ensures |cs| == |body| && AllPlain(cs)
  {
    if body == [] then [] else [BoundCmd(body[0], a)] + Bound(body[1..], a)
  }

  function BoundCmd(c: Cmd, a: septet): (d: Cmd)
    requires BlockCmd(c)
    ensures Plain(d)
  {
    if c.StartCur? then Start(a) else c
  }

  lemma BlockStep(rom: seq<int>, m: Machine, c: Cmd)
    requires m.state == Table3 && BlockCmd(c) && At(rom, m.pc) == Word(c)
    ensures Step(rom, m) == m.(pc := m.pc + 1, core := Effect(BoundCmd(c, m.cur), m.core))
  {
    if c.StartCur? {
      WordReads(c);
    } else {
      PlainStep(rom, m, c);
    }
  }

  lemma ScanStep(rom: seq<int>, m: Machine, c: Cmd)
    requires m.state == Table1 && BlockCmd(c) && At(rom, m.pc) == Word(c)
    ensures Step(rom, m) == m.(pc := m.pc + 1)
  {
    WordReads(c);
  }

  lemma StartStep(rom: seq<int>, m: Machine, a: septet)
    requires m.state == Table2 && At(rom, m.pc) == Word(Start(a))
    ensures Step(rom, m) == m.(cur := a, addrPtr := m.pc + 1, pc := m.dataPtr, state := Table3)
  {
    WordReads(Start(a));
  }

  lemma AgainStep(rom: seq<int>, m: Machine)
    requires m.state == Table3 && At(rom, m.pc) == Word(BlkAddr)
    ensures Step(rom, m) == m.(pc := m.addrPtr, state := Table2)
  {
    WordReads(BlkAddr);
  }

  /** A data block written out once for every address. */
  function Unrolled(body: seq<Cmd>, addrs: seq<septet>): (cs: seq<Cmd>)
    requires AllBlock(body)
    ensures AllPlain(cs)
  {
    if addrs == [] then [] else Bound(body, addrs[0]) + Unrolled(body, addrs[1..])
  }

  function Starts(addrs: seq<septet>): (cs: seq<Cmd>)
    ensures |cs| == |addrs|
  {
    seq(|addrs|, i requires 0 <= i < |addrs| => Start(addrs[i]))
  }

  function Blocks(body: seq<Cmd>, addrs: seq<septet>): seq<Cmd> {
    [BlkData] + body + [BlkAddr] + Starts(addrs) + [Exit]
  }

  /** Looking for the address block, the data block is passed over. */
  lemma {:induction false} ScansBody(rom: seq<int>, m: Machine, body: seq<Cmd>)
    requires m.state == Table1 && AllBlock(body) && Holds(rom, m.pc, body)
    ensures Steps(rom, m, |body|) == m.(pc := m.pc + |body|)
    decreases |body|
  {
    if body != [] {
      HoldsTail(rom, m.pc, body);
      ScanStep(rom, m, body[0]);
      ScansBody(rom, Step(rom, m), body[1..]);
    }
  }

  /** With an address, the data block is executed with its starts going to that address. */
  lemma {:induction false} RunsBody(rom: seq<int>, m: Machine, body: seq<Cmd>)
    requires m.state == Table3 && AllBlock(body) && Holds(rom, m.pc, body)
    ensures Steps(rom, m, |body|) == m.(pc := m.pc + |body|, core := Effects(Bound(body, m.cur), m.core))
    decreases |body|
  {
    if body != [] {
      HoldsTail(rom, m.pc, body);
      BlockStep(rom, m, body[0]);
      assert Bound(body, m.cur)[1..] == Bound(body[1..], m.cur);
      RunsBody(rom, Step(rom, m), body[1..]);
    }
  }

  function RoundSteps(body: seq<Cmd>, addrs: seq<septet>): nat
    decreases |addrs|
  {
    if addrs == [] then 1 else 1 + (|body| + 1) + RoundSteps(body, addrs[1..])
  }

  /** One address: its start, the data block, and back to the address block. */
  lemma OneRound(rom: seq<int>, m: Machine, body: seq<Cmd>, a: septet)
    requires m.state == Table2 && AllBlock(body) && At(rom, m.pc) == Word(Start(a))
    requires Holds(rom, m.dataPtr, body + [BlkAddr])
    ensures Steps(rom, m, 1 + (|body| + 1))
         == m.(pc := m.pc + 1, addrPtr := m.pc + 1, cur := a, core := Effects(Bound(body, a), m.core))
  {
    var x := m.(cur := a, addrPtr := m.pc + 1, pc := m.dataPtr, state := Table3);
    var y := x.(pc := x.pc + |body|, core := Effects(Bound(body, a), m.core));
    RoundStarts(rom, m, a);
    RoundEnds(rom, x, y, body);
    StepsOn(rom, m, 1, x, |body| + 1, y.(pc := y.addrPtr, state := Table2));
  }

  lemma RoundStarts(rom: seq<int>, m: Machine, a: septet)
    requires m.state == Table2 && At(rom, m.pc) == Word(Start(a))
    ensures Steps(rom, m, 1) == m.(cur := a, addrPtr := m.pc + 1, pc := m.dataPtr, state := Table3)
  {
    StartStep(rom, m, a);
    OneStep(rom, m);
  }

  lemma RoundEnds(rom: seq<int>, x: Machine, y: Machine, body: seq<Cmd>)
    requires x.state == Table3 && AllBlock(body) && Holds(rom, x.pc, body + [BlkAddr])
    requires y == x.(pc := x.pc + |body|, core := Effects(Bound(body, x.cur), x.core))
    ensures Steps(rom, x, |body| + 1) == y.(pc := y.addrPtr, state := Table2)
  {
    HoldsParts(rom, x.pc, body, [BlkAddr]);
    HoldsTail(rom, x.pc + |body|, [BlkAddr]);
    RunsBody(rom, x, body);
    AgainStep(rom, y);
    OneStep(rom, y);
    StepsOn(rom, x, |body|, y, 1, y.(pc := y.addrPtr, state := Table2));
  }

  /** From the address block on: every address in turn, then out of the blocks. */
  lemma {:induction false} Rounds(rom: seq<int>, m: Machine, body: seq<Cmd>, addrs: seq<septet>)
    requires m.state == Table2 && AllBlock(body)
    requires Holds(rom, m.dataPtr, body + [BlkAddr]) && Holds(rom, m.pc, Starts(addrs) + [Exit])
    ensures var n := Steps(rom, m, RoundSteps(body, addrs));
            n.state == Run && n.pc == m.pc + |addrs| + 1 && n.core == Effects(Unrolled(body, addrs), m.core)
    decreases |addrs|
  {
    HoldsTail(rom, m.pc, Starts(addrs) + [Exit]);
    if addrs == [] {
      WordReads(Exit);
      assert Steps(rom, m, 1) == Steps(rom, Step(rom, m), 0);
    } else {
      var a := addrs[0];
      assert (Starts(addrs) + [Exit])[1..] == Starts(addrs[1..]) + [Exit];
      OneRound(rom, m, body, a);
      var x := Steps(rom, m, 1 + (|body| + 1));
      Rounds(rom, x, body, addrs[1..]);
      StepsSplit(rom, m, 1 + (|body| + 1), RoundSteps(body, addrs[1..]));
      EffectsBoth(Bound(body, a), Unrolled(body, addrs[1..]), m.core);
    }
  }

  function BlockSteps(body: seq<Cmd>, addrs: seq<septet>): nat {
    1 + |body| + 1 + RoundSteps(body, addrs)
  }

  /** A data block and an address block do what the data block does written out once for every
      address, none included. */
  lemma RunsBlocks(rom: seq<int>, m: Machine, body: seq<Cmd>, addrs: seq<septet>)
    requires m.state == Run && AllBlock(body) && Holds(rom, m.pc, Blocks(body, addrs))
    ensures var n := Steps(rom, m, BlockSteps(body, addrs));
            && n.state == Run && n.pc == m.pc + |Blocks(body, addrs)|
            && n.core == Effects(Unrolled(body, addrs), m.core)
  {
    var x := m.(pc := m.pc + 1, dataPtr := m.pc + 1, state := Table1);
    var y := x.(pc := x.pc + |body|);
    var z := y.(pc := y.pc + 1, addrPtr := y.pc + 1, state := Table2);
    BlocksHold(rom, m.pc, body, addrs);
    EntersBlocks(rom, m, x, y, z, body);
    Rounds(rom, z, body, addrs);
    StepsOn(rom, m, 1 + |body| + 1, z, RoundSteps(body, addrs), Steps(rom, z, RoundSteps(body, addrs)));
  }

  lemma BlocksHold(rom: seq<int>, pc: nat, body: seq<Cmd>, addrs: seq<septet>)
    requires Holds(rom, pc, Blocks(body, addrs))
    ensures At(rom, pc) == Word(BlkData) && Holds(rom, pc + 1, body + [BlkAddr]) && Holds(rom, pc + 1, body)
    ensures At(rom, pc + 1 + |body|) == Word(BlkAddr) && Holds(rom, pc + 1 + |body| + 1, Starts(addrs) + [Exit])
  {
    var tail := Starts(addrs) + [Exit];
    assert Blocks(body, addrs) == [BlkData] + ((body + [BlkAddr]) + tail);
    HoldsParts(rom, pc, [BlkData], (body + [BlkAddr]) + tail);
    HoldsTail(rom, pc, [BlkData]);
    HoldsParts(rom, pc + 1, body + [BlkAddr], tail);
    HoldsParts(rom, pc + 1, body, [BlkAddr]);
    HoldsTail(rom, pc + 1 + |body|, [BlkAddr]);
  }

  /** To the address block. */
  lemma EntersBlocks(rom: seq<int>, m: Machine, x: Machine, y: Machine, z: Machine, body: seq<Cmd>)
    requires m.state == Run && AllBlock(body) && At(rom, m.pc) == Word(BlkData)
    requires Holds(rom, m.pc + 1, body) && At(rom, m.pc + 1 + |body|) == Word(BlkAddr)
    requires x == m.(pc := m.pc + 1, dataPtr := m.pc + 1, state := Table1)
    requires y == x.(pc := x.pc + |body|) && z == y.(pc := y.pc + 1, addrPtr := y.pc + 1, state := Table2)
    ensures Steps(rom, m, 1 + |body| + 1) == z
  {
    DataStep(rom, m);
    OneStep(rom, m);
    ScansBody(rom, x, body);
    AddrStep(rom, y);
    OneStep(rom, y);
    StepsOn(rom, m, 1, x, |body|, y);
    StepsOn(rom, m, 1 + |body|, y, 1, z);
  }

  lemma DataStep(rom: seq<int>, m: Machine)
    requires m.state == Run && At(rom, m.pc) == Word(BlkData)
    ensures Step(rom, m) == m.(pc := m.pc + 1, dataPtr := m.pc + 1, state := Table1)
  {
    WordReads(BlkData);
  }

  lemma AddrStep(rom: seq<int>, m: Machine)
    requires m.state == Table1 && At(rom, m.pc) == Word(BlkAddr)
    ensures Step(rom, m) == m.(pc := m.pc + 1, addrPtr := m.pc + 1, state := Table2)
  {
    WordReads(BlkAddr);
  }

  lemma OneStep(rom: seq<int>, m: Machine)
    ensures Steps(rom, m, 1) == Step(rom, m)
  {
    assert Steps(rom, Step(rom, m), 0) == Step(rom, m);
  }

  // ---- whole programs ----

  function Rom(cs: seq<Cmd>): (rom: seq<int>)
    ensures |rom| == |cs|
  {
    seq(|cs|, i requires 0 <= i < |cs| => Word(cs[i]))
  }

  function Begin(): Machine {
    Machine(Run, 0, 0, 0, 0, Core(false, 0, []))
  }

  /** The program comes to its end, and has then done x to the bus. */
  ghost predicate Ends(rom: seq<int>, m: Machine, x: Core) {
    exists n: nat :: Steps(rom, m, n).state == Idle && Steps(rom, m, n).core == x
  }

  lemma EndsAt(rom: seq<int>, m: Machine, n: nat)
    requires m.state == Run && Steps(rom, m, n).state == Run && At(rom, Steps(rom, m, n).pc) == Word(Halt)
    ensures Ends(rom, m, DoStop(Steps(rom, m, n).core))
    ensures Steps(rom, m, n + 1).state == Idle && Steps(rom, m, n + 1).core == DoStop(Steps(rom, m, n).core)
  {
    WordReads(Halt);
    OneStep(rom, Steps(rom, m, n));
    StepsSplit(rom, m, n, 1);
    assert Steps(rom, m, n + 1).state == Idle;
  }

  /** A plain program does its commands in order and then stops. */
  lemma PlainProgram(cs: seq<Cmd>)
    requires AllPlain(cs)
    ensures Ends(Rom(cs + [Halt]), Begin(), DoStop(Effects(cs, Begin().core)))
  {
    var rom := Rom(cs + [Halt]);
    RomHolds(cs);
    RunsPlain(rom, Begin(), cs);
    EndsAt(rom, Begin(), |cs|);
  }

  lemma RomHolds(cs: seq<Cmd>)
    ensures Holds(Rom(cs + [Halt]), 0, cs) && At(Rom(cs + [Halt]), |cs|) == Word(Halt)
  {
    forall i | 0 <= i < |cs|
      ensures Rom(cs + [Halt])[0 + i] == Word(cs[i])
    {
      assert (cs + [Halt])[i] == cs[i];
    }
  }

  // ---- programs of plain commands and blocks ----

  /** A stretch of plain commands, or a data block with its address block. */
  datatype Item = Straight(cmds: seq<Cmd>) | Repeated(body: seq<Cmd>, addrs: seq<septet>) {
    predicate Ok() {
      match this
      case Straight(cmds) => AllPlain(cmds)
      case Repeated(body, addrs) => AllBlock(body)
    }

    function Code(): seq<Cmd> {
      match this
      case Straight(cmds) => cmds
      case Repeated(body, addrs) => Blocks(body, addrs)
    }

    /** The same with the data block written out once for every address. */
    function WrittenOut(): (cs: seq<Cmd>)
      requires Ok()
      ensures AllPlain(cs)
    {
      match this
      case Straight(cmds) => cmds
      case Repeated(body, addrs) => Unrolled(body, addrs)
    }

    function Count(): nat {
      match this
      case Straight(cmds) => |cmds|
      case Repeated(body, addrs) => BlockSteps(body, addrs)
    }
  }

  predicate AllOk(items: seq<Item>) {
    forall i :: 0 <= i < |items| ==> items[i].Ok()
  }

  function Code(items: seq<Item>): seq<Cmd> {
    if items == [] then [] else items[0].Code() + Code(items[1..])
  }

  function WrittenOut(items: seq<Item>): (cs: seq<Cmd>)
    requires AllOk(items)
    ensures AllPlain(cs)
  {
    if items == [] then [] else items[0].WrittenOut() + WrittenOut(items[1..])
  }

  function Count(items: seq<Item>): nat {
    if items == [] then 0 else items[0].Count() + Count(items[1..])
  }

  /** In n steps the machine passes over len words and does cs. */
  ghost predicate Does(rom: seq<int>, m: Machine, n: nat, len: nat, cs: seq<Cmd>)
    requires AllPlain(cs)
  {
    var e := Steps(rom, m, n);
    e.state == Run && e.pc == m.pc + len && e.core == Effects(cs, m.core)
  }

  lemma DoesBoth(rom: seq<int>, m: Machine, n: nat, len: nat, cs: seq<Cmd>, n': nat, len': nat, cs': seq<Cmd>)
    requires AllPlain(cs) && AllPlain(cs')
    requires Does(rom, m, n, len, cs) && Does(rom, Steps(rom, m, n), n', len', cs')
    ensures AllPlain(cs + cs') && Does(rom, m, n + n', len + len', cs + cs')
  {
    StepsSplit(rom, m, n, n');
    EffectsBoth(cs, cs', m.core);
  }

  /** Wherever it stands, code does out in n steps. */
  ghost predicate Works(code: seq<Cmd>, out: seq<Cmd>, n: nat) {
    && AllPlain(out)
    && forall rom, m: Machine :: m.state == Run && Holds(rom, m.pc, code) ==> Does(rom, m, n, |code|, out)
  }

  lemma WorksBoth(code: seq<Cmd>, out: seq<Cmd>, n: nat, code': seq<Cmd>, out': seq<Cmd>, n': nat)
    requires Works(code, out, n) && Works(code', out', n')
    ensures Works(code + code', out + out', n + n')
  {
    forall rom, m: Machine | m.state == Run && Holds(rom, m.pc, code + code')
      ensures AllPlain(out + out') && Does(rom, m, n + n', |code + code'|, out + out')
    {
      HoldsParts(rom, m.pc, code, code');
      assert Does(rom, m, n, |code|, out);
      assert Does(rom, Steps(rom, m, n), n', |code'|, out');
      DoesBoth(rom, m, n, |code|, out, n', |code'|, out');
    }
  }

  lemma WorksNothing()
    ensures Works([], [], 0)
  {
  }

  lemma WorksItem(item: Item)
    requires item.Ok()
    ensures Works(item.Code(), item.WrittenOut(), item.Count())
  {
    forall rom, m: Machine | m.state == Run && Holds(rom, m.pc, item.Code())
      ensures Does(rom, m, item.Count(), |item.Code()|, item.WrittenOut())
    {
      match item
      case Straight(cmds) => RunsPlain(rom, m, cmds);
      case Repeated(body, addrs) => RunsBlocks(rom, m, body, addrs);
    }
  }

  /** However stretches and blocks follow each other, all are executed in order. */
  lemma {:induction false} WorksItems(items: seq<Item>)
    requires AllOk(items)
    ensures Works(Code(items), WrittenOut(items), Count(items))
  {
    if items == [] {
      WorksNothing();
    } else {
      WorksItem(items[0]);
      WorksItems(items[1..]);
      WorksMore(items[0], items[1..], items);
    }
  }

  lemma WorksMore(item: Item, rest: seq<Item>, items: seq<Item>)
    requires AllOk(items) && items != [] && item == items[0] && rest == items[1..]
    requires Works(item.Code(), item.WrittenOut(), item.Count())
    requires Works(Code(rest), WrittenOut(rest), Count(rest))
    ensures Works(Code(items), WrittenOut(items), Count(items))
  {
    WorksSum(item.Code(), item.WrittenOut(), item.Count(), Code(rest), WrittenOut(rest), Count(rest),
      Code(items), WrittenOut(items), Count(items));
  }

  lemma WorksSum(code: seq<Cmd>, out: seq<Cmd>, n: nat, code': seq<Cmd>, out': seq<Cmd>, n': nat,
    all: seq<Cmd>, allOut: seq<Cmd>, sum: nat)
    requires Works(code, out, n) && Works(code', out', n')
    requires all == code + code' && allOut == out + out' && sum == n + n'
    ensures Works(all, allOut, sum)
  {
    WorksBoth(code, out, n, code', out', n');
  }

  /** A program comes to its end, after a step for every command executed and one for the halt. */
  lemma RunsProgram(items: seq<Item>)
    requires AllOk(items)
    ensures var rom := Rom(Code(items) + [Halt]);
            && Steps(rom, Begin(), Count(items) + 1).state == Idle
            && Steps(rom, Begin(), Count(items) + 1).core == DoStop(Effects(WrittenOut(items), Begin().core))
  {
    var cs := Code(items);
    RomHolds(cs);
    WorksItems(items);
    assert Does(Rom(cs + [Halt]), Begin(), Count(items), |cs|, WrittenOut(items));
    EndsAt(Rom(cs + [Halt]), Begin(), Count(items));
  }

  /** A program with any number of blocks ends as the program with the blocks written out does. */
  lemma UnrolledProgram(items: seq<Item>)
    requires AllOk(items)
    ensures var x := DoStop(Effects(WrittenOut(items), Begin().core));
            Ends(Rom(Code(items) + [Halt]), Begin(), x) && Ends(Rom(WrittenOut(items) + [Halt]), Begin(), x)
  {
    PlainProgram(WrittenOut(items));
    RunsProgram(items);
  }

  lemma {:induction false} ItemAfter(items: seq<Item>, item: Item)
    requires AllOk(items) && item.Ok()
    ensures Code(items + [item]) == Code(items) + item.Code()
    ensures WrittenOut(items + [item]) == WrittenOut(items) + item.WrittenOut()
  {
    Alone(item.Code());
    Alone(item.WrittenOut());
    if items == [] {
      assert [item][1..] == [];
      Alone([item]);
    } else {
      ItemAfter(items[1..], item);
      assert (items + [item])[1..] == items[1..] + [item];
      Regrouped(items[0].Code(), Code(items[1..]), item.Code());
      Regrouped(items[0].WrittenOut(), WrittenOut(items[1..]), item.WrittenOut());
    }
  }
}
