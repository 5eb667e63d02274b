/** What the bus master of src/lss/rtl/taxi_i2c_master.sv makes of the commands it takes: it starts
    and stops by itself where no command says so, which a device can notice. */
module I2cBus {
  import opened Base
  import opened I2cInit
  import opened I2cCompile
  import opened I2cFsm

  /** Who has the bus: nobody of ours; the master, between bytes, to give it up after them or not; or
      the master with a byte to come, behind a start or not. */
  datatype Hold = Released | Holding(addr: septet, stop: bool) | Awaits(addr: septet, started: bool, stop: bool)

  /** What an edge does to it, and what it puts on the bus. */
  predicate Moves(v: Hold, cmdValid: bool, taken: bool, cmd: Beat, txTaken: bool, y: byte, w: Hold, news: seq<BusOp>) {
    if taken then
      if cmd.write then news == [] && w == Awaits(cmd.addr, cmd.start || !v.Holding? || v.addr != cmd.addr, cmd.stop)
      else if cmd.stop then w == Released && news == if v.Holding? then [StopCond(v.addr)] else []
      else w == v && news == []
    else if txTaken then v.Awaits? && w == Holding(v.addr, v.stop) && news == [Write(v.started, v.addr, y)]
    else
      || (w == v && news == [])
      || (v.Holding? && (!cmdValid || v.stop) && w == Released && news == [StopCond(v.addr)])
  }

  // ---- programs that leave the master no time to stop before a write that needs the bus held ----

  /** The next command executed is a write. */
  predicate Writes1(rom: seq<int>, m: Machine) {
    (m.state == Run || m.state == Table3) && IsWr(At(rom, m.pc))
  }

  /** If command k from here is a write, it comes with a start or directly behind another write; `hot`
      says whether the command before the first is one. */
  predicate TightAt(rom: seq<int>, m: Machine, hot: bool, k: nat) {
    Writes1(rom, Steps(rom, m, k)) ==>
      Steps(rom, m, k).core.pending || if k == 0 then hot else Writes1(rom, Steps(rom, m, k - 1))
  }

  /** So do all of n commands. */
  predicate Tight(rom: seq<int>, m: Machine, hot: bool, n: nat) {
    forall k :: 0 <= k < n ==> TightAt(rom, m, hot, k)
  }

  lemma TightOn(rom: seq<int>, m: Machine, hot: bool, n: nat)
    requires Tight(rom, m, hot, n) && n > 0
    ensures Writes1(rom, m) ==> m.core.pending || hot
    ensures Tight(rom, Step(rom, m), Writes1(rom, m), n - 1)
  {
    assert TightAt(rom, m, hot, 0);
    forall k | 0 <= k < n - 1
      ensures TightAt(rom, Step(rom, m), Writes1(rom, m), k)
    {
      assert TightAt(rom, m, hot, k + 1);
    }
  }

  /** In a list of commands every write stands directly behind a start or another write. */
  predicate Joined(cs: seq<Cmd>) {
    forall i :: 0 <= i < |cs| && cs[i].Wr? ==> i > 0 && (cs[i - 1].Wr? || cs[i - 1].Start?)
  }

  lemma JoinedBoth(xs: seq<Cmd>, ys: seq<Cmd>)
    requires Joined(xs) && Joined(ys)
    ensures Joined(xs + ys)
  {
    forall i | 0 <= i < |xs + ys| && (xs + ys)[i].Wr?
      ensures i > 0 && ((xs + ys)[i - 1].Wr? || (xs + ys)[i - 1].Start?)
    {
      if i < |xs| {
        assert xs[i].Wr?;
      } else {
        assert ys[i - |xs|].Wr?;
      }
    }
  }

  /** A program of such commands is tight from its beginning to its halt. */
  lemma JoinedTight(cs: seq<Cmd>)
    requires AllPlain(cs) && Joined(cs)
    ensures Tight(Rom(cs + [Halt]), Begin(), false, |cs| + 1)
  {
    var rom := Rom(cs + [Halt]);
    forall k | 0 <= k < |cs| + 1
      ensures TightAt(rom, Begin(), false, k)
    {
      AfterPart(cs, k);
      WordReads((cs + [Halt])[k]);
      if k > 0 {
        AfterPart(cs, k - 1);
        WordReads(cs[k - 1]);
        LastOf(cs, k);
      }
    }
  }

  /** The machine after the first k commands. */
  lemma AfterPart(cs: seq<Cmd>, k: nat)
    requires AllPlain(cs) && k <= |cs|
    ensures var x := Steps(Rom(cs + [Halt]), Begin(), k); x.state == Run && x.pc == k && x.core == Effects(cs[..k], Begin().core)
    ensures At(Rom(cs + [Halt]), k) == Word((cs + [Halt])[k])
  {
    var rom := Rom(cs + [Halt]);
    assert forall i :: 0 <= i < k ==> rom[0 + i] == Word(cs[..k][i]);
    RunsPlain(rom, Begin(), cs[..k]);
  }

  /** After a start a start is pending. */
  lemma LastOf(cs: seq<Cmd>, k: nat)
    requires AllPlain(cs) && 0 < k <= |cs|
    ensures cs[k - 1].Start? ==> Effects(cs[..k], Begin().core).pending
  {
    assert cs[..k] == cs[..k - 1] + [cs[k - 1]];
    EffectsBoth(cs[..k - 1], [cs[k - 1]], Begin().core);
    assert [cs[k - 1]][1..] == [];
  }

  /** What the compiler makes of a list is joined: that is why it forgets the address at a delay. */
  lemma {:induction false} CompiledJoined(dev: septet, lines: seq<Line>)
    ensures var (cs, t) := Compiled(dev, lines); Joined(cs) && (t.addr.Some? ==> cs != [] && cs[|cs| - 1].Wr?)
  {
    if lines != [] {
      var n := |lines| - 1;
      CompiledJoined(dev, lines[..n]);
      var (cs, t) := Compiled(dev, lines[..n]);
      LineJoined(dev, cs, t, lines[n]);
    }
  }

  lemma LineJoined(dev: septet, cs: seq<Cmd>, t: Track, line: Line)
    requires Joined(cs) && (t.addr.Some? ==> cs != [] && cs[|cs| - 1].Wr?)
    ensures var (more, u) := LineCmds(dev, t, line);
            var all := cs + more; Joined(all) && (u.addr.Some? ==> all != [] && all[|all| - 1].Wr?)
  {
    match line
    case Skipped =>
      Alone(cs);
    case Comment(delay) =>
      Alone(cs);
      if delay {
        JoinedBoth(cs, [Delay(10)]);
      }
    case Reg(addr, data) =>
      var repage := t.page != Some(PageOf(addr));
      var p := if repage then SetPage(dev, PageOf(addr)) else [];
      var a := if repage || t.addr != Some(addr) then SetAddr(dev, addr) else [];
      Alone(cs);
      JoinedBoth(p, a);
      JoinedBoth(cs, p + a);
      Regrouped(cs, p + a, [Wr(data)]);
      JoinedWrite(cs + (p + a), data);
  }

  lemma JoinedWrite(cs: seq<Cmd>, data: byte)
    requires Joined(cs) && cs != [] && cs[|cs| - 1].Wr?
    ensures Joined(cs + [Wr(data)]) && (cs + [Wr(data)])[|cs|].Wr?
  {
  }

  /** What a command adds to the operations. */
  lemma StepPuts(rom: seq<int>, m: Machine)
    ensures var x, y := m.core, Step(rom, m).core;
            if Writes1(rom, m) then y == DoWrite(x, Low8(At(rom, m.pc)))
            else y.out == x.out || (exists d :: y.out == x.out + [Wait(d)]) || y.out == x.out + [StopCond(x.addr)]
  {
    var w := At(rom, m.pc);
    if IsDelay(w) {
      assert DoWait(m.core, Low4(w)).out == m.core.out + [Wait(Low4(w))];
    }
  }

  /** The module at an edge: its interpreter, its delay, its outputs and what has been accepted. */
  datatype Snap = Snap(m: Machine, delay: nat, cmdValid: bool, out: Beat, txValid: bool, data: byte, beats: seq<Beat>, bytes: seq<byte>) {
    ghost predicate Wired() {
      OnWire(cmdValid, out, txValid, data, beats, bytes, m.core.out)
    }

    predicate Busy() {
      cmdValid || txValid
    }

    predicate Executes() {
      !Busy() && delay == 0 && m.state != Idle
    }
  }

  /** A write without a start finds the master holding the bus for its address. `hot` says that the
      command executed last is a write, `late` that the byte of a write has just been taken. */
  predicate Steady(hot: bool, x: Snap, v: Hold, late: bool) {
    && (hot ==> x.m.state != Idle && x.delay == 0)
    && (x.txValid ==> hot)
    && (x.cmdValid ==> x.out.write == hot == x.txValid == !x.out.stop)
    && (x.cmdValid && hot ==> x.out.addr == x.m.core.addr && (!x.out.start ==> v == Holding(x.out.addr, false)))
    && (hot && !x.cmdValid && x.txValid ==> v.Awaits? && v.addr == x.m.core.addr)
    && (hot && !x.Busy() ==> v == Holding(x.m.core.addr, false) && late)
    && (v.Holding? || v.Awaits? ==> !v.stop)
  }

  lemma SteadyBusy(hot: bool, x: Snap, v: Hold, late: bool, rc: bool, rt: bool, y: Snap, w: Hold, news: seq<BusOp>, late': bool)
    requires Steady(hot, x, v, late) && x.Busy()
    requires Moves(v, x.cmdValid, x.cmdValid && rc, x.out, x.txValid && rt, x.data, w, news)
    requires x.txValid && rt ==> late' && v.Awaits? && !x.cmdValid
    requires y.m == x.m && y.delay == x.delay && y.cmdValid == (x.cmdValid && !rc) && y.txValid == (x.txValid && !rt)
    requires y.cmdValid ==> y.out == x.out
    ensures Steady(hot, y, w, late')
  {
  }

  lemma SteadyWaits(hot: bool, x: Snap, v: Hold, late: bool, y: Snap, w: Hold, news: seq<BusOp>, late': bool)
    requires Steady(hot, x, v, late) && !x.Busy() && !x.Executes() && !y.Busy()
    requires Moves(v, false, false, x.out, false, x.data, w, news)
    ensures !hot && Steady(hot, y, w, late')
  {
  }

  lemma SteadyExecutes(rom: seq<int>, hot: bool, x: Snap, v: Hold, late: bool, y: Snap, w: Hold, news: seq<BusOp>, late': bool)
    requires Steady(hot, x, v, late) && x.Executes() && x.Wired() && y.Wired()
    requires y.m == Step(rom, x.m) && y.beats == x.beats && y.bytes == x.bytes
    requires y.delay == 0 || IsDelay(At(rom, x.m.pc))
    requires Moves(v, false, false, x.out, false, x.data, w, news) && (late ==> w == v)
    requires Writes1(rom, x.m) ==> x.m.core.pending || hot
    ensures Steady(Writes1(rom, x.m), y, w, late')
  {
    var c := x.m.core;
    StepPuts(rom, x.m);
    if Writes1(rom, x.m) {
      OnePut(x.out, x.data, x.beats, x.bytes, c.out, y.cmdValid, y.out, y.txValid, y.data,
        Write(c.pending, c.addr, Low8(At(rom, x.m.pc))));
    } else if y.m.core.out == c.out + [StopCond(c.addr)] {
      OnePut(x.out, x.data, x.beats, x.bytes, c.out, y.cmdValid, y.out, y.txValid, y.data, StopCond(c.addr));
    } else {
      NothingPut(x.out, x.data, x.beats, x.bytes, c.out, y.cmdValid, y.out, y.txValid, y.data, y.m.core.out);
    }
  }

  // ---- what the device sees ----

  /** The device on the bus, and the device the module's outputs alone would make: the same, but for
      being selected while the master does not hold the bus or is starting again. */
  ghost predicate AlikeTo(dev: septet, d0: Device, v: Hold, bus: seq<BusOp>, beats: seq<Beat>, bytes: seq<byte>) {
    var d, e := SeesAll(dev, d0, bus), SeesAll(dev, d0, FromWire(beats, bytes));
    && d == e.(selected := d.selected)
    && (v.Holding? || (v.Awaits? && !v.started) ==> d == e)
    && (v.Awaits? ==> beats != [] && beats[|beats| - 1] == Beat(v.addr, v.started, true, false))
  }

  lemma AlikeCmd(dev: septet, d0: Device, v: Hold, bus: seq<BusOp>, beats: seq<Beat>, bytes: seq<byte>, out: Beat, w: Hold, news: seq<BusOp>)
    requires AlikeTo(dev, d0, v, bus, beats, bytes) && !v.Awaits? && Writes(beats) == |bytes|
    requires Moves(v, true, true, out, false, 0, w, news) && out.stop == !out.write
    requires out.write && !out.start ==> v == Holding(out.addr, false)
    ensures AlikeTo(dev, d0, w, bus + news, beats + [out], bytes)
  {
    WireMore(beats, bytes, out);
    Alone(bus);
    Alone(FromWire(beats, bytes));
    if !out.write {
      SeesMore(dev, d0, FromWire(beats, bytes), StopCond(out.addr));
      if v.Holding? {
        SeesMore(dev, d0, bus, StopCond(v.addr));
      }
    }
  }

  lemma AlikeByte(dev: septet, d0: Device, v: Hold, bus: seq<BusOp>, beats: seq<Beat>, bytes: seq<byte>, y: byte)
    requires AlikeTo(dev, d0, v, bus, beats, bytes) && v.Awaits? && Writes(beats) == |bytes| + 1
    ensures AlikeTo(dev, d0, Holding(v.addr, v.stop), bus + [Write(v.started, v.addr, y)], beats, bytes + [y])
  {
    var n := |beats| - 1;
    var front, b := beats[..n], beats[n];
    assert beats == front + [b];
    WireMore(front, bytes, b);
    WireMore(front, bytes + [y], b);
    EarlyByte(front, bytes, y);
    Alone(FromWire(front, bytes));
    SeesMore(dev, d0, bus, Write(v.started, v.addr, y));
    SeesMore(dev, d0, FromWire(beats, bytes), Write(v.started, v.addr, y));
  }

  lemma AlikeStop(dev: septet, d0: Device, v: Hold, bus: seq<BusOp>, beats: seq<Beat>, bytes: seq<byte>)
    requires AlikeTo(dev, d0, v, bus, beats, bytes) && v.Holding?
    ensures AlikeTo(dev, d0, Released, bus + [StopCond(v.addr)], beats, bytes)
  {
    SeesMore(dev, d0, bus, StopCond(v.addr));
  }

  /** That is so of every device. */
  ghost predicate Alike(v: Hold, bus: seq<BusOp>, beats: seq<Beat>, bytes: seq<byte>) {
    forall dev, d0 :: AlikeTo(dev, d0, v, bus, beats, bytes)
  }

  lemma AlikeEdge(hot: bool, x: Snap, v: Hold, late: bool, rc: bool, rt: bool, bus: seq<BusOp>, y: Snap, w: Hold, news: seq<BusOp>)
    requires Steady(hot, x, v, late) && Alike(v, bus, x.beats, x.bytes)
    requires Writes(x.beats) == |x.bytes| + if v.Awaits? then 1 else 0
    requires (x.cmdValid && rc ==> !v.Awaits? && !(x.txValid && rt)) && (x.txValid && rt ==> v.Awaits?)
    requires Moves(v, x.cmdValid, x.cmdValid && rc, x.out, x.txValid && rt, x.data, w, news)
    requires y.beats == x.beats + if x.cmdValid && rc then [x.out] else []
    requires y.bytes == x.bytes + if x.txValid && rt then [x.data] else []
    ensures Alike(w, bus + news, y.beats, y.bytes)
  {
    forall dev, d0
      ensures AlikeTo(dev, d0, w, bus + news, y.beats, y.bytes)
    {
      assert AlikeTo(dev, d0, v, bus, x.beats, x.bytes);
      AlikeToEdge(dev, d0, hot, x, v, late, rc, rt, bus, y, w, news);
    }
  }

  /** An edge keeps the two devices alike. */
  lemma AlikeToEdge(dev: septet, d0: Device, hot: bool, x: Snap, v: Hold, late: bool, rc: bool, rt: bool, bus: seq<BusOp>,
    y: Snap, w: Hold, news: seq<BusOp>)
    requires Steady(hot, x, v, late) && AlikeTo(dev, d0, v, bus, x.beats, x.bytes)
    requires Writes(x.beats) == |x.bytes| + if v.Awaits? then 1 else 0
    requires (x.cmdValid && rc ==> !v.Awaits? && !(x.txValid && rt)) && (x.txValid && rt ==> v.Awaits?)
    requires Moves(v, x.cmdValid, x.cmdValid && rc, x.out, x.txValid && rt, x.data, w, news)
    requires y.beats == x.beats + if x.cmdValid && rc then [x.out] else []
    requires y.bytes == x.bytes + if x.txValid && rt then [x.data] else []
    ensures AlikeTo(dev, d0, w, bus + news, y.beats, y.bytes)
  {
    Alone(x.beats);
    Alone(x.bytes);
    Alone(bus);
    if x.cmdValid && rc {
      AlikeCmd(dev, d0, v, bus, x.beats, x.bytes, x.out, w, news);
    } else if x.txValid && rt {
      AlikeByte(dev, d0, v, bus, x.beats, x.bytes, x.data);
    } else if w != v {
      AlikeStop(dev, d0, v, bus, x.beats, x.bytes);
    }
  }
}
