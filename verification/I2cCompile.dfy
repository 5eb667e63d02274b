/** The register list compiler si5341_cmds of
    src/eth/example/HTG9200/fpga/pll/si5341_i2c_init.py, against a device with a page register
    and an address that counts up with every write. */
module I2cCompile {
  import opened Base
  import opened I2cInit

  /** A line of a register list file: blank or the heading, a comment, or a register write. */
  datatype Line = Skipped | Comment(delay: bool) | Reg(addr: int, data: byte)

  const PAGE_REG := 1

  /** What the compiler remembers of the device. */
  datatype Track = Track(page: Option<int>, addr: Option<int>)

  function Byte(x: int): byte {
    x % 256
  }

  function PageOf(addr: int): int {
    addr / 256 % 256
  }

  function SetPage(dev: septet, page: int): seq<Cmd> {
    [Start(dev), Wr(1), Wr(Byte(page))]
  }

  function SetAddr(dev: septet, addr: int): seq<Cmd> {
    [Start(dev), Wr(Byte(addr))]
  }

  /** The commands for one line, and what is remembered after it. */
  function LineCmds(dev: septet, t: Track, line: Line): (seq<Cmd>, Track) {
    match line
    case Skipped => ([], t)
    case Comment(delay) => if delay then ([Delay(10)], t.(addr := None)) else ([], t)
    case Reg(addr, data) =>
      var repage := t.page != Some(PageOf(addr));
      var readdress := repage || t.addr != Some(addr);
      ((if repage then SetPage(dev, PageOf(addr)) else []) + (if readdress then SetAddr(dev, addr) else []) + [Wr(data)],
       Track(Some(PageOf(addr)), Some(addr + 1)))
  }

  function Compiled(dev: septet, lines: seq<Line>): (seq<Cmd>, Track) {
    if lines == [] then ([], Track(None, None))
    else
      var before := Compiled(dev, lines[..|lines| - 1]);
      var line := LineCmds(dev, before.1, lines[|lines| - 1]);
      (before.0 + line.0, line.1)
  }

  /** The loop's body. */
  method CompileLine(dev: septet, page: Option<int>, next: Option<int>, line: Line)
    returns (cmds: seq<Cmd>, curPage: Option<int>, curAddr: Option<int>)
    ensures (cmds, Track(curPage, curAddr)) == LineCmds(dev, Track(page, next), line)
  {
    cmds, curPage, curAddr := [], page, next;
    match line {
      case Skipped =>
      case Comment(delay) =>
        if delay {
          cmds := [Delay(10)];
          curAddr := None;
        }
      case Reg(addr, data) =>
        if curPage != Some(PageOf(addr)) {
          cmds := SetPage(dev, PageOf(addr));
          curPage := Some(PageOf(addr));
          curAddr := None;
        }
        if curAddr != Some(addr) {
          cmds := cmds + SetAddr(dev, addr);
          curAddr := Some(addr);
        }
        cmds := cmds + [Wr(data)];
        Alone(SetPage(dev, PageOf(addr)));
        Alone(SetAddr(dev, addr));
        Alone<Cmd>([]);
        curAddr := Some(curAddr.value + 1);
    }
  }

  method Compile(dev: septet, lines: seq<Line>) returns (cmds: seq<Cmd>)
    ensures cmds == Compiled(dev, lines).0
    ensures Delays(cmds) == Asked(lines) && forall p :: 0 <= p < |cmds| && cmds[p].Delay? ==> cmds[p] == Delay(10)
  {
    DelaysAsked(dev, lines);
    var curPage: Option<int>, curAddr: Option<int> := None, None;
    cmds := [];
    for i := 0 to |lines|
      invariant (cmds, Track(curPage, curAddr)) == Compiled(dev, lines[..i])
    {
      assert lines[..i + 1][..i] == lines[..i];
      var more;
      more, curPage, curAddr := CompileLine(dev, curPage, curAddr, lines[i]);
      cmds := cmds + more;
    }
    assert lines[..|lines|] == lines;
  }

  /** What the compiler makes of the first line of a list, and of a line that goes on behind another. */
  lemma LinesBecome(dev: septet, addr: int, data: byte, more: byte)
    ensures var one := [Reg(addr, data)];
            Compiled(dev, one).0 == [Start(dev), Wr(1), Wr(addr / 256 % 256), Start(dev), Wr(addr % 256), Wr(data)]
    ensures var one, two := [Reg(addr, data)], [Reg(addr, data), Reg(addr + 1, more)];
            var rest := if addr % 256 != 255 then [Wr(more)]
                        else [Start(dev), Wr(1), Wr((addr + 1) / 256 % 256), Start(dev), Wr(0), Wr(more)];
            Compiled(dev, two).0 == Compiled(dev, one).0 + rest
  {
    var one, two := [Reg(addr, data)], [Reg(addr, data), Reg(addr + 1, more)];
    assert one[..0] == [] && two[..1] == one;
    assert Compiled(dev, []) == ([], Track(None, None));
    Alone(LineCmds(dev, Track(None, None), one[0]).0);
    NextPage(addr);
  }

  lemma NextPage(addr: int)
    ensures addr % 256 != 255 ==> PageOf(addr + 1) == PageOf(addr)
    ensures addr % 256 == 255 ==> PageOf(addr + 1) != PageOf(addr) && (addr + 1) % 256 == 0
  {
  }

  // ---- delays ----

  /** The delays among commands. */
  function Delays(cs: seq<Cmd>): nat {
    if cs == [] then 0 else Delays(cs[..|cs| - 1]) + if cs[|cs| - 1].Delay? then 1 else 0
  }

  /** The comments that ask for one. */
  function Asked(lines: seq<Line>): nat {
    if lines == [] then 0 else Asked(lines[..|lines| - 1]) + if lines[|lines| - 1] == Comment(true) then 1 else 0
  }

  lemma {:induction false} DelaysBoth(xs: seq<Cmd>, ys: seq<Cmd>)
    ensures Delays(xs + ys) == Delays(xs) + Delays(ys)
  {
    if ys == [] {
      assert xs + ys == xs;
    } else {
      assert (xs + ys)[..|xs + ys| - 1] == xs + ys[..|ys| - 1];
      DelaysBoth(xs, ys[..|ys| - 1]);
    }
  }

  lemma {:induction false} NoDelays(cs: seq<Cmd>)
    requires forall p :: 0 <= p < |cs| ==> !cs[p].Delay?
    ensures Delays(cs) == 0
  {
    if cs != [] {
      NoDelays(cs[..|cs| - 1]);
    }
  }

  lemma OneDelay(c: Cmd)
    requires c.Delay?
    ensures Delays([c]) == 1
  {
    assert [c][..0] == [];
  }

  /** A line asks for one delay or none. */
  lemma LineDelays(dev: septet, t: Track, line: Line)
    ensures Delays(LineCmds(dev, t, line).0) == if line == Comment(true) then 1 else 0
    ensures line == Comment(true) ==> LineCmds(dev, t, line).0 == [Delay(10)]
    ensures line != Comment(true) ==> forall p :: 0 <= p < |LineCmds(dev, t, line).0| ==> !LineCmds(dev, t, line).0[p].Delay?
  {
    if line == Comment(true) {
      OneDelay(Delay(10));
    } else {
      NoDelays(LineCmds(dev, t, line).0);
    }
  }

  /** The compiled list holds a delay for each comment that asks for one, and no other. */
  lemma {:induction false} DelaysAsked(dev: septet, lines: seq<Line>)
    ensures var cs := Compiled(dev, lines).0;
            Delays(cs) == Asked(lines) && forall p :: 0 <= p < |cs| && cs[p].Delay? ==> cs[p] == Delay(10)
  {
    if lines != [] {
      var n := |lines| - 1;
      DelaysAsked(dev, lines[..n]);
      var (cs, t) := Compiled(dev, lines[..n]);
      LineDelays(dev, t, lines[n]);
      DelaysBoth(cs, LineCmds(dev, t, lines[n]).0);
    }
  }

  /** What is compiled of the first lines stands first. */
  lemma {:induction false} CompiledGrows(dev: septet, lines: seq<Line>, i: nat)
    requires i <= |lines|
    ensures Compiled(dev, lines[..i]).0 <= Compiled(dev, lines).0
    decreases |lines|
  {
    if i < |lines| {
      var n := |lines| - 1;
      CompiledGrows(dev, lines[..n], i);
      assert lines[..n][..i] == lines[..i];
    } else {
      assert lines[..i] == lines;
    }
  }

  /** The delay a comment asks for stands directly behind what the lines before it have been compiled
      to, and as many delays are in that as they ask for. */
  lemma DelayPlace(dev: septet, lines: seq<Line>, i: nat)
    requires i < |lines| && lines[i] == Comment(true)
    ensures var cs, before := Compiled(dev, lines).0, Compiled(dev, lines[..i]).0;
            && |before| < |cs| && cs[..|before|] == before && cs[|before|] == Delay(10)
            && Delays(before) == Asked(lines[..i])
  {
    var before, here := Compiled(dev, lines[..i]), Compiled(dev, lines[..i + 1]).0;
    assert lines[..i + 1][..i] == lines[..i];
    LineDelays(dev, before.1, lines[i]);
    CompiledGrows(dev, lines, i + 1);
    DelaysAsked(dev, lines[..i]);
    assert here[..|before.0|] == before.0 && here[|before.0|] == Delay(10);
  }

  // ---- the device ----

  datatype Access = Access(addr: int, data: byte)

  /** A device at dev: the first byte after a start sets the address, every other byte is written
      and moves the address on within its page; register 1 of any page is the page. log is all that
      was written. */
  datatype Device = Device(selected: bool, awaiting: bool, ptr: int, page: int, log: seq<Access>)

  function Put(d: Device, data: byte): Device {
    Device(d.selected, d.awaiting, (d.ptr + 1) % 256, if d.ptr == PAGE_REG then data else d.page,
      d.log + [Access(d.page * 256 + d.ptr, data)])
  }

  function Sees(dev: septet, d: Device, op: BusOp): Device {
    match op
    case Wait(_) => d
    case StopCond(_) => d.(selected := false)
    case Write(start, addr, data) =>
      var e := if start then d.(selected := addr == dev, awaiting := true) else d;
      if !e.selected then e
      else if e.awaiting then e.(ptr := data, awaiting := false)
      else Put(e, data)
  }

  function SeesAll(dev: septet, d: Device, ops: seq<BusOp>): Device {
    if ops == [] then d else Sees(dev, SeesAll(dev, d, ops[..|ops| - 1]), ops[|ops| - 1])
  }

  // ---- what a line does to the device ----

  /** What the compiler remembers of the address is so. */
  predicate AddrKnown(t: Track, d: Device) {
    && 0 <= d.ptr < 256
    && (t.addr.Some? ==> d.selected && !d.awaiting && d.ptr == t.addr.value % 256)
  }

  lemma SeesMore(dev: septet, d: Device, ops: seq<BusOp>, op: BusOp)
    ensures SeesAll(dev, d, ops + [op]) == Sees(dev, SeesAll(dev, d, ops), op)
  {
    assert (ops + [op])[..|ops|] == ops;
  }

  lemma PageSet(d: Device, data: byte, page: int)
    requires d.ptr == 1 && data == page
    ensures Put(d, data) == d.(ptr := 2, page := page, log := d.log + [Access(d.page * 256 + 1, data)])
  {
  }

  /** A start and the byte after it set the address. */
  lemma AfterAddr(dev: septet, d0: Device, x: Core, low: byte)
    ensures AllPlain([Start(dev), Wr(low)])
    ensures var y := Effects([Start(dev), Wr(low)], x);
            && !y.pending && y.addr == dev
            && SeesAll(dev, d0, y.out) ==
               SeesAll(dev, d0, x.out).(selected := true, awaiting := false, ptr := low)
  {
    var cs := [Start(dev), Wr(low)];
    assert cs[1..] == [Wr(low)] && [Wr(low)][1..] == [];
    var y := DoStart(x, dev);
    assert Effects(cs, x) == Effects([Wr(low)], y);
    assert Effects([Wr(low)], y) == Effects([], DoWrite(y, low));
    SeesMore(dev, d0, x.out, Write(true, dev, low));
  }

  /** Another byte is written at the address. */
  lemma AfterData(dev: septet, d0: Device, x: Core, data: byte)
    requires !x.pending && SeesAll(dev, d0, x.out).selected && !SeesAll(dev, d0, x.out).awaiting
    ensures var y := Effects([Wr(data)], x);
            !y.pending && y.addr == x.addr && SeesAll(dev, d0, y.out) == Put(SeesAll(dev, d0, x.out), data)
  {
    assert [Wr(data)][1..] == [];
    SeesMore(dev, d0, x.out, Write(false, x.addr, data));
  }

  /** What a device has had written once a page is selected. */
  function Selected(d: Device, data: byte): seq<Access> {
    d.log + [Access(d.page * 256 + PAGE_REG, data)]
  }

  lemma AfterPage(dev: septet, d0: Device, x: Core, page: int)
    requires 0 <= page < 256
    ensures AllPlain(SetPage(dev, page))
    ensures var y, d := Effects(SetPage(dev, page), x), SeesAll(dev, d0, x.out);
            && !y.pending
            && SeesAll(dev, d0, y.out) == Device(true, false, 2, page, Selected(d, Byte(page)))
  {
    AfterPageByte(dev, d0, x, Byte(page), page);
  }

  lemma AfterPageByte(dev: septet, d0: Device, x: Core, data: byte, page: int)
    requires data == page
    ensures AllPlain([Start(dev), Wr(1), Wr(data)])
    ensures var y, d := Effects([Start(dev), Wr(1), Wr(data)], x), SeesAll(dev, d0, x.out);
            && !y.pending
            && SeesAll(dev, d0, y.out) == Device(true, false, 2, page, Selected(d, data))
  {
    var cs := [Start(dev), Wr(1)];
    assert [Start(dev), Wr(1), Wr(data)] == cs + [Wr(data)];
    AfterAddr(dev, d0, x, 1);
    EffectsBoth(cs, [Wr(data)], x);
    AfterData(dev, d0, Effects(cs, x), data);
    PageSet(SeesAll(dev, d0, Effects(cs, x).out), data, page);
  }

  /** Whether a register line selects its page first. */
  predicate Repages(t: Track, addr: int) {
    t.page != Some(PageOf(addr))
  }

  /** The first part of a register line brings the device to the page and address it is to write. */
  lemma AfterSetup(dev: septet, d0: Device, x: Core, t: Track, addr: int)
    requires !x.pending && AddrKnown(t, SeesAll(dev, d0, x.out))
    ensures var setup := (if Repages(t, addr) then SetPage(dev, PageOf(addr)) else [])
              + (if Repages(t, addr) || t.addr != Some(addr) then SetAddr(dev, addr) else []);
            && AllPlain(setup) && !Effects(setup, x).pending
            && SeesAll(dev, d0, Effects(setup, x).out) == SetUp(SeesAll(dev, d0, x.out), t, addr)
  {
    var a := if Repages(t, addr) then SetPage(dev, PageOf(addr)) else [];
    var b := if Repages(t, addr) || t.addr != Some(addr) then SetAddr(dev, addr) else [];
    if Repages(t, addr) {
      AfterPage(dev, d0, x, PageOf(addr));
    }
    var y := Effects(a, x);
    AfterAddr(dev, d0, y, Byte(addr));
    EffectsBoth(a, b, x);
  }

  /** The device before the byte of a line is written. */
  function SetUp(d: Device, t: Track, addr: int): Device {
    Device(true, false, addr % 256, if Repages(t, addr) then PageOf(addr) else d.page,
      if Repages(t, addr) then Selected(d, Byte(PageOf(addr))) else d.log)
  }

  /** The device after a line. */
  function LineDone(d: Device, t: Track, line: Line): Device {
    if line.Reg? then Put(SetUp(d, t, line.addr), line.data) else d
  }

  lemma AfterReg(dev: septet, d0: Device, x: Core, t: Track, addr: int, data: byte)
    requires !x.pending && AddrKnown(t, SeesAll(dev, d0, x.out))
    ensures var (cs, u) := LineCmds(dev, t, Reg(addr, data));
            && AllPlain(cs) && !Effects(cs, x).pending
            && SeesAll(dev, d0, Effects(cs, x).out) == LineDone(SeesAll(dev, d0, x.out), t, Reg(addr, data))
            && AddrKnown(u, SeesAll(dev, d0, Effects(cs, x).out))
  {
    var setup := (if Repages(t, addr) then SetPage(dev, PageOf(addr)) else [])
      + (if Repages(t, addr) || t.addr != Some(addr) then SetAddr(dev, addr) else []);
    AfterSetup(dev, d0, x, t, addr);
    AfterData(dev, d0, Effects(setup, x), data);
    EffectsBoth(setup, [Wr(data)], x);
    LowWord(addr);
  }

  lemma LowWord(addr: int)
    ensures PageOf(addr) * 256 + addr % 256 == addr % 0x1_0000
    ensures (addr % 256 + 1) % 256 == (addr + 1) % 256
  {
  }

  lemma AfterDelay(dev: septet, d0: Device, x: Core)
    ensures AllPlain([Delay(10)]) && Effects([Delay(10)], x) == DoWait(x, 10)
    ensures SeesAll(dev, d0, DoWait(x, 10).out) == SeesAll(dev, d0, x.out)
  {
    assert [Delay(10)][1..] == [];
    SeesMore(dev, d0, x.out, Wait(10));
  }

  lemma LineFollows(dev: septet, d0: Device, x: Core, t: Track, line: Line)
    requires !x.pending && AddrKnown(t, SeesAll(dev, d0, x.out))
    ensures var (cs, u) := LineCmds(dev, t, line);
            && AllPlain(cs) && !Effects(cs, x).pending
            && SeesAll(dev, d0, Effects(cs, x).out) == LineDone(SeesAll(dev, d0, x.out), t, line)
            && AddrKnown(u, SeesAll(dev, d0, Effects(cs, x).out))
  {
    match line
    case Skipped =>
    case Comment(delay) =>
      if delay {
        AfterDelay(dev, d0, x);
      }
    case Reg(addr, data) =>
      AfterReg(dev, d0, x, t, addr, data);
  }

  // ---- what a whole list does ----

  /** The listed writes. */
  function Listed(lines: seq<Line>): seq<Access> {
    if lines == [] then []
    else
      var before := Listed(lines[..|lines| - 1]);
      match lines[|lines| - 1]
      case Reg(addr, data) => before + [Access(addr, data)]
      case _ => before
  }

  /** Of all that is written, which are the lines' own bytes; the others select pages. */
  function Mask(dev: septet, lines: seq<Line>): seq<bool> {
    if lines == [] then []
    else
      var front := lines[..|lines| - 1];
      match lines[|lines| - 1]
      case Reg(addr, _) => Mask(dev, front) + if Repages(Compiled(dev, front).1, addr) then [false, true] else [true]
      case _ => Mask(dev, front)
  }

  function Picked(log: seq<Access>, mask: seq<bool>): seq<Access> {
    if log == [] || |log| != |mask| then []
    else
      var n := |log| - 1;
      Picked(log[..n], mask[..n]) + if mask[n] then [log[n]] else []
  }

  lemma PickedMore(log: seq<Access>, mask: seq<bool>, a: Access, b: bool)
    requires |log| == |mask|
    ensures Picked(log + [a], mask + [b]) == Picked(log, mask) + if b then [a] else []
  {
    assert (log + [a])[..|log|] == log && (mask + [b])[..|mask|] == mask;
  }

  predicate InRange(l: seq<Access>) {
    forall i :: 0 <= i < |l| ==> 0 <= l[i].addr < 0x1_0000
  }

  /** A write to the page register that leaves the page. */
  predicate Strays(a: Access) {
    a.addr % 256 == PAGE_REG && a.data != PageOf(a.addr)
  }

  /** After such a write no line may go on in the page it was listed for: the next one has to be in
      another page. */
  predicate PagesKept(l: seq<Access>) {
    forall i :: 0 <= i < |l| - 1 && Strays(l[i]) ==> PageOf(l[i + 1].addr) != PageOf(l[i].addr)
  }

  function Wrapped(l: seq<Access>): (r: seq<Access>)
    ensures |r| == |l|
  {
    seq(|l|, i requires 0 <= i < |l| => Access(l[i].addr % 0x1_0000, l[i].data))
  }

  /** The device after the compiled list, from any state it may be in at first. */
  function AfterList(dev: septet, d0: Device, x: Core, lines: seq<Line>): Device
    requires AllPlain(Compiled(dev, lines).0)
  {
    SeesAll(dev, d0, Effects(Compiled(dev, lines).0, x).out)
  }

  /** The page a device is at after writing a. */
  function PageAfter(a: Access): int {
    if a.addr % 256 == PAGE_REG then a.data else PageOf(a.addr)
  }

  /** What is known after a list: the compiler remembers the last line's page, the lines' own
      bytes have gone where they were listed exactly if pages were kept, and then the device is
      at the page the last of them left it at. */
  predicate Known(l: seq<Access>, mask: seq<bool>, t: Track, d: Device) {
    && t.page == (if l == [] then None else Some(PageOf(l[|l| - 1].addr)))
    && |d.log| == |mask|
    && (l == [] ==> Picked(d.log, mask) == [])
    && (l != [] ==> 0 <= d.page < 256)
    && (InRange(Picked(d.log, mask)) && |Picked(d.log, mask)| == |l|)
    && (Picked(d.log, mask) == Wrapped(l) <==> PagesKept(l))
    && (l != [] && PagesKept(l) ==> d.page == PageAfter(l[|l| - 1]))
  }

  lemma WrappedMore(l: seq<Access>, a: Access)
    ensures Wrapped(l + [a]) == Wrapped(l) + [Access(a.addr % 0x1_0000, a.data)]
  {
  }

  lemma KeptMore(l: seq<Access>, a: Access)
    ensures PagesKept(l + [a]) <==>
      PagesKept(l) && (l != [] && Strays(l[|l| - 1]) ==> PageOf(a.addr) != PageOf(l[|l| - 1].addr))
  {
    var m := l + [a];
    assert forall i :: 0 <= i < |l| ==> m[i] == l[i];
    if PagesKept(m) && l != [] {
      assert m[|l| - 1 + 1] == a;
    }
  }

  lemma SameEnd<T>(xs: seq<T>, a: T, ys: seq<T>, b: T)
    requires |xs| == |ys|
    ensures xs + [a] == ys + [b] <==> xs == ys && a == b
  {
    if xs + [a] == ys + [b] {
      assert (xs + [a])[..|xs|] == xs && (ys + [b])[..|ys|] == ys;
      assert (xs + [a])[|xs|] == (ys + [b])[|ys|];
    }
  }

  /** One register line more. */
  lemma KnownMore(l: seq<Access>, mask: seq<bool>, t: Track, d: Device, addr: int, data: byte)
    requires Known(l, mask, t, d)
    ensures Known(l + [Access(addr, data)], mask + (if Repages(t, addr) then [false, true] else [true]),
      Track(Some(PageOf(addr)), Some(addr + 1)), LineDone(d, t, Reg(addr, data)))
  {
    var a, own := Access(addr, data), Own(d, t, addr, data);
    OwnPicked(mask, t, d, addr, data);
    WrappedMore(l, a);
    KeptMore(l, a);
    SameEnd(Picked(d.log, mask), own, Wrapped(l), Access(addr % 0x1_0000, data));
    OwnRight(t, d, addr, data);
    assert (l + [a])[|l|] == a;
  }

  /** The access a line's own byte makes. */
  function Own(d: Device, t: Track, addr: int, data: byte): Access {
    Access(SetUp(d, t, addr).page * 256 + addr % 256, data)
  }

  lemma OwnPicked(mask: seq<bool>, t: Track, d: Device, addr: int, data: byte)
    requires |d.log| == |mask|
    ensures var e, m := LineDone(d, t, Reg(addr, data)), mask + if Repages(t, addr) then [false, true] else [true];
            |e.log| == |m| && Picked(e.log, m) == Picked(d.log, mask) + [Own(d, t, addr, data)]
  {
    var s := SetUp(d, t, addr);
    if Repages(t, addr) {
      PickedMore(d.log, mask, Access(d.page * 256 + PAGE_REG, Byte(PageOf(addr))), false);
      PickedMore(s.log, mask + [false], Own(d, t, addr, data), true);
      assert mask + [false] + [true] == mask + [false, true];
      Alone(Picked(d.log, mask));
    } else {
      PickedMore(d.log, mask, Own(d, t, addr, data), true);
    }
  }

  /** It is the listed one exactly when the device is at the listed page. */
  lemma OwnRight(t: Track, d: Device, addr: int, data: byte)
    ensures Own(d, t, addr, data) == Access(addr % 0x1_0000, data) <==> Repages(t, addr) || d.page == PageOf(addr)
    ensures Repages(t, addr) || 0 <= d.page < 256 ==> 0 <= Own(d, t, addr, data).addr < 0x1_0000
  {
    LowWord(addr);
  }

  lemma {:induction false} Follows(dev: septet, d0: Device, x: Core, lines: seq<Line>)
    requires !x.pending && 0 <= SeesAll(dev, d0, x.out).ptr < 256 && SeesAll(dev, d0, x.out).log == []
    ensures AllPlain(Compiled(dev, lines).0) && !Effects(Compiled(dev, lines).0, x).pending
    ensures AddrKnown(Compiled(dev, lines).1, AfterList(dev, d0, x, lines))
    ensures Known(Listed(lines), Mask(dev, lines), Compiled(dev, lines).1, AfterList(dev, d0, x, lines))
  {
    if lines != [] {
      var n := |lines| - 1;
      Follows(dev, d0, x, lines[..n]);
      var (cs, t) := Compiled(dev, lines[..n]);
      LineFollows(dev, d0, Effects(cs, x), t, lines[n]);
      EffectsBoth(cs, LineCmds(dev, t, lines[n]).0, x);
      if lines[n].Reg? {
        KnownMore(Listed(lines[..n]), Mask(dev, lines[..n]), t, AfterList(dev, d0, x, lines[..n]), lines[n].addr, lines[n].data);
      }
    }
  }

  /** The lines' own bytes, of all that a device has had written. */
  function Written(dev: septet, lines: seq<Line>, log: seq<Access>): seq<Access> {
    Picked(log, Mask(dev, lines))
  }

  /** The compiled list writes exactly the listed bytes to the listed addresses, in order, if and
      only if every address has 16 bits and no line strays into another page. */
  lemma WritesListed(dev: septet, d0: Device, x: Core, lines: seq<Line>)
    requires !x.pending && 0 <= SeesAll(dev, d0, x.out).ptr < 256 && SeesAll(dev, d0, x.out).log == []
    ensures AllPlain(Compiled(dev, lines).0)
    ensures |AfterList(dev, d0, x, lines).log| == |Mask(dev, lines)|
    ensures Written(dev, lines, AfterList(dev, d0, x, lines).log) == Listed(lines) <==>
      InRange(Listed(lines)) && PagesKept(Listed(lines))
  {
    Follows(dev, d0, x, lines);
    WrappedIs(Listed(lines));
  }

  /** The operations of the first commands come first. */
  lemma EffectsGrow(xs: seq<Cmd>, c: Cmd, ys: seq<Cmd>, x: Core)
    requires AllPlain(xs + [c] + ys)
    ensures AllPlain(xs) && Plain(c) && Effects(xs, x).out <= Effects(xs + [c] + ys, x).out
    ensures c.Delay? ==> Effects(xs, x).out + [Wait(c.d)] <= Effects(xs + [c] + ys, x).out
  {
    forall i | 0 <= i < |xs| + 1
      ensures (xs + [c] + ys)[i] == (xs + [c])[i] && Plain((xs + [c])[i])
    {
      assert (xs + [c] + ys)[i] == (xs + [c])[i];
    }
    assert (xs + [c])[|xs|] == c && forall i :: 0 <= i < |xs| ==> (xs + [c])[i] == xs[i];
    assert forall i :: 0 <= i < |ys| ==> ys[i] == (xs + [c] + ys)[|xs| + 1 + i];
    EffectsBoth(xs + [c], ys, x);
    EffectsBoth(xs, [c], x);
    OutGrows(ys, Effects(xs + [c], x));
    OutGrows([c], Effects(xs, x));
    assert [c][1..] == [] && Effects([c], Effects(xs, x)) == Effect(c, Effects(xs, x));
  }

  lemma {:induction false} OutGrows(cs: seq<Cmd>, x: Core)
    requires AllPlain(cs)
    ensures x.out <= Effects(cs, x).out
  {
    if cs != [] {
      OutGrows(cs[1..], Effect(cs[0], x));
    }
  }

  lemma Behind<T>(xs: seq<T>, a: T, all: seq<T>)
    requires xs + [a] <= all
    ensures |xs| < |all| && all[|xs|] == a && all[..|xs|] == xs
  {
    assert all[..|xs| + 1] == xs + [a];
    assert all[..|xs|] == all[..|xs| + 1][..|xs|];
  }

  /** On the bus: where line i asks for a delay there is one, and up to there the device has had
      written, of the lines' own bytes, exactly those listed before it, under the same condition. */
  lemma DelayHeard(dev: septet, d0: Device, x: Core, lines: seq<Line>, i: nat)
    requires !x.pending && 0 <= SeesAll(dev, d0, x.out).ptr < 256 && SeesAll(dev, d0, x.out).log == []
    requires i < |lines| && lines[i] == Comment(true)
    ensures AllPlain(Compiled(dev, lines).0) && AllPlain(Compiled(dev, lines[..i]).0)
    ensures var out, p := Effects(Compiled(dev, lines).0, x).out, |Effects(Compiled(dev, lines[..i]).0, x).out|;
            && p < |out| && out[p] == Wait(10)
            && out[..p] == Effects(Compiled(dev, lines[..i]).0, x).out
            && (Written(dev, lines[..i], SeesAll(dev, d0, out[..p]).log) == Listed(lines[..i]) <==>
                  InRange(Listed(lines[..i])) && PagesKept(Listed(lines[..i])))
  {
    WritesListed(dev, d0, x, lines);
    WritesListed(dev, d0, x, lines[..i]);
    DelayPlace(dev, lines, i);
    var cs, before := Compiled(dev, lines).0, Compiled(dev, lines[..i]).0;
    assert cs == before + [Delay(10)] + cs[|before| + 1..];
    EffectsGrow(before, Delay(10), cs[|before| + 1..], x);
    Behind(Effects(before, x).out, Wait(10), Effects(cs, x).out);
  }

  lemma WrappedIs(l: seq<Access>)
    ensures InRange(l) ==> Wrapped(l) == l
  {
    if InRange(l) {
      assert forall i :: 0 <= i < |l| ==> Wrapped(l)[i] == l[i];
    }
  }

  lemma ListedTwo(a: Line, b: Line)
    requires a.Reg? && b.Reg?
    ensures Listed([a, b]) == [Access(a.addr, a.data), Access(b.addr, b.data)]
  {
    assert [a, b][..1] == [a] && [a][..0] == [];
    assert Listed([a]) == [Access(a.addr, a.data)];
  }

  /** A list that goes astray: after the page register is written the next line lands in its page. */
  lemma AstrayList(dev: septet, d0: Device)
    requires 0 <= d0.ptr < 256 && d0.log == []
    ensures var lines, x := [Reg(0x0001, 5), Reg(0x0002, 7)], Core(false, 0, []);
            && AllPlain(Compiled(dev, lines).0)
            && Written(dev, lines, AfterList(dev, d0, x, lines).log) != Listed(lines)
  {
    var lines := [Reg(0x0001, 5), Reg(0x0002, 7)];
    var l := Listed(lines);
    ListedTwo(lines[0], lines[1]);
    assert Strays(l[0]) && PageOf(l[0 + 1].addr) == PageOf(l[0].addr);
    WritesListed(dev, d0, Core(false, 0, []), lines);
  }
}
