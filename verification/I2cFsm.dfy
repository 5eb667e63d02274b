/** The init module that src/eth/example/HTG9200/fpga/pll/si5341_i2c_init.py generates, clock by
    clock: its registers, the ROM read ahead, the two output handshakes and the delay counter. */
module I2cFsm {
  import opened Arith
  import opened Base
  import opened I2cInit

  /** One transfer on the command output. */
  datatype Beat = Beat(addr: septet, start: bool, write: bool, stop: bool)

  /** What operations put on the two outputs. */
  function Beats(ops: seq<BusOp>): seq<Beat> {
    if ops == [] then []
    else
      var n := |ops| - 1;
      Beats(ops[..n]) + match ops[n]
                        case Write(start, addr, _) => [Beat(addr, start, true, false)]
                        case StopCond(addr) => [Beat(addr, false, false, true)]
                        case Wait(_) => []
  }

  function Bytes(ops: seq<BusOp>): seq<byte> {
    if ops == [] then []
    else
      var n := |ops| - 1;
      Bytes(ops[..n]) + if ops[n].Write? then [ops[n].data] else []
  }

  /** Transfers of the command output that take a byte of the other with them. */
  function Writes(beats: seq<Beat>): (n: nat)
    ensures n <= |beats|
  {
    if beats == [] then 0
    else Writes(beats[..|beats| - 1]) + if beats[|beats| - 1].write then 1 else 0
  }

  /** The operations read back from the two outputs: every write takes the next byte, and without
      its byte is not one yet. */
  function FromWire(beats: seq<Beat>, bytes: seq<byte>): seq<BusOp> {
    if beats == [] then []
    else
      var n := |beats| - 1;
      var k := Writes(beats[..n]);
      FromWire(beats[..n], bytes) + if !beats[n].write then [StopCond(beats[n].addr)]
                                    else if k < |bytes| then [Write(beats[n].start, beats[n].addr, bytes[k])]
                                    else []
  }

  function NoWaits(ops: seq<BusOp>): seq<BusOp> {
    if ops == [] then []
    else
      var n := |ops| - 1;
      NoWaits(ops[..n]) + if ops[n].Wait? then [] else [ops[n]]
  }

  lemma WireMore(beats: seq<Beat>, bytes: seq<byte>, b: Beat)
    ensures Writes(beats + [b]) == Writes(beats) + if b.write then 1 else 0
    ensures FromWire(beats + [b], bytes) == FromWire(beats, bytes)
      + if !b.write then [StopCond(b.addr)]
        else if Writes(beats) < |bytes| then [Write(b.start, b.addr, bytes[Writes(beats)])]
        else []
  {
    assert (beats + [b])[..|beats|] == beats;
  }

  /** Bytes beyond those the transfers take do not matter yet. */
  lemma {:induction false} EarlyByte(beats: seq<Beat>, bytes: seq<byte>, x: byte)
    requires Writes(beats) <= |bytes|
    ensures FromWire(beats, bytes + [x]) == FromWire(beats, bytes)
  {
    if beats != [] {
      EarlyByte(beats[..|beats| - 1], bytes, x);
    }
  }

  /** Nothing but the delays is lost on the way out. */
  lemma {:induction false} WireCarries(ops: seq<BusOp>)
    ensures Writes(Beats(ops)) == |Bytes(ops)|
    ensures FromWire(Beats(ops), Bytes(ops)) == NoWaits(ops)
  {
    if ops != [] {
      var n := |ops| - 1;
      var b, y := Beats(ops[..n]), Bytes(ops[..n]);
      WireCarries(ops[..n]);
      BeatsMore(ops[..n], ops[n]);
      assert ops == ops[..n] + [ops[n]];
      match ops[n]
      case Write(start, addr, data) =>
        EarlyByte(b, y, data);
        WireMore(b, y + [data], Beat(addr, start, true, false));
      case StopCond(addr) =>
        Alone(y);
        WireMore(b, y, Beat(addr, false, false, true));
      case Wait(_) =>
        Alone(b);
        Alone(y);
        Alone(NoWaits(ops[..n]));
    }
  }

  /** What is a beginning of the operations comes out as a beginning. */
  lemma {:induction false} WireGrows(early: seq<BusOp>, ops: seq<BusOp>)
    requires early <= ops
    ensures Beats(early) <= Beats(ops) && Bytes(early) <= Bytes(ops) && NoWaits(early) <= NoWaits(ops)
  {
    if early != ops {
      WireGrows(early, ops[..|ops| - 1]);
    }
  }

  lemma BeatsMore(ops: seq<BusOp>, op: BusOp)
    ensures Beats(ops + [op]) == Beats(ops) + match op
                                              case Write(start, addr, _) => [Beat(addr, start, true, false)]
                                              case StopCond(addr) => [Beat(addr, false, false, true)]
                                              case Wait(_) => []
    ensures Bytes(ops + [op]) == Bytes(ops) + if op.Write? then [op.data] else []
  {
    assert (ops + [op])[..|ops|] == ops;
  }

  /** Cycles of a delay; a simulation may ask for shorter ones. */
  function Cycles(d: nibble, speedup: bool): nat {
    Pow2(d + if speedup then 0 else 16)
  }

  /** Cycles the module waits after a word. */
  function Pause(w: int, speedup: bool): nat {
    if IsDelay(w) then Cycles(Low4(w), speedup) else 0
  }

  /** The delay counter after a command. */
  function Counter(rom: seq<int>, m: Machine, d: nat, fast: bool): nat {
    var w := At(rom, m.pc);
    if (m.state == Run || m.state == Table3) && IsDelay(w) then Cycles(Low4(w), fast) else d
  }

  /** Cycles that the waits among some operations last. */
  function Waited(ops: seq<BusOp>, fast: bool): nat {
    if ops == [] then 0
    else Waited(ops[..|ops| - 1], fast) + if ops[|ops| - 1].Wait? then Cycles(ops[|ops| - 1].d, fast) else 0
  }

  lemma WaitedMore(ops: seq<BusOp>, op: BusOp, fast: bool)
    ensures Waited(ops + [op], fast) == Waited(ops, fast) + if op.Wait? then Cycles(op.d, fast) else 0
  {
    assert (ops + [op])[..|ops|] == ops;
  }

  /** k edges take at most k cycles off the waits begun, and with the program a delay ends. */
  predicate Timed(x: Machine, d: nat, y: Machine, d': nat, fast: bool, k: nat) {
    && Waited(y.core.out, fast) + d <= Waited(x.core.out, fast) + d' + k
    && ((x.state == Idle ==> d == 0) ==> (y.state == Idle ==> d' == 0))
  }

  lemma TimedMore(x: Machine, d: nat, y: Machine, d': nat, z: Machine, d'': nat, fast: bool, k: nat)
    requires Timed(x, d, y, d', fast, k) && Timed(y, d', z, d'', fast, 1)
    ensures Timed(x, d, z, d'', fast, k + 1)
  {
  }

  lemma StepTimed(rom: seq<int>, m: Machine, fast: bool)
    ensures m.state != Idle ==> Timed(m, 0, Step(rom, m), Counter(rom, m, 0, fast), fast, 1)
  {
    var w, ops := At(rom, m.pc), m.core.out;
    WaitedMore(ops, Wait(Low4(w)), fast);
    WaitedMore(ops, StopCond(m.core.addr), fast);
    WaitedMore(ops, Write(m.core.pending, m.core.addr, Low8(w)), fast);
  }

  /** Edges that n commands can use up, waiting for the outputs apart: one to execute each command,
      one for each output to be taken, and its delay. */
  function Work(rom: seq<int>, speedup: bool, m: Machine, n: nat): nat
    decreases n
  {
    if n == 0 || m.state == Idle then 0
    else 3 + Pause(At(rom, m.pc), speedup) + Work(rom, speedup, Step(rom, m), n - 1)
  }

  datatype Ready = Ready(cmd: bool, tx: bool)

  /** Complete rounds, and which outputs have been ready in the one begun. */
  datatype Offer = Offer(rounds: nat, cmd: bool, tx: bool) {
    function And(r: Ready): Offer {
      if (cmd || r.cmd) && (tx || r.tx) then Offer(rounds + 1, false, false)
      else Offer(rounds, cmd || r.cmd, tx || r.tx)
    }
  }

  /** A round is over when either output has been ready in it, at the same edge or not. */
  function Offered(rs: seq<Ready>): Offer {
    if rs == [] then Offer(0, false, false) else Offered(rs[..|rs| - 1]).And(rs[|rs| - 1])
  }

  function FullRounds(rs: seq<Ready>): nat {
    Offered(rs).rounds
  }

  /** Edges among which either output has been ready once complete another round. */
  lemma RoundMore(rs: seq<Ready>, b: seq<Ready>)
    requires (exists i :: 0 <= i < |b| && b[i].cmd) && (exists j :: 0 <= j < |b| && b[j].tx)
    ensures FullRounds(rs + b) >= FullRounds(rs) + 1
  {
    RoundSoFar(rs, b);
  }

  lemma {:induction false} RoundSoFar(rs: seq<Ready>, b: seq<Ready>)
    ensures FullRounds(rs + b) >= FullRounds(rs)
    ensures FullRounds(rs + b) == FullRounds(rs) ==>
      && ((exists i :: 0 <= i < |b| && b[i].cmd) ==> Offered(rs + b).cmd)
      && ((exists j :: 0 <= j < |b| && b[j].tx) ==> Offered(rs + b).tx)
    ensures !(Offered(rs).cmd && Offered(rs).tx) && !(Offered(rs + b).cmd && Offered(rs + b).tx)
  {
    NeverBoth(rs);
    NeverBoth(rs + b);
    if b == [] {
      assert rs + b == rs;
    } else {
      var n := |b| - 1;
      RoundSoFar(rs, b[..n]);
      assert (rs + b)[..|rs + b| - 1] == rs + b[..n];
      assert forall i :: 0 <= i < n ==> b[..n][i] == b[i];
    }
  }

  lemma NeverBoth(rs: seq<Ready>)
    ensures !(Offered(rs).cmd && Offered(rs).tx)
  {
  }

  /** Of the edges so far `used` have brought the module on. Each complete round has at least one,
      and so has the round begun, unless what has been ready in it is not waiting. */
  predicate Keeps(o: Offer, used: nat, cmdValid: bool, txValid: bool) {
    || o.rounds + 1 <= used
    || (o.rounds <= used && (o.cmd ==> !cmdValid) && (o.tx ==> !txValid))
  }

  lemma {:induction false} StaysIdle(rom: seq<int>, m: Machine, n: nat)
    requires m.state == Idle
    ensures Steps(rom, m, n) == m
    decreases n
  {
    if n > 0 {
      StaysIdle(rom, m, n - 1);
    }
  }

  /** x is on the way from m to where n commands lead, with left of them to go. */
  ghost predicate Tracks(rom: seq<int>, m: Machine, n: nat, x: Machine, left: nat) {
    left <= n && x == Steps(rom, m, n - left) && Steps(rom, x, left) == Steps(rom, m, n)
  }

  lemma TracksOn(rom: seq<int>, m: Machine, n: nat, x: Machine, left: nat, y: Machine, left': nat)
    requires Tracks(rom, m, n, x, left) && Tracks(rom, x, left, y, left')
    ensures Tracks(rom, m, n, y, left')
  {
    StepsSplit(rom, m, n - left, left - left');
  }

  lemma {:induction false} OutGrows(rom: seq<int>, m: Machine, n: nat)
    ensures m.core.out <= Steps(rom, m, n).core.out
    decreases n
  {
    if n > 0 {
      OutGrows(rom, Step(rom, m), n - 1);
    }
  }

  /** What has been accepted and what is still on the outputs is what has been executed. */
  ghost predicate OnWire(cmdValid: bool, beat: Beat, txValid: bool, data: byte, beats: seq<Beat>, bytes: seq<byte>, ops: seq<BusOp>) {
    && beats + (if cmdValid then [beat] else []) == Beats(ops)
    && bytes + (if txValid then [data] else []) == Bytes(ops)
    && (cmdValid ==> ops != [] && !ops[|ops| - 1].Wait?)
    && (txValid ==> ops != [] && ops[|ops| - 1].Write?)
  }

  /** So what has been accepted is the operations executed, or these but for the last. */
  lemma CarriedSoFar(cmdValid: bool, beat: Beat, txValid: bool, data: byte, beats: seq<Beat>, bytes: seq<byte>, ops: seq<BusOp>)
    requires OnWire(cmdValid, beat, txValid, data, beats, bytes, ops)
    ensures beats <= Beats(ops) && bytes <= Bytes(ops) && FromWire(beats, bytes) <= NoWaits(ops)
    ensures !cmdValid && !txValid ==> beats == Beats(ops) && bytes == Bytes(ops) && FromWire(beats, bytes) == NoWaits(ops)
  {
    Alone(beats);
    Alone(bytes);
    if cmdValid || txValid {
      var n := |ops| - 1;
      assert ops == ops[..n] + [ops[n]];
      BeatsMore(ops[..n], ops[n]);
      if ops[n].Write? {
        var x := Beat(ops[n].addr, ops[n].start, true, false);
        if cmdValid {
          SameLast(beats, beat, Beats(ops[..n]), x);
          Alone(Beats(ops[..n]));
        }
        if txValid {
          SameLast(bytes, data, Bytes(ops[..n]), ops[n].data);
        }
        WriteOn(ops[..n], ops[n], cmdValid, beats, bytes);
      } else {
        SameLast(beats, beat, Beats(ops[..n]), Beat(ops[n].addr, false, false, true));
        StopOn(ops[..n], ops[n].addr, beats, bytes);
      }
    } else {
      WireCarries(ops);
    }
  }

  /** As many writes as bytes, counting what is still on the outputs. */
  lemma WritesOnWire(cmdValid: bool, beat: Beat, txValid: bool, data: byte, beats: seq<Beat>, bytes: seq<byte>, ops: seq<BusOp>)
    requires OnWire(cmdValid, beat, txValid, data, beats, bytes, ops)
    ensures Writes(beats) + (if cmdValid && beat.write then 1 else 0) == |bytes| + if txValid then 1 else 0
  {
    var all := Beats(ops);
    WireCarries(ops);
    if cmdValid {
      assert all == beats + [beat];
      WireMore(beats, bytes, beat);
    } else {
      Alone(beats);
      assert all == beats;
    }
  }

  lemma WriteShown(beat: Beat, data: byte, beats: seq<Beat>, bytes: seq<byte>, ops: seq<BusOp>)
    requires OnWire(true, beat, true, data, beats, bytes, ops)
    ensures beat.write
  {
    var n := |ops| - 1;
    BeatsMore(ops[..n], ops[n]);
    assert ops == ops[..n] + [ops[n]];
    SameLast(beats, beat, Beats(ops[..n]), Beat(ops[n].addr, ops[n].start, true, false));
  }

  /** A command that has put nothing on the outputs. */
  lemma NothingPut(beat: Beat, data: byte, beats: seq<Beat>, bytes: seq<byte>, ops: seq<BusOp>,
    cmdValid: bool, beat': Beat, txValid: bool, data': byte, ops': seq<BusOp>)
    requires OnWire(false, beat, false, data, beats, bytes, ops) && OnWire(cmdValid, beat', txValid, data', beats, bytes, ops')
    requires ops' == ops || exists d :: ops' == ops + [Wait(d)]
    ensures !cmdValid && !txValid
  {
    Alone(beats);
    Alone(bytes);
    if ops' != ops {
      BeatsMore(ops, ops'[|ops|]);
    }
    assert |Beats(ops')| == |beats| && |Bytes(ops')| == |bytes|;
  }

  /** A command that has put an operation on them. */
  lemma OnePut(beat: Beat, data: byte, beats: seq<Beat>, bytes: seq<byte>, ops: seq<BusOp>,
    cmdValid: bool, beat': Beat, txValid: bool, data': byte, op: BusOp)
    requires OnWire(false, beat, false, data, beats, bytes, ops) && !op.Wait?
    requires OnWire(cmdValid, beat', txValid, data', beats, bytes, ops + [op])
    ensures cmdValid && (txValid <==> op.Write?)
    ensures beat' == if op.Write? then Beat(op.addr, op.start, true, false) else Beat(op.addr, false, false, true)
  {
    Alone(beats);
    Alone(bytes);
    BeatsMore(ops, op);
    var x := if op.Write? then Beat(op.addr, op.start, true, false) else Beat(op.addr, false, false, true);
    assert Beats(ops + [op]) == beats + [x];
    assert |beats + (if cmdValid then [beat'] else [])| == |beats| + 1;
    SameLast(beats, beat', beats, x);
  }

  lemma StopOn(ops: seq<BusOp>, addr: septet, beats: seq<Beat>, bytes: seq<byte>)
    requires beats == Beats(ops) && bytes == Bytes(ops) + []
    ensures FromWire(beats, bytes) <= NoWaits(ops + [StopCond(addr)])
  {
    Alone(Bytes(ops));
    WireCarries(ops);
    assert (ops + [StopCond(addr)])[..|ops|] == ops;
  }

  lemma WriteOn(ops: seq<BusOp>, op: BusOp, cmdValid: bool, beats: seq<Beat>, bytes: seq<byte>)
    requires op.Write? && beats == Beats(ops) + if cmdValid then [] else [Beat(op.addr, op.start, true, false)]
    requires bytes == Bytes(ops) + [op.data] ==> cmdValid
    requires bytes == Bytes(ops) || bytes == Bytes(ops) + [op.data]
    ensures FromWire(beats, bytes) <= NoWaits(ops + [op])
  {
    var b, y := Beats(ops), Bytes(ops);
    Alone(b);
    WireCarries(ops);
    assert (ops + [op])[..|ops|] == ops;
    EarlyByte(b, y, op.data);
    WireMore(b, y, Beat(op.addr, op.start, true, false));
    Alone(FromWire(b, y));
  }

  lemma WritePut(addr: septet, start: bool, data: byte, beat: Beat, last: byte, beats: seq<Beat>, bytes: seq<byte>, ops: seq<BusOp>)
    requires OnWire(false, beat, false, last, beats, bytes, ops)
    ensures OnWire(true, Beat(addr, start, true, false), true, data, beats, bytes, ops + [Write(start, addr, data)])
  {
    BeatsMore(ops, Write(start, addr, data));
    Alone(beats);
    Alone(bytes);
  }

  lemma StopPut(addr: septet, beat: Beat, data: byte, beats: seq<Beat>, bytes: seq<byte>, ops: seq<BusOp>)
    requires OnWire(false, beat, false, data, beats, bytes, ops)
    ensures OnWire(true, Beat(addr, false, false, true), false, data, beats, bytes, ops + [StopCond(addr)])
  {
    BeatsMore(ops, StopCond(addr));
    Alone(beats);
    Alone(bytes);
  }

  lemma WaitPut(d: nibble, beat: Beat, data: byte, beats: seq<Beat>, bytes: seq<byte>, ops: seq<BusOp>)
    requires OnWire(false, beat, false, data, beats, bytes, ops)
    ensures OnWire(false, beat, false, data, beats, bytes, ops + [Wait(d)])
  {
    BeatsMore(ops, Wait(d));
    Alone(beats);
    Alone(bytes);
  }

  /** With nothing on the outputs it does not matter what stands there. */
  lemma NothingOn(beat: Beat, data: byte, beat': Beat, data': byte, beats: seq<Beat>, bytes: seq<byte>, ops: seq<BusOp>)
    requires OnWire(false, beat, false, data, beats, bytes, ops)
    ensures OnWire(false, beat', false, data', beats, bytes, ops)
  {
  }

  lemma CmdTaken(beat: Beat, beat': Beat, txValid: bool, data: byte, beats: seq<Beat>, bytes: seq<byte>, ops: seq<BusOp>)
    requires OnWire(true, beat, txValid, data, beats, bytes, ops)
    ensures OnWire(false, beat', txValid, data, beats + [beat], bytes, ops)
  {
    Alone(beats + [beat]);
  }

  lemma TxTaken(cmdValid: bool, beat: Beat, data: byte, beats: seq<Beat>, bytes: seq<byte>, ops: seq<BusOp>)
    requires OnWire(cmdValid, beat, true, data, beats, bytes, ops)
    ensures OnWire(cmdValid, beat, false, data, beats, bytes + [data], ops)
  {
    Alone(bytes + [data]);
  }

  class Module {
    const rom: seq<int>
    const speedup: bool

    var state: State
    var initData: int
    var address: nat
    var addressPtr: nat
    var dataPtr: nat
    var curAddress: septet
    var delayCounter: nat

    var cmdAddress: septet
    var cmdStart: bool
    var cmdWrite: bool
    var cmdStop: bool
    var cmdValid: bool
    var txData: byte
    var txValid: bool

    var startFlag: bool

    /** What has been accepted on the two outputs, and the operations executed. */
    var beats: seq<Beat>
    var bytes: seq<byte>
    ghost var ops: seq<BusOp>

    /** Out of reset. */
    constructor (words: seq<int>, fast: bool)
      ensures Valid() && fresh(this) && rom == words && speedup == fast
      ensures state == Idle && !startFlag && !cmdValid && !txValid && delayCounter == 0
      ensures ops == [] && Now() == Machine(Idle, 0, 0, 0, 0, Core(false, 0, []))
    {
      rom, speedup := words, fast;
      state, initData, address, addressPtr, dataPtr, curAddress, delayCounter := Idle, At(words, 0), 0, 0, 0, 0, 0;
      cmdAddress, cmdStart, cmdWrite, cmdStop, cmdValid, txData, txValid := 0, false, false, false, false, 0, false;
      startFlag := false;
      ops, beats, bytes := [], [], [];
    }

    /** The registers as the interpreter's state: a start that has been sent is no longer pending. */
    ghost function Now(): Machine
      reads this`state, this`address, this`dataPtr, this`addressPtr, this`curAddress
      reads this`cmdValid, this`cmdStart, this`cmdAddress, this`ops
    {
      Machine(state, address, dataPtr, addressPtr, curAddress, Core(!cmdValid && cmdStart, cmdAddress, ops))
    }

    /** The word at hand is the one at the address; what is executed is accepted or still on the outputs. */
    ghost predicate Valid()
      reads this`initData, this`address, this`cmdValid, this`cmdAddress, this`cmdStart, this`cmdWrite, this`cmdStop
      reads this`txValid, this`txData, this`beats, this`bytes, this`ops
    {
      && initData == At(rom, address)
      && (!cmdValid ==> !cmdWrite && !cmdStop)
      && OnWire(cmdValid, Output(), txValid, txData, beats, bytes, ops)
    }

    /** What is on the command output. */
    function Output(): Beat
      reads this`cmdAddress, this`cmdStart, this`cmdWrite, this`cmdStop
    {
      Beat(cmdAddress, cmdStart, cmdWrite, cmdStop)
    }

    /** The program is over and everything accepted. */
    predicate AtEnd()
      reads this`state, this`cmdValid, this`txValid
    {
      state == Idle && !Busy()
    }

    predicate Busy()
      reads this`cmdValid, this`txValid
    {
      cmdValid || txValid
    }

    /** The outputs' handshakes: what is ready to be taken is taken. */
    method Handshake(cmdReady: bool, txReady: bool)
      requires Valid()
      modifies this`cmdStart, this`cmdWrite, this`cmdStop, this`cmdValid, this`txValid, this`beats, this`bytes
      ensures Valid() && Now() == old(Now())
      ensures cmdValid == (old(cmdValid) && !cmdReady) && txValid == (old(txValid) && !txReady)
      ensures beats == old(beats) + if old(cmdValid) && cmdReady then [old(Output())] else []
      ensures bytes == old(bytes) + if old(txValid) && txReady then [txData] else []
      ensures cmdValid ==> Output() == old(Output())
    {
      Alone(beats);
      Alone(bytes);
      if cmdValid && cmdReady {
        HandOverCmd();
      }
      if txValid && txReady {
        TxTaken(cmdValid, Output(), txData, beats, bytes, ops);
        bytes := bytes + [txData];
        txValid := false;
      }
    }

    method HandOverCmd()
      requires Valid() && cmdValid
      modifies this`cmdStart, this`cmdWrite, this`cmdStop, this`cmdValid, this`beats
      ensures Valid() && Now() == old(Now()) && !cmdValid && beats == old(beats) + [old(Output())]
    {
      CmdTaken(Output(), Beat(cmdAddress, false, false, false), txValid, txData, beats, bytes, ops);
      beats := beats + [Output()];
      cmdStart, cmdWrite, cmdStop := false, false, false;
      cmdValid := false;
    }

    method PutWrite(data: byte)
      requires Valid() && !Busy()
      modifies this`cmdWrite, this`cmdStop, this`cmdValid, this`txData, this`txValid, this`ops
      ensures Valid() && Now() == old(Now()).(core := DoWrite(old(Now()).core, data))
      ensures cmdValid && txValid && txData == data && Output() == Beat(cmdAddress, cmdStart, true, false)
    {
      WritePut(cmdAddress, cmdStart, data, Output(), txData, beats, bytes, ops);
      cmdWrite, cmdStop, cmdValid := true, false, true;
      txData, txValid := data, true;
      ops := ops + [Write(cmdStart, cmdAddress, data)];
    }

    method PutStart(addr: septet)
      requires Valid() && !Busy()
      modifies this`cmdAddress, this`cmdStart
      ensures Valid() && Now() == old(Now()).(core := DoStart(old(Now()).core, addr))
    {
      NothingOn(Output(), txData, Beat(addr, true, cmdWrite, cmdStop), txData,
        beats, bytes, ops);
      cmdAddress, cmdStart := addr, true;
    }

    method PutStop()
      requires Valid() && !Busy()
      modifies this`cmdStart, this`cmdWrite, this`cmdStop, this`cmdValid, this`ops
      ensures Valid() && Now() == old(Now()).(core := DoStop(old(Now()).core))
      ensures cmdValid && Output() == Beat(cmdAddress, false, false, true)
    {
      StopPut(cmdAddress, Output(), txData, beats, bytes, ops);
      cmdStart, cmdWrite, cmdStop, cmdValid := false, false, true, true;
      ops := ops + [StopCond(cmdAddress)];
    }

    method PutWait(d: nibble)
      requires Valid() && !Busy()
      modifies this`delayCounter, this`ops
      ensures Valid() && Now() == old(Now()).(core := DoWait(old(Now()).core, d))
      ensures delayCounter == Cycles(d, speedup)
    {
      WaitPut(d, Output(), txData, beats, bytes, ops);
      LoadDelay(d);
      ops := ops + [Wait(d)];
    }

    method LoadDelay(d: nibble)
      modifies this`delayCounter
      ensures delayCounter == Cycles(d, speedup)
    {
      delayCounter := Cycles(d, speedup);
    }

    /** The next address, and the ROM read at it. */
    method Goto(next: nat)
      modifies this`address, this`initData
      ensures address == next && initData == At(rom, next)
    {
      address := next;
      initData := At(rom, next);
    }

    /** The commands that act alike while running and inside a data block. */
    method PlainCommand()
      requires Valid() && !Busy() && PlainWord(initData)
      modifies this
      ensures Valid() && startFlag == old(startFlag) && beats == old(beats) && bytes == old(bytes)
      ensures Now() == Next(old(Now())).(core := PlainCore(old(initData), old(Now()).core))
      ensures delayCounter == if IsDelay(old(initData)) then Cycles(Low4(old(initData)), speedup) else old(delayCounter)
      ensures Shown(old(initData), old(cmdAddress), old(cmdStart))
    {
      var w := initData;
      Skip();
      Put(w);
    }

    method Put(w: int)
      requires Valid() && !Busy() && PlainWord(w)
      modifies this`cmdAddress, this`cmdStart, this`cmdWrite, this`cmdStop, this`cmdValid,
        this`txData, this`txValid, this`delayCounter, this`ops
      ensures Valid() && Now() == old(Now()).(core := PlainCore(w, old(Now()).core))
      ensures delayCounter == if IsDelay(w) then Cycles(Low4(w), speedup) else old(delayCounter)
      ensures Shown(w, old(cmdAddress), old(cmdStart))
    {
      if IsWr(w) {
        PutWrite(Low8(w));
      } else if IsStart(w) {
        PutStart(Low7(w));
      } else if IsDelay(w) {
        PutWait(Low4(w));
      } else {
        PutStop();
      }
    }

    method Skip()
      requires Valid()
      modifies this`address, this`initData
      ensures Valid() && Now() == Next(old(Now()))
    {
      Goto(address + 1);
    }

    method EndProgram()
      requires Valid() && !Busy()
      modifies this
      ensures Valid() && startFlag == old(startFlag) && beats == old(beats) && bytes == old(bytes)
      ensures Now() == old(Now()).(core := DoStop(old(Now()).core), state := Idle)
      ensures delayCounter == old(delayCounter)
      ensures cmdValid && !txValid && Output() == Beat(old(cmdAddress), false, false, true)
    {
      state := Idle;
      PutStop();
    }

    method RunCommand()
      requires Valid() && !Busy() && state == Run
      modifies this
      ensures Valid() && startFlag == old(startFlag) && Now() == Step(rom, old(Now()))
      ensures beats == old(beats) && bytes == old(bytes)
      ensures delayCounter == Counter(rom, old(Now()), old(delayCounter), speedup)
      ensures Shown(old(initData), old(cmdAddress), old(cmdStart))
    {
      if PlainWord(initData) {
        PlainCommand();
      } else if initData == 9 {
        dataPtr := address + 1;
        state := Table1;
        Skip();
      } else if initData == 0 {
        EndProgram();
      } else {
        Skip();
      }
    }

    method Table1Command()
      requires Valid() && !Busy() && state == Table1
      modifies this
      ensures Valid() && startFlag == old(startFlag) && Now() == Step(rom, old(Now()))
      ensures beats == old(beats) && bytes == old(bytes)
      ensures delayCounter == Counter(rom, old(Now()), old(delayCounter), speedup)
    {
      if initData == 8 {
        addressPtr := address + 1;
        state := Table2;
        Skip();
      } else {
        TableCommand();
      }
    }

    /** The commands that act alike in all three table states. */
    method TableCommand()
      requires Valid() && !Busy()
      requires state == Table1 || state == Table2 || state == Table3
      requires state == Table1 ==> initData != 8
      requires state == Table2 ==> !IsStart(initData)
      requires state == Table3 ==> !PlainWord(initData) && initData != 3 && initData != 8
      modifies this
      ensures Valid() && startFlag == old(startFlag) && Now() == Step(rom, old(Now()))
      ensures beats == old(beats) && bytes == old(bytes) && delayCounter == old(delayCounter)
      ensures if old(initData) == 0 then cmdValid && !txValid && Output() == Beat(old(cmdAddress), false, false, true) else !Busy()
    {
      if initData == 9 {
        dataPtr := address + 1;
        state := Table1;
        Skip();
      } else if initData == 1 {
        state := Run;
        Skip();
      } else if initData == 0 {
        EndProgram();
      } else {
        Skip();
      }
    }

    method Table2Command()
      requires Valid() && !Busy() && state == Table2
      modifies this
      ensures Valid() && startFlag == old(startFlag) && Now() == Step(rom, old(Now()))
      ensures beats == old(beats) && bytes == old(bytes)
      ensures delayCounter == Counter(rom, old(Now()), old(delayCounter), speedup)
    {
      if IsStart(initData) {
        TakeAddress();
      } else {
        TableCommand();
      }
    }

    /** The next address: on to the data block with it. */
    method TakeAddress()
      requires Valid() && IsStart(initData)
      modifies this`curAddress, this`addressPtr, this`state, this`address, this`initData
      ensures Valid()
      ensures Now() == old(Now()).(cur := Low7(old(initData)), addrPtr := old(address) + 1, pc := dataPtr, state := Table3)
    {
      curAddress := Low7(initData);
      addressPtr := address + 1;
      state := Table3;
      Goto(dataPtr);
    }

    method Table3Command()
      requires Valid() && !Busy() && state == Table3
      modifies this
      ensures Valid() && startFlag == old(startFlag) && Now() == Step(rom, old(Now()))
      ensures beats == old(beats) && bytes == old(bytes)
      ensures delayCounter == Counter(rom, old(Now()), old(delayCounter), speedup)
      ensures Shown(old(initData), old(cmdAddress), old(cmdStart))
    {
      if PlainWord(initData) {
        PlainCommand();
      } else if initData == 3 {
        PutStart(curAddress);
        Skip();
      } else if initData == 8 {
        state := Table2;
        Goto(addressPtr);
      } else {
        TableCommand();
      }
    }

    method Execute()
      requires Valid() && !Busy() && state != Idle
      modifies this
      ensures Valid() && startFlag == old(startFlag) && Now() == Step(rom, old(Now()))
      ensures beats == old(beats) && bytes == old(bytes)
      ensures delayCounter == Counter(rom, old(Now()), old(delayCounter), speedup)
      ensures old(state) == Run || old(state) == Table3 ==> Shown(old(initData), old(cmdAddress), old(cmdStart))
    {
      match state {
        case Run => RunCommand();
        case Table1 => Table1Command();
        case Table2 => Table2Command();
        case Table3 => Table3Command();
      }
    }

    /** Waiting for the start signal. */
    method Await(start: bool)
      requires Valid() && !Busy() && state == Idle
      modifies this`state, this`address, this`initData, this`startFlag
      ensures Valid() && Now() == (if start && !old(startFlag) then old(Now()).(state := Run, pc := 0) else old(Now()))
      ensures startFlag == (old(startFlag) || start)
    {
      if !startFlag && start {
        Goto(0);
        startFlag := true;
        state := Run;
      }
    }

    /** What an edge does to the interpreter: nothing while an output waits to be taken or a delay
        runs, otherwise exactly one command, or the beginning of the program. */
    function Advanced(m: Machine, waiting: bool, begins: bool): Machine {
      if waiting then m
      else if m.state != Idle then Step(rom, m)
      else if begins then m.(state := Run, pc := 0)
      else m
    }

    /** What a command leaves on the outputs: a write its byte and the address with the start it was
        given, a stop the address, a start its address for the write to come, anything else nothing. */
    predicate Shown(w: int, addr: septet, start: bool)
      reads this`cmdAddress, this`cmdStart, this`cmdWrite, this`cmdStop, this`cmdValid, this`txData, this`txValid
    {
      if w / 256 == 1 then cmdValid && txValid && txData == w % 256 && Output() == Beat(addr, start, true, false)
      else if w / 128 == 1 then !cmdValid && !txValid && cmdStart && cmdAddress == w % 128
      else if w == 0x41 || w == 0 then cmdValid && !txValid && Output() == Beat(addr, false, false, true)
      else !cmdValid && !txValid
    }

    /** One clock edge. */
    method Clock(start: bool, cmdReady: bool, txReady: bool)
      requires Valid()
      modifies this
      ensures Valid()
      ensures Now() == Advanced(old(Now()), old(Busy()) || old(delayCounter) > 0, start && !old(startFlag))
      ensures beats == old(beats) + if old(cmdValid) && cmdReady then [old(Output())] else []
      ensures bytes == old(bytes) + if old(txValid) && txReady then [old(txData)] else []
      ensures old(Busy()) ==>
        && delayCounter == old(delayCounter)
        && cmdValid == (old(cmdValid) && !cmdReady) && txValid == (old(txValid) && !txReady)
        && (cmdValid ==> Output() == old(Output()))
      ensures !old(Busy()) && old(delayCounter) > 0 ==> delayCounter == old(delayCounter) - 1 && !Busy()
      ensures !old(Busy()) && old(delayCounter) == 0 && old(state) == Idle ==> delayCounter == 0 && !Busy()
      ensures !old(Busy()) && old(delayCounter) == 0 && old(state) != Idle ==>
        var w := old(initData);
        delayCounter == if (old(state) == Run || old(state) == Table3) && w / 16 == 1
                        then Pow2(w % 16 + if speedup then 0 else 16) else 0
      ensures !old(Busy()) && old(delayCounter) == 0 && (old(state) == Run || old(state) == Table3) ==>
        Shown(old(initData), old(cmdAddress), old(cmdStart))
      ensures !old(Busy()) && old(delayCounter) == 0 && old(state) == Idle ==> startFlag == start
      ensures startFlag ==> start
      ensures start && old(startFlag) ==> startFlag
    {
      Alone(beats);
      Alone(bytes);
      if Busy() {
        Handshake(cmdReady, txReady);
      } else if delayCounter != 0 {
        delayCounter := delayCounter - 1;
      } else {
        Act(start);
      }
      startFlag := start && startFlag;
    }

    /** With nothing to wait for: the start signal, or the next command. */
    method Act(start: bool)
      requires Valid() && !Busy() && delayCounter == 0
      modifies this
      ensures Valid() && beats == old(beats) && bytes == old(bytes)
      ensures Now() == Advanced(old(Now()), false, start && !old(startFlag))
      ensures old(state) == Idle ==> delayCounter == 0 && !Busy() && startFlag == (old(startFlag) || start)
      ensures old(state) != Idle ==> delayCounter == Counter(rom, old(Now()), 0, speedup) && startFlag == old(startFlag)
      ensures old(state) == Run || old(state) == Table3 ==> Shown(old(initData), old(cmdAddress), old(cmdStart))
    {
      if state == Idle {
        Await(start);
      } else {
        Execute();
      }
    }

    /** Edges still needed for n more commands, at most, waiting for the outputs apart. */
    ghost function Left(n: nat): nat
      reads this
    {
      (if cmdValid then 1 else 0) + (if txValid then 1 else 0) + delayCounter + Work(rom, speedup, Now(), n)
    }

    /** The next edge executes a command. */
    predicate Executes()
      reads this`cmdValid, this`txValid, this`delayCounter, this`state
    {
      !Busy() && delayCounter == 0 && state != Idle
    }

    /** An edge at which an output waits and none is taken. */
    predicate Stuck(r: Ready)
      reads this`cmdValid, this`txValid
    {
      Busy() && !(cmdValid && r.cmd) && !(txValid && r.tx)
    }

    /** An edge on the way to the end, and the commands then left of n. */
    method Edge(r: Ready, ghost n: nat) returns (ghost left: nat)
      requires Valid() && startFlag && Steps(rom, Now(), n).state == Idle
      modifies this
      ensures Valid() && startFlag && Tracks(rom, old(Now()), n, Now(), left)
      ensures beats == old(beats) + if old(cmdValid) && r.cmd then [old(Output())] else []
      ensures bytes == old(bytes) + if old(txValid) && r.tx then [old(txData)] else []
      ensures Now() == (if old(Executes()) then Step(rom, old(Now())) else old(Now())) && left == n - if old(Executes()) then 1 else 0
      ensures delayCounter <= if old(Executes()) then Pause(At(rom, old(address)), speedup) else old(delayCounter)
      ensures Timed(old(Now()), old(delayCounter), Now(), delayCounter, speedup, 1)
      ensures if old(Busy()) then
                && delayCounter == old(delayCounter)
                && cmdValid == (old(cmdValid) && !r.cmd) && txValid == (old(txValid) && !r.tx)
                && (cmdValid ==> Output() == old(Output()))
              else old(Executes()) || !Busy()
      ensures old(Stuck(r)) ==> cmdValid == old(cmdValid) && txValid == old(txValid) && Left(left) == old(Left(n))
      ensures !old(Stuck(r)) ==> Left(left) < old(Left(n)) || Left(left) == 0
    {
      left := if Busy() || delayCounter > 0 || state == Idle then n else n - 1;
      OneStep(rom, Now());
      StepTimed(rom, Now(), speedup);
      Clock(true, r.cmd, r.tx);
    }

    /** While a delay lasts nothing is executed and nothing put on the outputs, for as many edges as
        the counter says. */
    method Rest(rs: seq<Ready>)
      requires Valid() && !Busy() && startFlag && |rs| == delayCounter
      modifies this
      ensures Valid() && !Busy() && delayCounter == 0 && Now() == old(Now()) && startFlag
      ensures beats == old(beats) && bytes == old(bytes)
    {
      for i := 0 to |rs|
        invariant Valid() && !Busy() && startFlag && delayCounter == |rs| - i && Now() == old(Now())
        invariant beats == old(beats) && bytes == old(bytes)
      {
        Clock(true, rs[i].cmd, rs[i].tx);
      }
    }

    /** Of the operations of a program a beginning has been accepted, and all of them at the end. */
    ghost predicate Done(out: seq<BusOp>)
      reads this`state, this`cmdValid, this`txValid, this`beats, this`bytes
    {
      && beats <= Beats(out) && bytes <= Bytes(out) && FromWire(beats, bytes) <= NoWaits(out)
      && (AtEnd() ==> beats == Beats(out) && bytes == Bytes(out) && FromWire(beats, bytes) == NoWaits(out))
    }

    /** What has been accepted is a beginning of what n more commands make of it, and all of it at
        the end. */
    lemma Accepted(n: nat)
      requires Valid()
      ensures Done(Steps(rom, Now(), n).core.out)
    {
      CarriedSoFar(cmdValid, Output(), txValid, txData, beats, bytes, ops);
      OutGrows(rom, Now(), n);
      WireGrows(ops, Steps(rom, Now(), n).core.out);
      if AtEnd() {
        StaysIdle(rom, Now(), n);
      }
    }

    /** The program runs to its end. However the outputs are stalled, what has been executed is the
        beginning of the program, and what has been accepted the beginning of its operations, all of
        them at the end. The end comes once there have been enough edges besides those `stuck` with an
        output that is not taken, and so once there have been enough rounds in each of which either
        output has been ready. */
    method RunToEnd(rs: seq<Ready>, ghost n: nat) returns (stuck: nat, ghost done: nat)
      requires Valid() && startFlag && Steps(rom, Now(), n).state == Idle
      modifies this
      ensures Valid() && startFlag && done <= n && Now() == Steps(rom, old(Now()), done)
      ensures Done(old(Steps(rom, Now(), n)).core.out)
      ensures FullRounds(rs) + stuck <= |rs|
      ensures |rs| - stuck >= old(Left(n)) ==> AtEnd()
      ensures Waited(ops, speedup) + old(delayCounter) <= Waited(old(ops), speedup) + |rs| + delayCounter
      ensures old(state) != Idle && AtEnd() ==> delayCounter == 0 && ops == old(Steps(rom, Now(), n)).core.out
    {
      ghost var left, work := n, Left(n);
      stuck, left := RunEdges(rs, n);
      done := n - left;
      Accepted(left);
      if |rs| - stuck >= work {
        AllDone(left);
      }
      if state == Idle {
        StaysIdle(rom, Now(), left);
      }
    }

    method RunEdges(rs: seq<Ready>, ghost n: nat) returns (stuck: nat, ghost left: nat)
      requires Valid() && startFlag && Steps(rom, Now(), n).state == Idle
      modifies this
      ensures Valid() && startFlag && stuck <= |rs| && Tracks(rom, old(Now()), n, Now(), left)
      ensures Left(left) == 0 || Left(left) + (|rs| - stuck) <= old(Left(n))
      ensures FullRounds(rs) + stuck <= |rs|
      ensures Timed(old(Now()), old(delayCounter), Now(), delayCounter, speedup, |rs|)
    {
      ghost var m := Now();
      ghost var d, work := delayCounter, Left(n);
      left := n;
      stuck := 0;
      assert rs[..|rs|] == rs;
      for i := 0 to |rs|
        invariant Valid() && startFlag && stuck <= i && Tracks(rom, m, n, Now(), left)
        invariant Left(left) == 0 || Left(left) + (i - stuck) <= work
        invariant Keeps(Offered(rs[..i]), i - stuck, cmdValid, txValid)
        invariant Timed(m, d, Now(), delayCounter, speedup, i)
      {
        assert rs[..i + 1][..i] == rs[..i];
        ghost var x, was, c := Now(), left, delayCounter;
        if Stuck(rs[i]) {
          stuck := stuck + 1;
        }
        left := Edge(rs[i], left);
        TracksOn(rom, m, n, x, was, Now(), left);
        TimedMore(m, d, x, c, Now(), delayCounter, speedup, i);
      }
    }

    lemma AllDone(n: nat)
      requires Valid() && Left(n) == 0 && Steps(rom, Now(), n).state == Idle
      ensures AtEnd()
    {
    }
  }
}
