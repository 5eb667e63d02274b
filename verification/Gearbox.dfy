/** The bit counters of the two gearbox models in src/eth/tb/baser.py: the source takes in
    the same number of bits every cycle and sends 66 in every cycle that is not a stall, the
    sink does it the other way round. */
module Gearbox {
  import opened Arith
  import opened Base

  const BLOCK := 66

  datatype Side = Source | Sink

  datatype Config = Config(side: Side, len: int, stall: set<int>, bits: int) {
    /** What set_gbx_cfg accepts. */
    ghost predicate Valid() {
      && len > 0
      && (forall x :: x in stall ==> 0 <= x < len)
      && 0 <= bits
      && len * bits == (len - |stall|) * BLOCK
    }
  }

  function Block(g: Config, t: int): int
    requires g.len > 0
  {
    if t % g.len in g.stall then 0 else BLOCK
  }

  /** The counter after a cycle at time t. */
  function Step(g: Config, c: int, t: int): int
    requires g.len > 0
  {
    match g.side
    case Source => if t % g.len in g.stall then c + g.bits else Max(c + g.bits - BLOCK, 0)
    case Sink => Max(c - g.bits, 0) + Block(g, t)
  }

  /** What the cycle adds when the counter is not clamped at zero. */
  function Drift(g: Config, t: int): int
    requires g.len > 0
  {
    match g.side
    case Source => g.bits - Block(g, t)
    case Sink => Block(g, t) - g.bits
  }

  function Run(g: Config, c: int, t: int, n: nat): int
    requires g.len > 0
  {
    if n == 0 then c else Step(g, Run(g, c, t, n - 1), t + n - 1)
  }

  function Drifts(g: Config, t: int, n: nat): int
    requires g.len > 0
  {
    if n == 0 then 0 else Drifts(g, t, n - 1) + Drift(g, t + n - 1)
  }

  /** Stall cycles among the n from time t. */
  function Stalls(g: Config, t: int, n: nat): int
    requires g.len > 0
  {
    if n == 0 then 0 else Stalls(g, t, n - 1) + if (t + n - 1) % g.len in g.stall then 1 else 0
  }

  // ---- one sequence drifts by nothing ----

  lemma {:induction false} DriftsCount(g: Config, t: int, n: nat)
    requires g.len > 0
    ensures Drifts(g, t, n) == if g.side == Source
                               then n * g.bits - (n - Stalls(g, t, n)) * BLOCK
                               else (n - Stalls(g, t, n)) * BLOCK - n * g.bits
  {
    if n > 0 {
      DriftsCount(g, t, n - 1);
      assert n * g.bits == (n - 1) * g.bits + g.bits;
    }
  }

  lemma {:induction false} StallsFromZero(g: Config, n: nat)
    requires g.len > 0 && n <= g.len && forall x :: x in g.stall ==> 0 <= x < g.len
    ensures Stalls(g, 0, n) == |set x | x in g.stall && x < n|
  {
    var below := set x | x in g.stall && x < n;
    if n == 0 {
      assert below == {};
    } else {
      StallsFromZero(g, n - 1);
      var before := set x | x in g.stall && x < n - 1;
      DivUnique(n - 1, g.len, 0, n - 1);
      if n - 1 in g.stall {
        assert below == before + {n - 1};
        assert |below| == |before| + 1;
      } else {
        assert below == before;
      }
    }
  }

  lemma {:induction false} StallsDropFirst(g: Config, t: int, n: nat)
    requires g.len > 0 && n > 0
    ensures Stalls(g, t, n) == (if t % g.len in g.stall then 1 else 0) + Stalls(g, t + 1, n - 1)
  {
    if n > 1 {
      StallsDropFirst(g, t, n - 1);
      assert (t + 1) + (n - 1) - 1 == t + n - 1;
    }
  }

  lemma PhaseRepeats(t: int, len: int)
    requires len > 0
    ensures (t + len) % len == t % len
  {
    AddMultiple(t, len, 1);
  }

  /** Any len consecutive cycles hold every stall once. */
  lemma {:induction false} StallsInWindow(g: Config, t: nat)
    requires g.Valid()
    ensures Stalls(g, t, g.len) == |g.stall|
  {
    if t == 0 {
      StallsFromZero(g, g.len);
      assert g.stall == set x | x in g.stall && x < g.len;
    } else {
      StallsInWindow(g, t - 1);
      StallsDropFirst(g, t - 1, g.len);
      PhaseRepeats(t - 1, g.len);
      assert t + (g.len - 1) == t - 1 + g.len;
    }
  }

  lemma NoDrift(g: Config, t: nat)
    requires g.Valid()
    ensures Drifts(g, t, g.len) == 0
  {
    StallsInWindow(g, t);
    DriftsCount(g, t, g.len);
  }

  // ---- what a run makes of its start ----

  lemma {:induction false} RunSplits(g: Config, c: int, t: int, m: nat, n: nat)
    requires g.len > 0
    ensures Run(g, c, t, m + n) == Run(g, Run(g, c, t, m), t + m, n)
  {
    if n > 0 {
      RunSplits(g, c, t, m, n - 1);
    }
  }

  /** A run depends on the phase it starts in, not on the time. */
  lemma {:induction false} RunRepeats(g: Config, c: int, t: int, n: nat)
    requires g.len > 0
    ensures Run(g, c, t + g.len, n) == Run(g, c, t, n)
  {
    if n > 0 {
      RunRepeats(g, c, t, n - 1);
      PhaseRepeats(t + n - 1, g.len);
    }
  }

  /** Where the counter starts matters only by carrying the drift past what an empty start reaches. */
  lemma {:induction false} RunFrom(g: Config, c: int, t: int, n: nat)
    requires g.Valid() && c >= 0
    ensures 0 <= Run(g, 0, t, n)
    ensures Run(g, c, t, n) == Max(c + Drifts(g, t, n), Run(g, 0, t, n))
  {
    if n > 0 {
      RunFrom(g, c, t, n - 1);
    }
  }

  // ---- steady state ----

  /** From any count, once a whole sequence has passed the count repeats with the sequence. */
  lemma Periodic(g: Config, c: int, t: nat, n: nat)
    requires g.Valid() && c >= 0 && n >= g.len
    ensures Run(g, c, t, n + g.len) == Run(g, c, t, n)
  {
    var m: nat := n - g.len;
    RunFrom(g, c, t, m);
    RunSplits(g, c, t, m, g.len);
    RunSplits(g, c, t, n, g.len);
    TwoSequences(g, Run(g, c, t, m), t + m);
  }

  /** A second sequence does not change what the first has made of the count. */
  lemma TwoSequences(g: Config, x: int, t: nat)
    requires g.Valid() && x >= 0
    ensures var y := Run(g, x, t, g.len); Run(g, y, t + g.len, g.len) == y
  {
    var y := Run(g, x, t, g.len);
    RunFrom(g, x, t, g.len);
    NoDrift(g, t);
    RunRepeats(g, y, t, g.len);
    RunFrom(g, y, t, g.len);
  }

  /** And the clamp at zero never changes it again: every later cycle adds its drift exactly. */
  lemma NeverClamped(g: Config, c: int, t: nat, n: nat)
    requires g.Valid() && c >= 0 && n >= g.len
    ensures Run(g, c, t, n + 1) == Run(g, c, t, n) + Drift(g, t + n)
  {
    var y, z := Run(g, c, t, n), Run(g, c, t, n + 1);
    ComesBack(g, c, t, n);
    AtLeastDrifts(g, z, t + n + 1, g.len - 1);
    RestOfSequence(g, t + n);
    StepAbove(g, y, t + n);
  }

  lemma ComesBack(g: Config, c: int, t: nat, n: nat)
    requires g.Valid() && c >= 0 && n >= g.len
    ensures Run(g, c, t, n + 1) >= 0
    ensures Run(g, Run(g, c, t, n + 1), t + n + 1, g.len - 1) == Run(g, c, t, n)
  {
    Periodic(g, c, t, n);
    RunFrom(g, c, t, n + 1);
    RunSplits(g, c, t, n + 1, g.len - 1);
    assert n + 1 + (g.len - 1) == n + g.len;
  }

  lemma AtLeastDrifts(g: Config, c: int, t: int, n: nat)
    requires g.Valid() && c >= 0
    ensures Run(g, c, t, n) >= c + Drifts(g, t, n)
  {
    RunFrom(g, c, t, n);
  }

  /** The cycles of a sequence after its first make up for that. */
  lemma RestOfSequence(g: Config, t: nat)
    requires g.Valid()
    ensures Drifts(g, t + 1, g.len - 1) == -Drift(g, t)
  {
    NoDrift(g, t);
    DriftsDropFirst(g, t, g.len);
  }

  lemma StepAbove(g: Config, c: int, t: int)
    requires g.len > 0
    ensures Step(g, c, t) >= c + Drift(g, t)
  {
  }

  lemma {:induction false} DriftsDropFirst(g: Config, t: int, n: nat)
    requires g.len > 0 && n > 0
    ensures Drifts(g, t, n) == Drift(g, t) + Drifts(g, t + 1, n - 1)
  {
    if n > 1 {
      DriftsDropFirst(g, t, n - 1);
      assert (t + 1) + (n - 1) - 1 == t + n - 1;
    }
  }

  // ---- the models' fields ----

  /** Stalls inside the sequence, and as many bits in as out over it. Without stalls a negative
      length passes as well. */
  ghost predicate Accepts(len: int, stall: set<int>) {
    && len != 0
    && (forall x :: x in stall ==> 0 <= x < len)
    && (exists bits: int :: len * bits == (len - |stall|) * BLOCK)
  }

  /** That is, of the lengths that are positive, those of which 66 bits a cycle, stalls left out, make
      whole bits; of the others every negative one, without stalls. */
  lemma AcceptsIff(len: int, stall: set<int>)
    ensures Accepts(len, stall) <==>
      if len > 0 then (forall x :: x in stall ==> 0 <= x < len) && (len - |stall|) * 66 % len == 0
      else len < 0 && stall == {}
  {
    if len > 0 {
      var q := (len - |stall|) * 66 / len;
      if (len - |stall|) * 66 % len == 0 {
        assert len * q == (len - |stall|) * 66;
      }
      if bits: int :| len * bits == (len - |stall|) * 66 {
        DivUnique((len - |stall|) * 66, len, bits, 0);
      }
    } else if len < 0 {
      if stall == {} {
        assert len * 66 == (len - |stall|) * 66;
      } else if Accepts(len, stall) {
        NoneBelow(len, stall);
        assert false;
      }
    }
  }

  lemma AcceptsBits(len: int, stall: set<int>)
    requires Accepts(len, stall)
    ensures len > 0 ==> len * (BLOCK * (len - |stall|) / len) == (len - |stall|) * BLOCK
    ensures len < 0 ==> stall == {}
  {
    var bits: int :| len * bits == (len - |stall|) * BLOCK;
    if len > 0 {
      DivUnique(BLOCK * (len - |stall|), len, bits, 0);
    } else {
      NoneBelow(len, stall);
    }
  }

  lemma NoneBelow(len: int, stall: set<int>)
    requires len < 0 && forall x :: x in stall ==> 0 <= x < len
    ensures stall == {}
  {
    assert forall x :: x !in stall;
  }

  datatype CfgError = TypeError | AssertionError | ZeroDivisionError

  /** A remainder with the sign of its divisor. */
  function SignedMod(x: int, n: int): int
    requires n != 0
  {
    if n > 0 then x % n else -((-x) % n)
  }

  /** The counter part of a source or sink; seqLen == 0 stands for no gearbox. */
  class Counter {
    const side: Side
    var seqLen: int
    var seqStall: set<int>
    var bits: int
    var phase: int
    var bitCnt: int

    constructor (s: Side)
      ensures side == s && seqLen == 0 && phase == 0 && bitCnt == 0 && fresh(this)
    {
      side, seqLen, seqStall, bits, phase, bitCnt := s, 0, {}, BLOCK, 0, 0;
    }

    ghost function Cfg(): Config
      reads this
    {
      Config(side, seqLen, seqStall, bits)
    }

    ghost predicate Valid()
      reads this
    {
      && 0 <= bitCnt
      && (seqLen > 0 ==> Cfg().Valid() && 0 <= phase < seqLen)
      && (seqLen < 0 ==> seqStall == {} && bits == BLOCK && seqLen < phase <= 0)
    }

    /** set_gbx_cfg: a configuration is taken exactly when whole blocks and whole cycles
        balance; without a length it turns the gearbox off and then fails. */
    method SetGbxCfg(len: Option<int>, stall: Option<seq<int>>) returns (r: Result<(), CfgError>)
      requires Valid()
      modifies this
      ensures Valid()
      ensures r.Ok? <==> len.Some? && stall.Some? && Accepts(len.value, set x | x in stall.value)
      ensures r.Ok? ==> forall x :: x in seqStall ==> 0 <= x < seqLen
      ensures len.None? ==>
        && seqLen == 0
        && r == Raised(if stall.Some? && exists x :: x in stall.value && x < 0 then AssertionError else TypeError)
      ensures len.Some? && r.Raised? ==> unchanged(this) && (stall.None? ==> r == Raised(TypeError))
      ensures r.Ok? ==> seqLen == len.value && seqStall == (set x | x in stall.value) && phase == 0
      ensures r.Ok? ==> seqLen != 0 && seqLen * bits == (seqLen - |seqStall|) * 66
      ensures r.Ok? && seqLen > 0 ==>
        bits == BLOCK * (seqLen - |seqStall|) / seqLen && bitCnt == Run(Cfg(), 0, 0, seqLen)
      ensures r.Ok? && seqLen < 0 ==> bits == BLOCK && bitCnt == 0
    {
      if len == None {
        seqLen, seqStall := 0, {};
        if side == Source {
          bitCnt, bits, phase := 0, BLOCK, 0;
        }
        if stall.Some? && exists x :: x in stall.value && x < 0 {
          return Raised(AssertionError);
        }
        return Raised(TypeError);
      }
      if stall == None {
        return Raised(TypeError);
      }
      var n, s := len.value, set x | x in stall.value;
      if exists x :: x in s && !(0 <= x < n) {
        return Raised(AssertionError);
      }
      if n == 0 {
        return Raised(ZeroDivisionError);
      }
      if Accepts(n, s) {
        AcceptsBits(n, s);
      }
      if n < 0 {
        NoneBelow(n, s);
        assert n * BLOCK == (n - |s|) * BLOCK;
        seqLen, seqStall, bits, phase, bitCnt := n, s, BLOCK, 0, 0;
        return Ok(());
      }
      var b := BLOCK * (n - |s|) / n;
      if n * b != (n - |s|) * BLOCK {
        return Raised(AssertionError);
      }
      FewStalls(Config(side, n, s, b));
      seqLen, seqStall, bits, phase, bitCnt := n, s, b, 0, 0;
      Preset();
      return Ok(());
    }

    /** The loop at the end of set_gbx_cfg. */
    method Preset()
      requires seqLen > 0 && 0 <= bits && bitCnt == 0
      modifies this`bitCnt
      ensures bitCnt == Run(Cfg(), 0, 0, seqLen) >= 0
    {
      for k := 0 to seqLen
        invariant bitCnt == Run(Cfg(), 0, 0, k) >= 0
      {
        var stalled := k in seqStall;
        DivUnique(k, seqLen, 0, k);
        if side == Source {
          bitCnt := bitCnt + bits;
          if !stalled {
            bitCnt := Max(bitCnt - BLOCK, 0);
          }
        } else {
          bitCnt := Max(bitCnt - bits, 0);
          if !stalled {
            bitCnt := bitCnt + BLOCK;
          }
        }
      }
    }

    /** The gearbox part of one clock edge; the sink's place in the sequence can be set from outside. */
    method Cycle(sync: bool) returns (stalled: bool)
      requires Valid()
      modifies this`phase, this`bitCnt
      ensures Valid()
      ensures seqLen == 0 ==> phase == 0 && bitCnt == 0 && !stalled
      ensures seqLen != 0 ==> phase == if side == Sink && sync then 0 else SignedMod(old(phase) + 1, seqLen)
      ensures seqLen > 0 && !(side == Sink && sync) ==> phase == (old(phase) + 1) % seqLen
      ensures seqLen > 0 ==> stalled == (phase in seqStall) && bitCnt == Step(Cfg(), old(bitCnt), phase)
      ensures seqLen > 0 && side == Source && !stalled ==> bitCnt == if old(bitCnt) + bits < 66 then 0 else old(bitCnt) + bits - 66
      ensures seqLen > 0 && side == Source && stalled ==> bitCnt == old(bitCnt) + bits
      ensures seqLen > 0 && side == Sink ==>
        bitCnt == (if old(bitCnt) < bits then 0 else old(bitCnt) - bits) + if stalled then 0 else 66
      ensures seqLen < 0 ==> !stalled && bitCnt == if side == Source then old(bitCnt) else Max(old(bitCnt), BLOCK)
    {
      stalled := false;
      if seqLen != 0 {
        phase := SignedMod(phase + 1, seqLen);
        if side == Sink && sync {
          phase := 0;
        }
        stalled := phase in seqStall;
        InPhase(phase, seqLen);
        if side == Source {
          bitCnt := bitCnt + bits;
          if !stalled {
            bitCnt := Max(bitCnt - BLOCK, 0);
          }
        } else {
          bitCnt := Max(bitCnt - bits, 0);
          if !stalled {
            bitCnt := bitCnt + BLOCK;
          }
        }
      } else {
        phase, bitCnt := 0, 0;
      }
    }

    method Cycles(n: nat)
      requires Valid() && seqLen > 0
      modifies this`phase, this`bitCnt
      ensures Valid()
      ensures phase == (old(phase) + n) % seqLen && bitCnt == Run(Cfg(), old(bitCnt), old(phase) + 1, n)
    {
      InPhase(phase, seqLen);
      for i := 0 to n
        invariant Valid()
        invariant phase == (old(phase) + i) % seqLen && bitCnt == Run(Cfg(), old(bitCnt), old(phase) + 1, i)
      {
        RegisterStep(old(phase) + i, 1, seqLen);
        PhaseStep(Cfg(), bitCnt, old(phase) + 1 + i);
        var stalled := Cycle(false);
      }
    }

    /** Whatever the count was, after one sequence every further sequence brings it back. */
    method Settle(n: nat)
      requires Valid() && seqLen > 0 && n >= seqLen
      modifies this`phase, this`bitCnt
      ensures Valid()
      ensures phase == (old(phase) + n + seqLen) % seqLen == (old(phase) + n) % seqLen
      ensures bitCnt == Run(Cfg(), old(bitCnt), old(phase) + 1, n)
    {
      Cycles(n + seqLen);
      Periodic(Cfg(), old(bitCnt), old(phase) + 1, n);
      PhaseRepeats(old(phase) + n, seqLen);
    }
  }

  lemma InPhase(t: int, n: int)
    ensures 0 <= t < n ==> t % n == t
  {
    if 0 <= t < n {
      DivUnique(t, n, 0, t);
    }
  }

  /** A cycle depends on the phase alone. */
  lemma PhaseStep(g: Config, c: int, t: int)
    requires g.len > 0
    ensures Step(g, c, t % g.len) == Step(g, c, t)
  {
    InPhase(t % g.len, g.len);
  }

  lemma FewStalls(g: Config)
    requires g.len > 0 && (forall x :: x in g.stall ==> 0 <= x < g.len)
    requires g.bits == BLOCK * (g.len - |g.stall|) / g.len
    ensures 0 <= g.bits && |g.stall| <= g.len
  {
    StallsFromZero(g, g.len);
    assert g.stall == set x | x in g.stall && x < g.len;
    StallsAtMost(g, 0, g.len);
  }

  lemma {:induction false} StallsAtMost(g: Config, t: int, n: nat)
    requires g.len > 0
    ensures 0 <= Stalls(g, t, n) <= n
  {
    if n > 0 {
      StallsAtMost(g, t, n - 1);
    }
  }
}
