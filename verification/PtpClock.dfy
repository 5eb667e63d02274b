/** The clock that both ends of src/ptp/tb/ptp_td.py run: nanoseconds with a 32-bit binary
    fraction, a drift added once in drift_denom cycles, a 48-bit relative time and a time of
    day in seconds and nanoseconds. */
module PtpClock {
  import opened Arith

  const FRACTION := 0x1_0000_0000
  const REL := 0x1_0000_0000_0000
  const SECOND := 1_000_000_000

  datatype Rate = Rate(periodNs: int, periodFns: int, driftNum: int, driftDenom: int) {
    predicate Valid() {
      0 <= periodNs && 0 <= periodFns < FRACTION && 0 <= driftNum && 0 <= driftDenom
    }

    /** Fractions of a nanosecond that every cycle adds. */
    function Period(): int {
      periodNs * FRACTION + periodFns
    }
  }

  datatype Time = Time(fns: int, relNs: int, todS: int, todNs: int, driftCnt: int) {
    predicate Valid() {
      && 0 <= fns < FRACTION && 0 <= relNs < REL && 0 <= todNs && 0 <= driftCnt
    }

    /** Time of day in nanoseconds. */
    function Tod(): int {
      todS * SECOND + todNs
    }
  }

  /** The drift part of a cycle: what it adds and the counter it leaves. */
  function Drift(r: Rate, cnt: int): (int, int) {
    if r.driftDenom == 0 then (0, cnt)
    else if cnt > 0 then (0, cnt - 1)
    else (r.driftNum, r.driftDenom - 1)
  }

  /** What one cycle adds, in fractions of a nanosecond. */
  function Inc(r: Rate, t: Time): int {
    r.Period() + Drift(r, t.driftCnt).0
  }

  function Tick(r: Rate, t: Time): Time {
    var sum := t.fns + Inc(r, t);
    var ns := sum / FRACTION;
    var tod := t.todNs + ns;
    Time(sum % FRACTION, (t.relNs + ns) % REL,
      if tod >= SECOND then t.todS + 1 else t.todS,
      if tod >= SECOND then tod - SECOND else tod,
      Drift(r, t.driftCnt).1)
  }

  function Ticks(r: Rate, t: Time, n: nat): Time {
    if n == 0 then t else Tick(r, Ticks(r, t, n - 1))
  }

  /** What n cycles add. */
  function Added(r: Rate, t: Time, n: nat): int {
    if n == 0 then 0 else Added(r, t, n - 1) + Inc(r, Ticks(r, t, n - 1))
  }

  // ---- exact time ----

  lemma TickValid(r: Rate, t: Time)
    requires r.Valid() && t.Valid()
    ensures Tick(r, t).Valid() && Inc(r, t) >= 0
  {
    MulNonNegative(r.periodNs, FRACTION);
  }

  lemma {:induction false} TicksValid(r: Rate, t: Time, n: nat)
    requires r.Valid() && t.Valid()
    ensures Ticks(r, t, n).Valid() && Added(r, t, n) >= 0
  {
    if n > 0 {
      TicksValid(r, t, n - 1);
      TickValid(r, Ticks(r, t, n - 1));
    }
  }

  /** Carrying into the nanoseconds cycle by cycle loses nothing. */
  lemma Carry(a: int, b: int)
    ensures (a % FRACTION + b) % FRACTION == (a + b) % FRACTION
    ensures a / FRACTION + (a % FRACTION + b) / FRACTION == (a + b) / FRACTION
  {
  }

  lemma RelCarry(a: int, b: int)
    ensures (a % REL + b) % REL == (a + b) % REL
  {
  }

  /** After n cycles fraction, relative time and time of day are all exactly what was added,
      across every carry, second rollover and 48-bit wrap. */
  lemma {:induction false} ExactTime(r: Rate, t: Time, n: nat)
    requires r.Valid() && t.Valid()
    ensures Ticks(r, t, n).fns == (t.fns + Added(r, t, n)) % FRACTION
    ensures Ticks(r, t, n).relNs == (t.relNs + (t.fns + Added(r, t, n)) / FRACTION) % REL
    ensures Ticks(r, t, n).Tod() == t.Tod() + (t.fns + Added(r, t, n)) / FRACTION
  {
    if n > 0 {
      ExactTime(r, t, n - 1);
      TickExact(r, t, Ticks(r, t, n - 1), t.fns + Added(r, t, n - 1));
    }
  }

  lemma TickExact(r: Rate, t: Time, u: Time, sum: int)
    requires u.fns == sum % FRACTION && u.relNs == (t.relNs + sum / FRACTION) % REL && u.Tod() == t.Tod() + sum / FRACTION
    ensures Tick(r, u).fns == (sum + Inc(r, u)) % FRACTION
    ensures Tick(r, u).relNs == (t.relNs + (sum + Inc(r, u)) / FRACTION) % REL
    ensures Tick(r, u).Tod() == t.Tod() + (sum + Inc(r, u)) / FRACTION
  {
    var inc := Inc(r, u);
    Carry(sum, inc);
    RelCarry(t.relNs + sum / FRACTION, (u.fns + inc) / FRACTION);
  }

  /** The counter runs down to zero, where the drift is added. */
  lemma {:induction false} CountsDown(r: Rate, t: Time, n: nat)
    requires r.Valid() && 0 <= n <= t.driftCnt && r.driftDenom > 0
    ensures Ticks(r, t, n).driftCnt == t.driftCnt - n && Added(r, t, n) == n * r.Period()
  {
    if n > 0 {
      CountsDown(r, t, n - 1);
      assert n * r.Period() == (n - 1) * r.Period() + r.Period();
    }
  }

  lemma {:induction false} TicksSplit(r: Rate, t: Time, m: nat, n: nat)
    ensures Ticks(r, t, m + n) == Ticks(r, Ticks(r, t, m), n)
    ensures Added(r, t, m + n) == Added(r, t, m) + Added(r, Ticks(r, t, m), n)
  {
    if n > 0 {
      TicksSplit(r, t, m, n - 1);
      assert m + n - 1 == m + (n - 1);
    }
  }

  lemma OneMore(r: Rate, t: Time, n: nat)
    ensures Ticks(r, t, n + 1) == Tick(r, Ticks(r, t, n))
    ensures Added(r, t, n + 1) == Added(r, t, n) + Inc(r, Ticks(r, t, n))
  {
  }

  lemma Spread(c: int, d: int, p: int)
    ensures c * p + p + (d - 1 - c) * p == d * p
  {
  }

  /** Any drift_denom consecutive cycles add drift_denom periods and the drift once. */
  lemma WholeDrift(r: Rate, t: Time)
    requires r.Valid() && 0 <= t.driftCnt < r.driftDenom
    ensures Added(r, t, r.driftDenom) == r.driftDenom * (r.periodNs * 0x1_0000_0000 + r.periodFns) + r.driftNum
    ensures Ticks(r, t, r.driftDenom).driftCnt == t.driftCnt
  {
    var c, d, p := t.driftCnt, r.driftDenom, r.Period();
    DriftAdded(r, t);
    DriftRest(r, t, c + 1);
    Spread(c, d, p);
  }

  /** The cycles after the one that added the drift. */
  lemma DriftRest(r: Rate, t: Time, k: nat)
    requires r.Valid() && 0 < k <= r.driftDenom && Ticks(r, t, k).driftCnt == r.driftDenom - 1
    ensures Added(r, t, r.driftDenom) == Added(r, t, k) + (r.driftDenom - k) * r.Period()
    ensures Ticks(r, t, r.driftDenom).driftCnt == k - 1
  {
    RestFrom(r, t, k, r.driftDenom - k, Ticks(r, t, k));
  }

  lemma RestFrom(r: Rate, t: Time, k: nat, n: nat, v: Time)
    requires r.Valid() && r.driftDenom > 0 && v == Ticks(r, t, k) && n <= v.driftCnt
    ensures Added(r, t, k + n) == Added(r, t, k) + n * r.Period() && Ticks(r, t, k + n).driftCnt == v.driftCnt - n
  {
    CountsDown(r, v, n);
    TicksSplit(r, t, k, n);
  }

  /** The cycles up to the one that adds the drift. */
  lemma DriftAdded(r: Rate, t: Time)
    requires r.Valid() && 0 <= t.driftCnt < r.driftDenom
    ensures var c := t.driftCnt;
            && Ticks(r, t, c + 1).driftCnt == r.driftDenom - 1
            && Added(r, t, c + 1) == c * r.Period() + r.Period() + r.driftNum
  {
    CountsDown(r, t, t.driftCnt);
    OneMore(r, t, t.driftCnt);
  }

  /** The counter never leaves [0, drift_denom) once it is there. */
  lemma {:induction false} CountBelow(r: Rate, t: Time, n: nat)
    requires r.Valid() && 0 <= t.driftCnt < r.driftDenom
    ensures 0 <= Ticks(r, t, n).driftCnt < r.driftDenom
  {
    if n > 0 {
      CountBelow(r, t, n - 1);
    }
  }

  /** However far into the run, the next drift_denom cycles add the same. */
  lemma WholeDriftLater(r: Rate, t: Time, n: nat)
    requires r.Valid() && 0 <= t.driftCnt < r.driftDenom
    ensures Added(r, t, n + r.driftDenom) - Added(r, t, n)
      == r.driftDenom * (r.periodNs * 0x1_0000_0000 + r.periodFns) + r.driftNum
  {
    CountBelow(r, t, n);
    WholeDrift(r, Ticks(r, t, n));
    TicksSplit(r, t, n, r.driftDenom);
  }

  // ---- the published offsets ----

  /** What is sent to turn relative time into time of day: the offset for the current second,
      and for the next one or the one before. */
  datatype Offsets = Offsets(offset: int, altS: int, altOffset: int)

  function OffsetsOf(t: Time): Offsets {
    var offset := (t.todNs - t.relNs) % FRACTION;
    if t.todNs / 0x800_0000 == 7 then Offsets(offset, t.todS + 1, (offset - SECOND) % FRACTION)
    else Offsets(offset, t.todS - 1, (offset + SECOND) % FRACTION)
  }

  /** The constant that both published pairs are to agree with. */
  function Origin(t: Time): int {
    (t.Tod() - t.relNs) % FRACTION
  }

  lemma ModShift(a: int, k: int)
    ensures (a + k * FRACTION) % FRACTION == a % FRACTION
  {
    AddMultiple(a, FRACTION, k);
  }

  /** A second and an offset stand for the constant. */
  predicate Agrees(s: int, offset: int, c: int) {
    0 <= offset < FRACTION && offset == (c - s * SECOND) % FRACTION
  }

  lemma ModSub(a: int, b: int)
    ensures (a % FRACTION - b) % FRACTION == (a - b) % FRACTION
  {
  }

  lemma OffsetsAgree(t: Time)
    ensures Agrees(t.todS, OffsetsOf(t).offset, Origin(t))
    ensures Agrees(OffsetsOf(t).altS, OffsetsOf(t).altOffset, Origin(t))
  {
    var x := t.todNs - t.relNs;
    ModSub(t.Tod() - t.relNs, t.todS * SECOND);
    assert t.Tod() - t.relNs - t.todS * SECOND == x;
    ModSub(t.Tod() - t.relNs, (t.todS + 1) * SECOND);
    ModSub(t.Tod() - t.relNs, (t.todS - 1) * SECOND);
    assert t.Tod() - t.relNs - (t.todS + 1) * SECOND == x - SECOND;
    assert t.Tod() - t.relNs - (t.todS - 1) * SECOND == x + SECOND;
    ModSub(x, SECOND);
    ModSub(x, -SECOND);
  }

  /** One constant serves the whole run. */
  lemma OriginStays(r: Rate, t: Time, n: nat)
    requires r.Valid() && t.Valid()
    ensures Origin(Ticks(r, t, n)) == Origin(t)
    ensures Agrees(Ticks(r, t, n).todS, OffsetsOf(Ticks(r, t, n)).offset, Origin(t))
    ensures Agrees(OffsetsOf(Ticks(r, t, n)).altS, OffsetsOf(Ticks(r, t, n)).altOffset, Origin(t))
  {
    ExactTime(r, t, n);
    var u := Ticks(r, t, n);
    var rel := t.relNs + (t.fns + Added(r, t, n)) / FRACTION;
    var k := rel / REL * 0x1_0000;
    assert u.relNs == rel - k * FRACTION;
    ModShift(t.Tod() - t.relNs, k);
    OffsetsAgree(u);
  }

  // ---- the running clock ----

  /** The clock fields of PtpTdSource and PtpTdSink, and the part of an edge they share. */
  class Clock {
    var periodNs: int
    var periodFns: int
    var driftNum: int
    var driftDenom: int
    var driftCnt: int
    var fns: int
    var relNs: int
    var todS: int
    var todNs: int

    constructor (r: Rate, t: Time)
      ensures RateNow() == r && Now() == t && fresh(this)
    {
      periodNs, periodFns, driftNum, driftDenom := r.periodNs, r.periodFns, r.driftNum, r.driftDenom;
      fns, relNs, todS, todNs, driftCnt := t.fns, t.relNs, t.todS, t.todNs, t.driftCnt;
    }

    function RateNow(): Rate
      reads this
    {
      Rate(periodNs, periodFns, driftNum, driftDenom)
    }

    function Now(): Time
      reads this
    {
      Time(fns, relNs, todS, todNs, driftCnt)
    }

    method Advance()
      requires RateNow().Valid() && Now().Valid()
      modifies this
      ensures RateNow() == old(RateNow()) && Now() == Tick(RateNow(), old(Now()))
    {
      fns := fns + periodNs * FRACTION + periodFns;
      if driftDenom != 0 {
        if driftCnt > 0 {
          driftCnt := driftCnt - 1;
        } else {
          driftCnt := driftDenom - 1;
          fns := fns + driftNum;
        }
      }
      var inc := fns / FRACTION;
      fns := fns % FRACTION;
      relNs := (relNs + inc) % REL;
      todNs := todNs + inc;
      if todNs >= SECOND {
        todS := todS + 1;
        todNs := todNs - SECOND;
      }
    }
  }
}
