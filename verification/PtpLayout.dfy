/** The messages and the line of src/ptp/tb/ptp_td.py in numbers: which bit of the line is which
    bit of which part of the clock. */
module PtpLayout {
  import opened Arith
  import opened PtpClock
  import opened PtpSerial
  import opened PtpTd

  // ---- messages ----

  /** What every message says: its index, whether relative time was set, the parity of the second,
      fraction, relative time and period. */
  lemma EveryMessage(r: Rate, t: Time, index: int, rel: bool, tod: bool)
    requires Fits(r, t) && 0 <= index < 3
    ensures var m := Message(r, t, index, rel, tod);
            && |m| == 14 && (forall i :: 0 <= i < 14 ==> 0 <= m[i] < 0x1_0000)
            && m[0] % 0x100 == index && m[0] < 0x400
            && (m[0] / 0x100 % 2 == 1 <==> rel) && (m[0] / 0x200 % 2 == 1 <==> t.todS % 2 == 1)
            && t.fns == m[6] + m[7] * 0x1_0000
            && t.relNs == m[8] + m[9] * 0x1_0000 + m[10] * 0x1_0000_0000
            && r.periodFns == m[11] + m[12] * 0x1_0000 && r.periodNs == m[13]
  {
    MessageWords(r, t, index, rel, tod);
    TwoWords(t.fns);
    ThreeWords(t.relNs);
    TwoWords(r.periodFns);
  }

  /** Message 0 says the time of day, and whether it was set. */
  lemma MessageZero(r: Rate, t: Time, rel: bool, tod: bool)
    requires Fits(r, t)
    ensures var m := Message(r, t, 0, rel, tod);
            && |m| == 14
            && t.todNs == m[1] + m[2] % 0x4000 * 0x1_0000 && (m[2] / 0x8000 == 1 <==> tod) && m[2] / 0x4000 % 2 == 0
            && t.todS % 0x1_0000_0000_0000 == m[3] + m[4] * 0x1_0000 + m[5] * 0x1_0000_0000
  {
    NsWords(t.todNs, tod);
    ThreeWords(t.todS);
  }

  /** Message 1 says how far time of day is ahead of relative time in this second, and the drift. */
  lemma MessageOne(r: Rate, t: Time, rel: bool, tod: bool)
    requires Fits(r, t)
    ensures var m := Message(r, t, 1, rel, tod);
            && |m| == 14
            && (t.todNs - t.relNs) % 0x1_0000_0000 == m[1] + m[2] * 0x1_0000
            && r.driftNum == m[3] && r.driftDenom == m[4] && t.driftCnt == m[5]
  {
    TwoWords((t.todNs - t.relNs) % 0x1_0000_0000);
  }

  /** Message 2 says the same for another second: the next one from 939524096 ns on, before that the
      one before. */
  lemma MessageTwo(r: Rate, t: Time, rel: bool, tod: bool)
    requires Fits(r, t)
    ensures var m, late := Message(r, t, 2, rel, tod), t.todNs >= 939524096;
            && |m| == 14
            && (t.todNs - t.relNs + if late then -1_000_000_000 else 1_000_000_000) % 0x1_0000_0000 == m[1] + m[2] * 0x1_0000
            && (t.todS + if late then 1 else -1) % 0x1_0000_0000_0000 == m[3] + m[4] * 0x1_0000 + m[5] * 0x1_0000_0000
  {
    var x, late := t.todNs - t.relNs, t.todNs >= 939524096;
    AltSecond(t);
    ModSub(x, if late then 1_000_000_000 else -1_000_000_000);
    TwoWords(OffsetsOf(t).altOffset);
    ThreeWords(OffsetsOf(t).altS);
  }

  /** Which second the other pair is for. */
  lemma AltSecond(t: Time)
    requires 0 <= t.todNs < 1_000_000_000
    ensures OffsetsOf(t).altS == t.todS + 1 <==> t.todNs >= 939524096
    ensures OffsetsOf(t).altS == t.todS - 1 <==> t.todNs < 939524096
  {
  }

  // ---- the line ----

  /** A word goes out as a low start bit and its sixteen bits, the lowest first; after the last word the
      line is high. */
  lemma LineBits(words: seq<int>, i: nat, b: nat)
    requires i < |words| && b < 16
    ensures !Line(words, 17 * i)
    ensures Line(words, 17 * i + 1 + b) <==> words[i] / Pow2(b) % 2 == 1
    ensures forall u: nat :: u >= 17 * |words| ==> Line(words, u)
  {
    LowRest(words[i], b);
    DivUnique(words[i], Pow2(b), Shifted(words[i], b), Low(words[i], b));
    DivUnique(17 * i, 17, i, 0);
    DivUnique(17 * i + 1 + b, 17, i, 1 + b);
  }

  // ---- the clock ----

  /** The calendar: seconds have a thousand million nanoseconds, and time of day, relative time and
      fraction are exactly what the cycles have added. */
  lemma Calendar(r: Rate, t: Time, n: nat)
    requires Fits(r, t)
    ensures var u, sum := Ticks(r, t, n), t.fns + Added(r, t, n);
            && 0 <= u.todNs < 1_000_000_000
            && u.todS * 1_000_000_000 + u.todNs == t.todS * 1_000_000_000 + t.todNs + sum / 0x1_0000_0000
            && u.relNs == (t.relNs + sum / 0x1_0000_0000) % 0x1_0000_0000_0000
            && u.fns == sum % 0x1_0000_0000
  {
    ExactTime(r, t, n);
    FitsLater(r, t, n);
  }

  /** Without a denominator there is no drift. */
  lemma {:induction false} NoDrift(r: Rate, t: Time, n: nat)
    requires r.Valid() && r.driftDenom == 0
    ensures Added(r, t, n) == n * (r.periodNs * 0x1_0000_0000 + r.periodFns)
  {
    if n > 0 {
      NoDrift(r, t, n - 1);
      Times(n, r.periodNs * 0x1_0000_0000 + r.periodFns);
    }
  }

  lemma Times(n: int, p: int)
    ensures n * p == (n - 1) * p + p
  {
  }
}
