/** Numbers with fields packed into them: fields are or-ed in, shifted to their places, and read
    by shifting and masking. */
module Packed {
  import opened Arith

  function Or(x: nat, y: nat): nat
    decreases x + y
  {
    if x == 0 && y == 0 then 0
    else (if x % 2 == 1 || y % 2 == 1 then 1 else 0) + 2 * Or(x / 2, y / 2)
  }

  /** (x >> at) & (2^w - 1) */
  function Bits(x: nat, at: nat, w: nat): nat {
    x / Pow2(at) % Pow2(w)
  }

  /** x | f << at */
  function Put(x: nat, at: nat, f: nat): nat {
    MulNonNegative(f, Pow2(at));
    Or(x, f * Pow2(at))
  }

  lemma {:induction false} OrNothing(x: nat)
    ensures Or(x, 0) == x
    decreases x
  {
    if x > 0 {
      OrNothing(x / 2);
    }
  }

  lemma {:induction false} OrToNothing(x: nat)
    ensures Or(0, x) == x
    decreases x
  {
    if x > 0 {
      OrToNothing(x / 2);
    }
  }

  lemma {:induction false} OrTwice(x: nat, y: nat)
    ensures Or(Or(x, y), y) == Or(x, y)
    decreases x + y
  {
    if x > 0 || y > 0 {
      OrTwice(x / 2, y / 2);
    }
  }

  lemma PutNothing(x: nat, at: nat)
    ensures Put(x, at, 0) == x
  {
    OrNothing(x);
  }

  lemma PutTwice(x: nat, at: nat)
    ensures Put(Put(x, at, 1), at, 1) == Put(x, at, 1)
  {
    OrTwice(x, 1 * Pow2(at));
  }

  lemma Halves(x: nat, y: nat, p: nat)
    requires x < 2 * p
    ensures x / 2 < p && y * (2 * p) == 2 * (y * p)
  {
  }

  /** A field put in above all there is so far is added to it. */
  lemma {:induction false} PutAdds(x: nat, at: nat, f: nat)
    requires x < Pow2(at)
    ensures Put(x, at, f) == x + f * Pow2(at)
    decreases at
  {
    if at == 0 {
      OrToNothing(f);
    } else {
      var p := Pow2(at - 1);
      Halves(x, f, p);
      MulNonNegative(f, p);
      PutAdds(x / 2, at - 1, f);
    }
  }

  /** Below a place there is room for a field more. */
  lemma PutBelow(x: nat, at: nat, f: nat, w: nat)
    requires x < Pow2(at) && f < Pow2(w)
    ensures Put(x, at, f) < Pow2(at + w)
  {
    PutAdds(x, at, f);
    Pow2Sum(at, w);
    MulMonotone(Pow2(at), f + 1, Pow2(w));
    Next(Pow2(at), f);
  }

  lemma Next(p: int, f: int)
    ensures p * (f + 1) == f * p + p
  {
  }

  /** The field just put in reads as it is. */
  lemma PutReads(x: nat, at: nat, f: nat, w: nat)
    requires x < Pow2(at) && f < Pow2(w)
    ensures Bits(Put(x, at, f), at, w) == f
  {
    PutAdds(x, at, f);
    DivUnique(x + f * Pow2(at), Pow2(at), f, x);
    DivUnique(f, Pow2(w), 0, f);
  }

  /** A field that ends where the new one begins is left as it is. */
  lemma PutKeeps(x: nat, at: nat, f: nat, low: nat, w: nat)
    requires x < Pow2(at) && low + w <= at
    ensures Bits(Put(x, at, f), low, w) == Bits(x, low, w)
  {
    PutAdds(x, at, f);
    var p, q, r := Pow2(low), Pow2(w), Pow2(at - low - w);
    Pow2Sum(low, at - low);
    Pow2Sum(w, at - low - w);
    MulNonNegative(f, r);
    Regroup(f, p, q, r);
    assert x + f * Pow2(at) == x + p * (q * (f * r));
    AddMultiple(x, p, q * (f * r));
    AddMultiple(x / p, q, f * r);
  }

  lemma Regroup(f: int, p: int, q: int, r: int)
    ensures f * (p * (q * r)) == p * (q * (f * r))
  {
  }

  /** A field of a field is a field. */
  lemma BitsOfBits(x: nat, at: nat, w: nat, low: nat, v: nat)
    requires low + v <= w
    ensures Bits(Bits(x, at, w), low, v) == Bits(x, at + low, v)
  {
    var p, q, r, s := Pow2(at), Pow2(low), Pow2(v), Pow2(w - low - v);
    var y := x / p;
    Pow2Sum(low, w - low);
    Pow2Sum(v, w - low - v);
    Pow2Sum(at, low);
    DivTwice(x, p, q);
    assert Pow2(w) == q * (r * s);
    MulPositive(r, s);
    MulPositive(q, r * s);
    ModOfMod(y, q, r * s);
    var k := y / (q * (r * s));
    assert y % Pow2(w) / q == y / q - r * s * k;
    Regroup3(r, s, k);
    AddMultiple(y / q, r, -(s * k));
  }

  lemma Regroup3(r: int, s: int, k: int)
    ensures r * s * k == r * (s * k) && r * -(s * k) == -(r * (s * k))
  {
  }

  lemma MulPositive(a: nat, b: nat)
    requires a > 0 && b > 0
    ensures a * b > 0
  {
    MulGrows(a, b);
  }

  lemma DivTwice(x: nat, p: nat, q: nat)
    requires p > 0 && q > 0
    ensures p * q > 0 && x / (p * q) == x / p / q
  {
    MulPositive(p, q);
    var y := x / p;
    var a, b, c := y / q, y % q, x % p;
    assert x == p * y + c && y == q * a + b;
    MulMonotone(p, b + 1, q);
    Next(p, b);
    MulNonNegative(p, b);
    assert x == (p * q) * a + (p * b + c) by {
      Spread(p, q, a, b);
    }
    DivUnique(x, p * q, a, p * b + c);
  }

  lemma Spread(p: int, q: int, a: int, b: int)
    ensures p * (q * a + b) == (p * q) * a + p * b
  {
  }

  // ---- a field replaced: cleared under a mask, and or-ed in again ----

  /** x & ~y */
  function Without(x: nat, y: nat): nat
    decreases x
  {
    if x == 0 then 0
    else (if x % 2 == 1 && y % 2 == 0 then 1 else 0) + 2 * Without(x / 2, y / 2)
  }

  /** 2^w - 1 */
  function Ones(w: nat): nat {
    Pow2(w) - 1
  }

  /** x &= ~(mask << at); x |= (f & mask) << at, for a mask of w ones */
  function Set(x: nat, at: nat, w: nat, f: nat): nat {
    MulNonNegative(Ones(w), Pow2(at));
    Put(Without(x, Ones(w) * Pow2(at)), at, f % Pow2(w))
  }

  /** Under a mask of ones nothing is left. */
  lemma {:induction false} WithoutAll(h: nat, g: nat, w: nat)
    requires g < Pow2(w)
    ensures h * Pow2(w) >= 0 && Without(h * Pow2(w) + g, Ones(w)) == h * Pow2(w)
    decreases w
  {
    MulNonNegative(h, Pow2(w));
    if w == 0 {
      WithoutNothing(h);
    } else {
      HalfOf(h, g, Pow2(w - 1));
      WithoutAll(h, g / 2, w - 1);
    }
  }

  lemma {:induction false} WithoutNothing(x: nat)
    ensures Without(x, 0) == x
    decreases x
  {
    if x > 0 {
      WithoutNothing(x / 2);
    }
  }

  lemma {:induction false} OrSwapped(x: nat, y: nat)
    ensures Or(x, y) == Or(y, x)
    decreases x + y
  {
    if x > 0 || y > 0 {
      OrSwapped(x / 2, y / 2);
    }
  }

  /** Below a place or-ing and clearing at it change nothing. */
  lemma {:induction false} OrHigh(h: nat, r: nat, at: nat, f: nat)
    requires r < Pow2(at)
    ensures h * Pow2(at) >= 0 && f * Pow2(at) >= 0
    ensures Or(h * Pow2(at) + r, f * Pow2(at)) == Or(h, f) * Pow2(at) + r
    decreases at
  {
    MulNonNegative(h, Pow2(at));
    MulNonNegative(f, Pow2(at));
    if at > 0 {
      HalfOf(h, r, Pow2(at - 1));
      HalfOf(f, 0, Pow2(at - 1));
      HalfOf(Or(h, f), r, Pow2(at - 1));
      OrHigh(h, r / 2, at - 1, f);
      OrStep(h * Pow2(at) + r, f * Pow2(at));
    }
  }

  lemma OrStep(x: nat, y: nat)
    ensures Or(x, y) == (if x % 2 == 1 || y % 2 == 1 then 1 else 0) + 2 * Or(x / 2, y / 2)
  {
  }

  lemma {:induction false} WithoutHigh(h: nat, r: nat, at: nat, y: nat)
    requires r < Pow2(at)
    ensures h * Pow2(at) >= 0 && y * Pow2(at) >= 0
    ensures Without(h * Pow2(at) + r, y * Pow2(at)) == Without(h, y) * Pow2(at) + r
    decreases at
  {
    MulNonNegative(h, Pow2(at));
    MulNonNegative(y, Pow2(at));
    if at > 0 {
      HalfOf(h, r, Pow2(at - 1));
      HalfOf(y, 0, Pow2(at - 1));
      HalfOf(Without(h, y), r, Pow2(at - 1));
      WithoutHigh(h, r / 2, at - 1, y);
      WithoutStep(h * Pow2(at) + r, y * Pow2(at));
    }
  }

  lemma WithoutStep(x: nat, y: nat)
    ensures Without(x, y) == (if x % 2 == 1 && y % 2 == 0 then 1 else 0) + 2 * Without(x / 2, y / 2)
  {
  }

  lemma HalfOf(h: nat, r: nat, p: nat)
    ensures h * (2 * p) == 2 * (h * p) && 0 <= h * p
    ensures (h * (2 * p) + r) / 2 == h * p + r / 2 && (h * (2 * p) + r) % 2 == r % 2
  {
    MulNonNegative(h, p);
  }

  /** What is above a field, the field and what is below it, put together. */
  function Joined(h: nat, g: nat, r: nat, p: nat, q: nat): nat {
    MulNonNegative(h, q);
    MulNonNegative(h * q + g, p);
    (h * q + g) * p + r
  }

  lemma Apart(x: nat, p: nat, q: nat) returns (h: nat, g: nat, r: nat)
    requires p > 0 && q > 0
    ensures x == Joined(h, g, r, p, q) && g < q && r < p
  {
    var y := x / p;
    h, g, r := y / q, y % q, x % p;
    assert y == q * h + g && x == p * y + r;
  }

  lemma JoinedParts(h: nat, g: nat, r: nat, p: nat, q: nat)
    requires g < q && r < p
    ensures var z := Joined(h, g, r, p, q); z % p == r && z / p == h * q + g && (h * q + g) % q == g && (h * q + g) / q == h
  {
    MulNonNegative(h, q);
    DivUnique(Joined(h, g, r, p, q), p, h * q + g, r);
    DivUnique(h * q + g, q, h, g);
  }

  // How the parts read: the field, any field below it and any above it.

  lemma JoinedField(h: nat, g: nat, r: nat, at: nat, w: nat)
    requires g < Pow2(w) && r < Pow2(at)
    ensures Bits(Joined(h, g, r, Pow2(at), Pow2(w)), at, w) == g
  {
    JoinedParts(h, g, r, Pow2(at), Pow2(w));
  }

  lemma JoinedBelow(h: nat, g: nat, r: nat, at: nat, w: nat, low: nat, v: nat)
    requires g < Pow2(w) && r < Pow2(at) && low + v <= at
    ensures Bits(Joined(h, g, r, Pow2(at), Pow2(w)), low, v) == Bits(r, low, v)
  {
    var z := Joined(h, g, r, Pow2(at), Pow2(w));
    JoinedParts(h, g, r, Pow2(at), Pow2(w));
    DivUnique(z, 1, z, 0);
    BitsOfBits(z, 0, at, low, v);
  }

  lemma JoinedAbove(h: nat, g: nat, r: nat, at: nat, w: nat, low: nat, v: nat)
    requires g < Pow2(w) && r < Pow2(at) && at + w <= low
    ensures Bits(Joined(h, g, r, Pow2(at), Pow2(w)), low, v) == Bits(h, low - at - w, v)
  {
    var z := Joined(h, g, r, Pow2(at), Pow2(w));
    JoinedParts(h, g, r, Pow2(at), Pow2(w));
    Pow2Sum(at, w);
    Pow2Sum(at + w, low - at - w);
    Over(z, Pow2(at), Pow2(w), Pow2(low - at - w), h);
  }

  lemma Over(z: nat, p: nat, q: nat, s: nat, h: nat)
    requires p > 0 && q > 0 && s > 0 && z / p / q == h
    ensures p * q * s > 0 && z / (p * q * s) == h / s
  {
    DivTwice(z, p, q);
    DivTwice(z, p * q, s);
  }

  /** A field is replaced between what is above and what is below. */
  lemma Replaced(h: nat, g: nat, r: nat, at: nat, w: nat, e: nat)
    requires g < Pow2(w) && r < Pow2(at) && e < Pow2(w)
    ensures 0 <= Ones(w) * Pow2(at)
    ensures Put(Without(Joined(h, g, r, Pow2(at), Pow2(w)), Ones(w) * Pow2(at)), at, e)
      == Joined(h, e, r, Pow2(at), Pow2(w))
  {
    Cleared(h, g, r, at, w);
    Filled(h, r, at, w, e);
  }

  lemma Cleared(h: nat, g: nat, r: nat, at: nat, w: nat)
    requires g < Pow2(w) && r < Pow2(at)
    ensures 0 <= Ones(w) * Pow2(at)
    ensures Without(Joined(h, g, r, Pow2(at), Pow2(w)), Ones(w) * Pow2(at)) == Joined(h, 0, r, Pow2(at), Pow2(w))
  {
    MulNonNegative(h, Pow2(w));
    WithoutHigh(h * Pow2(w) + g, r, at, Ones(w));
    WithoutAll(h, g, w);
  }

  lemma Filled(h: nat, r: nat, at: nat, w: nat, e: nat)
    requires r < Pow2(at) && e < Pow2(w)
    ensures Put(Joined(h, 0, r, Pow2(at), Pow2(w)), at, e) == Joined(h, e, r, Pow2(at), Pow2(w))
  {
    var c := h * Pow2(w);
    MulNonNegative(h, Pow2(w));
    OrHigh(c, r, at, e);
    OrSwapped(c, e);
    PutAdds(e, w, h);
  }

  /** The field set reads as what was put in, cut to its width. */
  lemma SetReads(x: nat, at: nat, w: nat, f: nat)
    ensures Bits(Set(x, at, w, f), at, w) == f % Pow2(w)
  {
    var h, g, r := Apart(x, Pow2(at), Pow2(w));
    var e := f % Pow2(w);
    Replaced(h, g, r, at, w, e);
    JoinedField(h, e, r, at, w);
  }

  /** Every field below or above reads as before. */
  lemma SetKeeps(x: nat, at: nat, w: nat, f: nat, low: nat, v: nat)
    requires low + v <= at || at + w <= low
    ensures Bits(Set(x, at, w, f), low, v) == Bits(x, low, v)
  {
    var h, g, r := Apart(x, Pow2(at), Pow2(w));
    var e := f % Pow2(w);
    Replaced(h, g, r, at, w, e);
    if low + v <= at {
      JoinedBelow(h, g, r, at, w, low, v);
      JoinedBelow(h, e, r, at, w, low, v);
    } else {
      JoinedAbove(h, g, r, at, w, low, v);
      JoinedAbove(h, e, r, at, w, low, v);
    }
  }

  /** x | 1 << i and x & ~(1 << i) change bit i alone. */
  lemma BitSet(x: nat, i: nat, j: nat)
    ensures 0 <= 1 * Pow2(i)
    ensures Bits(Put(x, i, 1), j, 1) == if i == j then 1 else Bits(x, j, 1)
    ensures Bits(Without(x, 1 * Pow2(i)), j, 1) == if i == j then 0 else Bits(x, j, 1)
  {
    var h, g, r := Apart(x, Pow2(i), Pow2(1));
    Cleared(h, g, r, i, 1);
    OneMore(h, g, r, i);
    if j == i {
      JoinedField(h, 0, r, i, 1);
      JoinedField(h, 1, r, i, 1);
    } else if j < i {
      JoinedBelow(h, g, r, i, 1, j, 1);
      JoinedBelow(h, 0, r, i, 1, j, 1);
      JoinedBelow(h, 1, r, i, 1, j, 1);
    } else {
      JoinedAbove(h, g, r, i, 1, j, 1);
      JoinedAbove(h, 0, r, i, 1, j, 1);
      JoinedAbove(h, 1, r, i, 1, j, 1);
    }
  }

  lemma OneMore(h: nat, g: nat, r: nat, i: nat)
    requires g < 2 && r < Pow2(i)
    ensures Put(Joined(h, g, r, Pow2(i), Pow2(1)), i, 1) == Joined(h, 1, r, Pow2(i), Pow2(1))
  {
    OrHigh(h * 2 + g, r, i, 1);
    OrStep(h * 2 + g, 1);
    OrNothing(h);
  }

  /** Of equally wide fields side by side one is replaced. */
  lemma SetAmong(x: nat, i: nat, w: nat, f: nat, j: nat)
    ensures 0 <= i * w && 0 <= j * w
    ensures Bits(Set(x, i * w, w, f), j * w, w) == if i == j then f % Pow2(w) else Bits(x, j * w, w)
  {
    MulNonNegative(i, w);
    MulNonNegative(j, w);
    if i == j {
      SetReads(x, i * w, w, f);
    } else {
      Beside(if i < j then i else j, if i < j then j else i, w);
      SetKeeps(x, i * w, w, f, j * w, w);
    }
  }

  lemma Beside(i: nat, j: nat, w: nat)
    requires i < j
    ensures i * w + w <= j * w
  {
    MulMonotone(w, i + 1, j);
  }
}
