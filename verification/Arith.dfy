/** Facts about integer division that several models lean on. */
module Arith {
  function Min(a: int, b: int): (m: int)
    ensures m <= a && m <= b && (m == a || m == b)
  {
    if a < b then a else b
  }

  function Max(a: int, b: int): (m: int)
    ensures a <= m && b <= m && (m == a || m == b)
  {
    if a < b then b else a
  }

  lemma {:induction false} MulNonNegative(a: nat, b: nat)
    ensures a * b >= 0
  {
    if b > 0 {
      MulNonNegative(a, b - 1);
      assert a * b == a * (b - 1) + a;
    }
  }

  lemma MulGrows(n: nat, d: int)
    requires d >= 1
    ensures n * d >= n
  {
    MulNonNegative(n, d - 1);
    assert n * d == n * (d - 1) + n;
  }

  lemma {:induction false} MulMonotone(n: nat, a: int, b: int)
    requires a <= b
    ensures n * a <= n * b
  {
    MulNonNegative(n, b - a);
    assert n * b == n * a + n * (b - a);
  }

  /** A quotient and remainder are found from the equation they solve. */
  lemma DivUnique(x: int, n: int, q: int, r: int)
    requires 0 <= r < n && x == n * q + r
    ensures x / n == q && x % n == r
  {
    var q', r' := x / n, x % n;
    assert x == n * q' + r' && 0 <= r' < n;
    assert n * (q - q') == n * q - n * q' == r' - r;
    if q > q' {
      MulGrows(n, q - q');
    } else if q < q' {
      MulGrows(n, q' - q);
    }
  }

  lemma AddMultiple(x: int, n: int, k: int)
    requires n > 0
    ensures (x + n * k) / n == x / n + k && (x + n * k) % n == x % n
  {
    assert n * (x / n + k) == n * (x / n) + n * k;
    DivUnique(x + n * k, n, x / n + k, x % n);
  }

  /** Numbers closer than the modulus have different remainders. */
  lemma ModDiffers(i: int, j: int, n: int)
    requires n > 0 && i < j < i + n
    ensures i % n != j % n
  {
    if i % n == j % n {
      var d := j / n - i / n;
      assert n * d == n * (j / n) - n * (i / n) == j - i;
      if d >= 1 {
        MulGrows(n, d);
      } else {
        MulMonotone(n, d, 0);
      }
    }
  }

  /** Reducing first by a multiple of the modulus changes nothing. */
  lemma ModOfMod(x: int, n: int, k: int)
    requires n > 0 && k > 0 && n * k > 0
    ensures (x % (n * k)) % n == x % n && (x % (n * k)) / n == x / n - k * (x / (n * k))
  {
    var m := n * k;
    var a, r := x / m, x % m;
    assert x == m * a + r;
    assert n * (k * a) == m * a;
    AddMultiple(r, n, k * a);
  }

  /** A difference taken on registers of `m` values is the true one if it fits. */
  lemma RegisterDifference(a: nat, b: nat, m: nat)
    requires m > 0 && b <= a < b + m
    ensures (a % m - b % m) % m == a - b
  {
    var qa, qb := a / m, b / m;
    assert a % m - b % m == (a - b) + m * (qb - qa) by {
      assert m * (qb - qa) == m * qb - m * qa;
    }
    AddMultiple(a - b, m, qb - qa);
    DivUnique(a - b, m, 0, a - b);
  }

  /** Registers are equal exactly when the counts behind them are, if those are close. */
  lemma RegisterEqual(a: nat, b: nat, m: nat)
    requires m > 0 && b <= a < b + m
    ensures a % m == b % m <==> a == b
  {
    if b < a {
      ModDiffers(b, a, m);
    }
  }

  lemma RegisterStep(a: nat, k: nat, m: nat)
    requires m > 0
    ensures (a % m + k) % m == (a + k) % m
  {
    AddMultiple(a % m + k, m, a / m);
    assert a + k == a % m + k + m * (a / m);
  }

  // ---- powers of two ----

  function Pow2(n: nat): (p: nat)
    ensures p > 0
  {
    if n == 0 then 1 else 2 * Pow2(n - 1)
  }

  lemma {:induction false} Pow2Sum(a: nat, b: nat)
    ensures Pow2(a + b) == Pow2(a) * Pow2(b)
    decreases a
  {
    if a > 0 {
      Pow2Sum(a - 1, b);
      Doubled(Pow2(a - 1), Pow2(b));
    }
  }

  lemma Doubled(x: int, y: int)
    ensures (2 * x) * y == 2 * (x * y)
  {
  }

  lemma {:induction false} Pow2Grows(j: nat, k: nat)
    requires j < k
    ensures 2 * Pow2(j) <= Pow2(k)
  {
    if j + 1 < k {
      Pow2Grows(j, k - 1);
    }
  }

  lemma Pow2Is16()
    ensures Pow2(15) == 0x8000 && Pow2(16) == 0x1_0000
  {
    assert Pow2(4) == 16;
    Pow2Sum(4, 4);
    Pow2Sum(8, 8);
  }
}
