/** What the numbers of a twister tell: tempering loses nothing, so that n numbers decide all later
    ones. */
module TwisterStream {
  import opened Twister

  /** Different words give different numbers. */
  ghost predicate Tells(p: Params) {
    forall a, b {:trigger p.temper(a), p.temper(b)} ::
      InWord(p, a) && InWord(p, b) && p.temper(a) == p.temper(b) ==> a == b
  }

  predicate SameNumber(p: Params, s: seq<bv64>, t: nat, r: seq<bv64>, u: nat)
    requires p.Valid() && |s| == p.n && |r| == p.n
  {
    Output(p, s, t) == Output(p, r, u)
  }

  predicate SameWord(p: Params, s: seq<bv64>, t: nat, r: seq<bv64>, u: nat)
    requires p.Valid() && |s| == p.n && |r| == p.n
  {
    X(p, s, t) == X(p, r, u)
  }

  predicate NumberOn(p: Params, s: seq<bv64>, t: nat, r: seq<bv64>, u: nat, i: nat)
    requires p.Valid() && |s| == p.n && |r| == p.n
  {
    SameNumber(p, s, t + i, r, u + i)
  }

  predicate WordOn(p: Params, s: seq<bv64>, t: nat, r: seq<bv64>, u: nat, i: nat)
    requires p.Valid() && |s| == p.n && |r| == p.n
  {
    SameWord(p, s, t + i, r, u + i)
  }

  /** Numbers t to t + n - 1 of one generator and u to u + n - 1 of another are the same. */
  ghost predicate Alike(p: Params, s: seq<bv64>, t: nat, r: seq<bv64>, u: nat)
    requires p.Valid() && |s| == p.n && |r| == p.n
  {
    forall i: nat :: i < p.n ==> NumberOn(p, s, t, r, u, i)
  }

  lemma Told(p: Params, s: seq<bv64>, t: nat, r: seq<bv64>, u: nat)
    requires p.Valid() && |s| == p.n && |r| == p.n && Sound(p) && Tells(p) && AllInWord(p, s) && AllInWord(p, r)
    requires SameNumber(p, s, t, r, u)
    ensures SameWord(p, s, p.n + t, r, p.n + u)
  {
    XInWord(p, s, p.n + t);
    XInWord(p, r, p.n + u);
  }

  /** n equal words in a row are followed by equal words. */
  lemma {:induction false} SameWords(p: Params, s: seq<bv64>, t: nat, r: seq<bv64>, u: nat, k: nat)
    requires p.Valid() && |s| == p.n && |r| == p.n
    requires forall i: nat :: i < p.n ==> WordOn(p, s, t, r, u, i)
    ensures WordOn(p, s, t, r, u, k)
    decreases k
  {
    if k >= p.n {
      var j := k - p.n;
      SameWords(p, s, t, r, u, j + p.m);
      SameWords(p, s, t, r, u, j);
      SameWords(p, s, t, r, u, j + 1);
      assert t + (j + p.m) == t + j + p.m && t + (j + 1) == t + j + 1;
      SameNext(p, s, t + j, r, u + j);
    }
  }

  lemma SameNext(p: Params, s: seq<bv64>, t: nat, r: seq<bv64>, u: nat)
    requires p.Valid() && |s| == p.n && |r| == p.n
    requires SameWord(p, s, t + p.m, r, u + p.m) && SameWord(p, s, t, r, u) && SameWord(p, s, t + 1, r, u + 1)
    ensures SameWord(p, s, t + p.n, r, u + p.n)
  {
    NextWord(p, s, t);
    NextWord(p, r, u);
  }

  lemma NextWord(p: Params, s: seq<bv64>, t: nat)
    requires p.Valid() && |s| == p.n
    ensures X(p, s, t + p.n) == p.next(X(p, s, t + p.m), X(p, s, t), X(p, s, t + 1))
  {
    assert t + p.n - p.n + p.m == t + p.m && t + p.n - p.n + 1 == t + 1;
  }

  /** Any n consecutive numbers decide every later one, whatever generator they come from and
      wherever in its stream. */
  lemma NumbersDecide(p: Params, s: seq<bv64>, t: nat, r: seq<bv64>, u: nat, k: nat)
    requires p.Valid() && |s| == p.n && |r| == p.n && Sound(p) && Tells(p) && AllInWord(p, s) && AllInWord(p, r)
    requires Alike(p, s, t, r, u)
    ensures Output(p, s, t + k) == Output(p, r, u + k)
  {
    var a, b := p.n + t, p.n + u;
    forall i: nat | i < p.n
      ensures WordOn(p, s, a, r, b, i)
    {
      assert NumberOn(p, s, t, r, u, i);
      Told(p, s, t + i, r, u + i);
      assert p.n + (t + i) == a + i && p.n + (u + i) == b + i;
    }
    SameWords(p, s, a, r, b, k);
    assert p.n + (t + k) == a + k && p.n + (u + k) == b + k;
  }

  // ---- tempering undone, step by step ----

  /** A step xors a word with a part of itself, moved. Parts of a difference are differences of
      parts, and no word but nothing is its own part. */
  ghost predicate Moves(part: bv64 -> bv64) {
    && (forall x, y :: part(x) ^ part(y) == part(x ^ y))
    && (forall x :: x == part(x) ==> x == 0)
  }

  lemma Differ(a: bv64, b: bv64, c: bv64, d: bv64)
    requires a ^ c == b ^ d
    ensures a ^ b == c ^ d
  {
  }

  lemma Equal(a: bv64, b: bv64)
    requires a ^ b == 0
    ensures a == b
  {
  }

  /** Words that a step makes the same were the same. */
  lemma Undone(part: bv64 -> bv64, a: bv64, b: bv64)
    requires Moves(part) && Mixed(part, a) == Mixed(part, b)
    ensures a == b
  {
    var x := a ^ b;
    Moved(part, a, b);
    Fixed(part, a, b, x);
    Equal(a, b);
  }

  /** The difference of two words is then the difference of their parts. */
  lemma Moved(part: bv64 -> bv64, a: bv64, b: bv64)
    requires Mixed(part, a) == Mixed(part, b)
    ensures a ^ b == part(a) ^ part(b)
  {
    var c, d := part(a), part(b);
    MixedIs(part, a);
    MixedIs(part, b);
    Differ(a, b, c, d);
  }

  lemma MixedIs(part: bv64 -> bv64, a: bv64)
    ensures Mixed(part, a) == a ^ part(a)
  {
  }

  lemma Fixed(part: bv64 -> bv64, a: bv64, b: bv64, x: bv64)
    requires Moves(part) && x == a ^ b && x == part(a) ^ part(b)
    ensures x == 0
  {
    assert part(a) ^ part(b) == part(a ^ b);
    assert x == part(x);
  }

  lemma MovesRight11()
    ensures Moves(Right11)
  {
    forall x, y
      ensures Right11(x) ^ Right11(y) == Right11(x ^ y)
    {
      LinearRight11(x, y);
    }
    forall x | x == Right11(x)
      ensures x == 0
    {
      NothingRight11(x);
    }
  }

  lemma LinearRight11(x: bv64, y: bv64)
    ensures Right11(x) ^ Right11(y) == Right11(x ^ y)
  {
  }

  lemma NothingRight11(x: bv64)
    requires x == Right11(x)
    ensures x == 0
  {
  }

  lemma MovesLeft7()
    ensures Moves(Left7)
  {
    forall x, y
      ensures Left7(x) ^ Left7(y) == Left7(x ^ y)
    {
      LinearLeft7(x, y);
    }
    forall x | x == Left7(x)
      ensures x == 0
    {
      NothingLeft7(x);
    }
  }

  lemma LinearLeft7(x: bv64, y: bv64)
    ensures Left7(x) ^ Left7(y) == Left7(x ^ y)
  {
  }

  lemma NothingLeft7(x: bv64)
    requires x == Left7(x)
    ensures x == 0
  {
  }

  lemma MovesLeft15()
    ensures Moves(Left15)
  {
    forall x, y
      ensures Left15(x) ^ Left15(y) == Left15(x ^ y)
    {
      LinearLeft15(x, y);
    }
    forall x | x == Left15(x)
      ensures x == 0
    {
      NothingLeft15(x);
    }
  }

  lemma LinearLeft15(x: bv64, y: bv64)
    ensures Left15(x) ^ Left15(y) == Left15(x ^ y)
  {
  }

  lemma NothingLeft15(x: bv64)
    requires x == Left15(x)
    ensures x == 0
  {
  }

  lemma MovesRight18()
    ensures Moves(Right18)
  {
    forall x, y
      ensures Right18(x) ^ Right18(y) == Right18(x ^ y)
    {
      LinearRight18(x, y);
    }
    forall x | x == Right18(x)
      ensures x == 0
    {
      NothingRight18(x);
    }
  }

  lemma LinearRight18(x: bv64, y: bv64)
    ensures Right18(x) ^ Right18(y) == Right18(x ^ y)
  {
  }

  lemma NothingRight18(x: bv64)
    requires x == Right18(x)
    ensures x == 0
  {
  }

  lemma MovesRight29()
    ensures Moves(Right29)
  {
    forall x, y
      ensures Right29(x) ^ Right29(y) == Right29(x ^ y)
    {
      LinearRight29(x, y);
    }
    forall x | x == Right29(x)
      ensures x == 0
    {
      NothingRight29(x);
    }
  }

  lemma LinearRight29(x: bv64, y: bv64)
    ensures Right29(x) ^ Right29(y) == Right29(x ^ y)
  {
  }

  lemma NothingRight29(x: bv64)
    requires x == Right29(x)
    ensures x == 0
  {
  }

  lemma MovesLeft17()
    ensures Moves(Left17)
  {
    forall x, y
      ensures Left17(x) ^ Left17(y) == Left17(x ^ y)
    {
      LinearLeft17(x, y);
    }
    forall x | x == Left17(x)
      ensures x == 0
    {
      NothingLeft17(x);
    }
  }

  lemma LinearLeft17(x: bv64, y: bv64)
    ensures Left17(x) ^ Left17(y) == Left17(x ^ y)
  {
  }

  lemma NothingLeft17(x: bv64)
    requires x == Left17(x)
    ensures x == 0
  {
  }

  lemma MovesLeft37()
    ensures Moves(Left37)
  {
    forall x, y
      ensures Left37(x) ^ Left37(y) == Left37(x ^ y)
    {
      LinearLeft37(x, y);
    }
    forall x | x == Left37(x)
      ensures x == 0
    {
      NothingLeft37(x);
    }
  }

  lemma LinearLeft37(x: bv64, y: bv64)
    ensures Left37(x) ^ Left37(y) == Left37(x ^ y)
  {
  }

  lemma NothingLeft37(x: bv64)
    requires x == Left37(x)
    ensures x == 0
  {
  }

  lemma MovesRight43()
    ensures Moves(Right43)
  {
    forall x, y
      ensures Right43(x) ^ Right43(y) == Right43(x ^ y)
    {
      LinearRight43(x, y);
    }
    forall x | x == Right43(x)
      ensures x == 0
    {
      NothingRight43(x);
    }
  }

  lemma LinearRight43(x: bv64, y: bv64)
    ensures Right43(x) ^ Right43(y) == Right43(x ^ y)
  {
  }

  lemma NothingRight43(x: bv64)
    requires x == Right43(x)
    ensures x == 0
  {
  }

  lemma Temper32Tells(a: bv64, b: bv64)
    requires Temper32(a) == Temper32(b)
    ensures a == b
  {
    MovesRight11();
    MovesLeft7();
    MovesLeft15();
    MovesRight18();
    UndoneFour(Right11, Left7, Left15, Right18, a, b);
  }

  lemma Temper64Tells(a: bv64, b: bv64)
    requires Temper64(a) == Temper64(b)
    ensures a == b
  {
    MovesRight29();
    MovesLeft17();
    MovesLeft37();
    MovesRight43();
    UndoneFour(Right29, Left17, Left37, Right43, a, b);
  }

  lemma UndoneFour(p: bv64 -> bv64, q: bv64 -> bv64, r: bv64 -> bv64, s: bv64 -> bv64, a: bv64, b: bv64)
    requires Moves(p) && Moves(q) && Moves(r) && Moves(s)
    requires Mixed(s, Mixed(r, Mixed(q, Mixed(p, a)))) == Mixed(s, Mixed(r, Mixed(q, Mixed(p, b))))
    ensures a == b
  {
    Undone(s, Mixed(r, Mixed(q, Mixed(p, a))), Mixed(r, Mixed(q, Mixed(p, b))));
    Undone(r, Mixed(q, Mixed(p, a)), Mixed(q, Mixed(p, b)));
    Undone(q, Mixed(p, a), Mixed(p, b));
    Undone(p, a, b);
  }

  lemma Tells32()
    ensures Tells(Mt19937())
  {
    forall a, b | Temper32(a) == Temper32(b)
      ensures a == b
    {
      Temper32Tells(a, b);
    }
  }

  lemma Tells64()
    ensures Tells(Mt19937b64())
  {
    forall a, b | Temper64(a) == Temper64(b)
      ensures a == b
    {
      Temper64Tells(a, b);
    }
  }

  /** Both generators, whatever they are seeded with: n equal numbers in a row are followed by
      equal numbers for ever. */
  lemma Decided(how: Setup, t: nat, how': Setup, u: nat, k: nat)
    ensures Alike(Mt19937(), StartOf(Mt19937(), how), t, StartOf(Mt19937(), how'), u) ==>
      Output(Mt19937(), StartOf(Mt19937(), how), t + k) == Output(Mt19937(), StartOf(Mt19937(), how'), u + k)
    ensures Alike(Mt19937b64(), StartOf(Mt19937b64(), how), t, StartOf(Mt19937b64(), how'), u) ==>
      Output(Mt19937b64(), StartOf(Mt19937b64(), how), t + k) == Output(Mt19937b64(), StartOf(Mt19937b64(), how'), u + k)
  {
    Sound32();
    Tells32();
    DecidedBy(Mt19937(), how, t, how', u, k);
    Sound64();
    Tells64();
    DecidedBy(Mt19937b64(), how, t, how', u, k);
  }

  lemma DecidedBy(p: Params, how: Setup, t: nat, how': Setup, u: nat, k: nat)
    requires p.Valid() && Sound(p) && Tells(p)
    ensures Alike(p, StartOf(p, how), t, StartOf(p, how'), u) ==>
      Output(p, StartOf(p, how), t + k) == Output(p, StartOf(p, how'), u + k)
  {
    StartInWord(p, how);
    StartInWord(p, how');
    if Alike(p, StartOf(p, how), t, StartOf(p, how'), u) {
      NumbersDecide(p, StartOf(p, how), t, StartOf(p, how'), u, k);
    }
  }
}
