/** Numbers of the two twisters: the first ones after the default seed, what twisting and tempering do
    to every single bit, and a small state set up from a key. */
module TwisterNumbers {
  import opened Arith
  import opened Twister
  import opened TwisterStream

  // ---- the words a seed grows into ----

  /** The next word, of the 64-bit generator or the 32-bit one. */
  function Grow(wide: bool, x: bv64, i: int): bv64 {
    if wide then Grow64(x, i) else Grow32(x, i)
  }

  /** The words from word i - 1 on, up to the one before k. */
  function Chain(wide: bool, x: bv64, i: nat, k: nat): bv64
    decreases k - i
  {
    if i >= k then x else Chain(wide, Grow(wide, x, i), i + 1, k)
  }

  lemma {:induction false} ChainOn(wide: bool, x: bv64, i: nat, j: nat, k: nat)
    requires i <= j <= k
    ensures Chain(wide, x, i, k) == Chain(wide, Chain(wide, x, i, j), j, k)
    decreases j - i
  {
    if i < j {
      ChainOn(wide, Grow(wide, x, i), i + 1, j, k);
    }
  }

  lemma {:induction false} SeededFront(p: Params, seed: bv64, n: nat, i: nat)
    requires i < n
    ensures Seeded(p, seed, n)[i] == Seeded(p, seed, i + 1)[i]
    decreases n
  {
    if i < n - 1 {
      SeededFront(p, seed, n - 1, i);
    }
  }

  function Which(wide: bool): Params {
    if wide then Mt19937b64() else Mt19937()
  }

  predicate Grown(wide: bool, s: seq<bv64>, seed: bv64) {
    |s| == (if wide then 312 else 624) && s[0] == seed && forall i :: 0 <= i < |s| - 1 ==> s[i + 1] == Grow(wide, s[i], i + 1)
  }

  lemma SeededGrown(wide: bool, seed: bv64)
    requires seed & 0xffffffff == seed
    ensures Grown(wide, Seeded(Which(wide), seed, Which(wide).n), seed)
  {
    var p, n := Which(wide), Which(wide).n;
    var s := Seeded(p, seed, n);
    SeededFront(p, seed, n, 0);
    forall i | 0 <= i < n - 1
      ensures s[i + 1] == Grow(wide, s[i], i + 1)
    {
      SeededFront(p, seed, n, i);
      SeededFront(p, seed, n, i + 1);
      SeededFront(p, seed, i + 2, i);
    }
  }

  lemma {:induction false} GrownChain(wide: bool, s: seq<bv64>, seed: bv64, i: nat, k: nat)
    requires Grown(wide, s, seed) && i <= k < |s|
    ensures s[k] == Chain(wide, s[i], i + 1, k + 1)
    decreases k - i
  {
    if i < k {
      GrownChain(wide, s, seed, i + 1, k);
    }
  }

  lemma Wide1()
    ensures Chain(true, 0x1571, 1, 25) == 0xa47f692d8d65996a
  {
    ChainOn(true, 0x1571, 1, 13, 25);
  }

  lemma Wide2()
    ensures Chain(true, 0xa47f692d8d65996a, 25, 49) == 0x2f775d6534bcc86
  {
    ChainOn(true, 0xa47f692d8d65996a, 25, 37, 49);
  }

  lemma Wide3()
    ensures Chain(true, 0x2f775d6534bcc86, 49, 73) == 0x6964ffbb3fac2348
  {
    ChainOn(true, 0x2f775d6534bcc86, 49, 61, 73);
  }

  lemma Wide4()
    ensures Chain(true, 0x6964ffbb3fac2348, 73, 97) == 0x19c09aafaec36123
  {
    ChainOn(true, 0x6964ffbb3fac2348, 73, 85, 97);
  }

  lemma Wide5()
    ensures Chain(true, 0x19c09aafaec36123, 97, 121) == 0x8b1f37b4ededb9a3
  {
    ChainOn(true, 0x19c09aafaec36123, 97, 109, 121);
  }

  lemma Wide6()
    ensures Chain(true, 0x8b1f37b4ededb9a3, 121, 145) == 0xbe9684a2e7e52114
  {
    ChainOn(true, 0x8b1f37b4ededb9a3, 121, 133, 145);
  }

  lemma Wide7()
    ensures Chain(true, 0xbe9684a2e7e52114, 145, 157) == 0x245b1c66fa082bff
  {
  }

  lemma WidePart1()
    ensures Chain(true, 0x1571, 1, 97) == 0x19c09aafaec36123
  {
    Wide1();
    Wide2();
    Wide3();
    Wide4();
    ChainOn(true, 0x1571, 1, 25, 97);
    ChainOn(true, 0xa47f692d8d65996a, 25, 49, 97);
    ChainOn(true, 0x2f775d6534bcc86, 49, 73, 97);
  }

  lemma WidePart2()
    ensures Chain(true, 0x19c09aafaec36123, 97, 157) == 0x245b1c66fa082bff
  {
    Wide5();
    Wide6();
    Wide7();
    ChainOn(true, 0x19c09aafaec36123, 97, 121, 157);
    ChainOn(true, 0x8b1f37b4ededb9a3, 121, 145, 157);
  }

  /** Word 156 of the default seed. */
  lemma WideReached()
    ensures Chain(true, 0x1571, 1, 157) == 0x245b1c66fa082bff
  {
    WidePart1();
    WidePart2();
    ChainOn(true, 0x1571, 1, 97, 157);
  }

  lemma Narrow1()
    ensures Chain(false, 0x1571, 1, 25) == 0x67592d74
  {
    ChainOn(false, 0x1571, 1, 13, 25);
  }

  lemma Narrow2()
    ensures Chain(false, 0x67592d74, 25, 49) == 0x2ed7955d
  {
    ChainOn(false, 0x67592d74, 25, 37, 49);
  }

  lemma Narrow3()
    ensures Chain(false, 0x2ed7955d, 49, 73) == 0xd6c6a90b
  {
    ChainOn(false, 0x2ed7955d, 49, 61, 73);
  }

  lemma Narrow4()
    ensures Chain(false, 0xd6c6a90b, 73, 97) == 0xf64bfdad
  {
    ChainOn(false, 0xd6c6a90b, 73, 85, 97);
  }

  lemma Narrow5()
    ensures Chain(false, 0xf64bfdad, 97, 121) == 0x952ce170
  {
    ChainOn(false, 0xf64bfdad, 97, 109, 121);
  }

  lemma Narrow6()
    ensures Chain(false, 0x952ce170, 121, 145) == 0xc69e6905
  {
    ChainOn(false, 0x952ce170, 121, 133, 145);
  }

  lemma Narrow7()
    ensures Chain(false, 0xc69e6905, 145, 169) == 0x99631e2a
  {
    ChainOn(false, 0xc69e6905, 145, 157, 169);
  }

  lemma Narrow8()
    ensures Chain(false, 0x99631e2a, 169, 193) == 0x1f4e0eb7
  {
    ChainOn(false, 0x99631e2a, 169, 181, 193);
  }

  lemma Narrow9()
    ensures Chain(false, 0x1f4e0eb7, 193, 217) == 0x1576ca8
  {
    ChainOn(false, 0x1f4e0eb7, 193, 205, 217);
  }

  lemma Narrow10()
    ensures Chain(false, 0x1576ca8, 217, 241) == 0x640a6776
  {
    ChainOn(false, 0x1576ca8, 217, 229, 241);
  }

  lemma Narrow11()
    ensures Chain(false, 0x640a6776, 241, 265) == 0xcff638af
  {
    ChainOn(false, 0x640a6776, 241, 253, 265);
  }

  lemma Narrow12()
    ensures Chain(false, 0xcff638af, 265, 289) == 0x41de3260
  {
    ChainOn(false, 0xcff638af, 265, 277, 289);
  }

  lemma Narrow13()
    ensures Chain(false, 0x41de3260, 289, 313) == 0x9b249590
  {
    ChainOn(false, 0x41de3260, 289, 301, 313);
  }

  lemma Narrow14()
    ensures Chain(false, 0x9b249590, 313, 337) == 0xa5bff64a
  {
    ChainOn(false, 0x9b249590, 313, 325, 337);
  }

  lemma Narrow15()
    ensures Chain(false, 0xa5bff64a, 337, 361) == 0xfc9e03a5
  {
    ChainOn(false, 0xa5bff64a, 337, 349, 361);
  }

  lemma Narrow16()
    ensures Chain(false, 0xfc9e03a5, 361, 385) == 0xab8c4fde
  {
    ChainOn(false, 0xfc9e03a5, 361, 373, 385);
  }

  lemma Narrow17()
    ensures Chain(false, 0xab8c4fde, 385, 398) == 0xbdc68d6c
  {
    ChainOn(false, 0xab8c4fde, 385, 397, 398);
  }

  lemma NarrowPart1()
    ensures Chain(false, 0x1571, 1, 97) == 0xf64bfdad
  {
    Narrow1();
    Narrow2();
    Narrow3();
    Narrow4();
    ChainOn(false, 0x1571, 1, 25, 97);
    ChainOn(false, 0x67592d74, 25, 49, 97);
    ChainOn(false, 0x2ed7955d, 49, 73, 97);
  }

  lemma NarrowPart2()
    ensures Chain(false, 0xf64bfdad, 97, 193) == 0x1f4e0eb7
  {
    Narrow5();
    Narrow6();
    Narrow7();
    Narrow8();
    ChainOn(false, 0xf64bfdad, 97, 121, 193);
    ChainOn(false, 0x952ce170, 121, 145, 193);
    ChainOn(false, 0xc69e6905, 145, 169, 193);
  }

  lemma NarrowPart3()
    ensures Chain(false, 0x1f4e0eb7, 193, 289) == 0x41de3260
  {
    Narrow9();
    Narrow10();
    Narrow11();
    Narrow12();
    ChainOn(false, 0x1f4e0eb7, 193, 217, 289);
    ChainOn(false, 0x1576ca8, 217, 241, 289);
    ChainOn(false, 0x640a6776, 241, 265, 289);
  }

  lemma NarrowPart4()
    ensures Chain(false, 0x41de3260, 289, 385) == 0xab8c4fde
  {
    Narrow13();
    Narrow14();
    Narrow15();
    Narrow16();
    ChainOn(false, 0x41de3260, 289, 313, 385);
    ChainOn(false, 0x9b249590, 313, 337, 385);
    ChainOn(false, 0xa5bff64a, 337, 361, 385);
  }

  /** Word 397 of the default seed. */
  lemma NarrowReached()
    ensures Chain(false, 0x1571, 1, 398) == 0xbdc68d6c
  {
    NarrowPart1();
    NarrowPart2();
    NarrowPart3();
    NarrowPart4();
    Narrow17();
    ChainOn(false, 0x1571, 1, 97, 398);
    ChainOn(false, 0xf64bfdad, 97, 193, 398);
    ChainOn(false, 0x1f4e0eb7, 193, 289, 398);
    ChainOn(false, 0x41de3260, 289, 385, 398);
  }

  /** The words of the default seed that the numbers below depend on. */
  lemma WideWords(s: seq<bv64>)
    requires Grown(true, s, 5489)
    ensures s[1] == 0xb5347f47116bd3de && s[2] == 0x9165b5762d1a61ae && s[3] == 0xd139b6bbed337f3f
    ensures s[156] == 0x245b1c66fa082bff && s[157] == 0x252cfc850ae3d70 && s[158] == 0x16cd2293a14b5d4e
  {
    WideReached();
    GrownChain(true, s, 5489, 0, 156);
    assert s[0 + 1] == Grow(true, s[0], 0 + 1) && s[1 + 1] == Grow(true, s[1], 1 + 1) && s[2 + 1] == Grow(true, s[2], 2 + 1);
    assert s[156 + 1] == Grow(true, s[156], 156 + 1) && s[157 + 1] == Grow(true, s[157], 157 + 1);
    WideSteps();
  }

  lemma WideSteps()
    ensures Grow64(5489, 1) == 0xb5347f47116bd3de && Grow64(0xb5347f47116bd3de, 2) == 0x9165b5762d1a61ae && Grow64(0x9165b5762d1a61ae, 3) == 0xd139b6bbed337f3f
    ensures Grow64(0x245b1c66fa082bff, 157) == 0x252cfc850ae3d70 && Grow64(0x252cfc850ae3d70, 158) == 0x16cd2293a14b5d4e
  {
  }

  lemma NarrowWords(s: seq<bv64>)
    requires Grown(false, s, 5489)
    ensures s[1] == 0x4d98ee96 && s[2] == 0xaf25f095 && s[397] == 0xbdc68d6c && s[398] == 0x6707abf4
  {
    NarrowReached();
    GrownChain(false, s, 5489, 0, 397);
    assert s[0 + 1] == Grow(false, s[0], 0 + 1) && s[1 + 1] == Grow(false, s[1], 1 + 1);
    assert s[397 + 1] == Grow(false, s[397], 397 + 1);
    NarrowSteps();
  }

  lemma NarrowSteps()
    ensures Grow32(5489, 1) == 0x4d98ee96 && Grow32(0x4d98ee96, 2) == 0xaf25f095 && Grow32(0xbdc68d6c, 398) == 0x6707abf4
  {
  }

  // ---- the first numbers ----

  lemma FirstTwists()
    ensures Next64(0x245b1c66fa082bff, 5489, 0xb5347f47116bd3de) == 0x245b1c66f2bdc210
    ensures Next64(0x252cfc850ae3d70, 0xb5347f47116bd3de, 0x9165b5762d1a61ae) == 0x58c8f06bc6230da7
    ensures Next32(0xbdc68d6c, 5489, 0x4d98ee96) == 0x9b0afa27 && Next32(0x6707abf4, 0x4d98ee96, 0xaf25f095) == 0xe99de361
  {
  }

  lemma FirstTempers()
    ensures Temper64(0x245b1c66f2bdc210) == 14514284786278117030 && Temper64(0x58c8f06bc6230da7) == 4620546740167642908
    ensures Temper32(0x9b0afa27) == 3499211612 && Temper32(0xe99de361) == 581869302
  {
  }

  /** The first two numbers after the default seed. */
  lemma FirstNumbers(wide: bool, s: seq<bv64>)
    requires Grown(wide, s, 5489)
    ensures Output(Which(wide), s, 0) == if wide then 14514284786278117030 else 3499211612
    ensures Output(Which(wide), s, 1) == if wide then 4620546740167642908 else 581869302
  {
    var p := Which(wide);
    FirstTwists();
    FirstTempers();
    NextWord(p, s, 0);
    NextWord(p, s, 1);
    if wide {
      WideWords(s);
    } else {
      NarrowWords(s);
    }
  }

  method DrawTwo(p: Params, batches: bool) returns (a: bv64, b: bv64)
    requires p.Valid()
    ensures a == Output(p, Seeded(p, 5489, p.n), 0) && b == Output(p, Seeded(p, 5489, p.n), 1)
  {
    var g := Fresh(p, Default);
    if batches {
      a := g.Int();
      b := g.Int();
    } else {
      a := g.IntB();
      b := g.IntB();
    }
  }

  /** Drawn from a generator nobody has seeded, by batches or by single words. */
  method DrawFirst(wide: bool, batches: bool) returns (a: bv64, b: bv64)
    ensures a == (if wide then 14514284786278117030 else 3499211612) && b == (if wide then 4620546740167642908 else 581869302)
  {
    a, b := DrawTwo(Which(wide), batches);
    SeededGrown(wide, 5489);
    FirstNumbers(wide, Seeded(Which(wide), 5489, Which(wide).n));
  }

  // ---- bit by bit ----

  // The far word is taken as it is; of the other two the highest bits of the first and the low bits of
  // the second move down a place, and the lowest bit brings in a constant.

  lemma TwistFar(f: bv64)
    ensures Next32(f, 0, 0) == Next64(f, 0, 0) == f
  {
  }

  lemma TwistHigh32(k: nat)
    requires k < 64
    ensures Next32(0, 1 << k, 0) == if k == 31 then 1 << 30 else 0
  {
  }

  lemma TwistHigh64(k: nat)
    requires k < 64
    ensures Next64(0, 1 << k, 0) == if k >= 31 then 1 << (k - 1) else 0
  {
  }

  lemma TwistLow32(k: nat)
    requires k < 64
    ensures Next32(0, 0, 1 << k) == if k == 0 then 0x9908b0df else if k < 31 then 1 << (k - 1) else 0
  {
  }

  lemma TwistLow64(k: nat)
    requires k < 64
    ensures Next64(0, 0, 1 << k) == if k == 0 then 0xb5026f5aa96619e9 else if k < 31 then 1 << (k - 1) else 0
  {
  }

  lemma Temper32Bits1()
    ensures Temper32(0x1) == 0x400091
    ensures Temper32(0x2) == 0x2
    ensures Temper32(0x4) == 0x1020244
    ensures Temper32(0x8) == 0x2040489
    ensures Temper32(0x10) == 0x10
    ensures Temper32(0x20) == 0x8001220
    ensures Temper32(0x40) == 0x40
    ensures Temper32(0x80) == 0x20404890
    ensures Temper32(0x100) == 0x800120
    ensures Temper32(0x200) == 0x1000240
    ensures Temper32(0x400) == 0x2000480
    ensures Temper32(0x800) == 0x4440990
    ensures Temper32(0x1000) == 0x8081200
    ensures Temper32(0x2000) == 0x1022244
    ensures Temper32(0x4000) == 0x22244c81
    ensures Temper32(0x8000) == 0x40009010
  {
  }

  lemma Temper32Bits2()
    ensures Temper32(0x10000) == 0x88013220
    ensures Temper32(0x20000) == 0x1020000
    ensures Temper32(0x40000) == 0x20444891
    ensures Temper32(0x80000) == 0x4880022
    ensures Temper32(0x100000) == 0x9100044
    ensures Temper32(0x200000) == 0x12200088
    ensures Temper32(0x400000) == 0x4440911
    ensures Temper32(0x800000) == 0x8881222
    ensures Temper32(0x1000000) == 0x81000040
    ensures Temper32(0x2000000) == 0x22204888
    ensures Temper32(0x4000000) == 0x44009100
    ensures Temper32(0x8000000) == 0x88012200
    ensures Temper32(0x10000000) == 0x11020440
    ensures Temper32(0x20000000) == 0x20040801
    ensures Temper32(0x40000000) == 0x44081102
    ensures Temper32(0x80000000) == 0x88102204
  {
  }

  lemma Temper64Bits1()
    ensures Temper64(0x1) == 0x40002000020801
    ensures Temper64(0x2) == 0x80004000041002
    ensures Temper64(0x4) == 0x8000000004
    ensures Temper64(0x8) == 0x8
    ensures Temper64(0x10) == 0x400020000208010
    ensures Temper64(0x20) == 0x40000000020
    ensures Temper64(0x40) == 0x1000080000820041
    ensures Temper64(0x80) == 0x2000000001040080
    ensures Temper64(0x100) == 0x200000000104
    ensures Temper64(0x200) == 0x8000400004100208
    ensures Temper64(0x400) == 0x800008000410
    ensures Temper64(0x800) == 0x1000000000820
    ensures Temper64(0x1000) == 0x2000020001040
    ensures Temper64(0x2000) == 0x4000040002080
    ensures Temper64(0x4000) == 0x80004000
    ensures Temper64(0x8000) == 0x10000100008200
  {
  }

  lemma Temper64Bits2()
    ensures Temper64(0x10000) == 0x20000200010400
    ensures Temper64(0x20000) == 0x40000400020800
    ensures Temper64(0x40000) == 0x80000800041000
    ensures Temper64(0x80000) == 0x100001000082000
    ensures Temper64(0x100000) == 0x200002000104000
    ensures Temper64(0x200000) == 0x400004000208000
    ensures Temper64(0x400000) == 0x800008000410000
    ensures Temper64(0x800000) == 0x1000010000820000
    ensures Temper64(0x1000000) == 0x2000020001040000
    ensures Temper64(0x2000000) == 0x4000040002080000
    ensures Temper64(0x4000000) == 0x8000080004100001
    ensures Temper64(0x8000000) == 0x100008000002
    ensures Temper64(0x10000000) == 0x200010000004
    ensures Temper64(0x20000000) == 0x40402020020809
    ensures Temper64(0x40000000) == 0x40000000
    ensures Temper64(0x80000000) == 0x8080000004
  {
  }

  lemma Temper64Bits3()
    ensures Temper64(0x100000000) == 0x2000100000040
    ensures Temper64(0x200000000) == 0x404020200208090
    ensures Temper64(0x400000000) == 0x400000000
    ensures Temper64(0x800000000) == 0x1010080800820241
    ensures Temper64(0x1000000000) == 0x1000000000
    ensures Temper64(0x2000000000) == 0x40202000000904
    ensures Temper64(0x4000000000) == 0x80004000001000
    ensures Temper64(0x8000000000) == 0x100808008002410
    ensures Temper64(0x10000000000) == 0x10000000000
    ensures Temper64(0x20000000000) == 0x2020020001040
    ensures Temper64(0x40000000000) == 0x40000000000
    ensures Temper64(0x80000000000) == 0x1000080080024001
    ensures Temper64(0x100000000000) == 0x2000100000040002
    ensures Temper64(0x200000000000) == 0x4020200200090404
    ensures Temper64(0x400000000000) == 0x400000000008
    ensures Temper64(0x800000000000) == 0x80800800041010
  {
  }

  lemma Temper64Bits4()
    ensures Temper64(0x1000000000000) == 0x1000000000020
    ensures Temper64(0x2000000000000) == 0x202002000104040
    ensures Temper64(0x4000000000000) == 0x4000000000080
    ensures Temper64(0x8000000000000) == 0x808008000410100
    ensures Temper64(0x10000000000000) == 0x10000000000200
    ensures Temper64(0x20000000000000) == 0x2020020001040400
    ensures Temper64(0x40000000000000) == 0x40000000000800
    ensures Temper64(0x80000000000000) == 0x8080080004101001
    ensures Temper64(0x100000000000000) == 0x100000000002000
    ensures Temper64(0x200000000000000) == 0x200200010004004
    ensures Temper64(0x400000000000000) == 0x400000000008000
    ensures Temper64(0x800000000000000) == 0x800000040010000
    ensures Temper64(0x1000000000000000) == 0x1000000000020000
    ensures Temper64(0x2000000000000000) == 0x2002000100040040
    ensures Temper64(0x4000000000000000) == 0x4000000000080000
    ensures Temper64(0x8000000000000000) == 0x8000000400100000
  {
  }

  // ---- a key ----

  /** A generator with three words, otherwise as it is. */
  function Small(wide: bool): Params {
    Which(wide).(n := 3, m := 2, wrap := 3)
  }

  lemma SeededThree(p: Params, a: bv64, b: bv64, c: bv64)
    requires p.Valid() && p.n == 3 && a == p.cut(ARRAY_SEED) && b == p.grow(a, 1) && c == p.grow(b, 2)
    ensures Seeded(p, ARRAY_SEED, 3) == [a, b, c]
  {
    assert Seeded(p, ARRAY_SEED, 1) == [a] && Seeded(p, ARRAY_SEED, 2) == [a, b];
  }

  lemma AbsorbedFour(p: Params, s: seq<bv64>, key: seq<bv64>, w: bv64, x: bv64, y: bv64, z: bv64)
    requires p.Valid() && p.n == |s| == 3 && |key| == 4
    requires w == p.absorb(s[1], s[0], key[0], 0) && x == p.absorb(s[2], w, key[1], 1)
    requires y == p.absorb(w, x, key[2], 2) && z == p.absorb(x, y, key[3], 3)
    ensures Absorbed(p, s, key, 4) == [z, y, z]
  {
    assert Absorbed(p, s, key, 0) == s && Absorbed(p, s, key, 1) == [s[0], w, s[2]];
    assert Absorbed(p, s, key, 2) == [x, w, x] && Absorbed(p, s, key, 3) == [x, y, x];
  }

  lemma StirredThree(p: Params, s: seq<bv64>, x: bv64, y: bv64, z: bv64)
    requires p.Valid() && p.n == |s| == 3
    requires x == p.stir(s[1], s[0], 1) && y == p.stir(s[2], x, 2) && z == p.stir(x, y, 1)
    ensures Stirred(p, s, 4, 3) == [y, z, y]
  {
    assert Stirred(p, s, 4, 0) == s && Stirred(p, s, 4, 1) == [s[0], x, s[2]] && Stirred(p, s, 4, 2) == [y, x, y];
  }

  lemma NarrowValues()
    ensures Cut32(19650218) == 0x12bd6aa && Grow32(0x12bd6aa, 1) == 0x82d2ab13 && Grow32(0x82d2ab13, 2) == 0x342096b7
    ensures Absorb32(0x82d2ab13, 0x12bd6aa, 0x123, 0) == 0xff890ad4
    ensures Absorb32(0x342096b7, 0xff890ad4, 0x234, 1) == 0x9766a291
    ensures Absorb32(0xff890ad4, 0x9766a291, 0x345, 2) == 0x8adedcea
    ensures Absorb32(0x9766a291, 0x8adedcea, 0x456, 3) == 0xfc9b09b2
    ensures Stir32(0x8adedcea, 0xfc9b09b2, 1) == 0xf39b313e
    ensures Stir32(0xfc9b09b2, 0xf39b313e, 2) == 0x897585a1
    ensures Stir32(0xf39b313e, 0x897585a1, 1) == 0xc26e0b70
  {
  }

  /** What init_by_array makes of three words and a key of four. */
  lemma NarrowKeyed(key: seq<bv64>)
    requires key == [0x123, 0x234, 0x345, 0x456]
    ensures Keyed(Small(false), key) == [0x80000000, 0xc26e0b70, 0x897585a1]
  {
    var p := Small(false);
    NarrowValues();
    SeededThree(p, 0x12bd6aa, 0x82d2ab13, 0x342096b7);
    AbsorbedFour(p, [0x12bd6aa, 0x82d2ab13, 0x342096b7], key, 0xff890ad4, 0x9766a291, 0x8adedcea, 0xfc9b09b2);
    StirredThree(p, [0xfc9b09b2, 0x8adedcea, 0xfc9b09b2], 0xf39b313e, 0x897585a1, 0xc26e0b70);
  }

  lemma WideValues()
    ensures Cut64(19650218) == 0x12bd6aa && Grow64(0x12bd6aa, 1) == 0x597276b55d2511e3 && Grow64(0x597276b55d2511e3, 2) == 0x7e4a9bb343ed42bc
    ensures Absorb64(0x597276b55d2511e3, 0x12bd6aa, 0x123, 0) == 0xff376b2d16094ed4
    ensures Absorb64(0x7e4a9bb343ed42bc, 0xff376b2d16094ed4, 0x234, 1) == 0xea27c3bf7229e44
    ensures Absorb64(0xff376b2d16094ed4, 0xea27c3bf7229e44, 0x345, 2) == 0x5461cfa2f9cbbec7
    ensures Absorb64(0xea27c3bf7229e44, 0x5461cfa2f9cbbec7, 0x456, 3) == 0x9f2658af31484cf3
    ensures Stir64(0x5461cfa2f9cbbec7, 0x9f2658af31484cf3, 1) == 0x654148719fc204e9
    ensures Stir64(0x9f2658af31484cf3, 0x654148719fc204e9, 2) == 0x607fac26ccd615b9
    ensures Stir64(0x654148719fc204e9, 0x607fac26ccd615b9, 1) == 0x3fa1536f0ac3f230
  {
  }

  lemma WideKeyed(key: seq<bv64>)
    requires key == [0x123, 0x234, 0x345, 0x456]
    ensures Keyed(Small(true), key) == [0x8000000000000000, 0x3fa1536f0ac3f230, 0x607fac26ccd615b9]
  {
    var p := Small(true);
    WideValues();
    SeededThree(p, 0x12bd6aa, 0x597276b55d2511e3, 0x7e4a9bb343ed42bc);
    AbsorbedFour(p, [0x12bd6aa, 0x597276b55d2511e3, 0x7e4a9bb343ed42bc], key, 0xff376b2d16094ed4, 0xea27c3bf7229e44, 0x5461cfa2f9cbbec7, 0x9f2658af31484cf3);
    StirredThree(p, [0x9f2658af31484cf3, 0x5461cfa2f9cbbec7, 0x9f2658af31484cf3], 0x654148719fc204e9, 0x607fac26ccd615b9, 0x3fa1536f0ac3f230);
  }
}
