/** The Mersenne Twisters of src/math/tb/mt19937.py and src/math/tb/mt19937_64.py. The two
    classes differ in their constants and word functions alone, so one class models both;
    each produces its numbers in batches or one word at a time, in place. */
module Twister {
  import opened Arith
  import opened Base

  /** Sizes and word functions of one generator. */
  datatype Params = Params(
    n: nat,
    m: nat,
    /** what the second half of the batch loop subtracts from k + m */
    wrap: nat,
    /** the bits of a word taken from its predecessor, and those of its own */
    upper: bv64,
    lower: bv64,
    cut: bv64 -> bv64,
    grow: (bv64, int) -> bv64,
    absorb: (bv64, bv64, bv64, int) -> bv64,
    stir: (bv64, bv64, int) -> bv64,
    top: bv64,
    next: (bv64, bv64, bv64) -> bv64,
    temper: bv64 -> bv64
  ) {
    predicate Valid() {
      2 <= m < n && (wrap == n || wrap == 2 * n)
    }
  }

  /** A Python list index: negative ones count from the end. */
  function PyIndex(i: int, n: nat): int {
    if i < 0 then i + n else i
  }

  // ---- specification ----

  /** Word t of the infinite sequence that starts with the words s. */
  function X(p: Params, s: seq<bv64>, t: nat): bv64
    requires p.Valid() && |s| == p.n
  {
    if t < p.n then s[t]
    else p.next(X(p, s, t - p.n + p.m), X(p, s, t - p.n), X(p, s, t - p.n + 1))
  }

  /** Output t of a generator that starts with the words s. */
  function Output(p: Params, s: seq<bv64>, t: nat): bv64
    requires p.Valid() && |s| == p.n
  {
    p.temper(X(p, s, p.n + t))
  }

  /** The words seed leaves, up to word n. */
  function Seeded(p: Params, seed: bv64, n: nat): (s: seq<bv64>)
    ensures |s| == n
  {
    if n == 0 then []
    else if n == 1 then [p.cut(seed)]
    else Seeded(p, seed, n - 1) + [p.grow(Seeded(p, seed, n - 1)[n - 2], n - 1)]
  }

  /** Word i written; the last word is copied to the front when it is reached. */
  function Put(s: seq<bv64>, i: nat, x: bv64): (r: seq<bv64>)
    requires 1 <= i < |s|
    ensures |r| == |s|
  {
    if i == |s| - 1 then s[i := x][0 := x] else s[i := x]
  }

  /** Where round k of the init_by_array loops works: words 1 to n - 1 in turn. */
  function Place(p: Params, k: nat): (i: nat)
    requires p.Valid()
    ensures 1 <= i < p.n
  {
    1 + k % (p.n - 1)
  }

  /** The word of the key that round k takes. */
  function KeyPlace(key: seq<bv64>, k: nat): (j: nat)
    requires key != []
    ensures j < |key|
  {
    k % |key|
  }

  function Absorbed(p: Params, s: seq<bv64>, key: seq<bv64>, k: nat): (r: seq<bv64>)
    requires p.Valid() && |s| == p.n && key != []
    ensures |r| == p.n
  {
    if k == 0 then s
    else
      var r := Absorbed(p, s, key, k - 1);
      var i, j := Place(p, k - 1), KeyPlace(key, k - 1);
      Put(r, i, p.absorb(r[i], r[i - 1], key[j], j))
  }

  function Stirred(p: Params, s: seq<bv64>, from: nat, k: nat): (r: seq<bv64>)
    requires p.Valid() && |s| == p.n
    ensures |r| == p.n
  {
    if k == 0 then s
    else
      var r := Stirred(p, s, from, k - 1);
      var i := Place(p, from + k - 1);
      Put(r, i, p.stir(r[i], r[i - 1], i))
  }

  const ARRAY_SEED: bv64 := 19650218
  const DEFAULT_SEED: bv64 := 5489

  function Keyed(p: Params, key: seq<bv64>): (s: seq<bv64>)
    requires p.Valid() && key != []
    ensures |s| == p.n && s[0] == p.top
  {
    var rounds := Max(p.n, |key|);
    Stirred(p, Absorbed(p, Seeded(p, ARRAY_SEED, p.n), key, rounds), rounds, p.n)[0 := p.top]
  }

  /** The next round's place, as the loops step to it. */
  lemma PlaceSteps(p: Params, k: nat)
    requires p.Valid()
    ensures Place(p, k + 1) == if Place(p, k) + 1 >= p.n then 1 else Place(p, k) + 1
  {
    NextMod(k, p.n - 1);
  }

  lemma NextMod(k: nat, d: nat)
    requires d > 0
    ensures (k + 1) % d == if k % d + 1 >= d then 0 else k % d + 1
  {
    var q, r := k / d, k % d;
    assert k == d * q + r;
    if r + 1 >= d {
      assert k + 1 == d * (q + 1);
      DivUnique(k + 1, d, q + 1, 0);
    } else {
      DivUnique(k + 1, d, q, r + 1);
    }
  }

  datatype Error = IndexError

  /** Of the words, those before k are one batch on. */
  ghost predicate Mixture(p: Params, s: seq<bv64>, words: seq<bv64>, base: nat, k: nat)
    requires p.Valid() && |s| == |words| == p.n && k <= p.n
  {
    && (forall j :: 0 <= j < k ==> words[j] == X(p, s, base + p.n + j))
    && (forall j :: k <= j < p.n ==> words[j] == X(p, s, base + j))
  }

  function Around(p: Params, i: nat): nat
    requires i < 2 * p.n
  {
    if i < p.n then i else i - p.n
  }

  /** What word k becomes when it is twisted in place. */
  function Twisted(p: Params, words: seq<bv64>, k: nat): bv64
    requires p.Valid() && |words| == p.n && k < p.n
  {
    p.next(words[Around(p, k + p.m)], words[k], words[Around(p, k + 1)])
  }

  /** The new word k, from words of which some are one batch on. */
  lemma NewWord(p: Params, s: seq<bv64>, words: seq<bv64>, base: nat, k: nat)
    requires p.Valid() && |s| == |words| == p.n && k < p.n && Mixture(p, s, words, base, k)
    ensures Twisted(p, words, k) == X(p, s, base + p.n + k)
  {
    var t := base + p.n + k;
    assert t - p.n + p.m == base + (k + p.m) && t - p.n == base + k && t - p.n + 1 == base + (k + 1);
    MixtureAt(p, s, words, base, k, k + p.m);
    MixtureAt(p, s, words, base, k, k + 1);
  }

  lemma MixtureAt(p: Params, s: seq<bv64>, words: seq<bv64>, base: nat, k: nat, i: nat)
    requires p.Valid() && |s| == |words| == p.n && k < i < p.n + k && k < p.n && Mixture(p, s, words, base, k)
    ensures words[Around(p, i)] == X(p, s, base + i)
  {
    if i >= p.n {
      assert base + p.n + (i - p.n) == base + i;
    }
  }

  lemma TwistedNext(p: Params, s: seq<bv64>, words: seq<bv64>, base: nat, k: nat)
    requires p.Valid() && |s| == |words| == p.n && k < p.n && Mixture(p, s, words, base, k)
    ensures Mixture(p, s, words[k := Twisted(p, words, k)], base, k + 1)
  {
    NewWord(p, s, words, base, k);
    MixtureNext(p, s, words, base, k);
  }

  lemma MixtureNext(p: Params, s: seq<bv64>, words: seq<bv64>, base: nat, k: nat)
    requires p.Valid() && |s| == |words| == p.n && k < p.n && Mixture(p, s, words, base, k)
    ensures Mixture(p, s, words[k := X(p, s, base + p.n + k)], base, k + 1)
  {
  }

  /** A batch on, all words are those of the next batch. */
  lemma NextBatch(p: Params, s: seq<bv64>, words: seq<bv64>, base: nat)
    requires p.Valid() && |s| == |words| == p.n && Mixture(p, s, words, base, p.n)
    ensures Mixture(p, s, words, base + p.n, 0)
  {
  }

  class Generator {
    const p: Params
    const mt: array<bv64>
    var mti: nat

    /** The words last seeded, and how many numbers have been drawn since. */
    ghost var start: seq<bv64>
    ghost var drawn: nat

    constructor (params: Params)
      requires params.Valid()
      ensures Valid() && p == params && mti == p.n + 1 && fresh(this) && fresh(mt)
    {
      p := params;
      mt := new bv64[params.n](i => 0);
      mti := params.n + 1;
      start := seq(params.n, i => 0);
      drawn := 0;
    }

    ghost predicate Valid()
      reads this
    {
      p.Valid() && mt.Length == p.n && |start| == p.n && mti <= p.n + 1
    }

    /** Word k of the array is word base + k of the sequence, or the same one batch on. */
    ghost predicate Between(base: nat, k: nat)
      requires Valid() && k <= p.n
      reads this, mt
    {
      Mixture(p, start, mt[..], base, k)
    }

    /** All words belong to one batch. */
    ghost predicate Batched()
      requires Valid()
      reads this, mt
    {
      mti <= p.n ==> forall j :: 0 <= j < p.n ==> mt[j] == X(p, start, drawn + p.n - mti + j)
    }

    /** The words before mti are one batch ahead of the others. */
    ghost predicate Stepped()
      requires Valid()
      reads this, mt
    {
      && (mti < p.n ==> mti <= drawn && Between(drawn - mti, mti))
      && (mti == p.n ==> Between(drawn, 0))
    }

    method Seed(seed: bv64)
      requires Valid()
      modifies this, mt
      ensures Valid() && Batched() && Stepped()
      ensures start == mt[..] == Seeded(p, seed, p.n) && drawn == 0 && mti == p.n
    {
      mt[0] := p.cut(seed);
      for i := 1 to p.n
        invariant Valid() && mt[..i] == Seeded(p, seed, i)
      {
        mt[i] := p.grow(mt[i - 1], i);
      }
      mti := p.n;
      Rebase();
    }

    /** mt[i] = x and on to the next place. */
    method Write(i: nat, x: bv64) returns (next: nat)
      requires Valid() && 1 <= i < p.n
      modifies mt
      ensures mt[..] == Put(old(mt[..]), i, x)
      ensures next == if i + 1 >= p.n then 1 else i + 1
    {
      mt[i] := x;
      next := i + 1;
      if next >= p.n {
        mt[0] := mt[p.n - 1];
        next := 1;
      }
    }

    method Absorb(key: seq<bv64>, rounds: nat) returns (i: nat)
      requires Valid() && key != []
      modifies mt
      ensures mt[..] == Absorbed(p, old(mt[..]), key, rounds) && i == Place(p, rounds) && 1 <= i < p.n
    {
      i := 1;
      var j := 0;
      DivUnique(0, |key|, 0, 0);
      DivUnique(0, p.n - 1, 0, 0);
      for k := 0 to rounds
        invariant i == Place(p, k) && j == KeyPlace(key, k) && 1 <= i < p.n && 0 <= j < |key|
        invariant mt[..] == Absorbed(p, old(mt[..]), key, k)
      {
        PlaceSteps(p, k);
        NextMod(k, |key|);
        i := Write(i, p.absorb(mt[i], mt[i - 1], key[j], j));
        j := j + 1;
        if j >= |key| {
          j := 0;
        }
      }
    }

    method Stir(from: nat, first: nat)
      requires Valid() && first == Place(p, from) && 1 <= first < p.n
      modifies mt
      ensures mt[..] == Stirred(p, old(mt[..]), from, p.n)
    {
      var i := first;
      for k := 0 to p.n
        invariant i == Place(p, from + k) && 1 <= i < p.n
        invariant mt[..] == Stirred(p, old(mt[..]), from, k)
      {
        PlaceSteps(p, from + k);
        i := Write(i, p.stir(mt[i], mt[i - 1], i));
      }
    }

    /** An empty key fails on its first word, with the seed already set. */
    method InitByArray(key: seq<bv64>) returns (r: Result<(), Error>)
      requires Valid()
      modifies this, mt
      ensures Valid() && Batched() && Stepped() && drawn == 0 && mti == p.n
      ensures r == if key == [] then Raised(IndexError) else Ok(())
      ensures start == if key == [] then Seeded(p, ARRAY_SEED, p.n) else Keyed(p, key)
    {
      Seed(ARRAY_SEED);
      if key == [] {
        return Raised(IndexError);
      }
      Mix(key);
      Rebase();
      return Ok(());
    }

    /** The two loops of init_by_array. */
    method Mix(key: seq<bv64>)
      requires Valid() && key != [] && mt[..] == Seeded(p, ARRAY_SEED, p.n)
      modifies mt
      ensures mt[..] == Keyed(p, key)
    {
      var rounds := Max(p.n, |key|);
      var i := Absorb(key, rounds);
      Stir(rounds, i);
      mt[0] := p.top;
    }

    /** The words as they are start a new sequence. */
    ghost method Rebase()
      requires Valid() && mti == p.n
      modifies this`start, this`drawn
      ensures Valid() && Batched() && Stepped() && drawn == 0 && start == mt[..]
    {
      start := mt[..];
      drawn := 0;
    }

    /** Word k twisted in place, as the batch loop and the incremental step do it. */
    method Twist(k: nat, ghost base: nat)
      requires Valid() && k < p.n
      modifies mt
      ensures mt[..] == old(mt[..])[k := Twisted(p, old(mt[..]), k)]
      ensures old(Between(base, k)) ==> Between(base, k + 1)
    {
      ghost var words := mt[..];
      if Between(base, k) {
        TwistedNext(p, start, words, base, k);
      }
      if k == p.n - 1 {
        mt[p.n - 1] := p.next(mt[p.m - 1], mt[p.n - 1], mt[0]);
      } else if k < p.n - p.m {
        mt[k] := p.next(mt[k + p.m], mt[k], mt[k + 1]);
      } else {
        mt[k] := p.next(mt[PyIndex(k + p.m - p.wrap, p.n)], mt[k], mt[k + 1]);
      }
      assert mt[..] == words[k := Twisted(p, words, k)];
    }

    method SeedIfNew()
      requires Valid()
      modifies this, mt
      ensures Valid() && mti <= p.n
      ensures old(mti) == p.n + 1 ==>
        start == Seeded(p, DEFAULT_SEED, p.n) && drawn == 0 && mti == p.n && Batched() && Stepped()
      ensures old(mti) <= p.n ==> unchanged(this) && unchanged(mt)
      ensures old(Stepped()) ==> Stepped()
    {
      if mti == p.n + 1 {
        Seed(DEFAULT_SEED);
      }
    }

    /** A whole batch twisted in place. */
    method Refill()
      requires Valid() && mti == p.n
      modifies this`mti, mt
      ensures Valid() && mti == 0 && (old(Batched()) ==> Batched())
    {
      for k := 0 to p.n
        invariant Valid() && mti == p.n && (old(Batched()) ==> Between(drawn, k))
      {
        Twist(k, drawn);
      }
      mti := 0;
    }

    /** The next number by batches: the word at hand, after a whole batch has been twisted if it is
        due. Of a generator used in batches it is the next of the stream. */
    method Int() returns (y: bv64)
      requires Valid()
      modifies this, mt
      ensures Valid() && mti == if old(mti) < p.n then old(mti) + 1 else 1
      ensures old(mti) < p.n ==> mt[..] == old(mt[..]) && y == p.temper(old(mt[..])[old(mti)])
      ensures old(mti) <= p.n ==> start == old(start) && drawn == old(drawn) + 1
      ensures old(mti) == p.n + 1 ==> start == Seeded(p, DEFAULT_SEED, p.n) && drawn == 1
      ensures old(Batched()) ==> Batched() && y == Output(p, start, drawn - 1)
    {
      RefillIfDue();
      y := Read();
      drawn := drawn + 1;
    }

    method RefillIfDue()
      requires Valid()
      modifies this, mt
      ensures Valid() && mti == if old(mti) < p.n then old(mti) else 0
      ensures old(mti) < p.n ==> unchanged(this) && unchanged(mt)
      ensures old(mti) <= p.n ==> start == old(start) && drawn == old(drawn)
      ensures old(mti) == p.n + 1 ==> start == Seeded(p, DEFAULT_SEED, p.n) && drawn == 0
      ensures old(Batched()) ==> Batched()
    {
      if mti >= p.n {
        SeedIfNew();
        Refill();
      }
    }

    /** The number at mti, which is past it then. */
    method Read() returns (y: bv64)
      requires Valid() && mti < p.n
      modifies this`mti
      ensures mti == old(mti) + 1 && y == p.temper(mt[old(mti)])
    {
      y := p.temper(mt[mti]);
      mti := mti + 1;
    }

    /** The next number by single words: the word at hand, or the first again, twisted in place. Of a
        generator used a word at a time it is the next of the stream. */
    method IntB() returns (y: bv64)
      requires Valid()
      modifies this, mt
      ensures Valid() && mti == if old(mti) < p.n then old(mti) + 1 else 1
      ensures old(mti) < p.n ==>
        var x := Twisted(p, old(mt[..]), old(mti)); mt[..] == old(mt[..])[old(mti) := x] && y == p.temper(x)
      ensures old(mti) <= p.n ==> start == old(start) && drawn == old(drawn) + 1
      ensures old(mti) == p.n + 1 ==> start == Seeded(p, DEFAULT_SEED, p.n) && drawn == 1
      ensures old(Stepped()) ==> Stepped() && y == Output(p, start, drawn - 1)
    {
      BackIfDue();
      y := Draw();
    }

    method BackIfDue()
      requires Valid()
      modifies this, mt
      ensures Valid() && mti == if old(mti) < p.n then old(mti) else 0
      ensures mt[..] == old(mt[..]) || old(mti) == p.n + 1
      ensures old(mti) <= p.n ==> start == old(start) && drawn == old(drawn)
      ensures old(mti) == p.n + 1 ==> start == Seeded(p, DEFAULT_SEED, p.n) && drawn == 0
      ensures old(Stepped()) ==> Halfway()
    {
      SeedIfNew();
      Back();
    }

    /** Behind the last word the first is at hand again. */
    method Back()
      requires Valid() && mti <= p.n
      modifies this`mti
      ensures Valid() && mti == if old(mti) == p.n then 0 else old(mti)
      ensures old(Stepped()) ==> Halfway()
    {
      if mti == p.n {
        mti := 0;
      }
    }

    /** Everything before mti is a batch ahead of the rest. */
    ghost predicate Halfway()
      requires Valid() && mti <= p.n
      reads this, mt
    {
      mti <= drawn && Between(drawn - mti, mti)
    }

    /** The word at mti twisted, and its number. */
    method Draw() returns (y: bv64)
      requires Valid() && mti < p.n
      modifies this`mti, this`drawn, mt
      ensures Valid() && mti == old(mti) + 1 && drawn == old(drawn) + 1
      ensures var x := Twisted(p, old(mt[..]), old(mti)); mt[..] == old(mt[..])[old(mti) := x] && y == p.temper(x)
      ensures old(Halfway()) ==> Stepped() && y == Output(p, start, drawn - 1)
    {
      ghost var base := if mti <= drawn then drawn - mti else 0;
      Twist(mti, base);
      y := Read();
      drawn := drawn + 1;
      if old(Halfway()) {
        Past(base);
      }
    }

    /** Past the word just twisted. */
    lemma Past(base: nat)
      requires Valid() && 1 <= mti <= p.n && drawn == base + mti && Between(base, mti)
      ensures Stepped() && mt[mti - 1] == X(p, start, p.n + (drawn - 1))
    {
      if mti == p.n {
        NextBatch(p, start, mt[..], base);
      }
    }
  }

  // ---- the two ways of drawing agree ----

  /** How a generator is set up. */
  datatype Setup = Default | BySeed(seed: bv64) | ByKey(key: seq<bv64>)

  function StartOf(p: Params, how: Setup): (s: seq<bv64>)
    requires p.Valid()
    ensures |s| == p.n
  {
    match how
    case Default => Seeded(p, DEFAULT_SEED, p.n)
    case BySeed(seed) => Seeded(p, seed, p.n)
    case ByKey(key) => if key == [] then Seeded(p, ARRAY_SEED, p.n) else Keyed(p, key)
  }

  method Fresh(p: Params, how: Setup) returns (g: Generator)
    requires p.Valid()
    ensures fresh(g) && fresh(g.mt) && g.p == p && g.Valid() && g.Batched() && g.Stepped()
    ensures if how == Default then g.mti == p.n + 1
            else g.mti == p.n && g.drawn == 0 && g.start == StartOf(p, how)
  {
    g := new Generator(p);
    match how {
      case Default =>
      case BySeed(seed) => g.Seed(seed);
      case ByKey(key) => var r := g.InitByArray(key);
    }
  }

  /** From one set-up the batch generator and the stepping generator produce one stream. */
  method Streams(p: Params, how: Setup, count: nat) returns (batch: seq<bv64>, stepped: seq<bv64>)
    requires p.Valid()
    ensures |batch| == count && batch == stepped
    ensures forall t :: 0 <= t < count ==> batch[t] == Output(p, StartOf(p, how), t)
  {
    var g := Fresh(p, how);
    var h := Fresh(p, how);
    batch, stepped := [], [];
    for t := 0 to count
      invariant fresh(g) && fresh(g.mt) && fresh(h) && fresh(h.mt) && g != h && g.mt != h.mt
      invariant g.p == p && h.p == p && g.Valid() && g.Batched() && h.Valid() && h.Stepped()
      invariant Drawn(g, p, how, t) && Drawn(h, p, how, t)
      invariant |batch| == t && batch == stepped && IsStream(p, StartOf(p, how), batch)
    {
      var x, y := DrawPair(g, h, p, how, t);
      StreamMore(p, StartOf(p, how), batch, x);
      batch, stepped := batch + [x], stepped + [y];
    }
  }

  predicate IsStream(p: Params, s: seq<bv64>, xs: seq<bv64>)
    requires p.Valid() && |s| == p.n
  {
    forall i :: 0 <= i < |xs| ==> xs[i] == Output(p, s, i)
  }

  lemma StreamMore(p: Params, s: seq<bv64>, xs: seq<bv64>, x: bv64)
    requires p.Valid() && |s| == p.n && IsStream(p, s, xs) && x == Output(p, s, |xs|)
    ensures IsStream(p, s, xs + [x])
  {
  }

  /** Nothing has been drawn yet, or t numbers of the stream that begins as set up. */
  ghost predicate Drawn(g: Generator, p: Params, how: Setup, t: nat)
    requires p.Valid() && g.p == p
    reads g
  {
    && (g.mti == p.n + 1 ==> t == 0 && how == Default)
    && (g.mti <= p.n ==> g.drawn == t && g.start == StartOf(p, how))
  }

  /** Number t of both. */
  method DrawPair(g: Generator, h: Generator, ghost p: Params, ghost how: Setup, ghost t: nat) returns (x: bv64, y: bv64)
    requires p.Valid() && g != h && g.mt != h.mt && g.p == p && h.p == p
    requires g.Valid() && g.Batched() && h.Valid() && h.Stepped()
    requires Drawn(g, p, how, t) && Drawn(h, p, how, t)
    modifies g, g.mt, h, h.mt
    ensures g.Valid() && g.Batched() && h.Valid() && h.Stepped()
    ensures Drawn(g, p, how, t + 1) && Drawn(h, p, how, t + 1)
    ensures x == y == Output(p, StartOf(p, how), t)
  {
    x := g.Int();
    y := h.IntB();
  }

  // ---- the state never degenerates ----

  predicate InWord(p: Params, w: bv64) {
    w & (p.upper | p.lower) == w
  }

  ghost predicate AllInWord(p: Params, s: seq<bv64>) {
    forall i :: 0 <= i < |s| ==> InWord(p, s[i])
  }

  /** The part of n words that decides what follows is all zero. */
  ghost predicate Dead(p: Params, a: seq<bv64>) {
    a == [] || (a[0] & p.upper == 0 && forall i :: 1 <= i < |a| ==> a[i] == 0)
  }

  ghost predicate Alive(p: Params, s: seq<bv64>) {
    !Dead(p, s)
  }

  /** The n words from word t on. */
  function Window(p: Params, s: seq<bv64>, t: nat): seq<bv64>
    requires p.Valid() && |s| == p.n
  {
    seq(p.n, i requires 0 <= i < p.n => X(p, s, t + i))
  }

  /** Words stay words, and only nothing twists to nothing. */
  ghost predicate Sound(p: Params) {
    && (forall f, u, v {:trigger p.next(f, u, v)} :: InWord(p, f) && InWord(p, u) && InWord(p, v) ==> InWord(p, p.next(f, u, v)))
    && (forall u, v :: p.next(0, u, v) == 0 <==> u & p.upper == 0 && v & p.lower == 0)
    && (forall x :: InWord(p, p.cut(x)))
    && (forall x, i :: InWord(p, p.grow(x, i)))
    && (forall x, y, k, j :: InWord(p, p.absorb(x, y, k, j)))
    && (forall x, y, i :: InWord(p, p.stir(x, y, i)))
    && InWord(p, p.top) && p.top & p.upper != 0
    && p.grow(0, 2) != 0
  }

  lemma {:induction false} XInWord(p: Params, s: seq<bv64>, t: nat)
    requires p.Valid() && |s| == p.n && Sound(p) && AllInWord(p, s)
    ensures InWord(p, X(p, s, t))
    decreases t
  {
    if t >= p.n {
      XInWord(p, s, t - p.n + p.m);
      XInWord(p, s, t - p.n);
      XInWord(p, s, t - p.n + 1);
    }
  }

  lemma WholeWord(p: Params, w: bv64)
    requires InWord(p, w) && w & p.upper == 0 && w & p.lower == 0
    ensures w == 0
  {
    assert w & (p.upper | p.lower) == (w & p.upper) | (w & p.lower);
  }

  /** The state after n words, one word on. */
  lemma WindowSlides(p: Params, s: seq<bv64>, t: nat)
    requires p.Valid() && |s| == p.n
    ensures Window(p, s, t + 1) == Slide(p, Window(p, s, t))
  {
    var a, b := Window(p, s, t), Window(p, s, t + 1);
    forall i | 0 <= i < p.n - 1
      ensures b[i] == a[i + 1]
    {
      assert t + 1 + i == t + (i + 1);
    }
    var last := t + p.n;
    assert X(p, s, last) == p.next(X(p, s, t + p.m), X(p, s, t), X(p, s, t + 1)) by {
      assert last - p.n + p.m == t + p.m && last - p.n == t && last - p.n + 1 == t + 1;
    }
    assert b[p.n - 1] == X(p, s, last) by {
      assert t + 1 + (p.n - 1) == last;
    }
    assert a[p.m] == X(p, s, t + p.m) && a[0] == X(p, s, t + 0) && a[1] == X(p, s, t + 1);
  }

  function Slide(p: Params, a: seq<bv64>): seq<bv64>
    requires p.Valid() && |a| == p.n
  {
    a[1..] + [p.next(a[p.m], a[0], a[1])]
  }

  lemma DeadStays(p: Params, a: seq<bv64>)
    requires p.Valid() && |a| == p.n && Sound(p) && Dead(p, a)
    ensures Dead(p, Slide(p, a))
  {
    assert a[1] == 0 && a[p.m] == 0;
    assert p.next(0, a[0], 0) == 0;
  }

  lemma DeadWas(p: Params, a: seq<bv64>)
    requires p.Valid() && |a| == p.n && Sound(p) && InWord(p, a[1]) && Dead(p, Slide(p, a))
    ensures Dead(p, a)
  {
    var b, n, m := Slide(p, a), p.n, p.m;
    assert a[m] == b[m - 1] == 0;
    assert p.next(0, a[0], a[1]) == b[n - 1] == 0;
    assert b[0] == a[1];
    WholeWord(p, a[1]);
    forall i | 2 <= i < n
      ensures a[i] == 0
    {
      assert a[i] == b[i - 1];
    }
  }

  /** One more word keeps a state alive, and does not bring a dead one back. */
  lemma AliveSlides(p: Params, a: seq<bv64>)
    requires p.Valid() && |a| == p.n && Sound(p) && InWord(p, a[1])
    ensures Alive(p, Slide(p, a)) <==> Alive(p, a)
  {
    if Dead(p, a) {
      DeadStays(p, a);
    }
    if Dead(p, Slide(p, a)) {
      DeadWas(p, a);
    }
  }

  lemma WindowInWord(p: Params, s: seq<bv64>, t: nat)
    requires p.Valid() && |s| == p.n && Sound(p) && AllInWord(p, s)
    ensures AllInWord(p, Window(p, s, t))
  {
    forall i | 0 <= i < p.n
      ensures InWord(p, Window(p, s, t)[i])
    {
      XInWord(p, s, t + i);
    }
  }

  lemma {:induction false} AliveForever(p: Params, s: seq<bv64>, t: nat)
    requires p.Valid() && |s| == p.n && Sound(p) && AllInWord(p, s)
    ensures Alive(p, Window(p, s, t)) <==> Alive(p, s)
  {
    if t == 0 {
      assert Window(p, s, 0) == s;
    } else {
      AliveForever(p, s, t - 1);
      WindowInWord(p, s, t - 1);
      AliveSlides(p, Window(p, s, t - 1));
      WindowSlides(p, s, t - 1);
    }
  }

  lemma {:induction false} SeededInWord(p: Params, seed: bv64, n: nat)
    requires Sound(p)
    ensures AllInWord(p, Seeded(p, seed, n))
  {
    if n > 1 {
      SeededInWord(p, seed, n - 1);
    }
  }

  lemma {:induction false} SeededAlive(p: Params, seed: bv64, n: nat)
    requires p.grow(0, 2) != 0 && n >= 3
    ensures Seeded(p, seed, n)[1] != 0 || Seeded(p, seed, n)[2] != 0
  {
    if n == 3 {
      assert Seeded(p, seed, 3)[2] == p.grow(Seeded(p, seed, 2)[1], 2);
    } else {
      SeededAlive(p, seed, n - 1);
    }
  }

  lemma AbsorbInWord(p: Params, x: bv64, y: bv64, k: bv64, j: int)
    requires Sound(p)
    ensures InWord(p, p.absorb(x, y, k, j))
  {
  }

  lemma PutInWord(p: Params, s: seq<bv64>, i: nat, x: bv64)
    requires 1 <= i < |s| && AllInWord(p, s) && InWord(p, x)
    ensures AllInWord(p, Put(s, i, x))
  {
  }

  lemma {:induction false} AbsorbedInWord(p: Params, s: seq<bv64>, key: seq<bv64>, k: nat)
    requires p.Valid() && |s| == p.n && key != [] && Sound(p) && AllInWord(p, s)
    ensures AllInWord(p, Absorbed(p, s, key, k))
  {
    if k > 0 {
      AbsorbedInWord(p, s, key, k - 1);
      var r := Absorbed(p, s, key, k - 1);
      var i, j := Place(p, k - 1), KeyPlace(key, k - 1);
      AbsorbInWord(p, r[i], r[i - 1], key[j], j);
      PutInWord(p, r, i, p.absorb(r[i], r[i - 1], key[j], j));
    }
  }

  lemma {:induction false} StirredInWord(p: Params, s: seq<bv64>, from: nat, k: nat)
    requires p.Valid() && |s| == p.n && Sound(p) && AllInWord(p, s)
    ensures AllInWord(p, Stirred(p, s, from, k))
  {
    if k > 0 {
      StirredInWord(p, s, from, k - 1);
      var r := Stirred(p, s, from, k - 1);
      var i := Place(p, from + k - 1);
      PutInWord(p, r, i, p.stir(r[i], r[i - 1], i));
    }
  }

  lemma StartInWord(p: Params, how: Setup)
    requires p.Valid() && Sound(p)
    ensures AllInWord(p, StartOf(p, how)) && Alive(p, StartOf(p, how))
  {
    match how
    case Default => SeededStart(p, DEFAULT_SEED);
    case BySeed(seed) => SeededStart(p, seed);
    case ByKey(key) =>
      if key == [] {
        SeededStart(p, ARRAY_SEED);
      } else {
        KeyedStart(p, key);
      }
  }

  lemma SeededStart(p: Params, seed: bv64)
    requires p.Valid() && Sound(p)
    ensures AllInWord(p, Seeded(p, seed, p.n)) && Alive(p, Seeded(p, seed, p.n))
  {
    SeededInWord(p, seed, p.n);
    SeededAlive(p, seed, p.n);
  }

  lemma KeyedStart(p: Params, key: seq<bv64>)
    requires p.Valid() && Sound(p) && key != []
    ensures AllInWord(p, Keyed(p, key)) && Alive(p, Keyed(p, key))
  {
    SeededInWord(p, ARRAY_SEED, p.n);
    var rounds := Max(p.n, |key|);
    var a := Absorbed(p, Seeded(p, ARRAY_SEED, p.n), key, rounds);
    AbsorbedInWord(p, Seeded(p, ARRAY_SEED, p.n), key, rounds);
    StirredInWord(p, a, rounds, p.n);
    TopInWord(p, Stirred(p, a, rounds, p.n));
  }

  lemma TopInWord(p: Params, s: seq<bv64>)
    requires Sound(p) && s != [] && AllInWord(p, s)
    ensures AllInWord(p, s[0 := p.top]) && Alive(p, s[0 := p.top])
  {
  }

  /** However it is set up and however long it runs, a generator's state never dies. */
  lemma NeverDegenerate(p: Params, how: Setup, t: nat)
    requires p.Valid() && Sound(p)
    ensures Alive(p, Window(p, StartOf(p, how), t))
  {
    StartInWord(p, how);
    AliveForever(p, StartOf(p, how), t);
  }

  // ---- mt19937 ----

  function Index(i: int): bv64 {
    if 0 <= i < 0x1_0000_0000_0000_0000 then i as bv64 else 0
  }

  function Cut32(x: bv64): bv64 {
    x & 0xffffffff
  }

  function Grow32(x: bv64, i: int): bv64 {
    (1812433253 * (x ^ (x >> 30)) + Index(i)) & 0xffffffff
  }

  function Absorb32(x: bv64, prev: bv64, key: bv64, j: int): bv64 {
    ((x ^ ((prev ^ (prev >> 30)) * 1664525)) + key + Index(j)) & 0xffffffff
  }

  function Stir32(x: bv64, prev: bv64, i: int): bv64 {
    ((x ^ ((prev ^ (prev >> 30)) * 1566083941)) - Index(i)) & 0xffffffff
  }

  function Next32(far: bv64, u: bv64, v: bv64): bv64 {
    var y := (u & 0x80000000) | (v & 0x7fffffff);
    far ^ (y >> 1) ^ if y & 1 != 0 then 0x9908b0df else 0
  }

  /** A word xored with a part of itself, moved. */
  function Mixed(part: bv64 -> bv64, w: bv64): bv64 {
    w ^ part(w)
  }

  function Right11(w: bv64): bv64 { w >> 11 }
  function Left7(w: bv64): bv64 { (w << 7) & 0x9d2c5680 }
  function Left15(w: bv64): bv64 { (w << 15) & 0xefc60000 }
  function Right18(w: bv64): bv64 { w >> 18 }

  function Temper32(w: bv64): bv64 {
    Mixed(Right18, Mixed(Left15, Mixed(Left7, Mixed(Right11, w))))
  }

  function Mt19937(): Params {
    Params(624, 397, 624, 0x80000000, 0x7fffffff, Cut32, Grow32, Absorb32, Stir32, 0x80000000, Next32, Temper32)
  }

  // ---- mt19937_64 ----

  function Cut64(x: bv64): bv64 {
    x
  }

  function Grow64(x: bv64, i: int): bv64 {
    6364136223846793005 * (x ^ (x >> 62)) + Index(i)
  }

  function Absorb64(x: bv64, prev: bv64, key: bv64, j: int): bv64 {
    (x ^ ((prev ^ (prev >> 62)) * 3935559000370003845)) + key + Index(j)
  }

  function Stir64(x: bv64, prev: bv64, i: int): bv64 {
    (x ^ ((prev ^ (prev >> 62)) * 2862933555777941757)) - Index(i)
  }

  function Next64(far: bv64, u: bv64, v: bv64): bv64 {
    var y := (u & 0xffffffff80000000) | (v & 0x7fffffff);
    far ^ (y >> 1) ^ if y & 1 != 0 then 0xb5026f5aa96619e9 else 0
  }

  function Right29(w: bv64): bv64 { (w >> 29) & 0x5555555555555555 }
  function Left17(w: bv64): bv64 { (w << 17) & 0x71d67fffeda60000 }
  function Left37(w: bv64): bv64 { (w << 37) & 0xfff7eee000000000 }
  function Right43(w: bv64): bv64 { w >> 43 }

  function Temper64(w: bv64): bv64 {
    Mixed(Right43, Mixed(Left37, Mixed(Left17, Mixed(Right29, w))))
  }

  /** Its batch loop takes 624 from k + 156, so Python counts from the end of the 312 words. */
  function Mt19937b64(): Params {
    Params(312, 156, 624, 0xffffffff80000000, 0x7fffffff, Cut64, Grow64, Absorb64, Stir64, 0x8000000000000000, Next64, Temper64)
  }

  lemma Zero32(u: bv64, v: bv64)
    ensures Next32(0, u, v) == 0 <==> u & 0x80000000 == 0 && v & 0x7fffffff == 0
  {
  }

  lemma Word32(far: bv64, u: bv64, v: bv64)
    requires far & 0xffffffff == far
    ensures Next32(far, u, v) & 0xffffffff == Next32(far, u, v)
  {
  }

  lemma Cut32InWord(x: bv64)
    ensures (x & 0xffffffff) & 0xffffffff == x & 0xffffffff
  {
  }

  lemma Second32()
    ensures Grow32(0, 2) == 2
  {
  }

  lemma Sound32()
    ensures Sound(Mt19937())
  {
    var p := Mt19937();
    assert p.upper | p.lower == 0xffffffff;
    forall f, u, v {:trigger p.next(f, u, v)} | InWord(p, f)
      ensures InWord(p, p.next(f, u, v))
    {
      Word32(f, u, v);
    }
    forall u, v
      ensures p.next(0, u, v) == 0 <==> u & p.upper == 0 && v & p.lower == 0
    {
      Zero32(u, v);
    }
    InWord32(p);
    Second32();
  }

  lemma InWord32(p: Params)
    requires p == Mt19937()
    ensures forall x :: InWord(p, p.cut(x))
    ensures forall x, i :: InWord(p, p.grow(x, i))
    ensures forall x, y, k, j :: InWord(p, p.absorb(x, y, k, j))
    ensures forall x, y, i :: InWord(p, p.stir(x, y, i))
  {
    assert p.upper | p.lower == 0xffffffff;
    forall x ensures InWord(p, p.cut(x)) {
      Cut32InWord(x);
    }
    forall x, i ensures InWord(p, p.grow(x, i)) {
      Cut32InWord(1812433253 * (x ^ (x >> 30)) + Index(i));
    }
    forall x, y, k, j ensures InWord(p, p.absorb(x, y, k, j)) {
      Cut32InWord((x ^ ((y ^ (y >> 30)) * 1664525)) + k + Index(j));
    }
    forall x, y, i ensures InWord(p, p.stir(x, y, i)) {
      Cut32InWord((x ^ ((y ^ (y >> 30)) * 1566083941)) - Index(i));
    }
  }

  lemma Zero64(u: bv64, v: bv64)
    ensures Next64(0, u, v) == 0 <==> u & 0xffffffff80000000 == 0 && v & 0x7fffffff == 0
  {
  }

  lemma Second64()
    ensures Grow64(0, 2) == 2
  {
  }

  lemma Every64(x: bv64)
    ensures x & 0xffffffffffffffff == x
  {
  }

  lemma Sound64()
    ensures Sound(Mt19937b64())
  {
    var p := Mt19937b64();
    assert p.upper | p.lower == 0xffffffffffffffff;
    forall x ensures InWord(p, x) {
      Every64(x);
    }
    forall u, v
      ensures p.next(0, u, v) == 0 <==> u & p.upper == 0 && v & p.lower == 0
    {
      Zero64(u, v);
    }
    Second64();
  }

  /** The two generators, whatever they are seeded with. */
  lemma Healthy(how: Setup, t: nat)
    ensures Alive(Mt19937(), Window(Mt19937(), StartOf(Mt19937(), how), t))
    ensures Alive(Mt19937b64(), Window(Mt19937b64(), StartOf(Mt19937b64(), how), t))
  {
    Sound32();
    NeverDegenerate(Mt19937(), how, t);
    Sound64();
    NeverDegenerate(Mt19937b64(), how, t);
  }
}
