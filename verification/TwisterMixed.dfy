/** What comes of drawing from one generator in both ways: nothing, as long as the way changes only
    between batches; in the middle of a batch other numbers. */
module TwisterMixed {
  import opened Arith
  import opened Twister
  import opened TwisterStream
  import opened TwisterNumbers

  datatype Way = Batches | Words

  /** The way changes only where a batch is used up. */
  predicate Tidy(p: Params, ways: seq<Way>)
    requires p.Valid()
  {
    forall t :: 1 <= t < |ways| && t % p.n != 0 ==> ways[t] == ways[t - 1]
  }

  /** Where t draws leave the place of the next word. */
  predicate At(p: Params, mti: nat, t: nat)
    requires p.Valid()
  {
    if t == 0 then mti >= p.n else mti == 1 + (t - 1) % p.n
  }

  lemma AtNext(p: Params, mti: nat, t: nat)
    requires p.Valid() && At(p, mti, t)
    ensures At(p, if mti < p.n then mti + 1 else 1, t + 1)
    ensures mti < p.n ==> t >= 1 && t % p.n != 0
  {
    if t == 0 {
      DivUnique(0, p.n, 0, 0);
    } else {
      NextMod(t - 1, p.n);
    }
  }

  /** With all words used up there is no difference between the two ways. */
  lemma UsedUp(g: Generator)
    requires g.Valid() && g.mti >= g.p.n
    ensures g.Batched() <==> g.Stepped()
  {
  }

  /** One number, either way. */
  method Draw(g: Generator, way: Way) returns (y: bv64)
    requires g.Valid()
    modifies g, g.mt
    ensures g.Valid() && g.mti == if old(g.mti) < g.p.n then old(g.mti) + 1 else 1
    ensures old(g.mti) <= g.p.n ==> g.start == old(g.start) && g.drawn == old(g.drawn) + 1
    ensures old(g.mti) == g.p.n + 1 ==> g.start == Seeded(g.p, DEFAULT_SEED, g.p.n) && g.drawn == 1
    ensures way == Batches && old(g.Batched()) ==> g.Batched() && y == Output(g.p, g.start, g.drawn - 1)
    ensures way == Words && old(g.Stepped()) ==> g.Stepped() && y == Output(g.p, g.start, g.drawn - 1)
  {
    if way == Batches {
      y := g.Int();
    } else {
      y := g.IntB();
    }
  }

  /** A generator can be drawn from in both ways by turns: if the way changes only between batches,
      the numbers are the stream all the same. */
  method DrawTidily(p: Params, how: Setup, ways: seq<Way>) returns (ys: seq<bv64>)
    requires p.Valid() && Tidy(p, ways)
    ensures |ys| == |ways| && forall t :: 0 <= t < |ys| ==> ys[t] == Output(p, StartOf(p, how), t)
  {
    var g := Fresh(p, how);
    ys := [];
    for t := 0 to |ways|
      invariant fresh(g) && fresh(g.mt) && g.p == p && Ready(g, how, ways, t)
      invariant |ys| == t && forall i :: 0 <= i < t ==> ys[i] == Output(p, StartOf(p, how), i)
    {
      var y := DrawNext(g, how, ways, t);
      ys := ys + [y];
    }
  }

  /** After t draws the generator goes on in the way it was last drawn from, or in either. */
  ghost predicate Ready(g: Generator, how: Setup, ways: seq<Way>, t: nat)
    reads g, g.mt
  {
    && g.Valid() && t <= |ways| && Drawn(g, g.p, how, t) && At(g.p, g.mti, t)
    && (g.mti < g.p.n && t > 0 ==> if ways[t - 1] == Batches then g.Batched() else g.Stepped())
    && (g.mti >= g.p.n ==> g.Batched() && g.Stepped())
  }

  method DrawNext(g: Generator, ghost how: Setup, ways: seq<Way>, t: nat) returns (y: bv64)
    requires g.p.Valid() && t < |ways| && Tidy(g.p, ways) && Ready(g, how, ways, t)
    modifies g, g.mt
    ensures Ready(g, how, ways, t + 1) && y == Output(g.p, StartOf(g.p, how), t)
  {
    AtNext(g.p, g.mti, t);
    y := Draw(g, ways[t]);
    if g.mti == g.p.n {
      UsedUp(g);
    }
  }

  /** A batch draw from a generator last drawn from a word at a time. Where a batch is used up it is
      the next number, and the stream goes on; in the middle of one it is the number of n draws ago,
      or, early on, a word of the seed, and the number due only if the sequence repeats itself there. */
  method BatchAfterWords(g: Generator) returns (y: bv64)
    requires g.Valid() && g.Stepped() && g.mti <= g.p.n
    requires Sound(g.p) && Tells(g.p) && AllInWord(g.p, g.start)
    modifies g, g.mt
    ensures g.Valid() && g.start == old(g.start) && g.drawn == old(g.drawn) + 1
    ensures var t, n := old(g.drawn), g.p.n;
            if old(g.mti) == n then g.Batched() && y == Output(g.p, g.start, t)
            else
              && y == (if t >= n then Output(g.p, g.start, t - n) else g.p.temper(g.start[t]))
              && (y == Output(g.p, g.start, t) <==> X(g.p, g.start, t) == X(g.p, g.start, n + t))
  {
    if g.mti == g.p.n {
      UsedUp(g);
    } else {
      OldWord(g);
      Late(g.p, g.start, g.drawn);
    }
    y := g.Int();
  }

  /** The word at hand is the one of a batch ago. */
  lemma OldWord(g: Generator)
    requires g.Valid() && g.Stepped() && g.mti < g.p.n
    ensures g.mt[g.mti] == X(g.p, g.start, g.drawn)
  {
  }

  lemma Late(p: Params, s: seq<bv64>, t: nat)
    requires p.Valid() && |s| == p.n && Sound(p) && Tells(p) && AllInWord(p, s)
    ensures p.temper(X(p, s, t)) == if t >= p.n then Output(p, s, t - p.n) else p.temper(s[t])
    ensures p.temper(X(p, s, t)) == Output(p, s, t) <==> X(p, s, t) == X(p, s, p.n + t)
  {
    XInWord(p, s, t);
    XInWord(p, s, p.n + t);
  }

  /** What a draw by single words makes of word k of n, when the t-th number is due and all words are
      of one batch: up to word n - m the number of n draws on; from there a word the sequence never
      combines, its far part being a batch too old, and at the last word its near part too. */
  function Mixup(p: Params, s: seq<bv64>, t: nat, k: nat): bv64
    requires p.Valid() && |s| == p.n && k < p.n
  {
    if k < p.n - p.m then X(p, s, 2 * p.n + t)
    else p.next(X(p, s, t + p.m), X(p, s, t + p.n), X(p, s, if k == p.n - 1 then t + 1 else t + p.n + 1))
  }

  lemma MixupIs(p: Params, s: seq<bv64>, words: seq<bv64>, t: nat, k: nat)
    requires p.Valid() && |s| == |words| == p.n && k < p.n && k <= t
    requires Mixture(p, s, words, t + p.n - k, 0)
    ensures Twisted(p, words, k) == Mixup(p, s, t, k)
  {
    FarPart(p, s, words, t, k);
    NearPart(p, s, words, t, k);
    if k < p.n - p.m {
      BatchOn(p, s, t);
      EarlyMix(p, s, words, t, k);
    }
  }

  lemma EarlyMix(p: Params, s: seq<bv64>, words: seq<bv64>, t: nat, k: nat)
    requires p.Valid() && |s| == |words| == p.n && k < p.n - p.m
    requires words[Around(p, k + p.m)] == X(p, s, t + p.m + p.n) && words[k] == X(p, s, t + p.n)
    requires words[Around(p, k + 1)] == X(p, s, t + p.n + 1)
    requires X(p, s, 2 * p.n + t) == p.next(X(p, s, t + p.m + p.n), X(p, s, t + p.n), X(p, s, t + p.n + 1))
    ensures Twisted(p, words, k) == Mixup(p, s, t, k)
  {
  }

  lemma BatchOn(p: Params, s: seq<bv64>, t: nat)
    requires p.Valid() && |s| == p.n
    ensures X(p, s, 2 * p.n + t) == p.next(X(p, s, t + p.m + p.n), X(p, s, t + p.n), X(p, s, t + p.n + 1))
  {
    NextWord(p, s, t + p.n);
    assert t + p.n + p.n == 2 * p.n + t && t + p.n + p.m == t + p.m + p.n;
  }

  lemma FarPart(p: Params, s: seq<bv64>, words: seq<bv64>, t: nat, k: nat)
    requires p.Valid() && |s| == |words| == p.n && k < p.n && k <= t
    requires Mixture(p, s, words, t + p.n - k, 0)
    ensures words[Around(p, k + p.m)] == X(p, s, if k < p.n - p.m then t + p.m + p.n else t + p.m)
  {
    var base, i := t + p.n - k, Around(p, k + p.m);
    assert words[i] == X(p, s, base + i);
  }

  lemma NearPart(p: Params, s: seq<bv64>, words: seq<bv64>, t: nat, k: nat)
    requires p.Valid() && |s| == |words| == p.n && k < p.n && k <= t
    requires Mixture(p, s, words, t + p.n - k, 0)
    ensures words[k] == X(p, s, t + p.n)
    ensures words[Around(p, k + 1)] == X(p, s, if k == p.n - 1 then t + 1 else t + p.n + 1)
  {
    var base, i := t + p.n - k, Around(p, k + 1);
    assert words[k] == X(p, s, base + k) && words[i] == X(p, s, base + i);
  }

  /** A draw by single words from a generator last drawn from in batches: where a batch is used up it
      is the next number and the stream goes on, in the middle of one it is that of the word above. */
  method WordAfterBatches(g: Generator) returns (y: bv64)
    requires g.Valid() && g.Batched() && g.mti <= g.p.n && (g.mti < g.p.n ==> g.mti <= g.drawn)
    modifies g, g.mt
    ensures g.Valid() && g.start == old(g.start) && g.drawn == old(g.drawn) + 1
    ensures var t := old(g.drawn);
            if old(g.mti) == g.p.n then g.Stepped() && y == Output(g.p, g.start, t)
            else y == g.p.temper(Mixup(g.p, g.start, t, old(g.mti)))
  {
    if g.mti == g.p.n {
      UsedUp(g);
    } else {
      MixupIs(g.p, g.start, g.mt[..], g.drawn, g.mti);
    }
    y := g.IntB();
  }

  // ---- a seed for which either mix goes wrong ----

  lemma NextWords()
    ensures Next64(0x0252cfc850ae3d70, 0xb5347f47116bd3de, 0x9165b5762d1a61ae) == 0x58c8f06bc6230da7
    ensures Next64(0x16cd2293a14b5d4e, 0x9165b5762d1a61ae, 0xd139b6bbed337f3f) == 0xeb7d97723eb4fb38
    ensures Next64(0x58c8f06bc6230da7, 0x0252cfc850ae3d70, 0x16cd2293a14b5d4e) == 0x59e1978fd686a300
    ensures Next64(0x59e1978fd686a300, 0x58c8f06bc6230da7, 0xeb7d97723eb4fb38) == 0x7585efba09dcde9c
  {
  }

  lemma LaterWords(s: seq<bv64>)
    requires Grown(true, s, 5489)
    ensures var p := Mt19937b64();
            && X(p, s, 1) == 0xb5347f47116bd3de && X(p, s, 313) == 0x58c8f06bc6230da7 && X(p, s, 625) == 0x7585efba09dcde9c
  {
    var p := Mt19937b64();
    WideWords(s);
    NextWords();
    NextWord(p, s, 1);
    NextWord(p, s, 2);
    NextWord(p, s, 157);
    NextWord(p, s, 313);
  }

  lemma Differ(s: seq<bv64>)
    requires Grown(true, s, 5489) && AllInWord(Mt19937b64(), s) && Sound(Mt19937b64()) && Tells(Mt19937b64())
    ensures var p := Mt19937b64();
            && X(p, s, 1) != X(p, s, 312 + 1)
            && p.temper(X(p, s, 2 * 312 + 1)) != Output(p, s, 1)
  {
    var p := Mt19937b64();
    LaterWords(s);
    XInWord(p, s, 313);
    XInWord(p, s, 625);
  }

  method Second(p: Params, how: Setup, way: Way) returns (y: bv64)
    requires p.Valid()
    ensures y == Output(p, StartOf(p, how), 1)
  {
    var ys := DrawTidily(p, how, [way, way]);
    y := ys[1];
  }

  method WordThenBatch(p: Params, how: Setup) returns (y: bv64)
    requires p.Valid() && Sound(p) && Tells(p)
    ensures var s := StartOf(p, how); y == Output(p, s, 1) <==> X(p, s, 1) == X(p, s, p.n + 1)
  {
    var g := AfterOne(p, how);
    StartInWord(p, how);
    y := BatchAfterWords(g);
  }

  method AfterOne(p: Params, how: Setup) returns (g: Generator)
    requires p.Valid()
    ensures fresh(g) && fresh(g.mt) && g.p == p && g.Valid() && g.Stepped()
    ensures g.mti == 1 && g.drawn == 1 && g.start == StartOf(p, how)
  {
    g := Fresh(p, how);
    var _ := g.IntB();
  }

  method BatchThenWord(p: Params, how: Setup) returns (y: bv64)
    requires p.Valid() && p.m + 1 < p.n
    ensures y == p.temper(X(p, StartOf(p, how), 2 * p.n + 1))
  {
    var g := Fresh(p, how);
    var _ := g.Int();
    y := WordAfterBatches(g);
  }

  /** The second number of a 64-bit generator with the default seed: either way alone gives one and
      the same, either way after the other a different one. */
  method SecondNumbers(how: Setup) returns (words: bv64, batches: bv64, wordThenBatch: bv64, batchThenWord: bv64)
    requires how == Default || how == BySeed(5489)
    ensures words == batches == Output(Mt19937b64(), StartOf(Mt19937b64(), how), 1)
    ensures wordThenBatch != words && batchThenWord != words
  {
    var p := Mt19937b64();
    Sound64();
    Tells64();
    StartInWord(p, how);
    StartGrown(how);
    Differ(StartOf(p, how));
    words := Second(p, how, Words);
    batches := Second(p, how, Batches);
    wordThenBatch := WordThenBatch(p, how);
    batchThenWord := BatchThenWord(p, how);
  }

  lemma StartGrown(how: Setup)
    requires how == Default || how == BySeed(5489)
    ensures Grown(true, StartOf(Mt19937b64(), how), 5489)
  {
    SeededGrown(true, 5489);
  }
}
