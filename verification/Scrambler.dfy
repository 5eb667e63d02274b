/** The 64b/66b scrambler and descrambler of src/eth/tb/baser.py: the self-synchronising
    polynomial 1 + x^39 + x^58 of IEEE 802.3 sections 49.2.6 and 49.2.10, bit by bit. */
module Scrambler {
  const TAPS := 58

  /** The 58-bit register: index 0 is the bit shifted in last. */
  type State = s: seq<bool> | |s| == TAPS witness seq(TAPS, i => false)

  predicate Xor(a: bool, b: bool) {
    a != b
  }

  /** The line bit `k` places before place `n`: from the line itself, or, before its
      start, from the register. */
  function Back(s: State, line: seq<bool>, n: int, k: nat): bool
    requires 0 <= n <= |line| && 1 <= k <= TAPS
  {
    if n >= k then line[n - k] else s[k - n - 1]
  }

  function Feedback(s: State, line: seq<bool>, n: int): bool
    requires 0 <= n <= |line|
  {
    Xor(Back(s, line, n, 39), Back(s, line, n, 58))
  }

  /** The register after `line` has gone through it. */
  function After(s: State, line: seq<bool>): State {
    seq(TAPS, i requires 0 <= i < TAPS => Back(s, line, |line|, i + 1))
  }

  /** `line` is `data` scrambled from register `s`. */
  ghost predicate Scrambles(s: State, data: seq<bool>, line: seq<bool>) {
    && |line| == |data|
    && forall n :: 0 <= n < |data| ==> line[n] == Xor(Feedback(s, line, n), data[n])
  }

  /** `data` is `line` descrambled from register `s`. */
  ghost predicate Descrambles(s: State, line: seq<bool>, data: seq<bool>) {
    && |line| == |data|
    && forall n :: 0 <= n < |data| ==> data[n] == Xor(Feedback(s, line, n), line[n])
  }

  // ----- the two loops -----

  method ScrambleBlock(state: State, data: seq<bool>) returns (b: seq<bool>, next: State)
    ensures Scrambles(state, data, b) && next == After(state, b)
    ensures |b| == |data| && forall n :: 0 <= n < |b| ==>
      (b[n] <==> (data[n] != ((if n < 39 then state[38 - n] else b[n - 39]) != (if n < 58 then state[57 - n] else b[n - 58]))))
    ensures forall i :: 0 <= i < 58 ==> next[i] == if i < |b| then b[|b| - 1 - i] else state[i - |b|]
  {
    b, next := [], state;
    for i := 0 to |data|
      invariant |b| == i && Scrambles(state, data[..i], b)
      invariant next == After(state, b)
    {
      ghost var before := b;
      if Xor(Xor(next[38], next[57]), data[i]) {
        next := [true] + next[..57];
        b := b + [true];
      } else {
        next := [false] + next[..57];
        b := b + [false];
      }
      Shifted(state, before, b[i]);
      assert data[..i + 1] == data[..i] + [data[i]];
    }
    assert data[..|data|] == data;
  }

  method DescrambleBlock(state: State, line: seq<bool>) returns (b: seq<bool>, next: State)
    ensures Descrambles(state, line, b) && next == After(state, line)
    ensures |b| == |line| && forall n :: 0 <= n < |b| ==>
      (b[n] <==> (line[n] != ((if n < 39 then state[38 - n] else line[n - 39]) != (if n < 58 then state[57 - n] else line[n - 58]))))
    ensures forall i :: 0 <= i < 58 ==> next[i] == if i < |line| then line[|line| - 1 - i] else state[i - |line|]
  {
    b, next := [], state;
    for i := 0 to |line|
      invariant |b| == i && Descrambles(state, line[..i], b)
      invariant next == After(state, line[..i])
    {
      b := b + [Xor(Xor(next[38], next[57]), line[i])];
      next := [line[i]] + next[..57];
      Shifted(state, line[..i], line[i]);
      assert line[..i + 1] == line[..i] + [line[i]];
    }
    assert line[..|line|] == line;
  }

  /** One more line bit moves the register by one place and changes no earlier tap. */
  lemma Shifted(s: State, line: seq<bool>, x: bool)
    ensures After(s, line + [x]) == [x] + After(s, line)[..57]
    ensures Feedback(s, line + [x], |line|) == Xor(After(s, line)[38], After(s, line)[57])
    ensures forall n :: 0 <= n < |line| ==> Feedback(s, line + [x], n) == Feedback(s, line, n)
  {
  }

  // ----- what they promise -----

  /** Self-synchronisation: whatever the two registers start with, every bit from the
      58th on comes out as it went in. */
  lemma SelfSynchronises(s: State, t: State, data: seq<bool>, line: seq<bool>, out: seq<bool>)
    requires Scrambles(s, data, line) && Descrambles(t, line, out)
    ensures forall n :: TAPS <= n < |data| ==> out[n] == data[n]
  {
  }

  /** With equal registers every bit does, and the registers stay equal. */
  lemma InSync(s: State, data: seq<bool>, line: seq<bool>, out: seq<bool>)
    requires Scrambles(s, data, line) && Descrambles(s, line, out)
    ensures out == data
  {
  }

  /** Exactly which of the first 58 bits are wrong: those whose two taps disagree once. */
  lemma StartupErrors(s: State, t: State, data: seq<bool>, line: seq<bool>, out: seq<bool>, n: nat)
    requires Scrambles(s, data, line) && Descrambles(t, line, out) && n < |data|
    ensures out[n] != data[n] <==> Xor(n < 39 && s[38 - n] != t[38 - n], n < 58 && s[57 - n] != t[57 - n])
  {
  }

  /** Whatever the registers held, the receiver's is the sender's after 58 line bits. */
  lemma RegistersMeet(s: State, t: State, line: seq<bool>)
    requires |line| >= TAPS
    ensures After(s, line) == After(t, line)
  {
  }

  /** One line bit received wrong corrupts the three outputs that see it and no other. */
  lemma ErrorSpread(t: State, line: seq<bool>, i: nat, good: seq<bool>, bad: seq<bool>)
    requires i < |line|
    requires Descrambles(t, line, good) && Descrambles(t, line[i := !line[i]], bad)
    ensures forall n :: 0 <= n < |line| ==> (bad[n] != good[n] <==> n == i || n == i + 39 || n == i + 58)
  {
  }

  /** Working block by block, with the register carried over, scrambles the stream. */
  lemma BlocksChain(s: State, d1: seq<bool>, l1: seq<bool>, d2: seq<bool>, l2: seq<bool>)
    requires Scrambles(s, d1, l1) && Scrambles(After(s, l1), d2, l2)
    ensures Scrambles(s, d1 + d2, l1 + l2) && After(s, l1 + l2) == After(After(s, l1), l2)
  {
    BackChains(s, l1, l2);
    forall n | 0 <= n < |d1| + |d2|
      ensures (l1 + l2)[n] == Xor(Feedback(s, l1 + l2, n), (d1 + d2)[n])
    {
      if n >= |d1| {
        var m := n - |d1|;
        assert l2[m] == Xor(Feedback(After(s, l1), l2, m), d2[m]);
        assert Feedback(After(s, l1), l2, m) == Feedback(s, l1 + l2, |l1| + m);
      } else {
        assert l1[n] == Xor(Feedback(s, l1, n), d1[n]);
      }
    }
  }

  lemma DescrambleChains(s: State, l1: seq<bool>, d1: seq<bool>, l2: seq<bool>, d2: seq<bool>)
    requires Descrambles(s, l1, d1) && Descrambles(After(s, l1), l2, d2)
    ensures Descrambles(s, l1 + l2, d1 + d2)
  {
    BackChains(s, l1, l2);
  }

  lemma BackChains(s: State, l1: seq<bool>, l2: seq<bool>)
    ensures forall n :: 0 <= n <= |l1| ==> Feedback(s, l1 + l2, n) == Feedback(s, l1, n)
    ensures forall n, k :: 0 <= n <= |l2| && 1 <= k <= TAPS ==>
      Back(After(s, l1), l2, n, k) == Back(s, l1 + l2, |l1| + n, k)
    ensures forall n :: 0 <= n <= |l2| ==> Feedback(After(s, l1), l2, n) == Feedback(s, l1 + l2, |l1| + n)
    ensures After(s, l1 + l2) == After(After(s, l1), l2)
  {
  }

  // ----- runs of blocks -----

  function Flat(blocks: seq<seq<bool>>): seq<bool> {
    if blocks == [] then [] else Flat(blocks[..|blocks| - 1]) + blocks[|blocks| - 1]
  }

  predicate SameShape(xs: seq<seq<bool>>, ys: seq<seq<bool>>) {
    |xs| == |ys| && forall i :: 0 <= i < |xs| ==> |xs[i]| == |ys[i]|
  }

  lemma FlatMore(blocks: seq<seq<bool>>, b: seq<bool>)
    ensures Flat(blocks + [b]) == Flat(blocks) + b
  {
    assert (blocks + [b])[..|blocks|] == blocks;
  }

  lemma NothingYet(s: State)
    ensures After(s, []) == s
  {
  }

  /** Block after block, the register carried over: the stream of all blocks is scrambled. */
  method ScrambleBlocks(state: State, blocks: seq<seq<bool>>) returns (line: seq<seq<bool>>, next: State)
    ensures SameShape(line, blocks)
    ensures Scrambles(state, Flat(blocks), Flat(line)) && next == After(state, Flat(line))
  {
    line, next := [], state;
    NothingYet(state);
    for i := 0 to |blocks|
      invariant SameShape(line, blocks[..i])
      invariant Scrambles(state, Flat(blocks[..i]), Flat(line)) && next == After(state, Flat(line))
    {
      ghost var before := line;
      var b;
      b, next := ScrambleBlock(next, blocks[i]);
      line := line + [b];
      assert blocks[..i + 1] == blocks[..i] + [blocks[i]];
      FlatMore(blocks[..i], blocks[i]);
      FlatMore(before, b);
      BlocksChain(state, Flat(blocks[..i]), Flat(before), blocks[i], b);
    }
    assert blocks[..|blocks|] == blocks;
  }

  method DescrambleBlocks(state: State, line: seq<seq<bool>>) returns (blocks: seq<seq<bool>>, next: State)
    ensures SameShape(blocks, line)
    ensures Descrambles(state, Flat(line), Flat(blocks)) && next == After(state, Flat(line))
  {
    blocks, next := [], state;
    NothingYet(state);
    for i := 0 to |line|
      invariant SameShape(blocks, line[..i])
      invariant Descrambles(state, Flat(line[..i]), Flat(blocks)) && next == After(state, Flat(line[..i]))
    {
      ghost var before := blocks;
      var b;
      b, next := DescrambleBlock(next, line[i]);
      blocks := blocks + [b];
      assert line[..i + 1] == line[..i] + [line[i]];
      FlatMore(line[..i], line[i]);
      FlatMore(before, b);
      DescrambleChains(state, Flat(line[..i]), Flat(before), line[i], b);
      BackChains(state, Flat(line[..i]), line[i]);
    }
    assert line[..|line|] == line;
  }

  /** Where block k begins in the stream. */
  function Start(blocks: seq<seq<bool>>, k: nat): nat
    requires k <= |blocks|
  {
    |Flat(blocks[..k])|
  }

  lemma {:induction false} FlatAt(blocks: seq<seq<bool>>, k: nat, i: nat)
    requires k < |blocks| && i < |blocks[k]|
    ensures Start(blocks, k) + i < |Flat(blocks)| && Flat(blocks)[Start(blocks, k) + i] == blocks[k][i]
  {
    var n := |blocks| - 1;
    if k < n {
      FlatAt(blocks[..n], k, i);
      assert blocks[..n][..k] == blocks[..k];
    }
  }

  lemma {:induction false} SameStarts(xs: seq<seq<bool>>, ys: seq<seq<bool>>, k: nat)
    requires SameShape(xs, ys) && k <= |xs|
    ensures Start(xs, k) == Start(ys, k)
  {
    if k > 0 {
      SameStarts(xs, ys, k - 1);
      assert xs[..k] == xs[..k - 1] + [xs[k - 1]] && ys[..k] == ys[..k - 1] + [ys[k - 1]];
      FlatMore(xs[..k - 1], xs[k - 1]);
      FlatMore(ys[..k - 1], ys[k - 1]);
    }
  }

  /** Any number of blocks through both ends, whatever registers they start with: every block that
      begins 58 bits or more into the stream comes out as it went in, and with equal registers all
      blocks do. */
  method Through(s: State, t: State, blocks: seq<seq<bool>>) returns (out: seq<seq<bool>>)
    ensures SameShape(out, blocks)
    ensures forall k :: 0 <= k < |blocks| && (Start(blocks, k) >= TAPS || s == t) ==> out[k] == blocks[k]
  {
    var line, mine := ScrambleBlocks(s, blocks);
    var theirs;
    out, theirs := DescrambleBlocks(t, line);
    SelfSynchronises(s, t, Flat(blocks), Flat(line), Flat(out));
    if s == t {
      InSync(s, Flat(blocks), Flat(line), Flat(out));
    }
    forall k | 0 <= k < |blocks| && (Start(blocks, k) >= TAPS || s == t)
      ensures out[k] == blocks[k]
    {
      SameBlock(out, blocks, k);
    }
  }

  lemma SameBlock(xs: seq<seq<bool>>, ys: seq<seq<bool>>, k: nat)
    requires SameShape(xs, ys) && k < |ys| && |Flat(xs)| == |Flat(ys)|
    requires forall n :: Start(ys, k) <= n < |Flat(ys)| ==> Flat(xs)[n] == Flat(ys)[n]
    ensures xs[k] == ys[k]
  {
    SameStarts(xs, ys, k);
    forall i | 0 <= i < |ys[k]|
      ensures xs[k][i] == ys[k][i]
    {
      FlatAt(xs, k, i);
      FlatAt(ys, k, i);
    }
  }

  /** Bit i of block k received wrong: of the whole stream exactly the three bits that see it come
      out wrong, in this block or later ones. */
  method Received(t: State, line: seq<seq<bool>>, k: nat, i: nat) returns (good: seq<seq<bool>>, bad: seq<seq<bool>>)
    requires k < |line| && i < |line[k]|
    ensures SameShape(good, line) && SameShape(bad, line) && |Flat(good)| == |Flat(bad)| == |Flat(line)|
    ensures forall n :: 0 <= n < |Flat(line)| ==>
      (Flat(bad)[n] != Flat(good)[n] <==> n - Start(line, k) in {i, i + 39, i + 58})
  {
    var next;
    good, next := DescrambleBlocks(t, line);
    var wrong := line[k := line[k][i := !line[k][i]]];
    bad, next := DescrambleBlocks(t, wrong);
    FlatFlip(line, k, i);
    ErrorSpread(t, Flat(line), Start(line, k) + i, Flat(good), Flat(bad));
  }

  lemma {:induction false} FlatFlip(blocks: seq<seq<bool>>, k: nat, i: nat)
    requires k < |blocks| && i < |blocks[k]|
    ensures var at := Start(blocks, k) + i;
            && at < |Flat(blocks)|
            && Flat(blocks[k := blocks[k][i := !blocks[k][i]]]) == Flat(blocks)[at := !Flat(blocks)[at]]
  {
    var n := |blocks| - 1;
    var flipped := blocks[k][i := !blocks[k][i]];
    FlatAt(blocks, k, i);
    if k < n {
      FlatFlip(blocks[..n], k, i);
      assert blocks[..n][..k] == blocks[..k];
      assert blocks[k := flipped][..n] == blocks[..n][k := flipped];
    } else {
      assert blocks[k := flipped][..n] == blocks[..n];
    }
  }
}
