/** The one-wire link of src/ptp/tb/ptp_td.py: a message is sent as words of a start bit and
    16 data bits, low bit first, and the line idles high between messages. */
module PtpSerial {
  import opened Arith
  import opened Base

  const WORD := 17

  // ---- bits of a word ----

  /** w >> b. */
  function Shifted(w: int, b: nat): int {
    if b == 0 then w else Shifted(w, b - 1) / 2
  }

  predicate Bit(w: int, b: nat) {
    Shifted(w, b) % 2 == 1
  }

  /** The low b bits of w, put together bit by bit. */
  function Low(w: int, b: nat): int {
    if b == 0 then 0 else Low(w, b - 1) + if Bit(w, b - 1) then Pow2(b - 1) else 0
  }

  lemma {:induction false} LowRest(w: int, b: nat)
    ensures w == Low(w, b) + Pow2(b) * Shifted(w, b)
    ensures 0 <= Low(w, b) < Pow2(b)
  {
    if b > 0 {
      LowRest(w, b - 1);
      Halved(Pow2(b - 1), Shifted(w, b - 1));
    }
  }

  lemma Halved(p: int, h: int)
    ensures p * h == (2 * p) * (h / 2) + if h % 2 == 1 then p else 0
  {
    Scaled(p, h / 2, h % 2, h);
  }

  lemma Scaled(p: int, q: int, r: int, h: int)
    requires h == 2 * q + r
    ensures p * h == (2 * p) * q + p * r
  {
  }

  /** Sixteen bits are the word, when it has no more. */
  lemma WholeWord(w: int)
    ensures Low(w, 16) == w % 0x1_0000
    ensures 0 <= w < 0x1_0000 ==> Low(w, 16) == w
  {
    LowRest(w, 16);
    Pow2Is16();
  }

  // ---- the line ----

  /** The line u cycles after a message starts. */
  function Line(words: seq<int>, u: nat): bool {
    if u >= WORD * |words| then true
    else u % WORD != 0 && Bit(words[u / WORD], u % WORD - 1)
  }

  /** What arrives of the words. */
  function Lows(words: seq<int>): seq<int> {
    seq(|words|, i requires 0 <= i < |words| => Low(words[i], 16))
  }

  class Sender {
    var msg: seq<int>
    var word: Option<int>
    var bitIndex: nat
    var data: bool

    constructor ()
      ensures fresh(this) && word == None && msg == [] && data
    {
      msg, word, bitIndex, data := [], None, 0, true;
    }

    /** u cycles into sending words. */
    ghost predicate Sending(words: seq<int>, u: nat)
      reads this
    {
      && data == Line(words, u)
      && if u >= WORD * |words| then msg == [] && word == None
         else
           && msg == words[u / WORD + 1..]
           && (if u % WORD == WORD - 1 then word == None
               else word == Some(words[u / WORD]) && bitIndex == u % WORD)
    }

    method Edge()
      requires word.Some? ==> bitIndex < 16
      modifies this
      ensures old(word) == None && old(msg) == [] ==> word == None && msg == [] && data
      ensures old(word) == None && old(msg) != [] ==>
        word == Some(old(msg)[0]) && msg == old(msg)[1..] && bitIndex == 0 && !data
      ensures old(word).Some? ==>
        && data == Bit(old(word).value, old(bitIndex)) && msg == old(msg) && bitIndex == old(bitIndex) + 1
        && word == if bitIndex == 16 then None else old(word)
    {
      match word {
        case None =>
          if msg != [] {
            word, msg, bitIndex, data := Some(msg[0]), msg[1..], 0, false;
          } else {
            data := true;
          }
        case Some(w) =>
          data := Bit(w, bitIndex);
          bitIndex := bitIndex + 1;
          if bitIndex == 16 {
            word := None;
          }
      }
    }

    method Start(words: seq<int>)
      requires word == None && words != []
      modifies this
      ensures Sending(words, 0)
    {
      msg := words;
      Edge();
    }

    method Continue(ghost words: seq<int>, ghost u: nat)
      requires Sending(words, u)
      modifies this
      ensures Sending(words, u + 1)
    {
      Edge();
    }
  }

  /** A receiver between two edges. */
  datatype Rx = Rx(curMsg: seq<int>, word: Option<int>, bitIndex: nat) {
    predicate Valid() {
      word.Some? ==> bitIndex < 16
    }

    predicate Quiet() {
      curMsg == [] && word == None
    }

    /** The line has been sampled up to cycle v of words. */
    predicate Sampled(words: seq<int>, v: nat) {
      if v >= WORD * |words| then Quiet()
      else if v % WORD == WORD - 1 then curMsg == Lows(words[..v / WORD + 1]) && word == None
      else curMsg == Lows(words[..v / WORD]) && word == Some(Low(words[v / WORD], v % WORD)) && bitIndex == v % WORD
    }

    /** The receiver after one more sample. */
    function Then(sample: bool): (r: Rx)
      requires Valid()
      ensures r.Valid()
    {
      match word
      case None =>
        if !sample then Rx(curMsg, Some(0), 0) else Rx([], None, bitIndex)
      case Some(w) =>
        var x := w + if sample then Pow2(bitIndex) else 0;
        if bitIndex == 15 then Rx(curMsg + [x], None, 16) else Rx(curMsg, Some(x), bitIndex + 1)
    }

    /** The message that sample completes. */
    function Done(sample: bool): Option<seq<int>> {
      if word == None && sample && curMsg != [] then Some(curMsg) else None
    }
  }

  lemma FirstSample(x: Rx, words: seq<int>)
    requires x.Quiet() && words != []
    ensures x.Then(Line(words, 0)).Sampled(words, 0) && x.Done(Line(words, 0)) == None
  {
    assert words[..0] == [] && Lows(words[..0]) == [];
  }

  /** The message is handed over at the first idle cycle, and then only. */
  lemma NextSample(x: Rx, words: seq<int>, v: nat)
    requires x.Sampled(words, v) && words != []
    ensures x.Valid() && x.Then(Line(words, v + 1)).Sampled(words, v + 1)
    ensures x.Done(Line(words, v + 1)) == if v + 1 == WORD * |words| then Some(Lows(words)) else None
  {
    if v < WORD * |words| {
      LowsGrow(words, v / WORD);
    }
  }

  class Receiver {
    var curMsg: seq<int>
    var word: Option<int>
    var bitIndex: nat

    constructor ()
      ensures fresh(this) && State().Quiet()
    {
      curMsg, word, bitIndex := [], None, 0;
    }

    function State(): Rx
      reads this
    {
      Rx(curMsg, word, bitIndex)
    }

    method Edge(sample: bool) returns (done: Option<seq<int>>)
      requires State().Valid()
      modifies this
      ensures State() == old(State()).Then(sample) && done == old(State()).Done(sample)
    {
      done := None;
      match word {
        case Some(w) =>
          var x := w + if sample then Pow2(bitIndex) else 0;
          word := Some(x);
          bitIndex := bitIndex + 1;
          if bitIndex == 16 {
            curMsg := curMsg + [x];
            word := None;
          }
        case None =>
          if !sample {
            word, bitIndex := Some(0), 0;
          } else if curMsg != [] {
            done := Some(curMsg);
            curMsg := [];
          }
      }
    }
  }

  lemma LowsGrow(words: seq<int>, i: nat)
    requires i < |words|
    ensures Lows(words[..i + 1]) == Lows(words[..i]) + [Low(words[i], 16)]
    ensures Lows(words[..|words|]) == Lows(words)
  {
    assert words[..|words|] == words;
  }

  lemma AllWords(words: seq<int>)
    requires forall i :: 0 <= i < |words| ==> 0 <= words[i] < 0x1_0000
    ensures Lows(words) == words
  {
    forall i | 0 <= i < |words|
      ensures Low(words[i], 16) == words[i]
    {
      WholeWord(words[i]);
    }
  }
}
