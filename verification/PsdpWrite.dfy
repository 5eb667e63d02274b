/** The write side of src/dma/tb/dma_psdp_ram.py: PsdpRamMasterWrite and PsdpRamWrite as two
    clocked machines that meet at a valid and ready pair for every segment. */
module PsdpWrite {
  import opened Arith
  import opened Base
  import opened PsdpRam

  /** What a waiting write still needs to be reported. */
  datatype RespCmd = RespCmd(address: nat, length: nat, segments: nat, firstSeg: nat)

  function BaseOf(g: Geometry, t: Tagged): nat {
    MulNonNegative(t.op.row, g.segs);
    MulNonNegative(t.op.row * g.segs + t.seg, g.lanes);
    (t.op.row * g.segs + t.seg) * g.lanes
  }

  /** A word of the right shape, for one of the segments, that stays inside memory. */
  predicate Placed(g: Geometry, t: Tagged, size: nat) {
    && t.seg < g.segs && WordShaped(g, t.op)
    && forall j :: 0 <= j < g.lanes && t.op.be[j] ==> BaseOf(g, t) + j < size
  }

  lemma ByteInWord(g: Geometry, t: Tagged, b: nat)
    requires g.Valid() && WordShaped(g, t.op)
    ensures Covers(g, t.seg, t.op, b) <==> BaseOf(g, t) <= b < BaseOf(g, t) + g.lanes && t.op.be[b - BaseOf(g, t)]
    ensures Covers(g, t.seg, t.op, b) ==> b % g.lanes == b - BaseOf(g, t)
  {
    var c := t.op.row * g.segs + t.seg;
    MulNonNegative(t.op.row, g.segs);
    if BaseOf(g, t) <= b < BaseOf(g, t) + g.lanes {
      DivUnique(b, g.lanes, c, b - BaseOf(g, t));
    }
    assert b == b / g.lanes * g.lanes + b % g.lanes;
  }

  /** The first n bytes of a word written at base under their enables. */
  predicate Masked(base: nat, op: Op, before: seq<bv8>, n: nat, after: seq<bv8>) {
    && |op.data| == |op.be| && |after| == |before|
    && forall b :: 0 <= b < |before| ==> after[b] == MaskedByte(base, op, before[b], n, b)
  }

  function MaskedByte(base: nat, op: Op, v: bv8, n: nat, b: nat): bv8
    requires |op.data| == |op.be|
  {
    if base <= b < base + n && b - base < |op.be| && op.be[b - base] then op.data[b - base] else v
  }

  lemma StoreAt(mem: seq<bv8>, address: nat, data: seq<bv8>, b: nat)
    requires address + |data| <= |mem| && b < |mem|
    ensures Store(mem, address, data)[b] == if address <= b < address + |data| then data[b - address] else mem[b]
  {
  }

  lemma StoresMore(mem: seq<bv8>, runs: seq<Write>, w: Write)
    requires AllFit(runs, |mem|) && Fits(w, |mem|)
    ensures AllFit(runs + [w], |mem|) && Stores(mem, runs + [w]) == Store(Stores(mem, runs), w.address, w.data)
  {
    assert (runs + [w])[..|runs|] == runs;
  }

  /** A run [start, stop) of enabled bytes closes what is masked up to start. */
  lemma RunMasks(base: nat, op: Op, before: seq<bv8>, start: nat, stop: nat, now: seq<bv8>)
    requires start <= stop <= |op.be| && base + stop <= |before|
    requires forall j :: start <= j < stop ==> op.be[j]
    requires Masked(base, op, before, start, now)
    ensures Masked(base, op, before, stop, Store(now, base + start, op.data[start..stop]))
  {
    var run := op.data[start..stop];
    forall b | 0 <= b < |before|
      ensures Store(now, base + start, run)[b] == MaskedByte(base, op, before[b], stop, b)
    {
      StoreAt(now, base + start, run, b);
    }
  }

  /** A byte that is not enabled changes nothing. */
  lemma GapMasks(base: nat, op: Op, before: seq<bv8>, n: nat, now: seq<bv8>)
    requires Masked(base, op, before, n, now) && (n < |op.be| ==> !op.be[n])
    ensures Masked(base, op, before, n + 1, now)
  {
    forall b | 0 <= b < |before|
      ensures now[b] == MaskedByte(base, op, before[b], n + 1, b)
    {
      assert now[b] == MaskedByte(base, op, before[b], n, b);
    }
  }

  class RamWrite {
    const g: Geometry
    const mem: array<bv8>

    var ready: seq<bool>
    var done: seq<bool>

    /** What memory held at first, and the words that have reached each segment. */
    ghost var initial: seq<bv8>
    ghost var landed: seq<seq<Tagged>>

    constructor (geometry: Geometry, contents: seq<bv8>)
      requires geometry.Valid() && |contents| == geometry.Size()
      ensures Valid() && fresh(this) && fresh(mem) && g == geometry
      ensures initial == contents && landed == seq(g.segs, s => [])
      ensures ready == seq(g.segs, s => false) && done == seq(g.segs, s => false)
    {
      g := geometry;
      mem := new bv8[|contents|](i requires 0 <= i < |contents| => contents[i]);
      ready, done := seq(geometry.segs, s => false), seq(geometry.segs, s => false);
      initial, landed := contents, seq(geometry.segs, s => []);
    }

    ghost predicate Valid()
      reads this, mem
    {
      && g.Valid() && mem.Length == g.Size() == |initial|
      && |ready| == g.segs && |done| == g.segs && |landed| == g.segs
      && (forall s :: 0 <= s < g.segs ==> AllShaped(g, landed[s]))
      && Holds(mem[..])
    }

    /** Every byte holds what the words that have reached its segment made of it. */
    ghost predicate Holds(bytes: seq<bv8>)
      requires g.Valid() && |landed| == g.segs && |initial| == |bytes|
      requires forall s :: 0 <= s < g.segs ==> AllShaped(g, landed[s])
      reads this
    {
      forall b :: 0 <= b < |bytes| ==> bytes[b] == AfterAll(g, initial[b], landed[Seg(g, b)], b)
    }

    /** Memory.write */
    method WriteBytes(address: nat, data: seq<bv8>)
      requires address + |data| <= mem.Length
      modifies mem
      ensures mem[..] == Store(old(mem[..]), address, data)
    {
      forall i | 0 <= i < |data| {
        mem[address + i] := data[i];
      }
    }

    /** One more run of enabled bytes. */
    method AddRun(base: nat, op: Op, start: nat, stop: nat, runs: seq<Write>) returns (more: seq<Write>)
      requires start <= stop <= |op.be| && base + stop <= mem.Length && AllFit(runs, mem.Length)
      requires forall j :: start <= j < stop ==> op.be[j]
      requires Masked(base, op, mem[..], start, Stores(mem[..], runs))
      ensures AllFit(more, mem.Length) && Masked(base, op, mem[..], stop, Stores(mem[..], more))
    {
      var run := Write(base + start, op.data[start..stop]);
      more := runs + [run];
      MoreRuns(base, op, mem[..], start, stop, runs, run);
    }

    lemma MoreRuns(base: nat, op: Op, before: seq<bv8>, start: nat, stop: nat, runs: seq<Write>, run: Write)
      requires start <= stop <= |op.data| == |op.be| && base + stop <= |before| && AllFit(runs, |before|)
      requires forall j :: start <= j < stop ==> op.be[j]
      requires Masked(base, op, before, start, Stores(before, runs))
      requires run == PsdpRam.Write(base + start, op.data[start..stop])
      ensures AllFit(runs + [run], |before|) && Masked(base, op, before, stop, Stores(before, runs + [run]))
    {
      StoresMore(before, runs, run);
      RunMasks(base, op, before, start, stop, Stores(before, runs));
    }

    /** The runs of enabled bytes of a word at base; the source looks at as many bytes as all segments have. */
    method Runs(base: nat, op: Op, byteLanes: nat) returns (runs: seq<Write>)
      requires |op.data| == |op.be| <= byteLanes
      requires forall j :: 0 <= j < |op.be| && op.be[j] ==> base + j < mem.Length
      ensures AllFit(runs, mem.Length) && Masked(base, op, mem[..], byteLanes, Stores(mem[..], runs))
    {
      var start: int := -1;
      runs := [];
      for i := 0 to byteLanes
        invariant -1 <= start < i && (start >= 0 ==> i <= |op.be|)
        invariant AllFit(runs, mem.Length)
        invariant start >= 0 ==> forall j :: start <= j < i ==> op.be[j]
        invariant Masked(base, op, mem[..], if start >= 0 then start else i, Stores(mem[..], runs))
      {
        if i < |op.be| && op.be[i] {
          if start < 0 {
            start := i;
          }
        } else {
          if start >= 0 && i != start {
            assert op.be[i - 1];
            runs := AddRun(base, op, start, i, runs);
          }
          GapMasks(base, op, mem[..], i, Stores(mem[..], runs));
          start := -1;
        }
      }
      if start >= 0 && byteLanes != start {
        assert op.be[byteLanes - 1];
        runs := AddRun(base, op, start, byteLanes, runs);
      }
    }

    method WriteWord(base: nat, op: Op, byteLanes: nat)
      requires |op.data| == |op.be| <= byteLanes
      requires forall j :: 0 <= j < |op.be| && op.be[j] ==> base + j < mem.Length
      modifies mem
      ensures Masked(base, op, old(mem[..]), byteLanes, mem[..])
    {
      var runs := Runs(base, op, byteLanes);
      ghost var before := mem[..];
      for i := 0 to |runs|
        invariant mem[..] == Stores(before, runs[..i])
      {
        StoresMore(before, runs[..i], runs[i]);
        assert runs[..i + 1] == runs[..i] + [runs[i]];
        WriteBytes(runs[i].address, runs[i].data);
      }
      assert runs[..|runs|] == runs;
    }

    /** One word written under its byte enables. */
    method Land(t: Tagged)
      requires Valid() && Placed(g, t, mem.Length)
      modifies this`landed, mem
      ensures Valid() && landed == old(landed)[t.seg := old(landed)[t.seg] + [t]]
    {
      MulGrows(g.lanes, g.segs);
      ghost var before := mem[..];
      WriteWord(BaseOf(g, t), t.op, g.lanes * g.segs);
      LandHolds(before, mem[..], t, g.lanes * g.segs);
      landed := landed[t.seg := landed[t.seg] + [t]];
    }

    lemma LandHolds(before: seq<bv8>, after: seq<bv8>, t: Tagged, n: nat)
      requires g.Valid() && |landed| == g.segs && |before| == |initial|
      requires forall s :: 0 <= s < g.segs ==> AllShaped(g, landed[s])
      requires Holds(before) && t.seg < g.segs && WordShaped(g, t.op) && n >= g.lanes
      requires Masked(BaseOf(g, t), t.op, before, n, after)
      ensures var more := landed[t.seg := landed[t.seg] + [t]];
              && AllShaped(g, more[t.seg])
              && forall b :: 0 <= b < |after| ==> after[b] == AfterAll(g, initial[b], more[Seg(g, b)], b)
    {
      var more := landed[t.seg := landed[t.seg] + [t]];
      forall b | 0 <= b < |after|
        ensures after[b] == AfterAll(g, initial[b], more[Seg(g, b)], b)
      {
        ByteInWord(g, t, b);
        assert after[b] == MaskedByte(BaseOf(g, t), t.op, before[b], n, b);
        assert after[b] == After(g, before[b], t.seg, t.op, b);
        if Seg(g, b) == t.seg {
          assert more[t.seg][..|landed[t.seg]|] == landed[t.seg];
        } else if Covers(g, t.seg, t.op, b) {
          CoversOwn(g, t.seg, t.op, b);
        }
      }
    }

    /** One clock edge: words offered while ready land, and are acknowledged at the next edge. */
    method Edge(valid: seq<bool>, word: seq<Tagged>, grant: seq<bool>)
      requires Valid() && |valid| == g.segs && |word| == g.segs && |grant| == g.segs
      requires forall s :: 0 <= s < g.segs && valid[s] ==> Placed(g, word[s], mem.Length) && word[s].seg == s
      modifies this, mem
      ensures Valid() && ready == grant && initial == old(initial)
      ensures forall s :: 0 <= s < g.segs ==> done[s] == (old(ready)[s] && valid[s])
      ensures forall s :: 0 <= s < g.segs ==> landed[s] == old(landed)[s] + if done[s] then [word[s]] else []
    {
      var acks := seq(g.segs, s => false);
      for s := 0 to g.segs
        invariant Valid() && ready == old(ready) && initial == old(initial)
        invariant |acks| == g.segs && forall i :: 0 <= i < g.segs ==> acks[i] == (i < s && ready[i] && valid[i])
        invariant forall i :: 0 <= i < g.segs ==> landed[i] == old(landed)[i] + if acks[i] then [word[i]] else []
      {
        if ready[s] && valid[s] {
          Land(word[s]);
          acks := acks[s := true];
        }
      }
      ready := grant;
      done := acks;
    }
  }

  datatype AccessError = ValueError

  /** With the bus free and no pause the first word queued goes out. */
  predicate Launched(was: seq<Tagged>, queue: seq<Tagged>, valid: bool) {
    if was == [] then queue == [] && !valid else queue == was[1..] && valid
  }

  /** The words on their way to a segment: the one on the bus and those queued. */
  function Ahead(valid: bool, word: Tagged, queue: seq<Tagged>): seq<Tagged> {
    (if valid then [word] else []) + queue
  }

  /** What an edge leaves on the way, of `ahead` with `was` queued: a word accepted is off the bus. */
  predicate Paces(ready: bool, pause: bool, onBus: bool, was: seq<Tagged>, ahead: seq<Tagged>,
    valid: bool, word: Tagged, queue: seq<Tagged>)
  {
    && Ahead(valid, word, queue) == (if onBus && ready then was else ahead)
    && (!pause && (ready || !onBus) ==> Launched(was, queue, valid))
  }

  function RespOf(g: Geometry, w: Write): RespCmd
    requires g.Valid()
  {
    RespCmd(w.address, |w.data|, Segments(g, w.address, |w.data|), w.address / g.lanes % g.segs)
  }

  class MasterWrite {
    const g: Geometry

    /** seg_write_queue and seg_write_resp_queue, the latter as the number of tokens in it. */
    var queue: seq<seq<Tagged>>
    var resp: seq<nat>

    /** int_write_resp_command_queue, and the command being answered. */
    var cmds: seq<RespCmd>
    var cur: Option<RespCmd>
    var curSeg: nat
    var curK: nat
    var reported: seq<RespCmd>

    /** What is on the bus. */
    var valid: seq<bool>
    var word: seq<Tagged>

    constructor (geometry: Geometry)
      requires geometry.Valid()
      ensures Valid() && fresh(this) && g == geometry && cmds == [] && cur == None && reported == []
      ensures queue == seq(g.segs, s => []) && resp == seq(g.segs, s => 0) && valid == seq(g.segs, s => false)
    {
      g := geometry;
      queue, resp := seq(geometry.segs, s => []), seq(geometry.segs, s => 0);
      cmds, cur, curSeg, curK, reported := [], None, 0, 0, [];
      valid, word := seq(geometry.segs, s => false), seq(geometry.segs, s => Tagged(0, Op(0, [], [])));
    }

    ghost predicate Valid()
      reads this
    {
      && g.Valid() && |queue| == g.segs && |resp| == g.segs && |valid| == g.segs && |word| == g.segs
      && (cur.Some? ==> curSeg < g.segs)
    }

    /** The bytes of word k, from offset on in the data. */
    method Fill(w: Write, k: nat, start: nat, stop: nat, offset: nat) returns (val: seq<bv8>)
      requires g.Valid() && k < Segments(g, w.address, |w.data|)
      requires start == StartOf(g, w, k) && stop == StopOf(g, w, k) && offset == OffsetOf(g, w, k)
      ensures val == Word(g, w, k).op.data
    {
      WordBounds(g, w, k);
      val := seq(g.lanes, j => 0);
      var from := offset;
      for j := start to stop
        invariant from == offset + j - start && |val| == g.lanes
        invariant forall i :: 0 <= i < g.lanes ==> val[i] == if start <= i < j then WordByte(g, w, k, i) else 0
      {
        assert Enabled(g, w, k, j);
        val := val[j := w.data[from]];
        from := from + 1;
      }
      forall i | 0 <= i < g.lanes
        ensures val[i] == WordByte(g, w, k, i)
      {
        assert Enabled(g, w, k, i) <==> start <= i < stop;
      }
    }

    /** Word k, from offset on in the data. */
    method Build(w: Write, k: nat, start: nat, stop: nat, offset: nat, seg: nat) returns (t: Tagged)
      requires g.Valid() && k < Segments(g, w.address, |w.data|) && seg == Word(g, w, k).seg
      requires start == StartOf(g, w, k) && stop == StopOf(g, w, k) && offset == OffsetOf(g, w, k)
      ensures t == Word(g, w, k)
    {
      WordBounds(g, w, k);
      RowOf(g, w.address, k);
      var val := Fill(w, k, start, stop, offset);
      var be := seq(g.lanes, j => start <= j < stop);
      t := Tagged(seg, Op((w.address + k * g.lanes) / (g.lanes * g.segs), val, be));
    }

    method Enqueue(t: Tagged, ghost before: seq<seq<Tagged>>, ghost sofar: seq<Tagged>)
      requires Valid() && t.seg < g.segs && |before| == g.segs
      requires forall s :: 0 <= s < g.segs ==> queue[s] == before[s] + Only(sofar, s)
      modifies this`queue
      ensures Valid() && forall s :: 0 <= s < g.segs ==> queue[s] == before[s] + Only(sofar + [t], s)
    {
      queue := queue[t.seg := queue[t.seg] + [t]];
      assert (sofar + [t])[..|sofar|] == sofar;
    }

    lemma NextSeg(w: Write, k: nat)
      requires g.Valid()
      ensures Word(g, w, k + 1).seg == (Word(g, w, k).seg + 1) % g.segs
      ensures Words(g, w, k + 1) == Words(g, w, k) + [Word(g, w, k)]
    {
      RegisterStep(w.address / g.lanes + k, 1, g.segs);
    }

    /** _process_write: the words of a write go to their segments' queues. */
    method ProcessWrite(w: Write)
      requires Valid()
      modifies this`queue, this`cmds
      ensures Valid() && cmds == old(cmds) + [RespOf(g, w)]
      ensures forall s :: 0 <= s < g.segs ==>
        queue[s] == old(queue)[s] + Only(Words(g, w, Segments(g, w.address, |w.data|)), s)
    {
      var segments := (|w.data| + w.address % g.lanes + g.lanes - 1) / g.lanes;
      var segStart := w.address % g.lanes;
      var segEnd := (w.address + |w.data| - 1) % g.lanes + 1;
      var seg := w.address / g.lanes % g.segs;
      cmds := cmds + [RespCmd(w.address, |w.data|, segments, seg)];
      var offset := 0;
      for k := 0 to segments
        invariant Valid() && cmds == old(cmds) + [RespOf(g, w)]
        invariant seg == Word(g, w, k).seg && seg < g.segs
        invariant k < segments ==> offset == OffsetOf(g, w, k)
        invariant forall s :: 0 <= s < g.segs ==> queue[s] == old(queue)[s] + Only(Words(g, w, k), s)
      {
        WordBounds(g, w, k);
        NextSeg(w, k);
        var start := if k == 0 then segStart else 0;
        var stop := if k == segments - 1 then segEnd else g.lanes;
        var t := Build(w, k, start, stop, offset, seg);
        Enqueue(t, old(queue), Words(g, w, k));
        offset := offset + stop - start;
        seg := (seg + 1) % g.segs;
      }
    }

    /** _run's loop body for segment s. */
    method EdgeOf(s: nat, ready: bool, done: bool, pause: bool)
      requires Valid() && s < g.segs
      modifies this`queue, this`valid, this`word, this`resp
      ensures Valid() && resp == old(resp)[s := old(resp)[s] + if done then 1 else 0]
      ensures Paces(ready, pause, old(valid)[s], old(queue)[s], Ahead(old(valid)[s], old(word)[s], old(queue)[s]),
        valid[s], word[s], queue[s])
      ensures queue == old(queue)[s := queue[s]] && valid == old(valid)[s := valid[s]] && word == old(word)[s := word[s]]
    {
      if ready || !valid[s] {
        if queue[s] != [] && !pause {
          word := word[s := queue[s][0]];
          queue := queue[s := queue[s][1..]];
          valid := valid[s := true];
        } else {
          valid := valid[s := false];
        }
      }
      if done {
        resp := resp[s := resp[s] + 1];
      }
    }

    /** The part of one clock edge of _run that concerns writes. */
    method Edge(ready: seq<bool>, done: seq<bool>, pause: bool)
      requires Valid() && |ready| == g.segs && |done| == g.segs
      modifies this`queue, this`valid, this`word, this`resp
      ensures Valid()
      ensures forall s :: 0 <= s < g.segs ==> resp[s] == old(resp)[s] + if done[s] then 1 else 0
      ensures forall s :: 0 <= s < g.segs ==>
        Paces(ready[s], pause, old(valid)[s], old(queue)[s], Ahead(old(valid)[s], old(word)[s], old(queue)[s]),
          valid[s], word[s], queue[s])
    {
      for s := 0 to g.segs
        invariant Valid()
        invariant forall i :: 0 <= i < s ==> resp[i] == old(resp)[i] + if done[i] then 1 else 0
        invariant forall i :: 0 <= i < s ==>
          Paces(ready[i], pause, old(valid)[i], old(queue)[i], Ahead(old(valid)[i], old(word)[i], old(queue)[i]),
            valid[i], word[i], queue[i])
        invariant forall i :: s <= i < g.segs ==>
          queue[i] == old(queue)[i] && valid[i] == old(valid)[i] && word[i] == old(word)[i] && resp[i] == old(resp)[i]
      {
        EdgeOf(s, ready[s], done[s], pause);
      }
    }

    /** Nothing is on its way to any segment. */
    predicate Quiet()
      reads this
    {
      && (forall s :: 0 <= s < |queue| ==> queue[s] == [])
      && (forall s :: 0 <= s < |valid| ==> !valid[s])
    }

    // _process_write_resp, a step at a time

    /** The next command, when there is one. */
    method NextCommand()
      requires Valid() && cur == None
      modifies this`cmds, this`cur, this`curSeg, this`curK
      ensures Valid()
      ensures if old(cmds) == [] then cmds == [] && cur == None
              else && cur == Some(old(cmds)[0]) && cmds == old(cmds)[1..]
                   && curK == 0 && curSeg == cur.value.firstSeg % g.segs
    {
      if cmds != [] {
        cur, cmds := Some(cmds[0]), cmds[1..];
        curK, curSeg := 0, cur.value.firstSeg % g.segs;
      }
    }

    /** One word of the command acknowledged, when the queue of its segment has a token. */
    method TakeToken() returns (taken: bool)
      requires Valid() && cur.Some?
      modifies this`resp, this`curSeg, this`curK
      ensures Valid() && taken == (old(resp)[old(curSeg)] > 0)
      ensures !taken ==> resp == old(resp) && curSeg == old(curSeg) && curK == old(curK)
      ensures taken ==>
        && resp == old(resp)[old(curSeg) := old(resp)[old(curSeg)] - 1]
        && curSeg == (old(curSeg) + 1) % g.segs && curK == old(curK) + 1
    {
      taken := resp[curSeg] > 0;
      if taken {
        resp := resp[curSeg := resp[curSeg] - 1];
        curSeg := (curSeg + 1) % g.segs;
        curK := curK + 1;
      }
    }

    method Report()
      requires Valid() && cur.Some?
      modifies this`cur, this`reported
      ensures Valid() && cur == None && reported == old(reported) + [old(cur).value]
    {
      reported := reported + [cur.value];
      cur := None;
    }
  }

  // ---- the two together ----

  /** Of the words sent, the ones of the first n writes. */
  function WordsOf(g: Geometry, ws: seq<Write>, n: nat): seq<Tagged>
    requires g.Valid() && n <= |ws|
  {
    AllWords(g, ws[..n])
  }

  lemma WordsOfNext(g: Geometry, ws: seq<Write>, n: nat)
    requires g.Valid() && n < |ws|
    ensures WordsOf(g, ws, n + 1) == WordsOf(g, ws, n) + Words(g, ws[n], Segments(g, ws[n].address, |ws[n].data|))
  {
    assert ws[..n + 1][..n] == ws[..n];
  }

  /** Words of earlier writes come first. */
  lemma {:induction false} WordsOfPrefix(g: Geometry, ws: seq<Write>, m: nat, n: nat)
    requires g.Valid() && m <= n <= |ws|
    ensures WordsOf(g, ws, m) <= WordsOf(g, ws, n)
  {
    if m < n {
      WordsOfPrefix(g, ws, m, n - 1);
      WordsOfNext(g, ws, n - 1);
    }
  }

  /** What has been taken in, word by word: those of the writes before n and k of write n. */
  function Taken(g: Geometry, ws: seq<Write>, n: nat, k: nat): seq<Tagged>
    requires g.Valid() && n <= |ws|
  {
    WordsOf(g, ws, n) + if n < |ws| then Words(g, ws[n], k) else []
  }

  lemma PlacedWord(g: Geometry, w: Write, k: nat, size: nat)
    requires g.Valid() && Fits(w, size)
    ensures Placed(g, Word(g, w, k), size)
  {
    var t := Word(g, w, k);
    var chunk := w.address / g.lanes + k;
    assert chunk == chunk / g.segs * g.segs + chunk % g.segs;
    assert BaseOf(g, t) == chunk * g.lanes;
  }

  lemma {:induction false} PlacedWords(g: Geometry, ws: seq<Write>, size: nat, t: Tagged)
    requires g.Valid() && AllFit(ws, size) && t in AllWords(g, ws)
    ensures Placed(g, t, size)
  {
    var n := |ws| - 1;
    if t in AllWords(g, ws[..n]) {
      PlacedWords(g, ws[..n], size, t);
    } else {
      var k :| 0 <= k < Segments(g, ws[n].address, |ws[n].data|) && t == Word(g, ws[n], k);
      PlacedWord(g, ws[n], k, size);
    }
  }

  /** Where the words of every segment are: landed, on the bus or queued; and their acknowledgements. */
  datatype Traffic = Traffic(
    landed: seq<seq<Tagged>>,
    valid: seq<bool>,
    word: seq<Tagged>,
    queue: seq<seq<Tagged>>,
    done: seq<bool>,
    resp: seq<nat>
  ) {
    predicate Wide(n: nat) {
      |landed| == n && |valid| == n && |word| == n && |queue| == n && |done| == n && |resp| == n
    }

    function Coming(s: nat): seq<Tagged>
      requires s < |valid| && s < |word| && s < |queue|
    {
      Ahead(valid[s], word[s], queue[s])
    }

    /** Edges segment s still needs, at most, for its words to land and be acknowledged. */
    function Due(s: nat): nat
      requires s < |valid| && s < |queue| && s < |done|
    {
      3 * |queue[s]| + (if valid[s] then 2 else 0) + (if done[s] then 1 else 0)
    }
  }

  function One(b: bool): int {
    if b then 1 else 0
  }

  /** Every segment gets the words meant for it, in order: those landed and those still coming. */
  ghost predicate Flows(n: nat, all: seq<Tagged>, x: Traffic)
    requires x.Wide(n)
  {
    forall s :: 0 <= s < n ==> Only(all, s) == x.landed[s] + x.Coming(s)
  }

  /** Every word landed has been counted, is in the response queue, or is being acknowledged. */
  ghost predicate Acknowledged(n: nat, taken: seq<Tagged>, x: Traffic)
    requires x.Wide(n)
  {
    forall s :: 0 <= s < n ==> |Only(taken, s)| + x.resp[s] + One(x.done[s]) == |x.landed[s]|
  }

  /** What one edge does to the traffic of a segment. */
  predicate Moves(s: nat, ready: bool, x: Traffic, y: Traffic, n: nat)
    requires x.Wide(n) && y.Wide(n) && s < n
  {
    && y.done[s] == (ready && x.valid[s])
    && y.landed[s] == x.landed[s] + (if y.done[s] then [x.word[s]] else [])
    && y.Coming(s) == (if y.done[s] then x.queue[s] else x.Coming(s))
    && y.resp[s] == x.resp[s] + One(x.done[s])
  }

  lemma EdgeKeeps(n: nat, all: seq<Tagged>, taken: seq<Tagged>, ready: seq<bool>, x: Traffic, y: Traffic)
    requires x.Wide(n) && y.Wide(n) && |ready| == n && Flows(n, all, x) && Acknowledged(n, taken, x)
    requires forall s :: 0 <= s < n ==> Moves(s, ready[s], x, y, n)
    ensures Flows(n, all, y) && Acknowledged(n, taken, y)
  {
    forall s | 0 <= s < n
      ensures Only(all, s) == y.landed[s] + y.Coming(s)
      ensures |Only(taken, s)| + y.resp[s] + One(y.done[s]) == |y.landed[s]|
    {
      assert Moves(s, ready[s], x, y, n);
    }
  }

  /** Every segment that is not at rest comes nearer to it. */
  ghost predicate Nearer(n: nat, x: Traffic, y: Traffic)
    requires x.Wide(n) && y.Wide(n)
  {
    forall s :: 0 <= s < n ==> y.Due(s) < x.Due(s) || y.Due(s) == 0
  }

  /** With every segment granted and no pause, that is what an edge does. */
  lemma EdgePaces(n: nat, ready: seq<bool>, x: Traffic, y: Traffic)
    requires x.Wide(n) && y.Wide(n) && |ready| == n
    requires forall s :: 0 <= s < n ==> Moves(s, ready[s], x, y, n)
    requires forall s :: 0 <= s < n && ready[s] ==> Launched(x.queue[s], y.queue[s], y.valid[s])
    ensures (forall s :: 0 <= s < n ==> ready[s]) ==> Nearer(n, x, y)
  {
    forall s | 0 <= s < n && ready[s]
      ensures y.Due(s) < x.Due(s) || y.Due(s) == 0
    {
      assert Moves(s, ready[s], x, y, n) && Launched(x.queue[s], y.queue[s], y.valid[s]);
    }
  }

  ghost predicate Within(n: nat, x: Traffic, due: nat)
    requires x.Wide(n)
  {
    forall s :: 0 <= s < n ==> x.Due(s) <= due
  }

  lemma NearerWithin(n: nat, x: Traffic, y: Traffic, due: nat)
    requires x.Wide(n) && y.Wide(n) && Nearer(n, x, y) && Within(n, x, due) && due > 0
    ensures Within(n, y, due - 1)
  {
    forall s | 0 <= s < n
      ensures y.Due(s) <= due - 1
    {
      assert x.Due(s) <= due;
    }
  }

  /** What an edge does to all of the traffic. */
  ghost predicate AllMove(n: nat, ready: seq<bool>, pause: bool, x: Traffic, y: Traffic) {
    && x.Wide(n) && y.Wide(n) && |ready| == n
    && (forall s :: 0 <= s < n ==> Moves(s, ready[s], x, y, n))
    && (!pause ==> forall s :: 0 <= s < n && ready[s] ==> Launched(x.queue[s], y.queue[s], y.valid[s]))
  }

  lemma EdgeMoves(n: nat, ready: seq<bool>, pause: bool, x: Traffic, y: Traffic)
    requires x.Wide(n) && y.Wide(n) && |ready| == n
    requires forall s :: 0 <= s < n ==> y.done[s] == (ready[s] && x.valid[s])
    requires forall s :: 0 <= s < n ==> y.landed[s] == x.landed[s] + if y.done[s] then [x.word[s]] else []
    requires forall s :: 0 <= s < n ==> y.resp[s] == x.resp[s] + if x.done[s] then 1 else 0
    requires forall s :: 0 <= s < n ==>
      Paces(ready[s], pause, x.valid[s], x.queue[s], x.Coming(s), y.valid[s], y.word[s], y.queue[s])
    ensures AllMove(n, ready, pause, x, y)
  {
    forall s | 0 <= s < n
      ensures Moves(s, ready[s], x, y, n)
    {
      Alone(x.landed[s]);
    }
  }

  lemma {:induction false} MostDue(x: Traffic, n: nat, m: nat) returns (due: nat)
    requires x.Wide(n) && m <= n
    ensures forall s :: 0 <= s < m ==> x.Due(s) <= due
  {
    due := 0;
    if m > 0 {
      due := MostDue(x, n, m - 1);
      if x.Due(m - 1) > due {
        due := x.Due(m - 1);
      }
    }
  }

  lemma IssueKeeps(n: nat, all: seq<Tagged>, news: seq<Tagged>, x: Traffic, queue: seq<seq<Tagged>>)
    requires x.Wide(n) && |queue| == n && Flows(n, all, x)
    requires forall s :: 0 <= s < n ==> queue[s] == x.queue[s] + Only(news, s)
    ensures Flows(n, all + news, x.(queue := queue))
  {
    forall s | 0 <= s < n
      ensures Only(all + news, s) == x.landed[s] + x.(queue := queue).Coming(s)
    {
      OnlyBoth(all, news, s);
      assert Only(all, s) == x.landed[s] + x.Coming(s);
      var held := if x.valid[s] then [x.word[s]] else [];
      assert held + queue[s] == x.Coming(s) + Only(news, s);
    }
  }

  lemma TokenKeeps(n: nat, taken: seq<Tagged>, t: Tagged, x: Traffic)
    requires x.Wide(n) && t.seg < n && x.resp[t.seg] > 0 && Acknowledged(n, taken, x)
    ensures Acknowledged(n, taken + [t], x.(resp := x.resp[t.seg := x.resp[t.seg] - 1]))
  {
    assert (taken + [t])[..|taken|] == taken;
  }

  /** The words on the bus are words of the writes. */
  lemma AllOnTheBus(g: Geometry, ws: seq<Write>, x: Traffic)
    requires g.Valid() && AllFit(ws, g.Size()) && x.Wide(g.segs) && Flows(g.segs, AllWords(g, ws), x)
    ensures forall s :: 0 <= s < g.segs && x.valid[s] ==> Placed(g, x.word[s], g.Size()) && x.word[s].seg == s
  {
    forall s | 0 <= s < g.segs && x.valid[s]
      ensures Placed(g, x.word[s], g.Size()) && x.word[s].seg == s
    {
      OnTheBus(g, ws, x, s);
    }
  }

  lemma OnTheBus(g: Geometry, ws: seq<Write>, x: Traffic, s: nat)
    requires g.Valid() && AllFit(ws, g.Size()) && x.Wide(g.segs) && Flows(g.segs, AllWords(g, ws), x)
    requires s < g.segs && x.valid[s]
    ensures Placed(g, x.word[s], g.Size()) && x.word[s].seg == s
  {
    var own := Only(AllWords(g, ws), s);
    assert own == x.landed[s] + x.Coming(s);
    assert own[|x.landed[s]|] == x.word[s];
    OnlyFrom(AllWords(g, ws), s, |x.landed[s]|);
    PlacedWords(g, ws, g.Size(), x.word[s]);
  }

  /** The response side works through the writes in the order they were issued: n are reported,
      k words of the next are counted. */
  predicate Answering(g: Geometry, ws: seq<Write>, n: nat, k: nat,
    cmds: seq<RespCmd>, cur: Option<RespCmd>, curSeg: nat)
    requires g.Valid() && n <= |ws|
  {
    match cur
    case None => k == 0 && cmds == Resps(g, ws[n..])
    case Some(c) =>
      && n < |ws| && c == RespOf(g, ws[n]) && cmds == Resps(g, ws[n + 1..])
      && k <= c.segments && curSeg == Word(g, ws[n], k).seg
  }

  function Resps(g: Geometry, ws: seq<Write>): seq<RespCmd>
    requires g.Valid()
  {
    seq(|ws|, i requires 0 <= i < |ws| => RespOf(g, ws[i]))
  }

  lemma TakenNext(g: Geometry, ws: seq<Write>, n: nat, k: nat)
    requires g.Valid() && n < |ws|
    ensures Word(g, ws[n], k + 1).seg == (Word(g, ws[n], k).seg + 1) % g.segs
    ensures Taken(g, ws, n, k + 1) == Taken(g, ws, n, k) + [Word(g, ws[n], k)]
    ensures k == Segments(g, ws[n].address, |ws[n].data|) ==> Taken(g, ws, n, k) == Taken(g, ws, n + 1, 0)
    ensures RespOf(g, ws[n]).firstSeg % g.segs == Word(g, ws[n], 0).seg
  {
    var w := ws[n];
    RegisterStep(w.address / g.lanes + k, 1, g.segs);
    RegisterStep(w.address / g.lanes, 0, g.segs);
    assert Words(g, w, k + 1) == Words(g, w, k) + [Word(g, w, k)];
    WordsOfNext(g, ws, n);
  }

  lemma AnsweringToken(g: Geometry, ws: seq<Write>, n: nat, k: nat,
    cmds: seq<RespCmd>, cur: Option<RespCmd>, curSeg: nat)
    requires g.Valid() && n <= |ws| && Answering(g, ws, n, k, cmds, cur, curSeg) && cur.Some? && k < cur.value.segments
    ensures Word(g, ws[n], k).seg == curSeg < g.segs
    ensures Answering(g, ws, n, k + 1, cmds, cur, (curSeg + 1) % g.segs)
    ensures Taken(g, ws, n, k + 1) == Taken(g, ws, n, k) + [Word(g, ws[n], k)]
  {
    TakenNext(g, ws, n, k);
  }

  /** What is answered, what is on its way and what is counted fit together. */
  ghost predicate Books(g: Geometry, ws: seq<Write>, n: nat, k: nat,
    cmds: seq<RespCmd>, cur: Option<RespCmd>, curSeg: nat, x: Traffic)
  {
    && g.Valid() && n <= |ws| && x.Wide(g.segs) && Answering(g, ws, n, k, cmds, cur, curSeg)
    && Flows(g.segs, AllWords(g, ws), x) && Acknowledged(g.segs, Taken(g, ws, n, k), x)
  }

  /** One acknowledgement counted keeps them so. */
  lemma BooksToken(g: Geometry, ws: seq<Write>, n: nat, k: nat,
    cmds: seq<RespCmd>, cur: Option<RespCmd>, curSeg: nat, x: Traffic)
    requires Books(g, ws, n, k, cmds, cur, curSeg, x) && cur.Some? && k < cur.value.segments
    requires curSeg < g.segs && x.resp[curSeg] > 0
    ensures Books(g, ws, n, k + 1, cmds, cur, (curSeg + 1) % g.segs, x.(resp := x.resp[curSeg := x.resp[curSeg] - 1]))
  {
    AnsweringToken(g, ws, n, k, cmds, cur, curSeg);
    TokenStep(g, ws, n, k, x, x.(resp := x.resp[curSeg := x.resp[curSeg] - 1]));
  }

  lemma TokenStep(g: Geometry, ws: seq<Write>, n: nat, k: nat, x: Traffic, y: Traffic)
    requires g.Valid() && n < |ws| && x.Wide(g.segs) && Flows(g.segs, AllWords(g, ws), x)
    requires Acknowledged(g.segs, Taken(g, ws, n, k), x) && x.resp[Word(g, ws[n], k).seg] > 0
    requires y == x.(resp := x.resp[Word(g, ws[n], k).seg := x.resp[Word(g, ws[n], k).seg] - 1])
    ensures y.Wide(g.segs) && Flows(g.segs, AllWords(g, ws), y) && Acknowledged(g.segs, Taken(g, ws, n, k + 1), y)
  {
    TakenNext(g, ws, n, k);
    TokenKeeps(g.segs, Taken(g, ws, n, k), Word(g, ws[n], k), x);
    forall s | 0 <= s < g.segs
      ensures Only(AllWords(g, ws), s) == y.landed[s] + y.Coming(s)
    {
      assert Only(AllWords(g, ws), s) == x.landed[s] + x.Coming(s);
    }
  }

  lemma TakenStays(g: Geometry, ws: seq<Write>, w: Write, n: nat, k: nat)
    requires g.Valid() && n <= |ws| && (n == |ws| ==> k == 0)
    ensures Taken(g, ws + [w], n, k) == Taken(g, ws, n, k)
    ensures AllWords(g, ws + [w]) == AllWords(g, ws) + Words(g, w, Segments(g, w.address, |w.data|))
  {
    assert (ws + [w])[..n] == ws[..n];
    assert (ws + [w])[..|ws|] == ws;
  }

  lemma AnsweringStays(g: Geometry, ws: seq<Write>, w: Write, n: nat, k: nat,
    cmds: seq<RespCmd>, cur: Option<RespCmd>, curSeg: nat)
    requires g.Valid() && n <= |ws| && Answering(g, ws, n, k, cmds, cur, curSeg)
    ensures Answering(g, ws + [w], n, k, cmds + [RespOf(g, w)], cur, curSeg)
  {
    assert (ws + [w])[n..] == ws[n..] + [w];
    if n < |ws| {
      assert (ws + [w])[n + 1..] == ws[n + 1..] + [w];
    }
  }

  /** So does a write reported when all its acknowledgements are counted. */
  lemma BooksReport(g: Geometry, ws: seq<Write>, n: nat, k: nat,
    cmds: seq<RespCmd>, cur: Option<RespCmd>, curSeg: nat, x: Traffic)
    requires Books(g, ws, n, k, cmds, cur, curSeg, x) && cur.Some? && k >= cur.value.segments
    ensures n < |ws| && cur.value == RespOf(g, ws[n]) && Books(g, ws, n + 1, 0, cmds, None, curSeg, x)
  {
    TakenNext(g, ws, n, k);
  }

  /** And so does another write issued. */
  lemma BooksIssue(g: Geometry, ws: seq<Write>, w: Write, n: nat, k: nat,
    cmds: seq<RespCmd>, cur: Option<RespCmd>, curSeg: nat, x: Traffic, queue: seq<seq<Tagged>>)
    requires Books(g, ws, n, k, cmds, cur, curSeg, x) && (n == |ws| ==> k == 0) && |queue| == g.segs
    requires forall s :: 0 <= s < g.segs ==>
      queue[s] == x.queue[s] + Only(Words(g, w, Segments(g, w.address, |w.data|)), s)
    ensures Books(g, ws + [w], n, k, cmds + [RespOf(g, w)], cur, curSeg, x.(queue := queue))
  {
    TakenStays(g, ws, w, n, k);
    AnsweringStays(g, ws, w, n, k, cmds, cur, curSeg);
    IssueKeeps(g.segs, AllWords(g, ws), Words(g, w, Segments(g, w.address, |w.data|)), x, queue);
  }

  lemma AnsweringNext(g: Geometry, ws: seq<Write>, n: nat, k: nat)
    requires g.Valid() && n < |ws|
    ensures Resps(g, ws[n..]) == [RespOf(g, ws[n])] + Resps(g, ws[n + 1..])
  {
    assert ws[n..] == [ws[n]] + ws[n + 1..];
  }

  /** Writes that are not refused. */
  predicate Writable(w: Write, size: nat) {
    Fits(w, size) && w.address < size
  }

  predicate AllWritable(ws: seq<Write>, size: nat) {
    forall i :: 0 <= i < |ws| ==> Writable(ws[i], size)
  }

  lemma FrontWritable(ws: seq<Write>, size: nat)
    requires ws != [] && AllWritable(ws, size)
    ensures var n := |ws| - 1; AllWritable(ws[..n], size) && Writable(ws[n], size) && ws == ws[..n] + [ws[n]]
  {
  }

  /** Master and memory on one bus. */
  class Link {
    const master: MasterWrite
    const ram: RamWrite
    const g: Geometry

    /** The writes issued so far, in order, and how many of them have been reported complete. */
    ghost var writes: seq<Write>
    ghost var completed: nat

    constructor (geometry: Geometry, contents: seq<bv8>)
      requires geometry.Valid() && |contents| == geometry.Size()
      ensures Valid() && fresh(this) && fresh(Repr()) && g == geometry
      ensures writes == [] && completed == 0 && ram.initial == contents
    {
      g := geometry;
      master := new MasterWrite(geometry);
      ram := new RamWrite(geometry, contents);
      writes, completed := [], 0;
    }

    ghost function Repr(): set<object>
    {
      {this, master, ram, ram.mem}
    }

    ghost function Now(): Traffic
      reads this, master, ram
    {
      Traffic(ram.landed, master.valid, master.word, master.queue, ram.done, master.resp)
    }

    ghost function K(): nat
      reads master
    {
      if master.cur.Some? then master.curK else 0
    }

    ghost predicate Valid()
      reads Repr()
    {
      && master.Valid() && ram.Valid() && master.g == g && ram.g == g && AllFit(writes, g.Size())
      && |master.reported| == completed <= |writes|
      && (forall i :: 0 <= i < completed ==> master.reported[i] == RespOf(g, writes[i]))
      && Books(g, writes, completed, K(), master.cmds, master.cur, master.curSeg, Now())
    }

    /** write: refused when it does not fit, otherwise queued word by word. */
    method Write(address: int, data: seq<bv8>) returns (r: Result<(), AccessError>)
      requires Valid()
      modifies this`writes, master
      ensures Valid() && completed == old(completed)
      ensures r == if 0 <= address < g.Size() && address + |data| <= g.Size() then Ok(()) else Raised(ValueError)
      ensures writes == if r.Ok? then old(writes) + [PsdpRam.Write(address, data)] else old(writes)
    {
      if address < 0 || address >= g.Size() || address + |data| > g.Size() {
        return Raised(ValueError);
      }
      Issue(PsdpRam.Write(address, data));
      return Ok(());
    }

    method WriteOne(w: Write)
      requires Valid() && Writable(w, g.Size())
      modifies this`writes, master
      ensures Valid() && writes == old(writes) + [w]
    {
      var _ := Write(w.address, w.data);
    }

    method WriteEach(ws: seq<Write>)
      requires Valid() && AllWritable(ws, g.Size())
      modifies this`writes, master
      ensures Valid() && writes == old(writes) + ws
    {
      Alone(writes);
      if ws != [] {
        var n := |ws| - 1;
        FrontWritable(ws, g.Size());
        WriteEach(ws[..n]);
        WriteOne(ws[n]);
        Regrouped(old(writes), ws[..n], [ws[n]]);
      }
    }

    method Issue(w: Write)
      requires Valid() && Fits(w, g.Size())
      modifies this`writes, master
      ensures Valid() && writes == old(writes) + [w] && completed == old(completed)
    {
      ghost var x, cmds := Now(), master.cmds;
      master.ProcessWrite(w);
      BooksIssue(g, writes, w, completed, K(), cmds, master.cur, master.curSeg, x, master.queue);
      assert Now() == x.(queue := master.queue);
      writes := writes + [w];
    }

    /** One clock edge, with any grant of the memory's and any pause of the master's. */
    method Edge(grant: seq<bool>, pause: bool)
      requires Valid() && |grant| == g.segs
      modifies Repr()
      ensures Valid() && writes == old(writes) && completed == old(completed) && ram.initial == old(ram.initial)
      ensures ram.ready == grant
      ensures AllMove(g.segs, old(ram.ready), pause, old(Now()), Now())
    {
      ghost var x := Now();
      ghost var all, taken := AllWords(g, writes), Taken(g, writes, completed, K());
      var ready, done := ram.ready, ram.done;
      AllOnTheBus(g, writes, x);
      ram.Edge(master.valid, master.word, grant);
      master.Edge(ready, done, pause);
      ghost var y := Now();
      EdgeMoves(g.segs, ready, pause, x, y);
      EdgeKeeps(g.segs, all, taken, ready, x, y);
    }

    /** With no pauses and every segment granted all words land and are acknowledged. */
    method Settle()
      requires Valid()
      modifies Repr()
      ensures Valid() && writes == old(writes) && completed == old(completed) && ram.initial == old(ram.initial)
      ensures AtRest()
    {
      var all := seq(g.segs, s => true);
      Edge(all, false);
      ghost var due := MostDue(Now(), g.segs, g.segs);
      SettleWithin(all, due);
    }

    method SettleWithin(all: seq<bool>, ghost due: nat)
      requires Valid() && |all| == g.segs && (forall s :: 0 <= s < g.segs ==> all[s])
      requires ram.ready == all && Within(g.segs, Now(), due)
      modifies Repr()
      ensures Valid() && writes == old(writes) && completed == old(completed) && ram.initial == old(ram.initial)
      ensures AtRest()
      decreases due
    {
      if !master.Quiet() || true in ram.done {
        SettleMore(all, due);
        SettleWithin(all, due - 1);
      }
    }

    /** An edge brings everything that is not at rest nearer to it. */
    method SettleMore(all: seq<bool>, ghost due: nat)
      requires Valid() && !AtRest() && |all| == g.segs && (forall s :: 0 <= s < g.segs ==> all[s])
      requires ram.ready == all && Within(g.segs, Now(), due)
      modifies Repr()
      ensures Valid() && writes == old(writes) && completed == old(completed) && ram.initial == old(ram.initial)
      ensures ram.ready == all && due > 0 && Within(g.segs, Now(), due - 1)
    {
      if due == 0 {
        RestIsQuiet();
        assert false;
      }
      ghost var x := Now();
      Edge(all, false);
      EdgePaces(g.segs, all, x, Now());
      NearerWithin(g.segs, x, Now(), due);
    }

    ghost predicate AtRest()
      reads this, master, ram
    {
      master.Quiet() && true !in ram.done
    }

    lemma RestIsQuiet()
      requires Valid() && Within(g.segs, Now(), 0)
      ensures AtRest()
    {
      forall s | 0 <= s < g.segs
        ensures master.queue[s] == [] && !master.valid[s] && !ram.done[s]
      {
        assert Now().Due(s) <= 0;
      }
    }

    /** Left to itself the link reports every write, and memory is what the writes make of it in order. */
    method Drain()
      requires Valid()
      modifies Repr()
      ensures Valid() && writes == old(writes) && completed == |writes| && ram.initial == old(ram.initial)
      ensures AllFit(writes, |ram.initial|) && ram.mem[..] == Stores(ram.initial, writes)
    {
      Settle();
      while master.cur != None || master.cmds != []
        invariant Valid() && writes == old(writes) && ram.initial == old(ram.initial) && AtRest()
        decreases |writes| - completed, master.cur == None, if master.cur.Some? then master.cur.value.segments - master.curK else 0
      {
        Answer();
      }
      FlatMemory(this);
    }

    /** At rest the response side is not held up. */
    method Answer()
      requires Valid() && AtRest() && (master.cur != None || master.cmds != [])
      modifies this`completed, master`cmds, master`cur, master`curSeg, master`curK, master`resp, master`reported
      ensures Valid() && AtRest() && old(completed) <= completed
      ensures completed > old(completed) || old(master.cur) == None != master.cur
        || (old(master.cur) == master.cur != None && old(master.curK) < master.curK <= master.cur.value.segments)
    {
      if master.cur.Some? && master.curK < master.cur.value.segments {
        TokenIsThere();
      }
      Respond();
    }

    /** At rest the word the response side waits for has been acknowledged. */
    lemma TokenIsThere()
      requires Valid() && AtRest() && master.cur.Some? && master.curK < master.cur.value.segments
      ensures master.resp[master.curSeg] > 0
    {
      var k, s := master.curK, master.curSeg;
      AnsweringToken(g, writes, completed, k, master.cmds, master.cur, s);
      NextUsed(g, writes, completed, k, s);
      assert Only(AllWords(g, writes), s) == ram.landed[s] + Now().Coming(s);
      assert |Only(Taken(g, writes, completed, k), s)| + master.resp[s] + One(ram.done[s]) == |ram.landed[s]|;
    }

    /** One step of the response side. */
    method Respond()
      requires Valid()
      modifies this`completed, master`cmds, master`cur, master`curSeg, master`curK, master`resp, master`reported
      ensures old(master.cur == None && master.cmds != []) ==> master.cur != None && completed == old(completed)
      ensures old(master.cur.Some? && master.curK >= master.cur.value.segments) ==> completed == old(completed) + 1
      ensures old(master.cur.Some? && master.curK < master.cur.value.segments && master.resp[master.curSeg] > 0) ==>
        master.cur == old(master.cur) && master.curK == old(master.curK) + 1 && completed == old(completed)
      ensures Valid() && old(completed) <= completed <= old(completed) + 1
      ensures master.reported == old(master.reported) + if completed > old(completed) then [RespOf(g, writes[completed - 1])] else []
    {
      if master.cur == None {
        NextCommand();
      } else if master.curK >= master.cur.value.segments {
        Report();
      } else {
        NextToken();
      }
    }

    method NextCommand()
      requires Valid() && master.cur == None
      modifies master`cmds, master`cur, master`curSeg, master`curK
      ensures Valid() && (old(master.cmds) != [] ==> master.cur != None)
    {
      if completed < |writes| {
        TakenNext(g, writes, completed, 0);
        AnsweringNext(g, writes, completed, 0);
      }
      master.NextCommand();
    }

    method Report()
      requires Valid() && master.cur.Some? && master.curK >= master.cur.value.segments
      modifies this`completed, master`cur, master`reported
      ensures Valid() && completed == old(completed) + 1 <= |writes|
      ensures master.reported == old(master.reported) + [RespOf(g, writes[completed - 1])]
    {
      BooksReport(g, writes, completed, master.curK, master.cmds, master.cur, master.curSeg, Now());
      master.Report();
      completed := completed + 1;
    }

    method NextToken()
      requires Valid() && master.cur.Some? && master.curK < master.cur.value.segments
      modifies master`resp, master`curSeg, master`curK
      ensures Valid() && (old(master.resp[master.curSeg]) > 0 ==> master.curK == old(master.curK) + 1)
    {
      assert master.curSeg < g.segs;
      if master.resp[master.curSeg] > 0 {
        CountToken();
      }
    }

    method CountToken()
      requires Valid() && master.cur.Some? && master.curK < master.cur.value.segments && master.resp[master.curSeg] > 0
      modifies master`resp, master`curSeg, master`curK
      ensures Valid() && master.curK == old(master.curK) + 1
    {
      ghost var x, k, s := Now(), master.curK, master.curSeg;
      BooksToken(g, writes, completed, k, master.cmds, master.cur, s, x);
      var taken := master.TakeToken();
      assert Now() == x.(resp := x.resp[s := x.resp[s] - 1]) && K() == k + 1;
    }
  }

  // ---- what the memory holds ----

  lemma OnlyPrefix(xs: seq<Tagged>, ys: seq<Tagged>, s: nat)
    requires xs <= ys
    ensures Only(ys, s) == Only(xs, s) + Only(ys[|xs|..], s)
  {
    assert ys == xs + ys[|xs|..];
    OnlyBoth(xs, ys[|xs|..], s);
  }

  lemma NextUsed(g: Geometry, ws: seq<Write>, n: nat, k: nat, s: nat)
    requires g.Valid() && n < |ws| && k < Segments(g, ws[n].address, |ws[n].data|)
    ensures var own := Only(AllWords(g, ws), s);
            var used := |Only(Taken(g, ws, n, k), s)|;
            && used <= |own|
            && |Only(Taken(g, ws, n, k + 1), s)| == used + (if s == Word(g, ws[n], k).seg then 1 else 0)
            && (s == Word(g, ws[n], k).seg ==> used < |own| && own[used] == Word(g, ws[n], k))
  {
    TakenNext(g, ws, n, k);
    TakenPrefix(g, ws, n, k + 1);
    var taken, t := Taken(g, ws, n, k), Word(g, ws[n], k);
    OnlyPrefix(Taken(g, ws, n, k + 1), AllWords(g, ws), s);
    OnlyBoth(taken, [t], s);
    assert Only([t], s) == if s == t.seg then [t] else [] by {
      assert [t][..0] == [];
    }
  }

  /** Words counted have landed, as the words landed are a beginning of those sent. */
  lemma CountedHasLanded(n: nat, all: seq<Tagged>, taken: seq<Tagged>, x: Traffic, s: nat)
    requires x.Wide(n) && Flows(n, all, x) && Acknowledged(n, taken, x) && taken <= all && s < n
    ensures Only(taken, s) <= x.landed[s] <= Only(all, s)
  {
    OnlyPrefix(taken, all, s);
    assert Only(all, s) == x.landed[s] + x.Coming(s);
    assert |Only(taken, s)| + x.resp[s] + One(x.done[s]) == |x.landed[s]|;
    Shorter(Only(taken, s), Only(all[|taken|..], s), x.landed[s], x.Coming(s));
  }

  /** Of two beginnings of the same words, the shorter is a beginning of the longer. */
  lemma Shorter<T>(a: seq<T>, b: seq<T>, c: seq<T>, d: seq<T>)
    requires a + b == c + d && |a| <= |c|
    ensures a <= c <= c + d
  {
    forall i | 0 <= i < |a|
      ensures a[i] == c[i]
    {
      assert (a + b)[i] == (c + d)[i];
    }
  }

  /** A write is reported only after all its words, and those of all earlier writes, have landed. */
  lemma ReportedHasLanded(link: Link, i: nat, s: nat)
    requires link.Valid() && i <= link.completed && s < link.g.segs
    ensures Only(WordsOf(link.g, link.writes, i), s) <= link.ram.landed[s] <= Only(AllWords(link.g, link.writes), s)
  {
    ReportedPrefix(link.g, link.writes, i, link.completed, link.K(), s);
    CountedHasLanded(link.g.segs, AllWords(link.g, link.writes),
      Taken(link.g, link.writes, link.completed, link.K()), link.Now(), s);
  }

  lemma ReportedPrefix(g: Geometry, ws: seq<Write>, i: nat, n: nat, k: nat, s: nat)
    requires g.Valid() && i <= n <= |ws| && (if n < |ws| then k <= Segments(g, ws[n].address, |ws[n].data|) else k == 0)
    ensures Only(WordsOf(g, ws, i), s) <= Only(Taken(g, ws, n, k), s)
    ensures Taken(g, ws, n, k) <= AllWords(g, ws)
  {
    WordsOfPrefix(g, ws, i, n);
    OnlyPrefix(WordsOf(g, ws, i), Taken(g, ws, n, k), s);
    TakenPrefix(g, ws, n, k);
  }

  lemma TakenPrefix(g: Geometry, ws: seq<Write>, n: nat, k: nat)
    requires g.Valid() && n <= |ws| && (if n < |ws| then k <= Segments(g, ws[n].address, |ws[n].data|) else k == 0)
    ensures Taken(g, ws, n, k) <= AllWords(g, ws)
  {
    assert ws[..|ws|] == ws;
    if n < |ws| {
      WordsOfNext(g, ws, n);
      WordsOfPrefix(g, ws, n + 1, |ws|);
      assert Words(g, ws[n], k) <= Words(g, ws[n], Segments(g, ws[n].address, |ws[n].data|));
    }
  }

  predicate Touches(w: Write, b: nat) {
    w.address <= b < w.address + |w.data|
  }

  /** Words that do not cover a byte leave it. */
  lemma {:induction false} NotCovered(g: Geometry, v: bv8, ts: seq<Tagged>, b: nat)
    requires g.Valid() && AllShaped(g, ts)
    requires forall i :: 0 <= i < |ts| ==> !Covers(g, ts[i].seg, ts[i].op, b)
    ensures AfterAll(g, v, ts, b) == v
  {
    if ts != [] {
      NotCovered(g, v, ts[..|ts| - 1], b);
    }
  }

  lemma {:induction false} LaterWords(g: Geometry, ws: seq<Write>, i: nat, b: nat, t: Tagged)
    requires g.Valid() && i <= |ws| && forall j :: i <= j < |ws| ==> !Touches(ws[j], b)
    requires WordsOf(g, ws, i) <= AllWords(g, ws) && t in AllWords(g, ws)[|WordsOf(g, ws, i)|..]
    ensures !Covers(g, t.seg, t.op, b)
  {
    var n := |ws| - 1;
    assert ws[..|ws|] == ws;
    if i < |ws| {
      WordsOfPrefix(g, ws, i, n);
      assert ws[..n][..i] == ws[..i];
      var news := Words(g, ws[n], Segments(g, ws[n].address, |ws[n].data|));
      if t in news {
        var k :| 0 <= k < |news| && t == news[k];
        WordCovers(g, ws[n], k, b);
      } else {
        LaterWords(g, ws[..n], i, b, t);
      }
    }
  }

  /** What a beginning of a + b has beyond a is a beginning of b. */
  lemma Beyond<T>(a: seq<T>, x: seq<T>, b: seq<T>) returns (rest: seq<T>)
    requires a <= x <= a + b
    ensures x == a + rest && rest <= b
  {
    rest := x[|a|..];
    forall i | 0 <= i < |rest|
      ensures rest[i] == b[i]
    {
      assert x[|a| + i] == (a + b)[|a| + i];
    }
  }

  /** A byte no later write touches, whichever words of later writes have landed. */
  lemma VisibleByte(g: Geometry, ws: seq<Write>, initial: seq<bv8>, landed: seq<Tagged>, i: nat, b: nat)
    requires g.Valid() && i <= |ws| && b < |initial| && AllFit(ws, |initial|)
    requires forall j :: i <= j < |ws| ==> !Touches(ws[j], b)
    requires Only(WordsOf(g, ws, i), Seg(g, b)) <= landed <= Only(AllWords(g, ws), Seg(g, b))
    ensures AllShaped(g, landed) && AfterAll(g, initial[b], landed, b) == Stores(initial, ws[..i])[b]
  {
    var first, all, s := WordsOf(g, ws, i), AllWords(g, ws), Seg(g, b);
    assert ws[..|ws|] == ws;
    WordsOfPrefix(g, ws, i, |ws|);
    OnlyPrefix(first, all, s);
    var rest := Beyond(Only(first, s), landed, Only(all[|first|..], s));
    LaterLanded(g, ws, i, b, rest);
    OnlyShaped(g, first, s);
    AfterBoth(g, initial[b], Only(first, s), rest, b);
    NotCovered(g, AfterAll(g, initial[b], Only(first, s), b), rest, b);
    OwnSegment(g, initial[b], first, b);
    AllWordsStore(g, initial, ws[..i], b);
  }

  /** Once a write is reported, every byte that no later write touches is as if the writes up to
      it had been made to a flat memory in order; with nothing outstanding that is all of memory. */
  lemma ReportedVisible(link: Link, i: nat, b: nat)
    requires link.Valid() && i <= link.completed && b < link.ram.mem.Length
    requires forall j :: i <= j < |link.writes| ==>
      !(link.writes[j].address <= b < link.writes[j].address + |link.writes[j].data|)
    ensures AllFit(link.writes[..i], |link.ram.initial|)
    ensures link.ram.mem[b] == Stores(link.ram.initial, link.writes[..i])[b]
  {
    var s := Seg(link.g, b);
    ReportedHasLanded(link, i, s);
    VisibleByte(link.g, link.writes, link.ram.initial, link.ram.landed[s], i, b);
    assert link.ram.mem[..][b] == AfterAll(link.g, link.ram.initial[b], link.ram.landed[s], b);
  }

  lemma LaterLanded(g: Geometry, ws: seq<Write>, i: nat, b: nat, rest: seq<Tagged>)
    requires g.Valid() && i <= |ws| && forall j :: i <= j < |ws| ==> !Touches(ws[j], b)
    requires WordsOf(g, ws, i) <= AllWords(g, ws)
    requires rest <= Only(AllWords(g, ws)[|WordsOf(g, ws, i)|..], Seg(g, b))
    ensures AllShaped(g, rest) && forall k :: 0 <= k < |rest| ==> !Covers(g, rest[k].seg, rest[k].op, b)
  {
    var later := AllWords(g, ws)[|WordsOf(g, ws, i)|..];
    OnlyShaped(g, later, Seg(g, b));
    forall k | 0 <= k < |rest|
      ensures !Covers(g, rest[k].seg, rest[k].op, b)
    {
      assert rest[k] == Only(later, Seg(g, b))[k];
      OnlyFrom(later, Seg(g, b), k);
      LaterWords(g, ws, i, b, rest[k]);
    }
  }

  /** With every write reported, memory is the flat memory all of them were made to. */
  lemma FlatMemory(link: Link)
    requires link.Valid() && link.completed == |link.writes|
    ensures AllFit(link.writes, |link.ram.initial|)
    ensures link.ram.mem[..] == Stores(link.ram.initial, link.writes)
  {
    assert link.writes[..|link.writes|] == link.writes;
    forall b | 0 <= b < link.ram.mem.Length
      ensures link.ram.mem[b] == Stores(link.ram.initial, link.writes)[b]
    {
      ReportedVisible(link, |link.writes|, b);
    }
  }

  /** Writes made through a fresh link to a memory holding contents leave it as a flat memory would be. */
  method WriteAll(g: Geometry, contents: seq<bv8>, ws: seq<Write>) returns (mem: seq<bv8>)
    requires g.Valid() && |contents| == g.Size() && AllWritable(ws, g.Size())
    ensures AllFit(ws, |contents|) && mem == Stores(contents, ws)
  {
    var link := new Link(g, contents);
    link.WriteEach(ws);
    assert link.writes == ws;
    link.Drain();
    mem := link.ram.mem[..];
  }
}
