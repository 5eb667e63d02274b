/** The read side of src/dma/tb/dma_psdp_ram.py: PsdpRamMasterRead and PsdpRamRead, with a
    request and a response handshake for every segment, over a memory that may be written meanwhile,
    as long as the bytes of the reads in flight stay as they are. */
module PsdpRead {
  import opened Arith
  import opened Base
  import opened PsdpRam
  import opened PsdpWrite

  /** What both ends hold for one segment. */
  datatype Segment = Segment(
    // the master: seg_read_queue, the request on the bus, seg_read_resp_queue and its ready
    queue: seq<nat>,
    cmdValid: bool,
    cmdAddr: nat,
    resp: seq<seq<bv8>>,
    respReady: bool,
    // the memory: its ready, the pipeline slot and the response on the bus
    cmdReady: bool,
    slot: Option<seq<bv8>>,
    respValid: bool,
    respData: seq<bv8>
  ) {
    /** Requests not yet served, in order. */
    function Asked(): seq<nat> {
      (if cmdValid then [cmdAddr] else []) + queue
    }

    /** Answers not yet used, in order. */
    function Answers(): seq<seq<bv8>> {
      resp + (if respValid then [respData] else []) + (if slot.Some? then [slot.value] else [])
    }

    /** The slot is free whenever the memory is ready. */
    predicate Roomy() {
      cmdReady ==> !respValid || slot == None
    }

    /** Neither end holds anything back. */
    predicate Brisk() {
      respReady && cmdReady == (!respValid || slot == None)
    }

    /** Edges the segment still needs, at most, for its answers to come back. */
    function Due(): nat {
      4 * |queue| + (if cmdValid then 3 else 0) + (if slot.Some? then 2 else 0) + (if respValid then 1 else 0)
    }
  }

  /** The word of row row of segment s, as PsdpRamRead reads it. */
  function WordAt(g: Geometry, mem: seq<bv8>, s: nat, row: nat): (r: seq<bv8>)
    requires g.Valid() && |mem| == g.Size() && s < g.segs && row < g.rows
    ensures |r| == g.lanes
  {
    RowInside(g, s, row);
    var base := (row * g.segs + s) * g.lanes;
    mem[base..base + g.lanes]
  }

  lemma RowInside(g: Geometry, s: nat, row: nat)
    requires g.Valid() && s < g.segs && row < g.rows
    ensures 0 <= (row * g.segs + s) * g.lanes && (row * g.segs + s) * g.lanes + g.lanes <= g.Size()
  {
    MulNonNegative(row, g.segs);
    MulMonotone(g.segs, row + 1, g.rows);
    MulNonNegative(row * g.segs + s, g.lanes);
    MulMonotone(g.lanes, row * g.segs + s + 1, g.rows * g.segs);
    assert (row + 1) * g.segs == row * g.segs + g.segs;
    assert (row * g.segs + s + 1) * g.lanes == (row * g.segs + s) * g.lanes + g.lanes;
  }

  /** A word brings the bytes that count of an operation. */
  predicate Brings(word: seq<bv8>, op: Op) {
    && |word| == |op.data| == |op.be|
    && forall j :: 0 <= j < |word| && op.be[j] ==> word[j] == op.data[j]
  }

  /** Of the words asked of a segment, the first used have been used, those up to served are answered
      and on their way back, the others are still to be served. */
  predicate Sound(own: seq<Tagged>, used: nat, served: nat, x: Segment) {
    && used <= served <= |own| && x.Roomy()
    && x.Asked() == RowsOf(own)[served..]
    && |x.Answers()| == served - used
    && forall i :: 0 <= i < |x.Answers()| ==> Brings(x.Answers()[i], own[used + i].op)
  }

  /** What memory holds at the row of the word to be served next. */
  predicate Serves(g: Geometry, mem: seq<bv8>, s: nat, own: seq<Tagged>, served: nat)
    requires g.Valid() && |mem| == g.Size() && s < g.segs
  {
    served < |own| ==> own[served].op.row < g.rows && Brings(WordAt(g, mem, s, own[served].op.row), own[served].op)
  }

  /** Whether the memory takes the request on the bus. */
  predicate Takes(x: Segment) {
    x.cmdReady && x.cmdValid
  }

  function Held(respValid: bool, respData: seq<bv8>, slot: Option<seq<bv8>>): seq<seq<bv8>> {
    (if respValid then [respData] else []) + (if slot.Some? then [slot.value] else [])
  }

  /** The memory's part of an edge: what it holds moves on by what the master takes, and the word
      asked for is read behind it. */
  method RamPart(g: Geometry, mem: seq<bv8>, s: nat, x: Segment, pause: bool)
    returns (slot: Option<seq<bv8>>, respValid: bool, respData: seq<bv8>, cmdReady: bool)
    requires g.Valid() && |mem| == g.Size() && s < g.segs && x.Roomy() && (Takes(x) ==> x.cmdAddr < g.rows)
    ensures var held := Held(x.respValid, x.respData, x.slot);
            Held(respValid, respData, slot) ==
              (if x.respReady && x.respValid then held[1..] else held)
              + (if Takes(x) then [WordAt(g, mem, s, x.cmdAddr)] else [])
    ensures cmdReady == ((!respValid || slot == None) && !pause)
    ensures slot.Some? ==> Takes(x) || (!x.respReady && x.slot.Some?)
    ensures x.respReady && x.slot == None ==> !respValid
  {
    slot, respValid, respData := x.slot, x.respValid, x.respData;
    if x.respReady || !respValid {
      if slot != None {
        respData, respValid, slot := slot.value, true, None;
      } else {
        respValid := false;
      }
    }
    if x.cmdReady && x.cmdValid {
      slot := Some(WordAt(g, mem, s, x.cmdAddr));
    }
    cmdReady := (!respValid || slot == None) && !pause;
  }

  /** The master's part: requests go out in order, an answer on the bus is queued. */
  method MasterPart(x: Segment, pause: bool) returns (queue: seq<nat>, cmdValid: bool, cmdAddr: nat, resp: seq<seq<bv8>>)
    ensures (if cmdValid then [cmdAddr] else []) + queue == if Takes(x) then x.queue else x.Asked()
    ensures resp == x.resp + if x.respReady && x.respValid then [x.respData] else []
    ensures !pause && (x.cmdReady || !x.cmdValid) ==>
      cmdValid == (x.queue != []) && |queue| == |x.queue| - if cmdValid then 1 else 0
    ensures |queue| <= |x.queue| && (!x.cmdReady && x.cmdValid ==> cmdValid)
  {
    queue, cmdValid, cmdAddr, resp := x.queue, x.cmdValid, x.cmdAddr, x.resp;
    if x.cmdReady || !cmdValid {
      if queue != [] && !pause {
        cmdAddr, queue, cmdValid := queue[0], queue[1..], true;
      } else {
        cmdValid := false;
      }
    }
    if x.respReady && x.respValid {
      resp := resp + [x.respData];
    }
  }

  /** One clock edge of both ends for segment s, each seeing the other's bus values of before. */
  method EdgeOf(g: Geometry, mem: seq<bv8>, s: nat, x: Segment, pauseMaster: bool, pauseRam: bool,
    ghost own: seq<Tagged>, ghost used: nat, ghost served: nat) returns (y: Segment, ghost now: nat)
    requires g.Valid() && |mem| == g.Size() && s < g.segs
    requires Sound(own, used, served, x) && Serves(g, mem, s, own, served)
    ensures Sound(own, used, now, y)
    ensures now == served + if Takes(x) then 1 else 0
    ensures !pauseMaster && !pauseRam ==> y.Brisk()
    ensures !pauseMaster && !pauseRam && x.Brisk() ==> y.Due() < x.Due() || y.Due() == 0
  {
    if Takes(x) {
      NextAsked(own, used, served, x);
    }
    var slot, respValid, respData, cmdReady := RamPart(g, mem, s, x, pauseRam);
    var queue, cmdValid, cmdAddr, resp := MasterPart(x, pauseMaster);
    y := Segment(queue, cmdValid, cmdAddr, resp, !pauseMaster, cmdReady, slot, respValid, respData);
    now := served + if Takes(x) then 1 else 0;
    Answered(g, mem, s, x, y);
    SoundMoves(own, used, served, x, y, if Takes(x) then WordAt(g, mem, s, x.cmdAddr) else []);
    if !pauseMaster && !pauseRam && x.Brisk() {
      Paced(x, y);
    }
  }

  /** What the memory takes is the word to be served next. */
  lemma NextAsked(own: seq<Tagged>, used: nat, served: nat, x: Segment)
    requires Sound(own, used, served, x) && Takes(x)
    ensures served < |own| && x.cmdAddr == own[served].op.row && x.queue == RowsOf(own)[served + 1..]
  {
    var rest := RowsOf(own)[served..];
    assert x.Asked() == [x.cmdAddr] + x.queue == rest;
    assert rest[0] == x.cmdAddr && rest[1..] == x.queue == RowsOf(own)[served + 1..];
  }

  /** An edge that serves a word, or none. */
  lemma SoundMoves(own: seq<Tagged>, used: nat, served: nat, x: Segment, y: Segment, word: seq<bv8>)
    requires Sound(own, used, served, x) && y.Roomy()
    requires y.Asked() == if Takes(x) then x.queue else x.Asked()
    requires y.Answers() == x.Answers() + if Takes(x) then [word] else []
    requires Takes(x) ==> served < |own| && x.queue == RowsOf(own)[served + 1..] && Brings(word, own[served].op)
    ensures Sound(own, used, served + if Takes(x) then 1 else 0, y)
  {
    Alone(x.Answers());
    AnsweredMore(own, used, served, x.Answers(), y.Answers());
  }

  /** A segment at which neither end holds anything back comes nearer to rest. */
  lemma Paced(x: Segment, y: Segment)
    requires x.Brisk()
    requires y.slot.Some? ==> Takes(x)
    requires x.slot == None ==> !y.respValid
    requires x.cmdReady || !x.cmdValid ==>
      y.cmdValid == (x.queue != []) && |y.queue| == |x.queue| - if y.cmdValid then 1 else 0
    requires |y.queue| <= |x.queue| && (!x.cmdReady && x.cmdValid ==> y.cmdValid)
    ensures y.Due() < x.Due() || y.Due() == 0
  {
  }

  /** Nothing is lost or overtaken between the memory and the answer queue. */
  lemma Answered(g: Geometry, mem: seq<bv8>, s: nat, x: Segment, y: Segment)
    requires g.Valid() && |mem| == g.Size() && s < g.segs && (Takes(x) ==> x.cmdAddr < g.rows)
    requires var held := Held(x.respValid, x.respData, x.slot);
      Held(y.respValid, y.respData, y.slot) ==
        (if x.respReady && x.respValid then held[1..] else held)
        + (if Takes(x) then [WordAt(g, mem, s, x.cmdAddr)] else [])
    requires y.resp == x.resp + if x.respReady && x.respValid then [x.respData] else []
    ensures y.Answers() == x.Answers() + if Takes(x) then [WordAt(g, mem, s, x.cmdAddr)] else []
  {
    var held := Held(x.respValid, x.respData, x.slot);
    assert x.Answers() == x.resp + held;
    assert y.Answers() == y.resp + Held(y.respValid, y.respData, y.slot);
    if x.respReady && x.respValid {
      assert held == [x.respData] + held[1..];
    }
  }

  /** One answer more, that of the word served next, or none. */
  lemma AnsweredMore(own: seq<Tagged>, used: nat, served: nat, was: seq<seq<bv8>>, now: seq<seq<bv8>>)
    requires used <= served <= |own| && |was| == served - used
    requires forall i :: 0 <= i < |was| ==> Brings(was[i], own[used + i].op)
    requires now == was || (served < |own| && |now| == |was| + 1 && now[..|was|] == was && Brings(now[|was|], own[served].op))
    ensures forall i :: 0 <= i < |now| ==> Brings(now[i], own[used + i].op)
  {
    forall i | 0 <= i < |now|
      ensures Brings(now[i], own[used + i].op)
    {
      if i < |was| {
        assert now[i] == now[..|was|][i];
      }
    }
  }

  // ---- reads as words ----

  /** A read, with the bytes it is to return: its words are those of the write of these bytes. */
  predicate Reads(w: Write, mem: seq<bv8>) {
    Writable(w, |mem|) && w.data == mem[w.address..w.address + |w.data|]
  }

  /** Memory holds what the reads from the n-th on are to return. */
  predicate Holding(ws: seq<Write>, n: nat, mem: seq<bv8>) {
    forall i :: n <= i < |ws| ==> Reads(ws[i], mem)
  }

  lemma HoldingMore(ws: seq<Write>, n: nat, mem: seq<bv8>, w: Write)
    requires Holding(ws, n, mem) && Reads(w, mem)
    ensures Holding(ws + [w], n, mem)
  {
  }

  function RowsOf(ts: seq<Tagged>): (r: seq<nat>)
    ensures |r| == |ts|
  {
    seq(|ts|, i requires 0 <= i < |ts| => ts[i].op.row)
  }

  lemma RowBelow(g: Geometry, w: Write, k: nat)
    requires g.Valid() && Writable(w, g.Size()) && k < Segments(g, w.address, |w.data|)
    ensures Word(g, w, k).op.row < g.rows
  {
    ChunkStart(g, w, k);
    RowOfChunk(g.rows, g.segs, g.lanes, w.address / g.lanes + k);
  }

  lemma RowOfChunk(rows: nat, segs: nat, lanes: nat, chunk: nat)
    requires segs > 0 && chunk * lanes < rows * segs * lanes
    ensures chunk / segs < rows
  {
    LessByFactor(chunk, rows * segs, lanes);
    assert chunk == chunk / segs * segs + chunk % segs;
    LessByFactor(chunk / segs, rows, segs);
  }

  lemma LessByFactor(a: int, b: int, f: nat)
    requires a * f < b * f
    ensures a < b
  {
    if a >= b {
      MulMonotone(f, b, a);
    }
  }

  /** Every chunk a read touches starts inside memory. */
  lemma ChunkStart(g: Geometry, w: Write, k: nat)
    requires g.Valid() && k < Segments(g, w.address, |w.data|)
    ensures (w.address / g.lanes + k) * g.lanes <= w.address
         || (w.address / g.lanes + k) * g.lanes < w.address + |w.data|
  {
    var q, off, l, n := w.address / g.lanes, w.address % g.lanes, g.lanes, Segments(g, w.address, |w.data|);
    LastWord(g, w);
    Multiples(q, k, n, l);
    assert w.address == q * l + off;
  }

  /** What memory holds at the row of a word of a read brings its bytes. */
  lemma HoldsWord(g: Geometry, w: Write, mem: seq<bv8>, k: nat)
    requires g.Valid() && |mem| == g.Size() && Reads(w, mem) && k < Segments(g, w.address, |w.data|)
    ensures var t := Word(g, w, k);
            t.seg < g.segs && t.op.row < g.rows && Brings(WordAt(g, mem, t.seg, t.op.row), t.op)
  {
    var t, chunk := Word(g, w, k), (w.address / g.lanes + k) * g.lanes;
    RowBelow(g, w, k);
    RowInside(g, t.seg, t.op.row);
    ChunkOf(g, w, k);
    var word := WordAt(g, mem, t.seg, t.op.row);
    forall j | 0 <= j < |word| && t.op.be[j]
      ensures word[j] == t.op.data[j]
    {
      assert Enabled(g, w, k, j) && word[j] == mem[chunk + j];
    }
  }

  /** Of a segment's words those that come after the ones of the first n reads are words of later ones. */
  lemma {:induction false} FromLater(g: Geometry, ws: seq<Write>, n: nat, s: nat, j: nat) returns (i: nat, k: nat)
    requires g.Valid() && n <= |ws| && |Only(WordsOf(g, ws, n), s)| <= j < |Only(AllWords(g, ws), s)|
    ensures n <= i < |ws| && k < Segments(g, ws[i].address, |ws[i].data|)
    ensures Only(AllWords(g, ws), s)[j] == Word(g, ws[i], k) && Word(g, ws[i], k).seg == s
    decreases |ws|
  {
    assert ws[..|ws|] == ws;
    var m := |ws| - 1;
    var news := Words(g, ws[m], Segments(g, ws[m].address, |ws[m].data|));
    OnlyBoth(AllWords(g, ws[..m]), news, s);
    var c := |Only(AllWords(g, ws[..m]), s)|;
    if j < c {
      assert ws[..m][..n] == ws[..n];
      i, k := FromLater(g, ws[..m], n, s, j);
    } else {
      OnlyFrom(news, s, j - c);
      var t := Only(news, s)[j - c];
      k :| 0 <= k < |news| && t == news[k];
      i := m;
    }
  }

  /** So memory serves the next word of a segment, if it holds the bytes of the reads in flight. */
  lemma ServesNext(g: Geometry, ws: seq<Write>, n: nat, k: nat, mem: seq<bv8>, s: nat, served: nat)
    requires g.Valid() && |mem| == g.Size() && s < g.segs && n <= |ws| && Holding(ws, n, mem)
    requires |Only(Taken(g, ws, n, k), s)| <= served
    ensures Serves(g, mem, s, Only(AllWords(g, ws), s), served)
  {
    if served < |Only(AllWords(g, ws), s)| {
      if n < |ws| {
        OnlyBoth(WordsOf(g, ws, n), Words(g, ws[n], k), s);
      } else {
        Alone(WordsOf(g, ws, n));
      }
      var i, j := FromLater(g, ws, n, s, served);
      HoldsWord(g, ws[i], mem, j);
    }
  }

  // ---- putting a read together ----

  /** Bytes of a read put together after k of its words. */
  function Progress(g: Geometry, w: Write, k: nat): int
    requires g.Valid()
  {
    if k < Segments(g, w.address, |w.data|) then OffsetOf(g, w, k) else |w.data|
  }

  lemma ProgressSteps(g: Geometry, w: Write, k: nat)
    requires g.Valid() && k < Segments(g, w.address, |w.data|)
    ensures StartOf(g, w, k) <= StopOf(g, w, k) <= g.lanes
    ensures 0 <= Progress(g, w, k) <= Progress(g, w, k + 1) <= |w.data|
    ensures Progress(g, w, k + 1) - Progress(g, w, k) == StopOf(g, w, k) - StartOf(g, w, k)
    ensures (w.address / g.lanes + k) * g.lanes + StartOf(g, w, k) == w.address + Progress(g, w, k)
  {
    WordBounds(g, w, k);
    LastWord(g, w);
  }

  /** Word k of a read brings exactly the next bytes. */
  lemma NextBytes(g: Geometry, w: Write, k: nat, word: seq<bv8>)
    requires g.Valid() && k < Segments(g, w.address, |w.data|) && Brings(word, Word(g, w, k).op)
    ensures StartOf(g, w, k) <= StopOf(g, w, k) <= |word|
    ensures 0 <= Progress(g, w, k) <= Progress(g, w, k + 1) <= |w.data|
    ensures w.data[..Progress(g, w, k)] + word[StartOf(g, w, k)..StopOf(g, w, k)] == w.data[..Progress(g, w, k + 1)]
  {
    var p, q, a, b := Progress(g, w, k), Progress(g, w, k + 1), StartOf(g, w, k), StopOf(g, w, k);
    ProgressSteps(g, w, k);
    WordBounds(g, w, k);
    forall j | a <= j < b
      ensures word[j] == w.data[p + j - a]
    {
      assert Enabled(g, w, k, j);
    }
    SamePiece(word, a, b, w.data, p);
    SliceOn(w.data, p, q);
  }

  lemma SamePiece(word: seq<bv8>, a: nat, b: nat, data: seq<bv8>, p: nat)
    requires a <= b <= |word| && p + b - a <= |data| && forall j :: a <= j < b ==> word[j] == data[p + j - a]
    ensures word[a..b] == data[p..p + b - a]
  {
    forall i | 0 <= i < b - a
      ensures word[a..b][i] == data[p..p + b - a][i]
    {
      assert word[a + i] == data[p + (a + i) - a];
    }
  }

  /** Row and segment of word k are those of its chunk. */
  lemma ChunkOf(g: Geometry, w: Write, k: nat)
    requires g.Valid()
    ensures var t := Word(g, w, k); (t.op.row * g.segs + t.seg) * g.lanes == (w.address / g.lanes + k) * g.lanes
  {
    var chunk := w.address / g.lanes + k;
    assert chunk == chunk / g.segs * g.segs + chunk % g.segs;
  }

  lemma SliceOn<T>(data: seq<T>, p: nat, q: nat)
    requires p <= q <= |data|
    ensures data[..q] == data[..p] + data[p..q]
  {
  }

  /** Every segment's answers bring what the reads are to return, in order. */
  ghost predicate AllSound(g: Geometry, ws: seq<Write>, taken: seq<Tagged>, served: seq<nat>, xs: seq<Segment>)
    requires g.Valid()
  {
    && |served| == g.segs && |xs| == g.segs
    && forall s :: 0 <= s < g.segs ==> SoundAt(g, ws, taken, s, served[s], xs[s])
  }

  ghost predicate SoundAt(g: Geometry, ws: seq<Write>, taken: seq<Tagged>, s: nat, served: nat, x: Segment)
    requires g.Valid()
  {
    Sound(Only(AllWords(g, ws), s), |Only(taken, s)|, served, x)
  }

  /** More reads only add to what is asked. */
  lemma IssueSound(g: Geometry, ws: seq<Write>, w: Write, taken: seq<Tagged>, s: nat, served: nat, x: Segment, y: Segment)
    requires g.Valid() && SoundAt(g, ws, taken, s, served, x)
    requires y == x.(queue := x.queue + RowsOf(Only(Words(g, w, Segments(g, w.address, |w.data|)), s)))
    ensures SoundAt(g, ws + [w], taken, s, served, y)
  {
    var news := Words(g, w, Segments(g, w.address, |w.data|));
    assert (ws + [w])[..|ws|] == ws;
    OnlyBoth(AllWords(g, ws), news, s);
    WiderSound(Only(AllWords(g, ws), s), Only(news, s), |Only(taken, s)|, served, x, y);
  }

  lemma WiderSound(own: seq<Tagged>, more: seq<Tagged>, used: nat, served: nat, x: Segment, y: Segment)
    requires Sound(own, used, served, x) && y == x.(queue := x.queue + RowsOf(more))
    ensures Sound(own + more, used, served, y)
  {
    var was, now := RowsOf(own), RowsOf(own + more);
    assert now == was + RowsOf(more);
    assert now[served..] == was[served..] + RowsOf(more);
    forall i | 0 <= i < |y.Answers()|
      ensures Brings(y.Answers()[i], (own + more)[used + i].op)
    {
      assert (own + more)[used + i] == own[used + i] && y.Answers()[i] == x.Answers()[i];
    }
  }

  /** Another read issued, its rows queued. */
  lemma AskKeeps(g: Geometry, ws: seq<Write>, w: Write, n: nat, k: nat,
    cmds: seq<RespCmd>, cur: Option<RespCmd>, curSeg: nat, served: seq<nat>, xs: seq<Segment>, ys: seq<Segment>)
    requires g.Valid() && n <= |ws| && (n == |ws| ==> k == 0) && Answering(g, ws, n, k, cmds, cur, curSeg)
    requires AllSound(g, ws, Taken(g, ws, n, k), served, xs) && |ys| == g.segs
    requires forall s :: 0 <= s < g.segs ==>
      ys[s] == Wider(xs[s], RowsOf(Only(Words(g, w, Segments(g, w.address, |w.data|)), s)))
    ensures Answering(g, ws + [w], n, k, cmds + [RespOf(g, w)], cur, curSeg)
    ensures AllSound(g, ws + [w], Taken(g, ws + [w], n, k), served, ys)
  {
    TakenStays(g, ws, w, n, k);
    AnsweringStays(g, ws, w, n, k, cmds, cur, curSeg);
    AskSound(g, ws, w, Taken(g, ws, n, k), served, xs, ys);
  }

  lemma AskSound(g: Geometry, ws: seq<Write>, w: Write, taken: seq<Tagged>, served: seq<nat>,
    xs: seq<Segment>, ys: seq<Segment>)
    requires g.Valid() && AllSound(g, ws, taken, served, xs) && |ys| == g.segs
    requires forall s :: 0 <= s < g.segs ==>
      ys[s] == Wider(xs[s], RowsOf(Only(Words(g, w, Segments(g, w.address, |w.data|)), s)))
    ensures AllSound(g, ws + [w], taken, served, ys)
  {
    forall s | 0 <= s < g.segs
      ensures SoundAt(g, ws + [w], taken, s, served[s], ys[s])
    {
      assert SoundAt(g, ws, taken, s, served[s], xs[s]);
      IssueSound(g, ws, w, taken, s, served[s], xs[s], ys[s]);
    }
  }

  /** The answer to word k of read n taken from its segment. */
  lemma UseAll(g: Geometry, ws: seq<Write>, n: nat, k: nat, served: seq<nat>, xs: seq<Segment>, ys: seq<Segment>)
    requires g.Valid() && n < |ws| && k < Segments(g, ws[n].address, |ws[n].data|)
    requires AllSound(g, ws, Taken(g, ws, n, k), served, xs)
    requires var s := Word(g, ws[n], k).seg; xs[s].resp != [] && ys == xs[s := xs[s].(resp := xs[s].resp[1..])]
    ensures AllSound(g, ws, Taken(g, ws, n, k + 1), served, ys)
    ensures Brings(xs[Word(g, ws[n], k).seg].resp[0], Word(g, ws[n], k).op)
  {
    forall s | 0 <= s < g.segs
      ensures SoundAt(g, ws, Taken(g, ws, n, k + 1), s, served[s], ys[s])
    {
      assert SoundAt(g, ws, Taken(g, ws, n, k), s, served[s], xs[s]);
      UseSound(g, ws, n, k, s, served[s], xs[s], ys[s]);
    }
    var s := Word(g, ws[n], k).seg;
    UseSound(g, ws, n, k, s, served[s], xs[s], ys[s]);
  }

  /** Using an answer. */
  lemma UseSound(g: Geometry, ws: seq<Write>, n: nat, k: nat, s: nat, served: nat, x: Segment, y: Segment)
    requires g.Valid() && n < |ws| && k < Segments(g, ws[n].address, |ws[n].data|)
    requires SoundAt(g, ws, Taken(g, ws, n, k), s, served, x)
    requires if s == Word(g, ws[n], k).seg then x.resp != [] && y == x.(resp := x.resp[1..]) else y == x
    ensures SoundAt(g, ws, Taken(g, ws, n, k + 1), s, served, y)
    ensures s == Word(g, ws[n], k).seg ==> Brings(x.resp[0], Word(g, ws[n], k).op)
  {
    NextUsed(g, ws, n, k, s);
    if s == Word(g, ws[n], k).seg {
      FirstUsed(Only(AllWords(g, ws), s), |Only(Taken(g, ws, n, k), s)|, served, x);
    }
  }

  lemma FirstUsed(own: seq<Tagged>, used: nat, served: nat, x: Segment)
    requires Sound(own, used, served, x) && x.resp != []
    ensures used < |own| && Sound(own, used + 1, served, x.(resp := x.resp[1..]))
    ensures Brings(x.resp[0], own[used].op)
  {
    var was, now := x.Answers(), x.(resp := x.resp[1..]).Answers();
    assert was[0] == x.resp[0] && now == was[1..];
    forall i | 0 <= i < |now|
      ensures Brings(now[i], own[used + 1 + i].op)
    {
      assert now[i] == was[i + 1] && own[used + 1 + i] == own[used + (i + 1)];
    }
  }

  datatype ReadResp = ReadResp(address: nat, data: seq<bv8>)

  function RespTo(w: Write): ReadResp {
    ReadResp(w.address, w.data)
  }

  /** Every result is the bytes of its read, in the order the reads were issued. */
  predicate Returned(ws: seq<Write>, results: seq<ReadResp>) {
    && |results| <= |ws|
    && forall i :: 0 <= i < |results| ==> results[i] == RespTo(ws[i])
  }

  /** What k words of a read put together. */
  function PartOf(g: Geometry, w: Write, k: nat): seq<bv8>
    requires g.Valid()
  {
    var n := Progress(g, w, k);
    if 0 <= n <= |w.data| then w.data[..n] else []
  }

  lemma WholePart(g: Geometry, w: Write)
    requires g.Valid()
    ensures PartOf(g, w, 0) == []
    ensures PartOf(g, w, Segments(g, w.address, |w.data|)) == w.data
  {
    ProgressZero(g, w);
    assert w.data[..|w.data|] == w.data;
  }

  /** What is known once the answer to word k of read n has been used. */
  lemma UseWord(g: Geometry, ws: seq<Write>, n: nat, k: nat, served: seq<nat>,
    xs: seq<Segment>, ys: seq<Segment>, word: seq<bv8>)
    requires g.Valid() && n < |ws| && k < Segments(g, ws[n].address, |ws[n].data|)
    requires AllSound(g, ws, Taken(g, ws, n, k), served, xs)
    requires var s := Word(g, ws[n], k).seg;
             xs[s].resp != [] && word == xs[s].resp[0] && ys == xs[s := xs[s].(resp := xs[s].resp[1..])]
    ensures AllSound(g, ws, Taken(g, ws, n, k + 1), served, ys)
    ensures StartOf(g, ws[n], k) <= StopOf(g, ws[n], k) <= |word|
    ensures PartOf(g, ws[n], k) + word[StartOf(g, ws[n], k)..StopOf(g, ws[n], k)] == PartOf(g, ws[n], k + 1)
  {
    UseAll(g, ws, n, k, served, xs, ys);
    NextBytes(g, ws[n], k, word);
  }

  predicate AllBrisk(xs: seq<Segment>) {
    forall s :: 0 <= s < |xs| ==> xs[s].Brisk()
  }

  /** Every segment that is not at rest comes nearer to it. */
  predicate AllNearer(xs: seq<Segment>, ys: seq<Segment>) {
    |xs| == |ys| && forall s :: 0 <= s < |xs| ==> ys[s].Due() < xs[s].Due() || ys[s].Due() == 0
  }

  /** One edge without pauses. */
  predicate Calmer(x: Segment, y: Segment) {
    y.Brisk() && (x.Brisk() ==> y.Due() < x.Due() || y.Due() == 0)
  }

  lemma EachCalmer(xs: seq<Segment>, ys: seq<Segment>)
    requires |xs| == |ys| && forall s :: 0 <= s < |xs| ==> Calmer(xs[s], ys[s])
    ensures AllBrisk(ys) && (AllBrisk(xs) ==> AllNearer(xs, ys))
  {
  }

  predicate AllWithin(xs: seq<Segment>, due: nat) {
    forall s :: 0 <= s < |xs| ==> xs[s].Due() <= due
  }

  lemma {:induction false} Latest(xs: seq<Segment>) returns (due: nat)
    ensures AllWithin(xs, due)
  {
    due := 0;
    if xs != [] {
      var n := |xs| - 1;
      due := Latest(xs[..n]);
      assert forall s :: 0 <= s < n ==> xs[..n][s].Due() <= due;
      if xs[n].Due() > due {
        due := xs[n].Due();
      }
    }
  }

  class Link {
    const g: Geometry

    var segments: seq<Segment>

    /** int_read_resp_command_queue, the command being answered and the bytes it has so far. */
    var cmds: seq<RespCmd>
    var cur: Option<RespCmd>
    var curSeg: nat
    var curK: nat
    var data: seq<bv8>
    var results: seq<ReadResp>

    /** The reads issued, with the bytes they are to return, and the words each segment has served. */
    ghost var issued: seq<Write>
    ghost var served: seq<nat>

    constructor (geometry: Geometry)
      requires geometry.Valid()
      ensures Valid() && fresh(this) && g == geometry && issued == [] && results == []
    {
      g := geometry;
      segments := seq(geometry.segs, s => Segment([], false, 0, [], false, false, None, false, []));
      cmds, cur, curSeg, curK, data, results := [], None, 0, 0, [], [];
      issued, served := [], seq(geometry.segs, s => 0);
    }

    ghost function K(): nat
      reads this
    {
      if cur.Some? then curK else 0
    }

    ghost predicate Valid()
      reads this
    {
      && g.Valid() && AllWritable(issued, g.Size()) && |results| <= |issued|
      && Returned(issued, results)
      && Answering(g, issued, |results|, K(), cmds, cur, curSeg)
      && (cur.Some? ==> |results| < |issued| && data == PartOf(g, issued[|results|], curK))
      && AllSound(g, issued, Taken(g, issued, |results|, K()), served, segments)
    }

    /** Memory holds what the reads in flight are to return. */
    ghost predicate Holds(mem: seq<bv8>)
      reads this
    {
      |mem| == g.Size() && Holding(issued, |results|, mem)
    }

    /** One clock edge, with any pauses of either end, and the memory as it is at this edge. */
    method Edge(mem: seq<bv8>, pauseMaster: bool, pauseRam: bool)
      requires Valid() && Holds(mem)
      modifies this`segments, this`served
      ensures Valid()
      ensures !pauseMaster && !pauseRam ==> AllBrisk(segments)
      ensures !pauseMaster && !pauseRam && AllBrisk(old(segments)) ==> AllNearer(old(segments), segments)
    {
      ghost var xs := segments;
      segments, served := EdgeAll(mem, pauseMaster, pauseRam);
      if !pauseMaster && !pauseRam {
        EachCalmer(xs, segments);
      }
    }

    method EdgeAll(mem: seq<bv8>, pauseMaster: bool, pauseRam: bool) returns (next: seq<Segment>, ghost counts: seq<nat>)
      requires Valid() && Holds(mem)
      ensures AllSound(g, issued, Taken(g, issued, |results|, K()), counts, next)
      ensures !pauseMaster && !pauseRam ==> forall i :: 0 <= i < g.segs ==> Calmer(segments[i], next[i])
    {
      next, counts := segments, served;
      ghost var taken := Taken(g, issued, |results|, K());
      for s := 0 to g.segs
        invariant |next| == g.segs && |counts| == g.segs
        invariant forall i :: 0 <= i < s ==> SoundAt(g, issued, taken, i, counts[i], next[i])
        invariant !pauseMaster && !pauseRam ==> forall i :: 0 <= i < s ==> Calmer(segments[i], next[i])
      {
        ghost var now;
        var y;
        y, now := SegmentEdge(mem, s, pauseMaster, pauseRam);
        next := next[s := y];
        counts := counts[s := now];
      }
    }

    /** The edge of one segment. */
    method SegmentEdge(mem: seq<bv8>, s: nat, pauseMaster: bool, pauseRam: bool) returns (y: Segment, ghost now: nat)
      requires Valid() && Holds(mem) && s < g.segs
      ensures SoundAt(g, issued, Taken(g, issued, |results|, K()), s, now, y)
      ensures !pauseMaster && !pauseRam ==> Calmer(segments[s], y)
    {
      ghost var taken := Taken(g, issued, |results|, K());
      assert SoundAt(g, issued, taken, s, served[s], segments[s]);
      ServesNext(g, issued, |results|, K(), mem, s, served[s]);
      y, now := EdgeOf(g, mem, s, segments[s], pauseMaster, pauseRam, Only(AllWords(g, issued), s), |Only(taken, s)|, served[s]);
    }

    /** read: refused when it does not fit, otherwise asked for word by word. What it is to return is
        what memory holds there, now and for as long as it is in flight. */
    method Read(address: int, length: int, ghost mem: seq<bv8>) returns (r: Result<(), AccessError>)
      requires Valid() && |mem| == g.Size()
      modifies this`cmds, this`segments, this`issued
      ensures Valid()
      ensures var ok := 0 <= address < g.Size() && 0 <= length && address + length <= g.Size();
              && r == (if ok then Ok(()) else Raised(ValueError))
              && issued == if ok then old(issued) + [Write(address, mem[address..address + length])] else old(issued)
    {
      if address < 0 || address >= g.Size() || length < 0 || address + length > g.Size() {
        return Raised(ValueError);
      }
      Ask(address, length, Write(address, mem[address..address + length]));
      return Ok(());
    }

    method ReadEach(asks: seq<Ask>, ghost mem: seq<bv8>)
      requires Valid() && issued == [] && results == [] && |mem| == g.Size()
      requires forall i :: 0 <= i < |asks| ==> InReach(asks[i], |mem|)
      modifies this
      ensures Valid() && |issued| == |asks| && Listed(asks, mem, issued) && Holds(mem)
    {
      for i := 0 to |asks|
        invariant Valid() && results == [] && |issued| == i && Listed(asks, mem, issued) && Holding(issued, 0, mem)
      {
        ListedMore(asks, mem, issued);
        ReadOne(asks[i], mem);
      }
    }

    method ReadOne(a: Ask, ghost mem: seq<bv8>)
      requires Valid() && |mem| == g.Size() && InReach(a, |mem|)
      modifies this`cmds, this`segments, this`issued
      ensures Valid() && issued == old(issued) + [Asked(a, mem)]
    {
      var _ := Read(a.address, a.length, mem);
    }

    /** _process_read: the rows a read needs go to their segments' queues. */
    method Ask(address: nat, length: nat, ghost w: Write)
      requires Valid() && Writable(w, g.Size()) && address == w.address && length == |w.data|
      modifies this`cmds, this`segments, this`issued
      ensures Valid() && issued == old(issued) + [w]
    {
      ghost var before, waiting := segments, cmds;
      AskWords(address, length, w);
      AskKeeps(g, issued, w, |results|, K(), waiting, cur, curSeg, served, before, segments);
      issued := issued + [w];
    }

    method AskWords(address: nat, length: nat, ghost w: Write)
      requires g.Valid() && |segments| == g.segs && address == w.address && length == |w.data|
      modifies this`cmds, this`segments
      ensures cmds == old(cmds) + [RespOf(g, w)] && |segments| == g.segs
      ensures forall s :: 0 <= s < g.segs ==>
        segments[s] == Wider(old(segments)[s], RowsOf(Only(Words(g, w, Segments(g, w.address, |w.data|)), s)))
    {
      var firstSeg := address / g.lanes % g.segs;
      var count := (length + address % g.lanes + g.lanes - 1) / g.lanes;
      cmds := cmds + [RespCmd(address, length, count, firstSeg)];
      var seg := firstSeg;
      MulGrows(g.lanes, g.segs);
      for k := 0 to count
        invariant |segments| == g.segs && cmds == old(cmds) + [RespOf(g, w)]
        invariant seg == Word(g, w, k).seg && seg < g.segs
        invariant forall s :: 0 <= s < g.segs ==> segments[s] == Wider(old(segments)[s], RowsOf(Only(Words(g, w, k), s)))
      {
        RowOf(g, address, k);
        WordNext(g, w, k);
        var row := (address + k * g.lanes) / (g.lanes * g.segs);
        segments := segments[seg := Wider(segments[seg], [row])];
        RowsMore(Words(g, w, k), Word(g, w, k));
        seg := (seg + 1) % g.segs;
      }
    }

    /** With no pauses all answers come back. */
    method Settle(mem: seq<bv8>)
      requires Valid() && Holds(mem)
      modifies this`segments, this`served
      ensures Valid() && AtRest()
    {
      Edge(mem, false, false);
      ghost var due := Latest(segments);
      while !AtRest()
        invariant Valid() && Holds(mem) && AllBrisk(segments) && AllWithin(segments, due)
        decreases due
      {
        ghost var xs := segments;
        Edge(mem, false, false);
        assert AllNearer(xs, segments);
        due := due - 1;
      }
    }

    predicate AtRest()
      reads this
    {
      forall s :: 0 <= s < |segments| ==> segments[s].Due() == 0
    }

    /** Left to itself the link returns every read, with the bytes memory holds. */
    method Drain(mem: seq<bv8>)
      requires Valid() && Holds(mem)
      modifies this
      ensures Valid() && issued == old(issued)
      ensures |results| == |issued| && Returned(issued, results)
    {
      Settle(mem);
      while cur != None || cmds != []
        invariant Valid() && issued == old(issued) && AtRest()
        decreases |issued| - |results|, cur == None, if cur.Some? then cur.value.segments - curK else 0
      {
        Answer();
      }
    }

    /** At rest the response side is not held up. */
    method Answer()
      requires Valid() && AtRest() && (cur != None || cmds != [])
      modifies this`cmds, this`cur, this`curSeg, this`curK, this`data, this`segments, this`results
      ensures Valid() && AtRest() && |old(results)| <= |results|
      ensures |results| > |old(results)| || old(cur) == None != cur
        || (old(cur) == cur != None && old(curK) < curK <= cur.value.segments)
    {
      if cur == None {
        NextCommand();
      } else if curK >= cur.value.segments {
        Report();
      } else {
        AnswerIsThere();
        var taken := TakeWord();
      }
    }

    /** At rest the word the response side waits for has come back. */
    lemma AnswerIsThere()
      requires Valid() && AtRest() && cur.Some? && curK < cur.value.segments
      ensures curSeg < |segments| && segments[curSeg].resp != []
    {
      var n, s := |results|, curSeg;
      AnsweringToken(g, issued, n, curK, cmds, cur, s);
      NextUsed(g, issued, n, curK, s);
      assert segments[s].Due() == 0;
      assert SoundAt(g, issued, Taken(g, issued, n, curK), s, served[s], segments[s]);
      assert |segments[s].Asked()| == |Only(AllWords(g, issued), s)| - served[s];
      assert |segments[s].Answers()| == served[s] - |Only(Taken(g, issued, n, curK), s)|;
    }

    /** One step of the response side. */
    method Respond()
      requires Valid()
      modifies this`cmds, this`cur, this`curSeg, this`curK, this`data, this`segments, this`results
      ensures Valid() && old(results) <= results
    {
      if cur == None {
        NextCommand();
      } else if curK >= cur.value.segments {
        Report();
      } else {
        var _ := TakeWord();
      }
    }

    // _process_read_resp, a step at a time

    method NextCommand()
      requires Valid() && cur == None
      modifies this`cmds, this`cur, this`curSeg, this`curK, this`data
      ensures Valid() && (old(cmds) != [] ==> cur != None)
    {
      ghost var n := |results|;
      if cmds != [] {
        TakenNext(g, issued, n, 0);
        AnsweringNext(g, issued, n, 0);
        WholePart(g, issued[n]);
        cur, cmds := Some(cmds[0]), cmds[1..];
        curK, curSeg, data := 0, cur.value.firstSeg % g.segs, [];
      }
    }

    method Extend(word: seq<bv8>, start: nat, stop: nat)
      requires start <= stop <= |word|
      modifies this`data
      ensures data == old(data) + word[start..stop]
    {
      for j := start to stop
        invariant data == old(data) + word[start..j]
      {
        data := data + [word[j]];
        assert word[start..j + 1] == word[start..j] + [word[j]];
      }
    }

    /** The bytes of word k that the command wants. */
    method Bounds(c: RespCmd, k: nat, ghost w: Write) returns (start: nat, stop: nat)
      requires g.Valid() && c == RespOf(g, w)
      ensures start == StartOf(g, w, k) && stop == StopOf(g, w, k)
    {
      start := if k == 0 then c.address % g.lanes else 0;
      stop := if k == c.segments - 1 then (c.address + c.length - 1) % g.lanes + 1 else g.lanes;
    }

    /** One word of the command put together, when the queue of its segment has it. */
    method TakeWord() returns (taken: bool)
      requires Valid() && cur.Some? && curK < cur.value.segments
      modifies this`segments, this`curSeg, this`curK, this`data
      ensures Valid() && (old(AtRest()) ==> AtRest())
      ensures old(curSeg < |segments| && segments[curSeg].resp != []) ==> curK == old(curK) + 1
    {
      assert |segments| == g.segs && curSeg < g.segs;
      taken := segments[curSeg].resp != [];
      if taken {
        UseAnswer();
      }
    }

    method UseAnswer()
      requires Valid() && cur.Some? && curK < cur.value.segments
      requires curSeg < |segments| && segments[curSeg].resp != []
      modifies this`segments, this`curSeg, this`curK, this`data
      ensures Valid() && curK == old(curK) + 1
      ensures segments == old(segments)[old(curSeg) := old(segments)[old(curSeg)].(resp := old(segments)[old(curSeg)].resp[1..])]
    {
      ghost var w, k := issued[|results|], curK;
      AnsweringToken(g, issued, |results|, k, cmds, cur, curSeg);
      var word := segments[curSeg].resp[0];
      var next := segments[curSeg := segments[curSeg].(resp := segments[curSeg].resp[1..])];
      UseWord(g, issued, |results|, k, served, segments, next, word);
      var start, stop := Bounds(cur.value, curK, w);
      Extend(word, start, stop);
      Pass(next);
    }

    /** On to the next word. */
    method Pass(next: seq<Segment>)
      requires g.Valid() && AllWritable(issued, g.Size()) && |results| < |issued| && Returned(issued, results)
      requires cur.Some? && Answering(g, issued, |results|, curK + 1, cmds, cur, (curSeg + 1) % g.segs)
      requires data == PartOf(g, issued[|results|], curK + 1)
      requires AllSound(g, issued, Taken(g, issued, |results|, curK + 1), served, next)
      modifies this`segments, this`curSeg, this`curK
      ensures Valid() && curK == old(curK) + 1 && segments == next
    {
      segments := next;
      curSeg := (curSeg + 1) % g.segs;
      curK := curK + 1;
    }

    /** After the last word of a read comes the next read. */
    lemma AnsweredNext(n: nat)
      requires Valid() && n == |results| && cur.Some? && curK >= cur.value.segments
      ensures Taken(g, issued, n, curK) == Taken(g, issued, n + 1, 0)
      ensures Answering(g, issued, n + 1, 0, cmds, None, curSeg)
    {
      TakenNext(g, issued, n, curK);
    }

    /** A complete read is returned, with the bytes memory holds. */
    method Report()
      requires Valid() && cur.Some? && curK >= cur.value.segments
      modifies this`cur, this`results
      ensures Valid() && |results| == |old(results)| + 1 <= |issued|
      ensures results == old(results) + [RespTo(issued[|old(results)|])]
    {
      ghost var n := |results|;
      WholePart(g, issued[n]);
      assert ReadResp(cur.value.address, data) == RespTo(issued[n]);
      ReturnedMore(issued, results);
      AnsweredNext(n);
      results := results + [ReadResp(cur.value.address, data)];
      cur := None;
    }
  }

  lemma ReturnedMore(ws: seq<Write>, results: seq<ReadResp>)
    requires Returned(ws, results) && |results| < |ws|
    ensures Returned(ws, results + [RespTo(ws[|results|])])
  {
  }

  lemma ProgressZero(g: Geometry, w: Write)
    requires g.Valid()
    ensures 0 <= Progress(g, w, 0) <= |w.data| && w.data[..Progress(g, w, 0)] == []
  {
    if Segments(g, w.address, |w.data|) == 0 {
      NoWords(g, w);
    }
  }

  lemma NoWords(g: Geometry, w: Write)
    requires g.Valid() && Segments(g, w.address, |w.data|) == 0
    ensures |w.data| == 0
  {
    if |w.data| > 0 {
      SegmentsReach(g, w, w.address);
    }
  }

  /** A segment with more rows queued. */
  function Wider(x: Segment, rows: seq<nat>): Segment {
    x.(queue := x.queue + rows)
  }

  lemma WordNext(g: Geometry, w: Write, k: nat)
    requires g.Valid()
    ensures Word(g, w, k + 1).seg == (Word(g, w, k).seg + 1) % g.segs
    ensures Words(g, w, k + 1) == Words(g, w, k) + [Word(g, w, k)]
  {
    RegisterStep(w.address / g.lanes + k, 1, g.segs);
  }

  lemma RowsMore(ts: seq<Tagged>, t: Tagged)
    ensures forall s :: RowsOf(Only(ts + [t], s)) == RowsOf(Only(ts, s)) + if s == t.seg then [t.op.row] else []
  {
    assert (ts + [t])[..|ts|] == ts;
  }

  /** A read to be made. */
  datatype Ask = Ask(address: nat, length: nat)

  predicate InReach(a: Ask, size: nat) {
    a.address < size && a.address + a.length <= size
  }

  function Answer(a: Ask, mem: seq<bv8>): ReadResp
    requires InReach(a, |mem|)
  {
    ReadResp(a.address, mem[a.address..a.address + a.length])
  }

  /** The reads issued are the first of those asked for. */
  predicate Listed(asks: seq<Ask>, mem: seq<bv8>, ws: seq<Write>) {
    |ws| <= |asks| && forall j :: 0 <= j < |ws| ==> InReach(asks[j], |mem|) && RespTo(ws[j]) == Answer(asks[j], mem)
  }

  function Asked(a: Ask, mem: seq<bv8>): Write
    requires InReach(a, |mem|)
  {
    Write(a.address, mem[a.address..a.address + a.length])
  }

  lemma ListedMore(asks: seq<Ask>, mem: seq<bv8>, ws: seq<Write>)
    requires Listed(asks, mem, ws) && Holding(ws, 0, mem) && |ws| < |asks| && InReach(asks[|ws|], |mem|)
    ensures var all := ws + [Asked(asks[|ws|], mem)];
            Listed(asks, mem, all) && Holding(all, 0, mem)
  {
    HoldingMore(ws, 0, mem, Asked(asks[|ws|], mem));
  }

  /** Reads made through a fresh link return the bytes memory holds, in the order they were made. */
  method ReadAll(g: Geometry, mem: seq<bv8>, asks: seq<Ask>) returns (results: seq<ReadResp>)
    requires g.Valid() && |mem| == g.Size()
    requires forall i :: 0 <= i < |asks| ==> InReach(asks[i], |mem|)
    ensures |results| == |asks|
    ensures forall i :: 0 <= i < |asks| ==> results[i] == Answer(asks[i], mem)
  {
    var link := new Link(g);
    link.ReadEach(asks, mem);
    link.Drain(mem);
    results := link.results;
    AllAnswered(asks, mem, link.issued, results);
  }

  lemma AllAnswered(asks: seq<Ask>, mem: seq<bv8>, ws: seq<Write>, results: seq<ReadResp>)
    requires Listed(asks, mem, ws) && |ws| == |asks| && Returned(ws, results) && |results| == |ws|
    ensures forall i :: 0 <= i < |asks| ==> InReach(asks[i], |mem|) && results[i] == Answer(asks[i], mem)
  {
  }
}
