/** Both ends of the segmented memory of src/dma/tb/dma_psdp_ram.py at work on one memory: writes and
    reads in flight side by side, each over its own handshakes. */
module PsdpMemory {
  import opened Base
  import opened PsdpRam
  import opened PsdpWrite
  import PsdpRead

  /** A read is to return what the first m writes make of a flat memory at its address. */
  predicate Expects(initial: seq<bv8>, ws: seq<Write>, m: nat, r: Write) {
    && m <= |ws| && AllFit(ws[..m], |initial|) && Fits(r, |initial|)
    && r.data == Stores(initial, ws[..m])[r.address..r.address + |r.data|]
  }

  lemma AllSeen(initial: seq<bv8>, ws: seq<Write>, m: nat, r: Write)
    requires Expects(initial, ws, m, r) && m == |ws|
    ensures Fits(r, |initial|) && AllFit(ws, |initial|)
    ensures r.data == Stores(initial, ws)[r.address..r.address + |r.data|]
  {
    assert ws[..m] == ws;
  }

  /** A write touches no byte of a range. */
  predicate Beside(w: Write, address: nat, length: nat) {
    forall b :: address <= b < address + length ==> !Touches(w, b)
  }

  predicate Untouched(ws: seq<Write>, m: nat, address: nat, length: nat) {
    forall i :: m <= i < |ws| ==> Beside(ws[i], address, length)
  }

  /** What the reads issued are to see: each as many writes as its mark says, and from those on no write
      goes where one of them, from the n-th on, is in flight. */
  predicate Marked(initial: seq<bv8>, ws: seq<Write>, completed: nat, marks: seq<nat>, rs: seq<Write>, n: nat) {
    && |marks| == |rs|
    && (forall j :: 0 <= j < |marks| ==> marks[j] <= completed && Expects(initial, ws, marks[j], rs[j]))
    && (forall j :: n <= j < |marks| ==> Untouched(ws, marks[j], rs[j].address, |rs[j].data|))
  }

  /** A write beside all reads in flight changes nothing of that. */
  predicate Clear(w: Write, rs: seq<Write>, n: nat) {
    forall j :: n <= j < |rs| ==> Beside(w, rs[j].address, |rs[j].data|)
  }

  lemma MarkedWrite(initial: seq<bv8>, ws: seq<Write>, w: Write, completed: nat, marks: seq<nat>, rs: seq<Write>, n: nat)
    requires Marked(initial, ws, completed, marks, rs, n) && Clear(w, rs, n)
    ensures Marked(initial, ws + [w], completed, marks, rs, n)
  {
    forall j | 0 <= j < |marks|
      ensures Expects(initial, ws + [w], marks[j], rs[j])
    {
      assert (ws + [w])[..marks[j]] == ws[..marks[j]];
    }
  }

  lemma MarkedRead(initial: seq<bv8>, ws: seq<Write>, completed: nat, marks: seq<nat>, rs: seq<Write>, n: nat, m: nat, r: Write)
    requires Marked(initial, ws, completed, marks, rs, n) && n <= |rs|
    requires m <= completed && Expects(initial, ws, m, r) && Untouched(ws, m, r.address, |r.data|)
    ensures Marked(initial, ws, completed, marks + [m], rs + [r], n)
  {
  }

  lemma MarkedLater(initial: seq<bv8>, ws: seq<Write>, completed: nat, marks: seq<nat>, rs: seq<Write>, n: nat, n': nat)
    requires Marked(initial, ws, completed, marks, rs, n) && n <= n'
    ensures Marked(initial, ws, completed, marks, rs, n')
  {
  }

  class Memory {
    const wr: Link
    const rd: PsdpRead.Link

    /** For every read issued, how many writes had been reported that it is to see. */
    ghost var marks: seq<nat>

    constructor (g: Geometry, contents: seq<bv8>)
      requires g.Valid() && |contents| == g.Size()
      ensures Valid() && fresh(this) && fresh(Repr()) && wr.g == g
      ensures wr.writes == [] && wr.completed == 0 && rd.issued == [] && rd.results == []
      ensures wr.ram.initial == contents
    {
      wr := new Link(g, contents);
      rd := new PsdpRead.Link(g);
      marks := [];
    }

    ghost function Repr(): set<object> {
      {this, rd} + wr.Repr()
    }

    ghost predicate Valid()
      reads Repr()
    {
      && wr.Valid() && rd.Valid() && wr.g == rd.g
      && Marked(wr.ram.initial, wr.writes, wr.completed, marks, rd.issued, |rd.results|)
    }

    /** So the memory holds what the reads in flight are to return. */
    lemma HoldsNow()
      requires Valid()
      ensures rd.Holds(wr.ram.mem[..])
    {
      var mem := wr.ram.mem[..];
      forall j | |rd.results| <= j < |rd.issued|
        ensures PsdpRead.Reads(rd.issued[j], mem)
      {
        HoldsRead(marks[j], rd.issued[j]);
      }
    }

    lemma HoldsRead(m: nat, r: Write)
      requires wr.Valid() && m <= wr.completed && Writable(r, wr.g.Size())
      requires Expects(wr.ram.initial, wr.writes, m, r) && Untouched(wr.writes, m, r.address, |r.data|)
      ensures PsdpRead.Reads(r, wr.ram.mem[..])
    {
      HoldsFlat(m, r.address, |r.data|);
    }

    /** What memory holds where no write from the m-th on is going. */
    lemma HoldsFlat(m: nat, address: nat, length: nat)
      requires wr.Valid() && m <= wr.completed && address + length <= wr.g.Size()
      requires Untouched(wr.writes, m, address, length)
      ensures AllFit(wr.writes[..m], |wr.ram.initial|)
      ensures wr.ram.mem[..][address..address + length] == Stores(wr.ram.initial, wr.writes[..m])[address..address + length]
    {
      var mem, flat := wr.ram.mem[..], Stores(wr.ram.initial, wr.writes[..m]);
      forall b | address <= b < address + length
        ensures mem[b] == flat[b]
      {
        assert forall i :: m <= i < |wr.writes| ==> Beside(wr.writes[i], address, length) && !Touches(wr.writes[i], b);
        ReportedVisible(wr, m, b);
      }
      SameSlice(mem, flat, address, length);
    }

    /** A write, anywhere but where reads are in flight. */
    method Write(address: int, data: seq<bv8>) returns (r: Result<(), AccessError>)
      requires Valid() && (address >= 0 ==> Clear(PsdpRam.Write(address, data), rd.issued, |rd.results|))
      modifies wr`writes, wr.master
      ensures Valid() && wr.completed == old(wr.completed)
      ensures r == if 0 <= address < wr.g.Size() && address + |data| <= wr.g.Size() then Ok(()) else Raised(ValueError)
      ensures wr.writes == if r.Ok? then old(wr.writes) + [PsdpRam.Write(address, data)] else old(wr.writes)
    {
      if address >= 0 {
        MarkedWrite(wr.ram.initial, wr.writes, PsdpRam.Write(address, data), wr.completed, marks, rd.issued, |rd.results|);
      }
      r := wr.Write(address, data);
    }

    /** A read that is to see the first `mark` writes, all of them reported, no later one going where
        it reads. */
    method Read(address: int, length: int, ghost mark: nat) returns (r: Result<(), AccessError>)
      requires Valid() && mark <= wr.completed
      requires 0 <= address && 0 <= length ==> Untouched(wr.writes, mark, address, length)
      modifies this`marks, rd`cmds, rd`segments, rd`issued
      ensures Valid()
      ensures r == if 0 <= address < wr.g.Size() && 0 <= length && address + length <= wr.g.Size() then Ok(()) else Raised(ValueError)
      ensures r.Ok? ==>
        marks == old(marks) + [mark] && rd.issued == old(rd.issued) + [PsdpRam.Write(address, wr.ram.mem[..][address..address + length])]
      ensures r.Raised? ==> marks == old(marks) && rd.issued == old(rd.issued)
    {
      ghost var mem := wr.ram.mem[..];
      if 0 <= address < wr.g.Size() && 0 <= length && address + length <= wr.g.Size() {
        r := ReadInside(address, length, mark, mem);
      } else {
        r := ReadOutside(address, length, mem);
      }
    }

    /** A read out of range changes nothing. */
    method ReadOutside(address: int, length: int, ghost mem: seq<bv8>) returns (r: Result<(), AccessError>)
      requires wr.Valid() && rd.Valid() && wr.g == rd.g && |mem| == rd.g.Size()
      requires !(0 <= address < |mem| && 0 <= length && address + length <= |mem|)
      requires Marked(wr.ram.initial, wr.writes, wr.completed, marks, rd.issued, |rd.results|)
      modifies rd`cmds, rd`segments, rd`issued
      ensures Valid() && r == Raised(ValueError) && rd.issued == old(rd.issued)
    {
      r := rd.Read(address, length, mem);
      assert wr.Valid();
    }

    method ReadInside(address: nat, length: nat, ghost mark: nat, ghost mem: seq<bv8>) returns (r: Result<(), AccessError>)
      requires Valid() && mark <= wr.completed && Untouched(wr.writes, mark, address, length)
      requires address < wr.g.Size() && address + length <= wr.g.Size() && mem == wr.ram.mem[..]
      modifies this`marks, rd`cmds, rd`segments, rd`issued
      ensures Valid() && r == Ok(()) && marks == old(marks) + [mark]
      ensures rd.issued == old(rd.issued) + [PsdpRam.Write(address, mem[address..address + length])]
    {
      ghost var w := PsdpRam.Write(address, mem[address..address + length]);
      NextMarked(mark, w);
      r := Issue(address, length, mark, mem, w);
    }

    method Issue(address: nat, length: nat, ghost mark: nat, ghost mem: seq<bv8>, ghost w: PsdpRam.Write) returns (r: Result<(), AccessError>)
      requires wr.Valid() && rd.Valid() && wr.g == rd.g && |mem| == rd.g.Size()
      requires address < |mem| && address + length <= |mem| && w == PsdpRam.Write(address, mem[address..address + length])
      requires Marked(wr.ram.initial, wr.writes, wr.completed, marks + [mark], rd.issued + [w], |rd.results|)
      modifies this`marks, rd`cmds, rd`segments, rd`issued
      ensures Valid() && r == Ok(()) && rd.issued == old(rd.issued) + [w] && marks == old(marks) + [mark]
    {
      marks := marks + [mark];
      r := rd.Read(address, length, mem);
      assert wr.Valid();
    }

    lemma NextMarked(m: nat, w: PsdpRam.Write)
      requires Valid() && m <= wr.completed && Writable(w, wr.g.Size()) && Untouched(wr.writes, m, w.address, |w.data|)
      requires w.data == wr.ram.mem[..][w.address..w.address + |w.data|]
      ensures Marked(wr.ram.initial, wr.writes, wr.completed, marks + [m], rd.issued + [w], |rd.results|)
    {
      ReadMarked(m, w);
      MarkedRead(wr.ram.initial, wr.writes, wr.completed, marks, rd.issued, |rd.results|, m, w);
    }

    lemma ReadMarked(m: nat, w: PsdpRam.Write)
      requires wr.Valid() && m <= wr.completed && Writable(w, wr.g.Size()) && Untouched(wr.writes, m, w.address, |w.data|)
      requires w.data == wr.ram.mem[..][w.address..w.address + |w.data|]
      ensures Expects(wr.ram.initial, wr.writes, m, w)
    {
      HoldsFlat(m, w.address, |w.data|);
    }

    /** One clock edge of both, the read end before the write end or after it. */
    method Edge(grant: seq<bool>, pauseWrite: bool, pauseMaster: bool, pauseRam: bool, readFirst: bool)
      requires Valid() && |grant| == wr.g.segs
      modifies wr.Repr(), rd`segments, rd`served
      ensures Valid() && wr.writes == old(wr.writes) && wr.completed == old(wr.completed)
      ensures wr.ram.initial == old(wr.ram.initial)
    {
      if readFirst {
        ReadEdge(pauseMaster, pauseRam);
        wr.Edge(grant, pauseWrite);
      } else {
        wr.Edge(grant, pauseWrite);
        ReadEdge(pauseMaster, pauseRam);
      }
    }

    method ReadEdge(pauseMaster: bool, pauseRam: bool)
      requires Valid()
      modifies rd`segments, rd`served
      ensures Valid()
    {
      HoldsNow();
      var mem := wr.ram.mem[..];
      ghost var initial, ws, done, rs, n := wr.ram.initial, wr.writes, wr.completed, rd.issued, |rd.results|;
      rd.Edge(mem, pauseMaster, pauseRam);
      assert wr.Valid();
      assert Marked(initial, ws, done, marks, rs, n);
    }

    /** A step of the write side's responses: a write may be reported. */
    method RespondWrite()
      requires Valid()
      modifies wr`completed, wr.master
      ensures Valid() && old(wr.completed) <= wr.completed
    {
      wr.Respond();
    }

    /** A step of the read side's: a read may be returned. */
    method RespondRead()
      requires Valid()
      modifies rd`cmds, rd`cur, rd`curSeg, rd`curK, rd`data, rd`segments, rd`results
      ensures Valid() && old(rd.results) <= rd.results
    {
      rd.Respond();
    }

    /** Every read returned has brought what the writes it was to see make of a flat memory, whatever
        other writes and reads were in flight beside it. */
    lemma ReturnedFlat(j: nat)
      requires Valid() && j < |rd.results|
      ensures var m, r := marks[j], rd.issued[j];
              && m <= |wr.writes| && AllFit(wr.writes[..m], |wr.ram.initial|) && Fits(r, |wr.ram.initial|)
              && rd.results[j] == PsdpRead.ReadResp(r.address,
                   Stores(wr.ram.initial, wr.writes[..m])[r.address..r.address + |r.data|])
    {
      assert Expects(wr.ram.initial, wr.writes, marks[j], rd.issued[j]);
    }

    /** Left to itself the memory reports every write. */
    method DrainWrites()
      requires Valid()
      modifies wr.Repr()
      ensures Valid() && rd.issued == old(rd.issued) && rd.results == old(rd.results)
      ensures wr.writes == old(wr.writes) && wr.completed == |wr.writes| && wr.ram.initial == old(wr.ram.initial)
    {
      wr.Drain();
    }

    /** And returns every read. */
    method DrainReads()
      requires Valid()
      modifies rd
      ensures Valid() && rd.issued == old(rd.issued) && |rd.results| == |rd.issued|
    {
      HoldsNow();
      MarkedLater(wr.ram.initial, wr.writes, wr.completed, marks, rd.issued, |rd.results|, |rd.issued|);
      var mem := wr.ram.mem[..];
      ReturnReads(mem);
    }

    method ReturnReads(mem: seq<bv8>)
      requires wr.Valid() && rd.Valid() && wr.g == rd.g && rd.Holds(mem)
      requires Marked(wr.ram.initial, wr.writes, wr.completed, marks, rd.issued, |rd.issued|)
      modifies rd
      ensures Valid() && rd.issued == old(rd.issued) && |rd.results| == |rd.issued|
    {
      rd.Drain(mem);
      assert wr.Valid();
    }

    /** Nothing is in flight. */
    ghost predicate Idle()
      requires Valid()
      reads Repr()
    {
      wr.completed == |wr.writes| && |rd.results| == |rd.issued|
    }

    /** What a flat memory holds after all writes made. */
    ghost function Flat(): seq<bv8>
      requires Valid()
      reads Repr()
    {
      Stores(wr.ram.initial, wr.writes)
    }

    /** One access made and waited for. */
    method Do(c: Access) returns (o: Outcome)
      requires Valid() && Idle()
      modifies Repr()
      ensures Valid() && Idle() && Flat() == AfterAccess(old(Flat()), c) && o == OutcomeOf(old(Flat()), c)
    {
      match c
      case Put(address, data) => o := DoPut(address, data);
      case Get(address, length) => o := DoGet(address, length);
    }

    method DoAll(cs: seq<Access>) returns (outcomes: seq<Outcome>)
      requires Valid() && Idle()
      modifies Repr()
      ensures Valid() && Idle() && Flat() == FlatAfter(old(Flat()), cs)
      ensures |outcomes| == |cs| && Outcomes(old(Flat()), cs, outcomes)
    {
      ghost var flat := Flat();
      outcomes := [];
      for i := 0 to |cs|
        invariant Valid() && Idle() && Flat() == FlatAfter(flat, cs[..i])
        invariant |outcomes| == i && Outcomes(flat, cs, outcomes)
      {
        OutcomesMore(flat, cs, outcomes);
        var o := Do(cs[i]);
        outcomes := outcomes + [o];
      }
      assert cs[..|cs|] == cs;
    }

    method DoPut(address: int, data: seq<bv8>) returns (o: Outcome)
      requires Valid() && Idle()
      modifies wr.Repr()
      ensures Valid() && Idle()
      ensures Flat() == AfterAccess(old(Flat()), Put(address, data)) && o == OutcomeOf(old(Flat()), Put(address, data))
    {
      if InRange(Put(address, data), wr.g.Size()) {
        StoresMore(wr.ram.initial, wr.writes, PsdpRam.Write(address, data));
        PutInside(address, data);
        o := Written;
      } else {
        var _ := Write(address, data);
        o := Refused;
      }
    }

    method PutInside(address: nat, data: seq<bv8>)
      requires Valid() && Idle() && InRange(Put(address, data), wr.g.Size())
      modifies wr.Repr()
      ensures Valid() && Idle() && wr.ram.initial == old(wr.ram.initial)
      ensures wr.writes == old(wr.writes) + [PsdpRam.Write(address, data)]
    {
      PutQueued(address, data);
      DrainWrites();
    }

    method PutQueued(address: nat, data: seq<bv8>)
      requires Valid() && |rd.results| == |rd.issued| && InRange(Put(address, data), wr.g.Size())
      modifies wr`writes, wr.master
      ensures Valid() && wr.writes == old(wr.writes) + [PsdpRam.Write(address, data)]
    {
      var _ := Write(address, data);
    }

    method DoGet(address: int, length: int) returns (o: Outcome)
      requires Valid() && Idle()
      modifies this, rd
      ensures Valid() && Idle() && Flat() == old(Flat()) && o == OutcomeOf(old(Flat()), Get(address, length))
    {
      if InRange(Get(address, length), wr.g.Size()) {
        var data := GetInside(address, length);
        o := Got(data);
      } else {
        var _ := Read(address, length, |wr.writes|);
        o := Refused;
      }
    }

    method GetInside(address: nat, length: nat) returns (data: seq<bv8>)
      requires Valid() && Idle() && InRange(Get(address, length), wr.g.Size())
      modifies this, rd
      ensures Valid() && Idle() && data == Flat()[address..address + length]
    {
      var _ := ReadInside(address, length, |wr.writes|, wr.ram.mem[..]);
      DrainReads();
      LastReturned();
      data := rd.results[|rd.results| - 1].data;
    }

    lemma LastReturned()
      requires Valid() && Idle() && marks != [] && marks[|marks| - 1] == |wr.writes|
      ensures var r := rd.issued[|rd.issued| - 1];
              && Fits(r, |Flat()|) && rd.results[|rd.results| - 1].data == Flat()[r.address..r.address + |r.data|]
    {
      var j := |rd.issued| - 1;
      assert PsdpRead.RespTo(rd.issued[j]) == rd.results[j];
      AllSeen(wr.ram.initial, wr.writes, marks[j], rd.issued[j]);
    }
  }

  // ---- one access after another ----

  datatype Access = Put(address: int, data: seq<bv8>) | Get(address: int, length: int)

  datatype Outcome = Written | Got(data: seq<bv8>) | Refused

  predicate InRange(c: Access, size: nat) {
    match c
    case Put(address, data) => 0 <= address < size && address + |data| <= size
    case Get(address, length) => 0 <= address < size && 0 <= length && address + length <= size
  }

  /** What an access does to a flat memory, and what it gives. */
  function AfterAccess(mem: seq<bv8>, c: Access): (r: seq<bv8>)
    ensures |r| == |mem|
  {
    if c.Put? && InRange(c, |mem|) then Store(mem, c.address, c.data) else mem
  }

  function OutcomeOf(mem: seq<bv8>, c: Access): Outcome {
    if !InRange(c, |mem|) then Refused
    else if c.Put? then Written
    else Got(mem[c.address..c.address + c.length])
  }

  function FlatAfter(mem: seq<bv8>, cs: seq<Access>): (r: seq<bv8>)
    ensures |r| == |mem|
  {
    if cs == [] then mem else AfterAccess(FlatAfter(mem, cs[..|cs| - 1]), cs[|cs| - 1])
  }

  /** Accesses made one after another through both links, each waited for, do what they do to a flat
      memory: every read brings the bytes the writes before it have left. */
  method RunAccesses(g: Geometry, contents: seq<bv8>, cs: seq<Access>) returns (outcomes: seq<Outcome>, mem: seq<bv8>)
    requires g.Valid() && |contents| == g.Size()
    ensures |outcomes| == |cs| && mem == FlatAfter(contents, cs)
    ensures forall i :: 0 <= i < |cs| ==>
      var flat := FlatAfter(contents, cs[..i]);
      outcomes[i] == match cs[i]
                     case Put(a, data) => if 0 <= a < |contents| && a + |data| <= |contents| then Written else Refused
                     case Get(a, n) =>
                       if 0 <= a < |contents| && 0 <= n && a + n <= |contents| then Got(flat[a..a + n]) else Refused
  {
    var m := new Memory(g, contents);
    outcomes := m.DoAll(cs);
    FlatMemory(m.wr);
    mem := m.wr.ram.mem[..];
  }

  /** A flat memory changes with a write that fits, where that goes. */
  lemma FlatMore(mem: seq<bv8>, cs: seq<Access>, c: Access, b: nat)
    requires b < |mem|
    ensures var was, now := FlatAfter(mem, cs), FlatAfter(mem, cs + [c]);
            now[b] == match c
                      case Get(_, _) => was[b]
                      case Put(a, data) =>
                        if 0 <= a < |mem| && a + |data| <= |mem| && a <= b < a + |data| then data[b - a] else was[b]
  {
    var was := FlatAfter(mem, cs);
    assert (cs + [c])[..|cs|] == cs;
    assert FlatAfter(mem, cs + [c]) == AfterAccess(was, c);
    AccessAt(was, c, b);
  }

  lemma AccessAt(was: seq<bv8>, c: Access, b: nat)
    requires b < |was|
    ensures AfterAccess(was, c)[b] == match c
      case Get(_, _) => was[b]
      case Put(a, data) =>
        if 0 <= a < |was| && a + |data| <= |was| && a <= b < a + |data| then data[b - a] else was[b]
  {
  }

  /** The outcomes of the first accesses, on a flat memory. */
  predicate Outcomes(mem: seq<bv8>, cs: seq<Access>, os: seq<Outcome>) {
    |os| <= |cs| && forall i :: 0 <= i < |os| ==> os[i] == OutcomeOf(FlatAfter(mem, cs[..i]), cs[i])
  }

  lemma OutcomesMore(mem: seq<bv8>, cs: seq<Access>, os: seq<Outcome>)
    requires Outcomes(mem, cs, os) && |os| < |cs|
    ensures var now := FlatAfter(mem, cs[..|os|]);
            && Outcomes(mem, cs, os + [OutcomeOf(now, cs[|os|])])
            && FlatAfter(mem, cs[..|os| + 1]) == AfterAccess(now, cs[|os|])
  {
    assert cs[..|os| + 1][..|os|] == cs[..|os|];
  }

  lemma SameSlice(a: seq<bv8>, b: seq<bv8>, address: nat, length: nat)
    requires address + length <= |a| == |b|
    requires forall i :: address <= i < address + length ==> a[i] == b[i]
    ensures a[address..address + length] == b[address..address + length]
  {
  }
}
