/** Consistent-overhead byte stuffing, as src/xfcp/tb/xfcp.py frames XFCP packets.
    The two loops are proved against recursive definitions of the code, and the
    definitions are proved to be inverse to each other. */
module Cobs {
  import opened Base

  /** Longest zero-free prefix of `b`, cut off at the 254 bytes one code can cover. */
  function Run(b: seq<byte>): (n: nat)
    ensures n <= |b| && n <= 254
    ensures forall i :: 0 <= i < n ==> b[i] != 0
    ensures n < 254 && n < |b| ==> b[n] == 0
  {
    RunFrom(b, 0)
  }

  function RunFrom(b: seq<byte>, i: nat): (n: nat)
    requires i <= |b| && i <= 254
    requires forall j :: 0 <= j < i ==> b[j] != 0
    ensures i <= n <= |b| && n <= 254
    ensures forall j :: 0 <= j < n ==> b[j] != 0
    ensures n < 254 && n < |b| ==> b[n] == 0
    decreases |b| - i
  {
    if i == |b| || i == 254 || b[i] == 0 then i else RunFrom(b, i + 1)
  }

  /** The stuffed form of `b`: one code byte per group, no group after a full one
      that ends the data. */
  function Encode(b: seq<byte>): seq<byte>
    decreases |b|
  {
    var n := Run(b);
    if n == 254 then [255] + b[..254] + (if |b| == 254 then [] else Encode(b[254..]))
    else if n == |b| then [n + 1] + b
    else [n + 1] + b[..n] + Encode(b[n + 1..])
  }

  /** What the decoder does with the groups of zero-free data. */
  function DecodeGroups(e: seq<byte>): Option<seq<byte>>
    decreases |e|
  {
    if e == [] then Some([])
    else if e[0] == 0 || e[0] > |e| then None
    else
      var rest := e[e[0]..];
      match DecodeGroups(rest)
      case None => None
      case Some(tail) => Some(e[1..e[0]] + (if e[0] < 255 && rest != [] then [0] else []) + tail)
  }

  function Decode(e: seq<byte>): Option<seq<byte>> {
    if 0 in e then None else DecodeGroups(e)
  }

  /** A run is found from what it ends with. */
  lemma RunIs(b: seq<byte>, n: nat)
    requires n <= |b| && n <= 254
    requires forall i :: 0 <= i < n ==> b[i] != 0
    requires n == 254 || n == |b| || b[n] == 0
    ensures Run(b) == n
  {
  }

  /** One step of the encoder: what a complete group contributes. */
  lemma EncodeGroup(seg: seq<byte>, rest: seq<byte>)
    requires |seg| <= 254 && 0 !in seg
    ensures |seg| == 254 && rest != [] ==> Encode(seg + rest) == [255] + seg + Encode(rest)
    ensures |seg| == 254 ==> Encode(seg) == [255] + seg
    ensures |seg| < 254 ==> Encode(seg) == [|seg| + 1] + seg
    ensures |seg| < 254 ==> Encode(seg + [0] + rest) == [|seg| + 1] + seg + Encode(rest)
  {
    RunIs(seg, |seg|);
    assert seg[..|seg|] == seg;
    if |seg| == 254 {
      var b := seg + rest;
      RunIs(b, 254);
      assert b[..254] == seg && b[254..] == rest;
    } else {
      var b := seg + [0] + rest;
      RunIs(b, |seg|);
      assert b[..|seg|] == seg && b[|seg| + 1..] == rest;
    }
  }

  /** What the encoder has still to write when `seg` is pending and `tail` unread. */
  ghost function Pending(newData: bool, seg: seq<byte>, tail: seq<byte>): seq<byte> {
    if newData || tail != [] then Encode(seg + tail) else []
  }

  lemma PendingZero(newData: bool, seg: seq<byte>, tail: seq<byte>)
    requires |seg| < 254 && 0 !in seg
    ensures Pending(newData, seg, [0] + tail) == [|seg| + 1] + seg + Pending(true, [], tail)
  {
    EncodeGroup(seg, tail);
    assert seg + ([0] + tail) == seg + [0] + tail && [] + tail == tail;
  }

  lemma PendingByte(newData: bool, seg: seq<byte>, b: byte, tail: seq<byte>)
    requires |seg| < 254 && 0 !in seg && b != 0
    ensures Pending(newData, seg, [b] + tail) == Pending(true, seg + [b], tail)
    ensures |seg| == 253 ==>
      Pending(newData, seg, [b] + tail) == [255] + (seg + [b]) + Pending(false, [], tail)
  {
    assert seg + ([b] + tail) == seg + [b] + tail && [] + tail == tail;
    if |seg| == 253 {
      EncodeGroup(seg + [b], tail);
      assert tail == [] ==> seg + [b] + tail == seg + [b];
    }
  }

  function Code(seg: seq<byte>): byte {
    if |seg| < 255 then |seg| + 1 else 255
  }

  /** The encoder's remaining output, one input byte at a time. */
  ghost function Stuff(newData: bool, seg: seq<byte>, tail: seq<byte>): seq<byte>
    decreases |tail|
  {
    if tail == [] then (if newData then [Code(seg)] + seg else [])
    else if tail[0] == 0 then [Code(seg)] + seg + Stuff(true, [], tail[1..])
    else if |seg| >= 253 then [255] + (seg + [tail[0]]) + Stuff(false, [], tail[1..])
    else Stuff(true, seg + [tail[0]], tail[1..])
  }

  lemma {:induction false} StuffIsPending(newData: bool, seg: seq<byte>, tail: seq<byte>)
    requires |seg| < 254 && 0 !in seg
    ensures Stuff(newData, seg, tail) == Pending(newData, seg, tail)
    decreases |tail|
  {
    if tail == [] {
      EncodeGroup(seg, []);
      assert seg + tail == seg;
    } else {
      assert tail == [tail[0]] + tail[1..];
      if tail[0] == 0 {
        PendingZero(newData, seg, tail[1..]);
        StuffIsPending(true, [], tail[1..]);
      } else {
        PendingByte(newData, seg, tail[0], tail[1..]);
        if |seg| == 253 {
          StuffIsPending(false, [], tail[1..]);
        } else {
          StuffIsPending(true, seg + [tail[0]], tail[1..]);
        }
      }
    }
  }

  lemma Append(enc: seq<byte>, code: byte, seg: seq<byte>, rest: seq<byte>)
    ensures enc + ([code] + seg + rest) == enc + [code] + seg + rest
  {
  }

  method CobsEncode(block: seq<byte>) returns (enc: seq<byte>)
    ensures enc == Encode(block)
  {
    enc := [];
    var seg: seq<byte> := [];
    var code: byte := 1;
    var newData := true;
    assert block[0..] == block && [] + block == block;
    StuffIsPending(true, [], block);
    ghost var all := Stuff(true, [], block);
    for i := 0 to |block|
      invariant code == |seg| + 1 && |seg| < 254
      invariant all == enc + Stuff(newData, seg, block[i..])
    {
      var b := block[i];
      ghost var tail := block[i..];
      assert tail[0] == b && tail[1..] == block[i + 1..];
      if b == 0 {
        Append(enc, code, seg, Stuff(true, [], tail[1..]));
        enc := enc + [code];
        enc := enc + seg;
        code := 1;
        seg := [];
        newData := true;
      } else {
        code := code + 1;
        seg := seg + [b];
        newData := true;
        if code == 255 {
          Append(enc, code, seg, Stuff(false, [], tail[1..]));
          enc := enc + [code];
          enc := enc + seg;
          code := 1;
          seg := [];
          newData := false;
        }
      }
    }
    if newData {
      enc := enc + [code];
      enc := enc + seg;
    }
  }

  ghost function Prepend(s: seq<byte>, d: Option<seq<byte>>): Option<seq<byte>> {
    match d case None => None case Some(t) => Some(s + t)
  }

  lemma PrependNone(d: Option<seq<byte>>)
    ensures Prepend([], d) == d
  {
    if d.Some? {
      assert [] + d.value == d.value;
    }
  }

  lemma PrependTwice(s: seq<byte>, t: seq<byte>, d: Option<seq<byte>>)
    ensures Prepend(s, Prepend(t, d)) == Prepend(s + t, d)
  {
    if d.Some? {
      assert s + (t + d.value) == s + t + d.value;
    }
  }

  /** One step of the decoder, on a group it can take apart. */
  lemma DecodeGroup(seg: seq<byte>, rest: seq<byte>)
    requires |seg| <= 254
    ensures DecodeGroups([|seg| + 1] + seg + rest) ==
      Prepend(seg + (if |seg| < 254 && rest != [] then [0] else []), DecodeGroups(rest))
  {
    var e := [|seg| + 1] + seg + rest;
    assert e[1..|seg| + 1] == seg && e[|seg| + 1..] == rest;
  }

  method CobsDecode(block: seq<byte>) returns (dec: Option<seq<byte>>)
    ensures dec == Decode(block)
  {
    if 0 in block {
      return None;
    }
    var out: seq<byte> := [];
    var i := 0;
    assert block[0..] == block;
    PrependNone(DecodeGroups(block));
    while i < |block|
      invariant 0 <= i <= |block|
      invariant DecodeGroups(block) == Prepend(out, DecodeGroups(block[i..]))
    {
      ghost var here, before := block[i..], out;
      var code := block[i];
      i := i + 1;
      if i + code - 1 > |block| {
        return None;
      }
      ghost var seg, rest := block[i..i + code - 1], block[i + code - 1..];
      assert here == [|seg| + 1] + seg + rest;
      DecodeGroup(seg, rest);
      PrependTwice(before, seg + (if code < 255 && rest != [] then [0] else []), DecodeGroups(rest));
      out := out + block[i..i + code - 1];
      i := i + (code - 1);
      if code < 255 && i < |block| {
        out := out + [0];
        assert out == before + (seg + [0]);
      } else {
        assert out == before + (seg + []);
      }
    }
    assert block[i..] == [];
    assert out + [] == out;
    dec := Some(out);
  }

  lemma {:induction false} EncodedNonEmpty(b: seq<byte>)
    ensures Encode(b) != [] && Encode(b)[0] == if Run(b) == 254 then 255 else Run(b) + 1
  {
  }

  /** No zero byte is left for the frame delimiter to be confused with. */
  lemma {:induction false} NoZeroByte(b: seq<byte>)
    ensures 0 !in Encode(b)
    decreases |b|
  {
    var n := Run(b);
    if n == 254 && |b| > 254 {
      NoZeroByte(b[254..]);
    } else if n < 254 && n < |b| {
      NoZeroByte(b[n + 1..]);
    }
  }

  lemma FullGroupRoundTrip(seg: seq<byte>, tail: seq<byte>)
    requires |seg| == 254 && 0 !in seg && tail != []
    requires DecodeGroups(Encode(tail)) == Some(tail)
    ensures DecodeGroups(Encode(seg + tail)) == Some(seg + tail)
  {
    EncodeGroup(seg, tail);
    DecodeGroup(seg, Encode(tail));
    assert seg + [] + tail == seg + tail;
  }

  lemma ShortGroupRoundTrip(seg: seq<byte>, tail: seq<byte>)
    requires |seg| < 254 && 0 !in seg
    requires DecodeGroups(Encode(tail)) == Some(tail)
    ensures DecodeGroups(Encode(seg + [0] + tail)) == Some(seg + [0] + tail)
  {
    EncodeGroup(seg, tail);
    EncodedNonEmpty(tail);
    DecodeGroup(seg, Encode(tail));
    assert (seg + [0]) + tail == seg + [0] + tail;
  }

  lemma LastGroupRoundTrip(seg: seq<byte>)
    requires |seg| <= 254 && 0 !in seg
    ensures DecodeGroups(Encode(seg)) == Some(seg)
  {
    EncodeGroup(seg, []);
    DecodeGroup(seg, []);
    assert [|seg| + 1] + seg + [] == [|seg| + 1] + seg;
    assert seg + [] + [] == seg;
  }

  /** Every byte string is a last group, or a full or zero-ended group and a rest. */
  lemma Split(b: seq<byte>) returns (seg: seq<byte>, tail: seq<byte>)
    ensures |seg| <= 254 && 0 !in seg
    ensures b == seg || (|seg| < 254 && b == seg + [0] + tail) || (|seg| == 254 && tail != [] && b == seg + tail)
    ensures b != seg ==> |tail| < |b|
  {
    var n := Run(b);
    seg, tail := b[..n], if n < 254 && n < |b| then b[n + 1..] else b[n..];
  }

  lemma {:induction false} GroupsRoundTrip(b: seq<byte>)
    ensures DecodeGroups(Encode(b)) == Some(b)
    decreases |b|
  {
    var seg, tail := Split(b);
    if b == seg {
      LastGroupRoundTrip(seg);
    } else {
      GroupsRoundTrip(tail);
      if |seg| < 254 {
        ShortGroupRoundTrip(seg, tail);
      } else {
        FullGroupRoundTrip(seg, tail);
      }
    }
  }

  /** The decoder undoes the encoder on every byte string. */
  lemma RoundTrip(b: seq<byte>)
    ensures Decode(Encode(b)) == Some(b)
  {
    NoZeroByte(b);
    GroupsRoundTrip(b);
  }

  /** The price of stuffing: one byte for every started group of 254, at least one. */
  lemma {:induction false} Overhead(b: seq<byte>)
    ensures |b| < |Encode(b)| <= |b| + (if b == [] then 1 else (|b| + 253) / 254)
    decreases |b|
  {
    var n := Run(b);
    if n == 254 && |b| > 254 {
      Overhead(b[254..]);
    } else if n < 254 && n < |b| {
      Overhead(b[n + 1..]);
    }
  }

  /** Zero-free group data is the encoder's own unless it is empty or spends a
      last group on nothing after a full one. */
  predicate Canonical(e: seq<byte>)
    decreases |e|
  {
    e != [] && 0 < e[0] <= |e| &&
    (e[0] < |e| ==> Canonical(e[e[0]..]) && !(e[0] == 255 && e[255..] == [1]))
  }

  lemma {:induction false} CanonicalSound(e: seq<byte>, b: seq<byte>)
    requires 0 !in e && DecodeGroups(e) == Some(b)
    ensures Encode(b) == e <==> Canonical(e)
    decreases |e|
  {
    if e == [] {
      EncodedNonEmpty(b);
      return;
    }
    var n := e[0] - 1;
    var seg, rest := e[1..n + 1], e[n + 1..];
    assert e == [n + 1] + seg + rest;
    var tail := DecodeGroups(rest).value;
    if rest == [] {
      assert b == seg;
      EncodeGroup(seg, []);
      return;
    }
    CanonicalSound(rest, tail);
    if n < 254 {
      assert b == seg + [0] + tail;
      EncodeGroup(seg, tail);
      assert Encode(b)[n + 1..] == Encode(tail);
    } else {
      assert b == seg + tail;
      EncodeGroup(seg, tail);
      if tail == [] {
        assert b == seg && Encode(b) != e;
        EmptyTail(rest);
      } else {
        assert Encode(b)[255..] == Encode(tail);
        assert rest != [1];
      }
    }
  }

  /** Only the one-byte group decodes to nothing. */
  lemma EmptyTail(e: seq<byte>)
    requires 0 !in e && e != [] && DecodeGroups(e) == Some([])
    ensures e[0] == 1 && |e| == 1
  {
    assert e[0] != 0;
    var seg := e[1..e[0]];
    assert seg == [];
  }

  /** Exactly which received strings are what the encoder would have sent. */
  lemma ReencodeIffCanonical(e: seq<byte>)
    requires Decode(e).Some?
    ensures Encode(Decode(e).value) == e <==> Canonical(e)
  {
    CanonicalSound(e, Decode(e).value);
  }

  /** The groups of an encoding: a code byte that counts up to the next zero byte, which is left out, or
      255 and 254 bytes with no zero among them. */
  lemma Groups(s: seq<byte>, t: seq<byte>)
    requires |s| <= 254 && forall i :: 0 <= i < |s| ==> s[i] != 0
    ensures |s| < 254 ==> Encode(s) == [|s| + 1] + s
    ensures |s| < 254 ==> Encode(s + [0] + t) == [|s| + 1] + s + Encode(t)
    ensures |s| == 254 ==> Encode(s + t) == [255] + s + if t == [] then [] else Encode(t)
  {
    if |s| < 254 {
      var b := s + [0] + t;
      RunIs(s, |s|);
      RunIs(b, |s|);
      assert b[..|s|] == s && b[|s| + 1..] == t;
    } else {
      RunIs(s + t, 254);
      assert (s + t)[..254] == s && (s + t)[254..] == t;
    }
  }
}
