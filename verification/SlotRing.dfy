/** The driver's side of a descriptor ring: one slot of bookkeeping for every entry
    between the consumer and the producer pointer (tx_info and rx_info). */
module SlotRing {
  import opened Arith
  import opened Base
  import opened PhaseRing

  /** Entries `cons` to `|posted|` are outstanding and their slots say what they are. */
  ghost predicate Live<T>(info: seq<Option<T>>, posted: seq<T>, cons: nat) {
    && |info| > 0
    && cons <= |posted| <= cons + |info|
    && forall i :: cons <= i < |posted| ==> info[Slot(i, |info|)] == Some(posted[i])
  }

  /** All other slots are null. */
  ghost predicate Vacant<T>(info: seq<Option<T>>, posted: seq<T>, cons: nat)
    requires |info| > 0
  {
    forall i :: |posted| <= i < cons + |info| ==> info[Slot(i, |info|)] == None
  }

  ghost predicate Exact<T>(info: seq<Option<T>>, posted: seq<T>, cons: nat) {
    Live(info, posted, cons) && Vacant(info, posted, cons)
  }

  lemma OtherSlots(p: nat, cons: nat, n: nat)
    requires n > 0
    ensures forall i :: cons <= i < cons + n && i != p && cons <= p < cons + n ==> Slot(i, n) != Slot(p, n)
  {
    forall i | cons <= i < cons + n && i != p && cons <= p < cons + n
      ensures Slot(i, n) != Slot(p, n)
    {
      if i < p {
        ModDiffers(i, p, n);
      } else {
        ModDiffers(p, i, n);
      }
    }
  }

  /** Posting one entry overwrites no outstanding one. */
  lemma Post<T>(info: seq<Option<T>>, posted: seq<T>, cons: nat, x: T)
    requires Live(info, posted, cons) && |posted| < cons + |info|
    ensures Live(info[Slot(|posted|, |info|) := Some(x)], posted + [x], cons)
    ensures Vacant(info, posted, cons) ==> info[Slot(|posted|, |info|)] == None
    ensures Vacant(info, posted, cons) ==> Vacant(info[Slot(|posted|, |info|) := Some(x)], posted + [x], cons)
  {
    OtherSlots(|posted|, cons, |info|);
  }

  /** Taking the oldest entry out of its slot. */
  lemma Take<T>(info: seq<Option<T>>, posted: seq<T>, cons: nat)
    requires Live(info, posted, cons) && cons < |posted|
    ensures info[Slot(cons, |info|)] == Some(posted[cons])
    ensures Live(info, posted, cons + 1)
    ensures Live(info[Slot(cons, |info|) := None], posted, cons + 1)
    ensures Vacant(info, posted, cons) ==> Vacant(info[Slot(cons, |info|) := None], posted, cons + 1)
  {
    OtherSlots(cons, cons, |info|);
    AddMultiple(cons, |info|, 1);
  }

  /** Once nothing is outstanding every slot is null. */
  lemma AllVacant<T>(info: seq<Option<T>>, posted: seq<T>)
    requires Exact(info, posted, |posted|)
    ensures forall j :: 0 <= j < |info| ==> info[j] == None
  {
    var m, n := |posted|, |info|;
    forall j | 0 <= j < n
      ensures info[j] == None
    {
      var q, r := m / n, m % n;
      var q' := if j < r then q + 1 else q;
      var i := n * q' + j;
      assert n * (q + 1) == n * q + n;
      DivUnique(i, n, q', j);
      assert info[Slot(i, n)] == None;
    }
  }

  /** A 32-bit pointer cut to a 16-bit doorbell is the count cut to 16 bits. */
  lemma DoorbellOf(p: nat)
    ensures (p % U32) % U16 == p % U16
  {
    ModOfMod(p, U16, U16);
  }
}
