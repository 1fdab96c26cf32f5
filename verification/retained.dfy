/** The retained set: the latest boundary record of every slot, in the order of
    those last emissions.

    The writer holds it as a vector of slots and a vector of the occupied ones
    in order. What it means is one list, an entry a slot, a replaced entry
    going to the back. */
module Retain {
  import opened Basics
  import opened Delivery

  datatype Kept<T> = Kept(slot: nat, need: Number, record: T)

  function Without<T>(l: seq<Kept<T>>, slot: nat): seq<Kept<T>> {
    if l == [] then [] else
    Without(l[..|l| - 1], slot) + if l[|l| - 1].slot == slot then [] else [l[|l| - 1]]
  }

  lemma WithoutLast<T>(l: seq<Kept<T>>, k: Kept<T>, slot: nat)
    ensures Without(l + [k], slot) == if k.slot == slot then Without(l, slot) else Without(l, slot) + [k]
  {
    assert (l + [k])[..|l|] == l;
  }

  function Put<T>(l: seq<Kept<T>>, k: Kept<T>): seq<Kept<T>> { Without(l, k.slot) + [k] }

  ghost predicate Distinct<T>(l: seq<Kept<T>>) {
    forall i, j | 0 <= i < j < |l| :: l[i].slot != l[j].slot
  }

  ghost predicate Holds<T>(l: seq<Kept<T>>, slot: nat) {
    exists i :: 0 <= i < |l| && l[i].slot == slot
  }

  /** `Without` is a list of the entries of other slots, none missing. */
  lemma {:induction false} WithoutKeeps<T>(l: seq<Kept<T>>, slot: nat)
    ensures forall i | 0 <= i < |Without(l, slot)| :: Without(l, slot)[i] in l && Without(l, slot)[i].slot != slot
    ensures forall i | 0 <= i < |l| && l[i].slot != slot :: l[i] in Without(l, slot)
    ensures Distinct(l) ==> Distinct(Without(l, slot))
  {
    if l != [] { WithoutKeeps(l[..|l| - 1], slot); }
  }

  lemma {:induction false} WithoutAbsent<T>(l: seq<Kept<T>>, slot: nat)
    requires !Holds(l, slot)
    ensures Without(l, slot) == l
  {
    if l != [] {
      WithoutAbsent(l[..|l| - 1], slot);
      assert l == l[..|l| - 1] + [l[|l| - 1]];
    }
  }

  lemma PutKeeps<T>(l: seq<Kept<T>>, k: Kept<T>)
    requires Distinct(l)
    ensures Distinct(Put(l, k))
    ensures forall slot :: Holds(Put(l, k), slot) <==> slot == k.slot || Holds(l, slot)
  {
    WithoutKeeps(l, k.slot);
    hide Without;
    assert Distinct(Put(l, k));
    forall slot ensures Holds(Put(l, k), slot) <==> slot == k.slot || Holds(l, slot) { PutHolds(l, k, slot); }
    hide Holds, Distinct;
  }

  lemma PutHolds<T>(l: seq<Kept<T>>, k: Kept<T>, slot: nat)
    ensures Holds(Put(l, k), slot) <==> slot == k.slot || Holds(l, slot)
  {
    WithoutKeeps(l, k.slot);
    hide Without, Distinct;
    assert Put(l, k)[|Without(l, k.slot)|].slot == k.slot;
    if Holds(l, slot) && slot != k.slot {
      var i :| 0 <= i < |l| && l[i].slot == slot;
      var j :| 0 <= j < |Without(l, k.slot)| && Without(l, k.slot)[j] == l[i];
      assert Put(l, k)[j].slot == slot;
    }
    if Holds(Put(l, k), slot) && slot != k.slot {
      var i :| 0 <= i < |Put(l, k)| && Put(l, k)[i].slot == slot;
      assert i < |Without(l, k.slot)| && Put(l, k)[i] in l;
      var j :| 0 <= j < |l| && l[j] == Put(l, k)[i];
    }
  }

  // ---- What a capability set covers of it --------------------------------------

  function Covered<T>(l: seq<Kept<T>>, caps: Capabilities): seq<Kept<T>> {
    if l == [] then [] else
    Covered(l[..|l| - 1], caps) + if Covers(caps, l[|l| - 1].need) then [l[|l| - 1]] else []
  }

  lemma {:induction false} CoveredKeeps<T>(l: seq<Kept<T>>, caps: Capabilities)
    ensures |Covered(l, caps)| <= |l|
    ensures forall i | 0 <= i < |Covered(l, caps)| :: Covered(l, caps)[i] in l && Covers(caps, Covered(l, caps)[i].need)
    ensures Distinct(l) ==> Distinct(Covered(l, caps))
  {
    hide Covers;
    if l != [] { CoveredKeeps(l[..|l| - 1], caps); }
  }

  lemma CoveredLast<T>(l: seq<Kept<T>>, k: Kept<T>, caps: Capabilities)
    ensures Covered(l + [k], caps) == if Covers(caps, k.need) then Covered(l, caps) + [k] else Covered(l, caps)
  {
    hide Covers;
    assert (l + [k])[..|l|] == l;
  }

  lemma {:induction false} CoveredWithout<T>(l: seq<Kept<T>>, slot: nat, caps: Capabilities)
    ensures Covered(Without(l, slot), caps) == Without(Covered(l, caps), slot)
  {
    if l != [] {
      var front, last := l[..|l| - 1], l[|l| - 1];
      assert l == front + [last];
      CoveredWithout(front, slot, caps);
      WithoutLast(front, last, slot);
      CoveredLast(front, last, caps);
      WithoutLast(Covered(front, caps), last, slot);
      CoveredLast(Without(front, slot), last, caps);
      hide Covers, Without, Covered;
    }
  }

  /** Keeping a record changes what is covered by keeping it there too, or not
      at all when nobody with these capabilities could ever have had the slot. */
  lemma CoveredPut<T>(l: seq<Kept<T>>, k: Kept<T>, caps: Capabilities)
    requires forall i | 0 <= i < |l| && l[i].slot == k.slot :: l[i].need == k.need
    ensures Covered(Put(l, k), caps) == if Covers(caps, k.need) then Put(Covered(l, caps), k) else Covered(l, caps)
  {
    CoveredLast(Without(l, k.slot), k, caps);
    CoveredWithout(l, k.slot, caps);
    hide Covers, Without, Covered;
    if !Covers(caps, k.need) {
      CoveredKeeps(l, caps);
      WithoutAbsent(Covered(l, caps), k.slot);
    }
  }

  // ---- The set as the writer holds it -------------------------------------------

  datatype Occupant<T> = Occupant(need: Number, record: T)

  ghost predicate Ordered<T>(slots: seq<Option<Occupant<T>>>, order: seq<nat>) {
    && (forall i | 0 <= i < |order| :: order[i] < |slots| && slots[order[i]].Some?)
    && (forall i, j | 0 <= i < j < |order| :: order[i] != order[j])
    && (forall s | 0 <= s < |slots| && slots[s].Some? :: s in order)
  }

  ghost predicate Occupied<T>(slots: seq<Option<Occupant<T>>>, order: seq<nat>) {
    forall i | 0 <= i < |order| :: order[i] < |slots| && slots[order[i]].Some?
  }

  function List<T>(slots: seq<Option<Occupant<T>>>, order: seq<nat>): (l: seq<Kept<T>>)
    requires Occupied(slots, order)
    ensures |l| == |order|
    ensures forall i | 0 <= i < |l| ::
              l[i].slot == order[i] && slots[order[i]] == Some(Occupant(l[i].need, l[i].record))
  {
    if order == [] then [] else
    var s := order[|order| - 1];
    List(slots, order[..|order| - 1]) + [Kept(s, slots[s].value.need, slots[s].value.record)]
  }

  lemma ListLast<T>(slots: seq<Option<Occupant<T>>>, order: seq<nat>, s: nat)
    requires Occupied(slots, order) && Occupied(slots, order + [s])
    ensures s < |slots| && slots[s].Some?
    ensures List(slots, order + [s]) == List(slots, order) + [Kept(s, slots[s].value.need, slots[s].value.record)]
  {
    assert (order + [s])[|order|] == s;
    assert (order + [s])[..|order|] == order;
  }

  function Dropping(order: seq<nat>, slot: nat): seq<nat> {
    if order == [] then [] else
    Dropping(order[..|order| - 1], slot) + if order[|order| - 1] == slot then [] else [order[|order| - 1]]
  }

  lemma DroppingLast(order: seq<nat>, s: nat, slot: nat)
    ensures Dropping(order + [s], slot) == if s == slot then Dropping(order, slot) else Dropping(order, slot) + [s]
  {
    assert (order + [s])[..|order|] == order;
  }

  lemma {:induction false} DroppingKeeps(order: seq<nat>, slot: nat)
    ensures forall i | 0 <= i < |Dropping(order, slot)| :: Dropping(order, slot)[i] in order && Dropping(order, slot)[i] != slot
    ensures forall i | 0 <= i < |order| && order[i] != slot :: order[i] in Dropping(order, slot)
    ensures (forall i, j | 0 <= i < j < |order| :: order[i] != order[j]) ==>
              forall i, j | 0 <= i < j < |Dropping(order, slot)| :: Dropping(order, slot)[i] != Dropping(order, slot)[j]
    ensures slot !in order ==> Dropping(order, slot) == order
  {
    if order != [] {
      assert order == order[..|order| - 1] + [order[|order| - 1]];
      DroppingKeeps(order[..|order| - 1], slot);
    }
  }

  lemma {:induction false} ListWithout<T>(slots: seq<Option<Occupant<T>>>, order: seq<nat>, slot: nat)
    requires Occupied(slots, order)
    ensures Occupied(slots, Dropping(order, slot))
    ensures List(slots, Dropping(order, slot)) == Without(List(slots, order), slot)
  {
    if order != [] {
      var front, s := order[..|order| - 1], order[|order| - 1];
      assert order == front + [s];
      ListWithout(slots, front, slot);
      DroppingLast(front, s, slot);
      ListLast(slots, front, s);
      WithoutLast(List(slots, front), Kept(s, slots[s].value.need, slots[s].value.record), slot);
      if s != slot {
        OccupiedLast(slots, Dropping(front, slot), s);
        ListLast(slots, Dropping(front, slot), s);
      }
      hide List, Without, Dropping;
    }
  }

  lemma OccupiedLast<T>(slots: seq<Option<Occupant<T>>>, order: seq<nat>, s: nat)
    requires Occupied(slots, order) && s < |slots| && slots[s].Some?
    ensures Occupied(slots, order + [s])
  {
  }

  lemma ListAgrees<T>(a: seq<Option<Occupant<T>>>, b: seq<Option<Occupant<T>>>, order: seq<nat>)
    requires Occupied(a, order) && Occupied(b, order)
    requires forall i | 0 <= i < |order| :: a[order[i]] == b[order[i]]
    ensures List(a, order) == List(b, order)
  {
  }

  /** Moving a slot to the back of the order and filling it is `Put`. */
  lemma KeepIsPut<T>(slots: seq<Option<Occupant<T>>>, order: seq<nat>, slot: nat, e: Occupant<T>)
    requires Ordered(slots, order) && slot < |slots|
    ensures var slots', order' := slots[slot := Some(e)], Dropping(order, slot) + [slot];
            && Ordered(slots', order')
            && List(slots', order') == Put(List(slots, order), Kept(slot, e.need, e.record))
  {
    var slots', rest := slots[slot := Some(e)], Dropping(order, slot);
    DroppingKeeps(order, slot);
    ListWithout(slots, order, slot);
    ListAgrees(slots, slots', rest);
    OccupiedLast(slots', rest, slot);
    ListLast(slots', rest, slot);
    KeepOrdered(slots, order, slot, e);
    hide List, Without, Dropping, Ordered;
  }

  lemma KeepOrdered<T>(slots: seq<Option<Occupant<T>>>, order: seq<nat>, slot: nat, e: Occupant<T>)
    requires Ordered(slots, order) && slot < |slots|
    ensures Ordered(slots[slot := Some(e)], Dropping(order, slot) + [slot])
  {
    var slots', order' := slots[slot := Some(e)], Dropping(order, slot) + [slot];
    DroppingKeeps(order, slot);
    hide Dropping;
    forall s | 0 <= s < |slots'| && slots'[s].Some? ensures s in order' {
      if s != slot {
        assert s in order;
        assert s in Dropping(order, slot);
      } else {
        assert order'[|order'| - 1] == slot;
      }
    }
  }

  /** The order with one slot taken out. */
  method Others(order: seq<nat>, slot: nat) returns (rest: seq<nat>)
    ensures rest == Dropping(order, slot)
  {
    rest := [];
    for i := 0 to |order|
      invariant rest == Dropping(order[..i], slot)
    {
      assert order[..i + 1] == order[..i] + [order[i]];
      DroppingLast(order[..i], order[i], slot);
      if order[i] != slot { rest := rest + [order[i]]; }
    }
    assert order[..|order|] == order;
  }

  class Retained<T> {
    var slots: seq<Option<Occupant<T>>>
    var order: seq<nat>

    ghost predicate Valid() reads this { Ordered(slots, order) }

    ghost function Set(): seq<Kept<T>>
      reads this
      requires Valid()
    {
      List(slots, order)
    }

    /** An empty set of `size` slots. */
    constructor (size: nat)
      ensures Valid() && Set() == [] && |slots| == size
    {
      slots := seq(size, _ => None);
      order := [];
    }

    /** Entry `i` in the order. */
    method Nth(i: nat) returns (k: Kept<T>)
      requires Valid() && i < |order|
      ensures i < |Set()| && k == Set()[i]
    {
      k := Kept(order[i], slots[order[i]].value.need, slots[order[i]].value.record);
    }

    /** The entry goes in, and its slot goes to the back of the order; nothing
        changes for a slot the vector does not have. */
    method Keep(slot: nat, need: Number, record: T)
      requires Valid()
      modifies this
      ensures Valid() && |slots| == old(|slots|)
      ensures Set() == if slot < |slots| then Put(old(Set()), Kept(slot, need, record)) else old(Set())
    {
      if slot >= |slots| { return; }
      hide List, Put;
      KeepIsPut(slots, order, slot, Occupant(need, record));
      DroppingKeeps(order, slot);
      if slots[slot].Some? { order := Others(order, slot); }
      slots := slots[slot := Some(Occupant(need, record))];
      order := order + [slot];
    }
  }
}
