/** What each connection is sent, told from what happened and nothing else, and
    that the writer sends it. */
module Streams {
  import opened Basics
  import opened Delivery
  import opened Retain
  import opened Merge
  import opened Hall
  import opened HallProofs

  // ---- The retained set, from the log -------------------------------------------

  /** The last record of every slot under `size`, in the order of those. */
  function Latest<T>(size: nat, es: seq<Event<T>>): seq<Kept<T>> {
    if es == [] then [] else
    var front, e := Latest(size, es[..|es| - 1]), es[|es| - 1];
    if e.Commit? && e.a.slot.Some? && e.a.slot.value < size
    then Put(front, Kept(e.a.slot.value, e.a.need, e.a.record)) else front
  }

  lemma {:induction false} KeptIsLatest<T>(size: nat, es: seq<Event<T>>)
    requires Legal(es)
    ensures After(size, es).kept == Latest(size, es)
  {
    if es != [] {
      var front, e := es[..|es| - 1], es[|es| - 1];
      KeptIsLatest(size, front);
      var s := After(size, front);
      TakesNext(s, front, e);
      NextKept(s, e);
      hide Next, Takes, Fine;
    }
  }

  /** The place of the last record of a slot, or none: -1. */
  function LastAt<T>(es: seq<Event<T>>, slot: nat): (i: int)
    ensures -1 <= i < |es|
    ensures i >= 0 ==> es[i].Commit? && es[i].a.slot == Some(slot)
    ensures forall j | i < j < |es| && es[j].Commit? :: es[j].a.slot != Some(slot)
  {
    if es == [] then -1 else
    var e := es[|es| - 1];
    if e.Commit? && e.a.slot == Some(slot) then |es| - 1 else LastAt(es[..|es| - 1], slot)
  }

  lemma LastAtLast<T>(es: seq<Event<T>>, e: Event<T>, slot: nat)
    ensures LastAt(es + [e], slot) == if e.Commit? && e.a.slot == Some(slot) then |es| else LastAt(es, slot)
  {
    assert (es + [e])[..|es|] == es;
  }

  ghost predicate IsLast<T>(es: seq<Event<T>>, k: Kept<T>) {
    var i := LastAt(es, k.slot);
    i >= 0 && k.need == es[i].a.need && k.record == es[i].a.record
  }

  ghost predicate AllLast<T>(size: nat, es: seq<Event<T>>, l: seq<Kept<T>>) {
    forall i | 0 <= i < |l| :: l[i].slot < size && IsLast(es, l[i])
  }

  ghost predicate InOrder<T>(es: seq<Event<T>>, l: seq<Kept<T>>) {
    forall i, j | 0 <= i < j < |l| :: LastAt(es, l[i].slot) < LastAt(es, l[j].slot)
  }

  ghost predicate NoneMissing<T>(size: nat, es: seq<Event<T>>, l: seq<Kept<T>>) {
    forall slot | 0 <= slot < size && LastAt(es, slot) >= 0 :: Holds(l, slot)
  }

  /** The set says of every slot the last record emitted on it, a slot with none
      is not in it, and its order is the order of those emissions. */
  lemma {:induction false} LatestIsLast<T>(size: nat, es: seq<Event<T>>)
    ensures var l := Latest(size, es);
            Distinct(l) && AllLast(size, es, l) && InOrder(es, l) && NoneMissing(size, es, l)
  {
    if es != [] {
      var front, e := es[..|es| - 1], es[|es| - 1];
      assert es == front + [e];
      LatestIsLast(size, front);
      if e.Commit? && e.a.slot.Some? && e.a.slot.value < size {
        var was, k := Latest(size, front), Kept(e.a.slot.value, e.a.need, e.a.record);
        PutKeeps(was, k);
        PutAllLast(size, front, e, was, k);
        PutInOrder(size, front, e, was, k);
        PutNoneMissing(size, front, e, was, k);
        hide Put, Distinct, AllLast, InOrder, NoneMissing;
      } else {
        forall slot: nat | slot < size ensures LastAt(es, slot) == LastAt(front, slot) { LastAtLast(front, e, slot); }
        assert Latest(size, es) == Latest(size, front);
        hide Latest, LastAt;
      }
    }
  }

  lemma PutAllLast<T>(size: nat, front: seq<Event<T>>, e: Event<T>, was: seq<Kept<T>>, k: Kept<T>)
    requires e.Commit? && e.a.slot == Some(k.slot) && k.slot < size && k.need == e.a.need && k.record == e.a.record
    requires AllLast(size, front, was)
    ensures AllLast(size, front + [e], Put(was, k))
  {
    hide LastAt;
    var es, rest, now := front + [e], Without(was, k.slot), Put(was, k);
    WithoutKeeps(was, k.slot);
    hide Without;
    forall i | 0 <= i < |now| ensures now[i].slot < size && IsLast(es, now[i]) {
      LastAtLast(front, e, now[i].slot);
      if i < |rest| {
        assert now[i] in was;
        var m :| 0 <= m < |was| && was[m] == now[i];
        assert IsLast(front, was[m]);
      }
    }
  }

  lemma PutInOrder<T>(size: nat, front: seq<Event<T>>, e: Event<T>, was: seq<Kept<T>>, k: Kept<T>)
    requires e.Commit? && e.a.slot == Some(k.slot) && InOrder(front, was)
    ensures InOrder(front + [e], Put(was, k))
  {
    hide LastAt;
    var es, rest, now := front + [e], Without(was, k.slot), Put(was, k);
    WithoutKeeps(was, k.slot);
    WithoutInOrder(front, was, k.slot);
    hide Without;
    forall i, j | 0 <= i < j < |now| ensures LastAt(es, now[i].slot) < LastAt(es, now[j].slot) {
      LastAtLast(front, e, now[i].slot);
      LastAtLast(front, e, now[j].slot);
      if j < |rest| { assert now[i] == rest[i] && now[j] == rest[j]; }
    }
  }

  lemma PutNoneMissing<T>(size: nat, front: seq<Event<T>>, e: Event<T>, was: seq<Kept<T>>, k: Kept<T>)
    requires e.Commit? && e.a.slot == Some(k.slot) && Distinct(was) && NoneMissing(size, front, was)
    ensures NoneMissing(size, front + [e], Put(was, k))
  {
    hide LastAt, Put, Holds, Distinct;
    PutKeeps(was, k);
    forall slot | 0 <= slot < size && LastAt(front + [e], slot) >= 0 ensures Holds(Put(was, k), slot) {
      LastAtLast(front, e, slot);
    }
  }

  lemma {:induction false} WithoutInOrder<T>(es: seq<Event<T>>, l: seq<Kept<T>>, slot: nat)
    requires InOrder(es, l)
    ensures InOrder(es, Without(l, slot))
  {
    hide LastAt;
    if l != [] {
      WithoutInOrder(es, l[..|l| - 1], slot);
      WithoutKeeps(l[..|l| - 1], slot);
    }
  }

  // ---- One connection's stream, from the log ----------------------------------------

  /** How one connection stands: what it may have, what it wants, everything
      numbered for it so far, and how often it has authenticated. */
  datatype Seat<T> = Absent | Present(caps: Option<Capabilities>, filter: Filter, log: seq<Entry<T>>, times: nat)

  function Lines<T>(l: seq<Kept<T>>): seq<Entry<T>> {
    if l == [] then [] else Lines(l[..|l| - 1]) + [Entry(LIFECYCLE, false, l[|l| - 1].record)]
  }

  lemma LinesLast<T>(l: seq<Kept<T>>, k: Kept<T>)
    ensures Lines(l + [k]) == Lines(l) + [Entry(LIFECYCLE, false, k.record)]
  {
    assert (l + [k])[..|l|] == l;
  }

  function Seated<T>(seat: Seat<T>, e: Event<T>, id: nat, kept: seq<Kept<T>>): Seat<T> {
    match e
    case Attach(i, _, first) =>
      if i != id then seat else
      Present(None, All, if first.Some? then [Entry(DURABLE, true, first.value)] else [], 0)
    case Detach(i) => if i == id then Absent else seat
    case Answer(i, record) =>
      if i != id || seat.Absent? then seat else seat.(log := seat.log + [Entry(DURABLE, true, record)])
    case Authenticated(i, caps, _) =>
      if i != id || seat.Absent? then seat else
      seat.(caps := Some(caps), log := seat.log + Lines(Covered(kept, caps)), times := seat.times + 1)
    case TopicFilter(i, filter) => if i != id || seat.Absent? then seat else seat.(filter := filter)
    case Commit(a) =>
      if seat.Absent? then seat
      else if (if a.to.Some? then a.to.value == id
               else seat.caps.Some? && Covers(seat.caps.value, a.need) && seat.filter.Admits(a.class_, a.topic))
      then seat.(log := seat.log + [Entry(a.class_, false, a.record)])
      else seat
    case Drains(_, _) => seat
  }

  /** A connection's stream: its attach record, then the answers to it, the
      records addressed to it, the replay as it authenticates, and the records
      for all that it may have and wants, and nothing else. */
  function View<T>(size: nat, es: seq<Event<T>>, id: nat): Seat<T> {
    if es == [] then Absent else
    var front := es[..|es| - 1];
    Seated(View(size, front, id), es[|es| - 1], id, Latest(size, front))
  }

  ghost predicate Agrees<T>(c: Conn<T>, seat: Seat<T>) {
    seat.Present? && c.caps == seat.caps && c.filter == seat.filter && c.path.log == seat.log
  }

  /** A replay numbers the covered entries in order, and stops where it closed
      the connection; it counts each it pushed, the last included, and each it
      withheld. */
  lemma {:induction false} ReplayNumbers<T>(c: Conn<T>, tally: Tally, kept: seq<Kept<T>>, caps: Capabilities,
                                           pauses: seq<seq<Rest>>, i: nat, base: seq<Entry<T>>) returns (j: nat)
    requires Inv(c.path) && !c.path.busy && i <= |kept|
    requires c.path.log == base + Lines(Covered(kept[..i], caps))
    ensures var r := Replayed(c, tally, kept, caps, pauses, i);
            && i <= j <= |kept| && (!r.0.path.closed ==> j == |kept|)
            && r.0.path.log == base + Lines(Covered(kept[..j], caps))
            && r.1.replayed + |Covered(kept[..i], caps)| == tally.replayed + |Covered(kept[..j], caps)|
            && r.1.filtered + i + |Covered(kept[..j], caps)| == tally.filtered + j + |Covered(kept[..i], caps)|
            && r.1.unaddressed == tally.unaddressed && r.1.filteredTopic == tally.filteredTopic
    decreases |kept| - i
  {
    hide Inv, Covered, Lines, Covers;
    j := i;
    if i < |kept| && !c.path.closed {
      assert kept[..i + 1] == kept[..i] + [kept[i]];
      CoveredLast(kept[..i], kept[i], caps);
      if !Covers(caps, kept[i].need) {
        j := ReplayNumbers(c, tally.(filtered := tally.filtered + 1), kept, caps, pauses, i + 1, base);
      } else {
        var path := Paused(c.path, Nth(pauses, i));
        PushKeeps(path, LIFECYCLE, false, kept[i].record);
        PushNumbers(path, LIFECYCLE, false, kept[i].record);
        LinesLast(Covered(kept[..i], caps), kept[i]);
        var next := c.(path := Pushed(path, LIFECYCLE, false, kept[i].record));
        assert next.path.log == base + (Lines(Covered(kept[..i], caps)) + [Entry(LIFECYCLE, false, kept[i].record)]);
        j := ReplayNumbers(next,
          tally.(lost := Charge(tally.lost, Cost(path, LIFECYCLE, false)), replayed := tally.replayed + 1),
          kept, caps, pauses, i + 1, base);
      }
    }
  }

  lemma NoneCovered<T>(caps: Capabilities)
    ensures Lines<T>(Covered([], caps)) == []
  {
  }

  lemma EffectSeats<T>(s: State<T>, c: Conn<T>, e: Event<T>, seat: Seat<T>)
    requires Ready(c.path) && Agrees(c, seat)
    requires e.Attach? || e.Detach? ==> e.id != c.id
    ensures !Effect(s, c, e).path.closed ==> Agrees(Effect(s, c, e), Seated(seat, e, c.id, s.kept))
  {
    hide Inv, Pushed, Rested, Covers, Covered, Replayed, Lines;
    match e
    case Answer(id, record) => PushNumbers(c.path, DURABLE, true, record);
    case Authenticated(id, caps, pauses) =>
      if c.id == id {
        var c0 := c.(caps := Some(caps));
        assert s.kept[..0] == [];
        NoneCovered<T>(caps);
        assert c.path.log == c.path.log + [];
        var j := ReplayNumbers(c0, s.tally, s.kept, caps, pauses, 0, c.path.log);
        assert s.kept[..|s.kept|] == s.kept;
      }
    case Commit(a) => PushNumbers(c.path, a.class_, false, a.record);
    case Drains(id, rest) => RestKeeps(c.path, rest);
    case _ =>
  }

  /** The writer numbers for every connection it holds exactly that stream,
      from 1 and with no gap: number `n` is its place. */
  lemma {:induction false} NumbersTheStream<T>(size: nat, es: seq<Event<T>>, i: nat)
    requires Legal(es) && i < |After(size, es).conns|
    ensures Agrees(After(size, es).conns[i], View(size, es, After(size, es).conns[i].id))
    decreases |es|
  {
    if es != [] {
      var front, e := es[..|es| - 1], es[|es| - 1];
      var s := After(size, front);
      TakesNext(s, front, e);
      NextFine(s, e);
      assert After(size, es) == Next(s, e);
      KeptIsLatest(size, front);
      var id := Next(s, e).conns[i].id;
      if e.Attach? && e.id == id {
        Arrives(s, front, e, i);
      } else {
        var j := NextIds(s, e, i);
        if e.Detach? { DetachedIsGone(s, e, i); }
        NumbersTheStream(size, front, j);
        EffectSeats(s, s.conns[j], e, View(size, front, id));
      }
      hide Fine, Next, Takes, Legal, After, Effect, Latest, Seated;
    }
  }

  lemma Arrives<T>(s: State<T>, es: seq<Event<T>>, e: Event<T>, i: nat)
    requires Fine(s) && Takes(s, e) && AllKnown(s, es) && e.Attach? && !Known(es, e.id)
    requires i < |Next(s, e).conns| && Next(s, e).conns[i].id == e.id
    ensures forall seat, kept :: Agrees(Next(s, e).conns[i], Seated(seat, e, e.id, kept))
  {
    NewcomerKeeps(e.id, e.capacities, e.first);
    hide Newcomer, Inv, Known;
  }

  lemma DetachedIsGone<T>(s: State<T>, e: Event<T>, i: nat)
    requires Fine(s) && Takes(s, e) && i < |Next(s, e).conns| && e.Detach?
    ensures Next(s, e).conns[i].id != e.id
  {
    SelectKeeps(s.conns, Others(e.id));
    hide Select;
  }
}
