/** The writer thread: the loops it runs over its connections and its retained
    set, each against what `Hall` says it does. */
module WriterCode {
  import opened Basics
  import opened Delivery
  import opened Retain
  import opened Merge
  import opened MergeProofs
  import opened Hall
  import opened HallProofs

  lemma FannedSkips<T>(conns: seq<Conn<T>>, a: Addressed<T>, answer: bool, i: nat, j: nat, lost: Counts)
    requires AllReady(conns) && (answer ==> a.class_ == DURABLE) && i <= j <= |conns|
    requires forall m | i <= m < j :: !Receives(conns[m], a)
    ensures Fanned(conns, a, answer, j) == Fanned(conns, a, answer, i)
    ensures CostAmong(conns, a, answer, j, lost) == CostAmong(conns, a, answer, i, lost)
    decreases j - i
  {
    hide Inv, Pushed, Cost;
    if i < j {
      FannedSkips(conns, a, answer, i, j - 1, lost);
      var before := Fanned(conns, a, answer, j - 1);
      assert before[j - 1 := Shared(conns[j - 1], a, answer)] == before;
    }
  }

  lemma {:induction false} LegalTo<T>(es: seq<Event<T>>, n: nat)
    requires Legal(es) && n <= |es|
    ensures Legal(es[..n])
    decreases |es|
  {
    if n == |es| {
      assert es[..n] == es;
    } else {
      LegalTo(es[..|es| - 1], n);
      assert es[..|es| - 1][..n] == es[..n];
    }
  }

  lemma AfterNext<T>(size: nat, es: seq<Event<T>>, i: nat)
    requires i < |es| && Legal(es[..i + 1]) && Legal(es[..i])
    ensures Takes(After(size, es[..i]), es[i])
    ensures After(size, es[..i + 1]) == Next(After(size, es[..i]), es[i])
  {
    assert es[..i + 1][..i] == es[..i];
    TakesNext(After(size, es[..i]), es[..i], es[i]);
    hide Next, Takes, Fine;
  }

  lemma SelectNext<T>(conns: seq<Conn<T>>, i: nat, which: Which)
    requires i < |conns|
    ensures Select(conns[..i + 1], which)
         == if Meets(conns[i], which) then Select(conns[..i], which) + [conns[i]] else Select(conns[..i], which)
  {
    assert conns[..i + 1][..i] == conns[..i];
  }

  lemma ReadyAt<T>(s: State<T>, id: nat)
    requires Fine(s)
    ensures Find(s.conns, id) < |s.conns| ==> Ready(s.conns[Find(s.conns, id)].path)
  {
  }

  lemma FilterIs<T>(s: State<T>, id: nat, filter: Filter)
    requires Fine(s)
    ensures var k := Find(s.conns, id);
            Next(s, Event.TopicFilter(id, filter))
            == if k == |s.conns| then s else s.(conns := s.conns[k := s.conns[k].(filter := filter)])
  {
    hide Fine, Find;
  }

  lemma DrainIs<T>(s: State<T>, id: nat, rest: Rest)
    requires Fine(s)
    ensures var k := Find(s.conns, id);
            && (k < |s.conns| ==> Inv(s.conns[k].path))
            && Next(s, Event.Drains(id, rest))
               == if k == |s.conns| then s else s.(conns := s.conns[k := s.conns[k].(path := Rested(s.conns[k].path, rest))])
  {
    ReadyAt(s, id);
    hide Find, Rested, Inv;
  }

  /** The connections and the counts once the one of that id, if any, has its
      capabilities and its replay. */
  function Greeted<T>(conns: seq<Conn<T>>, counts: Tally, kept: seq<Kept<T>>, id: nat, caps: Capabilities,
                      pauses: seq<seq<Rest>>): (seq<Conn<T>>, Tally)
    requires AllReady(conns)
  {
    var k := Find(conns, id);
    if k == |conns| then (conns, counts) else
    var r := Replayed(conns[k].(caps := Some(caps)), counts, kept, caps, pauses, 0);
    (conns[k := r.0], r.1)
  }

  lemma AuthenticatedIs<T>(s: State<T>, id: nat, caps: Capabilities, pauses: seq<seq<Rest>>)
    requires Fine(s)
    ensures var r := Greeted(s.conns, s.tally, s.kept, id, caps, pauses);
            Next(s, Authenticated(id, caps, pauses))
            == s.(conns := Select(r.0, Open), gone := s.gone + Select(r.0, Closed), tally := r.1)
  {
    hide Inv, Replayed, Select, Find;
  }

  /** One step of a replay. */
  lemma ReplayedFrom<T>(c: Conn<T>, tally: Tally, kept: seq<Kept<T>>, caps: Capabilities, pauses: seq<seq<Rest>>, i: nat)
    requires Inv(c.path) && !c.path.busy && i <= |kept|
    ensures i == |kept| || c.path.closed ==> Replayed(c, tally, kept, caps, pauses, i) == (c, tally)
    ensures i < |kept| && !c.path.closed && !Covers(caps, kept[i].need) ==>
              Replayed(c, tally, kept, caps, pauses, i)
              == Replayed(c, tally.(filtered := tally.filtered + 1), kept, caps, pauses, i + 1)
    ensures i < |kept| && !c.path.closed && Covers(caps, kept[i].need) ==>
              var path := Paused(c.path, Nth(pauses, i));
              var path' := Pushed(path, LIFECYCLE, false, kept[i].record);
              && Inv(path') && !path'.busy
              && Replayed(c, tally, kept, caps, pauses, i)
                 == Replayed(c.(path := path'),
                      tally.(lost := Charge(tally.lost, Cost(path, LIFECYCLE, false)), replayed := tally.replayed + 1),
                      kept, caps, pauses, i + 1)
  {
    hide Inv, Covers, Pushed, Cost;
    if i < |kept| && !c.path.closed && Covers(caps, kept[i].need) {
      PushKeeps(Paused(c.path, Nth(pauses, i)), LIFECYCLE, false, kept[i].record);
    }
  }

  lemma FreshCosts<T>(capacities: Capacities)
    requires capacities.Positive()
    ensures Ready(Fresh<T>(capacities)) && Cost(Fresh<T>(capacities), DURABLE, true) == Nothing
  {
    FreshOk<T>(capacities);
  }

  /** What is counted once the first `j` have been looked at. */
  function Counted<T>(before: Tally, conns: seq<Conn<T>>, a: Addressed<T>, j: nat, lost: Counts): (t: Tally)
    requires j <= |conns|
    ensures t.lost == lost
  {
    before.(filtered := before.filtered + WithheldAmong(conns, a, j),
            filteredTopic := before.filteredTopic + UnwantedAmong(conns, a, j),
            lost := lost)
  }

  lemma NoneYet<T>(conns: seq<Conn<T>>, a: Addressed<T>, answer: bool, before: Tally)
    requires AllReady(conns) && (answer ==> a.class_ == DURABLE)
    ensures before == Counted(before, conns, a, 0, before.lost)
    ensures Fanned(conns, a, answer, 0) == conns && CostAmong(conns, a, answer, 0, before.lost) == before.lost
  {
  }

  lemma Charged<T>(before: Tally, conns: seq<Conn<T>>, a: Addressed<T>, j: nat, lost: Counts, cost: Lost)
    requires j <= |conns|
    ensures var c := Counted(before, conns, a, j, lost);
            c.(lost := Charge(c.lost, cost)) == Counted(before, conns, a, j, Charge(lost, cost))
  {
  }

  /** A push to one that receives, and none after it up to `j`. */
  lemma FannedOne<T>(conns: seq<Conn<T>>, a: Addressed<T>, answer: bool, i: nat, j: nat, lost: Counts)
    requires AllReady(conns) && (answer ==> a.class_ == DURABLE) && i < j <= |conns|
    requires Receives(conns[i], a) && forall m | i < m < j :: !Receives(conns[m], a)
    ensures Fanned(conns, a, answer, i)[i := To(conns[i], a.class_, answer, a.record)] == Fanned(conns, a, answer, j)
    ensures CostAmong(conns, a, answer, j, lost)
         == Charge(CostAmong(conns, a, answer, i, lost), Cost(conns[i].path, a.class_, answer))
  {
    hide Inv, Pushed, Cost;
    FannedSkips(conns, a, answer, i + 1, j, lost);
    assert CostAmong(conns, a, answer, i + 1, lost) == Charge(CostAmong(conns, a, answer, i, lost), Cost(conns[i].path, a.class_, answer));
    assert Fanned(conns, a, answer, i + 1) == Fanned(conns, a, answer, i)[i := Shared(conns[i], a, answer)];
  }

  lemma ReceiverCounts<T>(before: Tally, conns: seq<Conn<T>>, a: Addressed<T>, j: nat, lost: Counts)
    requires j < |conns| && Receives(conns[j], a)
    ensures Counted(before, conns, a, j + 1, lost) == Counted(before, conns, a, j, lost)
  {
    hide Covers, Filter.Admits;
  }

  class Writer<T> {
    var connections: seq<Conn<T>>
    var counts: Tally
    const retained: Retained<T>
    ghost var gone: seq<Conn<T>>

    ghost function Abs(): State<T>
      reads this, retained
      requires retained.Valid()
    {
      State(connections, retained.Set(), |retained.slots|, counts, gone)
    }

    ghost predicate Valid() reads this, retained { retained.Valid() && Fine(Abs()) }

    constructor (slots: nat)
      ensures Valid() && fresh(retained) && Abs() == New(slots)
    {
      connections, counts, gone := [], Tally(0, 0, 0, 0, Counts(0, 0, 0, 0)), [];
      retained := new Retained(slots);
    }

    method FindIndex(id: nat) returns (k: nat)
      ensures k == Find(connections, id)
    {
      k := 0;
      while k < |connections| && connections[k].id != id
        invariant k <= |connections| && FindFrom(connections, id, 0) == FindFrom(connections, id, k)
      {
        k := k + 1;
      }
    }

    /** Number a record and push it, and count what the ring turned away. */
    method PushTo(k: nat, class_: Class, answer: bool, record: T)
      requires k < |connections| && Ready(connections[k].path) && (answer ==> class_ == DURABLE)
      modifies this`connections, this`counts
      ensures connections == old(connections)[k := To(old(connections[k]), class_, answer, record)]
      ensures counts == old(counts).(lost := Charge(old(counts.lost), Cost(old(connections[k].path), class_, answer)))
    {
      hide LogOk, HandedOk, Accounted, Rings, Fates;
      var path := connections[k].path;
      var cost := Cost(path, class_, answer);
      WriteKeeps(path, Number(class_, answer, record));
      path := Written(path, Number(class_, answer, record));
      WriteKeeps(path, Continue);
      path := Written(path, Continue);
      if path.busy { path := Written(path, Continue); }
      connections := connections[k := connections[k].(path := path)];
      match cost {
        case Nothing =>
        case Lossy => counts := counts.(lost := counts.lost.(lossy := counts.lost.lossy + 1));
        case Durable => counts := counts.(lost := counts.lost.(durable := counts.lost.durable + 1));
        case BrokerAnswer => counts := counts.(lost := counts.lost.(answer := counts.lost.answer + 1));
        case Boundary => counts := counts.(lost := counts.lost.(disconnects := counts.lost.disconnects + 1));
      }
    }

    /** The next connection from `i` on to receive the record, counting each one
        it passes that is withheld from. */
    method NextReceiving(a: Addressed<T>, i: nat, ghost conns: seq<Conn<T>>, ghost before: Tally) returns (j: nat)
      requires i <= |connections| == |conns| && forall m | i <= m < |conns| :: connections[m] == conns[m]
      requires counts == Counted(before, conns, a, i, counts.lost)
      modifies this`counts
      ensures i <= j <= |conns| && (j < |conns| ==> Receives(conns[j], a))
      ensures forall m | i <= m < j :: !Receives(conns[m], a)
      ensures counts == Counted(before, conns, a, j, old(counts.lost))
    {
      hide Covers, Filter.Admits;
      j := i;
      while j < |connections|
        invariant i <= j <= |conns|
        invariant forall m | i <= m < j :: !Receives(conns[m], a)
        invariant counts == Counted(before, conns, a, j, old(counts.lost))
      {
        var c := connections[j];
        if c.caps.Some? {
          if !Covers(c.caps.value, a.need) {
            counts := counts.(filtered := counts.filtered + 1);
          } else if c.filter.Admits(a.class_, a.topic) {
            return;
          } else {
            counts := counts.(filtered := counts.filtered + 1, filteredTopic := counts.filteredTopic + 1);
          }
        }
        j := j + 1;
      }
    }

    /** One behind: a receiving connection is pushed to once the next one has
        been found, and the last gets the record itself. */
    method Deliver(a: Addressed<T>, answer: bool)
      requires Valid() && (answer ==> a.class_ == DURABLE)
      modifies this`connections, this`counts
      ensures Abs() == Delivered(old(Abs()), a, answer)
    {
      if a.to.Some? {
        DeliverToOne(a, answer);
      } else {
        DeliverToAll(a, answer);
      }
    }

    method DeliverToOne(a: Addressed<T>, answer: bool)
      requires Valid() && (answer ==> a.class_ == DURABLE) && a.to.Some?
      modifies this`connections, this`counts
      ensures Abs() == Delivered(old(Abs()), a, answer)
    {
      hide Inv, Cost, Pushed, List, Find;
      var k := FindIndex(a.to.value);
      if k < |connections| {
        PushTo(k, a.class_, answer, a.record);
      } else {
        counts := counts.(unaddressed := counts.unaddressed + 1);
      }
    }

    method DeliverToAll(a: Addressed<T>, answer: bool)
      requires Valid() && (answer ==> a.class_ == DURABLE) && a.to.None?
      modifies this`connections, this`counts
      ensures Abs() == Delivered(old(Abs()), a, answer)
    {
      hide Inv, Cost, Pushed, List, WithheldAmong, UnwantedAmong, CostAmong, Fanned, Shared;
      Walk(a, answer);
    }

    method Walk(a: Addressed<T>, answer: bool)
      requires AllReady(connections) && (answer ==> a.class_ == DURABLE)
      modifies this`connections, this`counts
      ensures connections == Fanned(old(connections), a, answer, |old(connections)|)
      ensures counts == Counted(old(counts), old(connections), a, |old(connections)|,
                          CostAmong(old(connections), a, answer, |old(connections)|, old(counts.lost)))
    {
      hide Ready, Cost, Pushed, WithheldAmong, UnwantedAmong, CostAmong, Counted;
      ghost var conns, before := connections, counts;
      NoneYet(conns, a, answer, before);
      var j := NextReceiving(a, 0, conns, before);
      FannedSkips(conns, a, answer, 0, j, before.lost);
      if j == |connections| { return; }
      var previous := j;
      ReceiverCounts(before, conns, a, previous, counts.lost);
      j := NextReceiving(a, previous + 1, conns, before);
      hide Fanned, Receives, AllReady;
      while j < |connections|
        invariant previous < j <= |conns| == |connections|
        invariant Receives(conns[previous], a) && (j < |conns| ==> Receives(conns[j], a))
        invariant forall m | previous < m < j :: !Receives(conns[m], a)
        invariant connections == Fanned(conns, a, answer, previous)
        invariant counts == Counted(before, conns, a, j, CostAmong(conns, a, answer, previous, before.lost))
        decreases |conns| - j
      {
        PushPrevious(a, answer, previous, j, conns, before);
        previous := j;
        ReceiverCounts(before, conns, a, previous, counts.lost);
        j := NextReceiving(a, previous + 1, conns, before);
      }
      PushPrevious(a, answer, previous, j, conns, before);
    }

    /** The receiving connection found before, now that the next one is at `j`. */
    method PushPrevious(a: Addressed<T>, answer: bool, previous: nat, ghost j: nat, ghost conns: seq<Conn<T>>, ghost before: Tally)
      requires AllReady(conns) && (answer ==> a.class_ == DURABLE) && previous < j <= |conns| == |connections|
      requires Receives(conns[previous], a) && forall m | previous < m < j :: !Receives(conns[m], a)
      requires connections == Fanned(conns, a, answer, previous)
      requires counts == Counted(before, conns, a, j, CostAmong(conns, a, answer, previous, before.lost))
      modifies this`connections, this`counts
      ensures connections == Fanned(conns, a, answer, j)
      ensures counts == Counted(before, conns, a, j, CostAmong(conns, a, answer, j, before.lost))
    {
      assert connections[previous] == conns[previous];
      FannedOne(conns, a, answer, previous, j, before.lost);
      Charged(before, conns, a, j, CostAmong(conns, a, answer, previous, before.lost), Cost(conns[previous].path, a.class_, answer));
      hide Inv, Cost, Pushed, WithheldAmong, UnwantedAmong, CostAmong, Counted, Fanned, Receives;
      PushTo(previous, a.class_, answer, a.record);
    }

    /** Forget the connections a push closed, once the walk that may hold one is
        over. */
    method Forget()
      modifies this`connections, this`gone
      ensures connections == Select(old(connections), Open) && gone == old(gone) + Select(old(connections), Closed)
    {
      var open: seq<Conn<T>> := [];
      ghost var shut: seq<Conn<T>> := [];
      for i := 0 to |connections|
        invariant connections == old(connections) && gone == old(gone)
        invariant open == Select(connections[..i], Open) && shut == Select(connections[..i], Closed)
      {
        SelectNext(connections, i, Open);
        SelectNext(connections, i, Closed);
        if !connections[i].path.closed { open := open + [connections[i]]; }
        else { shut := shut + [connections[i]]; }
      }
      assert connections[..|connections|] == connections;
      connections, gone := open, gone + shut;
    }

    method ForgetNamed(id: nat)
      modifies this`connections, this`gone
      ensures connections == Select(old(connections), Others(id)) && gone == old(gone) + Select(old(connections), Named(id))
    {
      var others: seq<Conn<T>> := [];
      ghost var named: seq<Conn<T>> := [];
      for i := 0 to |connections|
        invariant connections == old(connections) && gone == old(gone)
        invariant others == Select(connections[..i], Others(id)) && named == Select(connections[..i], Named(id))
      {
        SelectNext(connections, i, Others(id));
        SelectNext(connections, i, Named(id));
        if connections[i].id != id { others := others + [connections[i]]; }
        else { named := named + [connections[i]]; }
      }
      assert connections[..|connections|] == connections;
      connections, gone := others, gone + named;
    }

    method Detach(id: nat)
      requires Valid()
      modifies this`connections, this`gone
      ensures Valid() && Abs() == Next(old(Abs()), Event.Detach(id))
    {
      NextFine(Abs(), Event.Detach(id));
      hide Fine, Select, List;
      ForgetNamed(id);
    }

    method Attach(id: nat, capacities: Capacities, first: Option<T>)
      requires Valid() && Takes(Abs(), Event.Attach(id, capacities, first))
      modifies this`connections, this`counts
      ensures Valid() && Abs() == Next(old(Abs()), Event.Attach(id, capacities, first))
    {
      NextFine(Abs(), Event.Attach(id, capacities, first));
      FreshCosts<T>(capacities);
      hide Fine, Inv, Pushed, Cost, List;
      var c := Conn(id, Fresh(capacities), None, All);
      connections := connections + [c];
      if first.Some? {
        PushTo(|connections| - 1, DURABLE, true, first.value);
        assert connections == old(connections) + [To(c, DURABLE, true, first.value)];
      }
    }

    method Answer(id: nat, record: T)
      requires Valid()
      modifies this`connections, this`counts, this`gone
      ensures Valid() && Abs() == Next(old(Abs()), Event.Answer(id, record))
    {
      NextFine(Abs(), Event.Answer(id, record));
      FanOut(AnswerTo(id, record), true);
      hide Fine, Delivered;
    }

    method FanOut(a: Addressed<T>, answer: bool)
      requires Valid() && (answer ==> a.class_ == DURABLE)
      modifies this`connections, this`counts, this`gone
      ensures Abs() == Settled(Delivered(old(Abs()), a, answer))
    {
      hide Fine, Delivered, List, Select;
      Deliver(a, answer);
      Forget();
    }

    method TopicFilter(id: nat, filter: Filter)
      requires Valid()
      modifies this`connections
      ensures Valid() && Abs() == Next(old(Abs()), Event.TopicFilter(id, filter))
    {
      NextFine(Abs(), Event.TopicFilter(id, filter));
      FilterIs(Abs(), id, filter);
      hide Fine, List, Next, Ordered, Find;
      var k := FindIndex(id);
      if k < |connections| { connections := connections[k := connections[k].(filter := filter)]; }
    }

    /** A record with a slot is kept before it is fanned out. */
    method Commit(a: Addressed<T>)
      requires Valid() && WellFormed(a)
      modifies this`connections, this`counts, this`gone, retained
      ensures Valid() && Abs() == Next(old(Abs()), Event.Commit(a))
    {
      NextFine(Abs(), Event.Commit(a));
      KeptsKeep(Abs(), a);
      hide Fine, Delivered, List, Put;
      if a.slot.Some? { retained.Keep(a.slot.value, a.need, a.record); }
      assert Abs() == old(Abs()).(kept := Kepts(old(Abs()), a));
      FanOut(a, false);
    }

    /** What the connection's own thread does; not the writer's code. */
    method Rests(k: nat, rests: seq<Rest>)
      requires k < |connections| && Ready(connections[k].path)
      modifies this`connections
      ensures connections == old(connections)[k := old(connections[k]).(path := Paused(old(connections[k].path), rests))]
    {
      connections := connections[k := connections[k].(path := Paused(connections[k].path, rests))];
    }

    /** Push the set to a connection in emit order, through the filter fan-out
        applies, stopping if that closes it. */
    method ReplayTo(k: nat, caps: Capabilities, pauses: seq<seq<Rest>>)
      requires retained.Valid() && k < |connections| && Ready(connections[k].path)
      modifies this`connections, this`counts
      ensures var r := Replayed(old(connections[k]), old(counts), retained.Set(), caps, pauses, 0);
              connections == old(connections)[k := r.0] && counts == r.1
    {
      hide Inv, Pushed, Cost, Covers, Ordered, List, Replayed;
      ghost var kept, r := retained.Set(), Replayed(connections[k], counts, retained.Set(), caps, pauses, 0);
      var i := 0;
      while i < |retained.order| && !connections[k].path.closed
        invariant i <= |retained.order| == |kept| && k < |connections|
        invariant retained.Valid() && retained.Set() == kept
        invariant connections == old(connections)[k := connections[k]]
        invariant Inv(connections[k].path) && !connections[k].path.busy
        invariant Replayed(connections[k], counts, kept, caps, pauses, i) == r
      {
        var entry := retained.Nth(i);
        ReplayedFrom(connections[k], counts, kept, caps, pauses, i);
        if !Covers(caps, entry.need) {
          counts := counts.(filtered := counts.filtered + 1);
        } else {
          Rests(k, Nth(pauses, i));
          PushKeeps(connections[k].path, LIFECYCLE, false, entry.record);
          PushTo(k, LIFECYCLE, false, entry.record);
          counts := counts.(replayed := counts.replayed + 1);
        }
        i := i + 1;
      }
      ReplayedFrom(connections[k], counts, kept, caps, pauses, i);
    }

    method Welcome(k: nat, caps: Capabilities, pauses: seq<seq<Rest>>)
      requires retained.Valid() && k < |connections| && Ready(connections[k].path)
      modifies this`connections, this`counts
      ensures var r := Replayed(old(connections[k]).(caps := Some(caps)), old(counts), retained.Set(), caps, pauses, 0);
              connections == old(connections)[k := r.0] && counts == r.1
    {
      hide Ready, Replayed, Ordered, List;
      connections := connections[k := connections[k].(caps := Some(caps))];
      ReplayTo(k, caps, pauses);
    }

    method Greet(id: nat, caps: Capabilities, pauses: seq<seq<Rest>>)
      requires retained.Valid() && AllReady(connections)
      modifies this`connections, this`counts
      ensures (connections, counts) == Greeted(old(connections), old(counts), retained.Set(), id, caps, pauses)
    {
      hide Replayed, Ready, Find, Ordered, List;
      var k := FindIndex(id);
      if k < |connections| { Welcome(k, caps, pauses); }
    }

    method Authenticated(id: nat, caps: Capabilities, pauses: seq<seq<Rest>>)
      requires Valid()
      modifies this`connections, this`counts, this`gone
      ensures Valid() && Abs() == Next(old(Abs()), Event.Authenticated(id, caps, pauses))
    {
      NextFine(Abs(), Event.Authenticated(id, caps, pauses));
      AuthenticatedIs(Abs(), id, caps, pauses);
      hide Greeted, Next, Select, Ordered, List;
      Greet(id, caps, pauses);
      Forget();
      hide Fine;
    }

    /** What the connection's own thread does between two of the writer's
        messages; not the writer's code. */
    method Drains(id: nat, rest: Rest)
      requires Valid()
      modifies this`connections
      ensures Valid() && Abs() == Next(old(Abs()), Event.Drains(id, rest))
    {
      NextFine(Abs(), Event.Drains(id, rest));
      ReadyAt(Abs(), id);
      DrainIs(Abs(), id, rest);
      hide Fine, List, Inv, Find, Rested, Next, Ordered;
      var k := FindIndex(id);
      if k < |connections| {
        connections := connections[k := connections[k].(path := Rested(connections[k].path, rest))];
      }
    }

    method Take(e: Event<T>)
      requires Valid() && Takes(Abs(), e)
      modifies this, retained
      ensures Valid() && Abs() == Next(old(Abs()), e)
    {
      hide Fine, Next, Ordered, List;
      match e {
        case Attach(id, capacities, first) => Attach(id, capacities, first);
        case Detach(id) => Detach(id);
        case Answer(id, record) => Answer(id, record);
        case Authenticated(id, caps, pauses) => Authenticated(id, caps, pauses);
        case TopicFilter(id, filter) => TopicFilter(id, filter);
        case Commit(a) => assert WellFormed(a); Commit(a);
        case Drains(id, rest) => Drains(id, rest);
      }
    }

    /** The loop, over whatever came and in the order it was taken. How many
        records it takes before it looks at its messages again is its own
        business: any order is allowed for. */
    method Run(es: seq<Event<T>>)
      requires Valid() && Abs() == New(|retained.slots|) && Legal(es)
      modifies this, retained
      ensures Valid() && Abs() == After(old(|retained.slots|), es)
    {
      hide Next, Ordered, List;
      ghost var size := |retained.slots|;
      LegalTo(es, |es|);
      assert es[..|es|] == es;
      for i := 0 to |es|
        invariant Valid()
        invariant Legal(es[..i]) && Abs() == After(size, es[..i])
      {
        LegalTo(es, i + 1);
        AfterNext(size, es, i);
        hide Fine, After, Legal;
        Take(es[i]);
      }
    }
  }
}
