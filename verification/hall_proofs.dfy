/** What everything the writer takes keeps of its connections, over whole runs. */
module HallProofs {
  import opened Basics
  import opened Delivery
  import opened Retain
  import opened Merge
  import opened Hall

  lemma {:induction false} SelectKeeps<T>(conns: seq<Conn<T>>, which: Which)
    ensures forall i | 0 <= i < |Select(conns, which)| :: Select(conns, which)[i] in conns && Meets(Select(conns, which)[i], which)
    ensures forall i | 0 <= i < |conns| && Meets(conns[i], which) :: conns[i] in Select(conns, which)
    ensures Unlike(conns) ==> Unlike(Select(conns, which))
  {
    if conns != [] { SelectKeeps(conns[..|conns| - 1], which); }
  }

  lemma SettledFine<T>(s: State<T>)
    requires AllKept(s.conns) && Unlike(s.conns) && AllKept(s.gone)
    requires Distinct(s.kept) && (forall i | 0 <= i < |s.kept| :: s.kept[i].slot < s.size)
    ensures Fine(Settled(s))
  {
    SelectKeeps(s.conns, Open);
    SelectKeeps(s.conns, Closed);
    hide Inv, Select;
    var s' := Settled(s);
    forall i | 0 <= i < |s'.conns| ensures Ready(s'.conns[i].path) {
      assert s'.conns[i] in s.conns;
      var j :| 0 <= j < |s.conns| && s.conns[j] == s'.conns[i];
    }
    forall i | 0 <= i < |s'.gone| ensures Inv(s'.gone[i].path) && !s'.gone[i].path.busy {
      if i >= |s.gone| {
        var c := Select(s.conns, Closed)[i - |s.gone|];
        assert c in s.conns;
        var j :| 0 <= j < |s.conns| && s.conns[j] == c;
      }
    }
  }

  lemma DetachedFine<T>(s: State<T>, id: nat)
    requires Fine(s)
    ensures Fine(s.(conns := Select(s.conns, Others(id)), gone := s.gone + Select(s.conns, Named(id))))
  {
    SelectKeeps(s.conns, Others(id));
    SelectKeeps(s.conns, Named(id));
    hide Inv, Select;
    var s' := s.(conns := Select(s.conns, Others(id)), gone := s.gone + Select(s.conns, Named(id)));
    forall i | 0 <= i < |s'.conns| ensures Ready(s'.conns[i].path) {
      assert s'.conns[i] in s.conns;
      var j :| 0 <= j < |s.conns| && s.conns[j] == s'.conns[i];
    }
    forall i | 0 <= i < |s'.gone| ensures Inv(s'.gone[i].path) && !s'.gone[i].path.busy {
      if i >= |s.gone| {
        var c := Select(s.conns, Named(id))[i - |s.gone|];
        assert c in s.conns;
        var j :| 0 <= j < |s.conns| && s.conns[j] == c;
      }
    }
  }

  lemma NewcomerKeeps<T>(id: nat, capacities: Capacities, first: Option<T>)
    requires capacities.Positive()
    ensures var c := Newcomer(id, capacities, first);
            && c.id == id && c.caps == None && c.filter == All && Ready(c.path)
            && c.path.log == (if first.Some? then [Entry(DURABLE, true, first.value)] else [])
            && c.path.counts == Counts(0, 0, 0, 0)
  {
    FreshOk<T>(capacities);
    if first.Some? {
      PushKeeps(Fresh(capacities), DURABLE, true, first.value);
      PushNumbers(Fresh(capacities), DURABLE, true, first.value);
      assert Fresh<T>(capacities).log + [Entry(DURABLE, true, first.value)] == [Entry(DURABLE, true, first.value)];
      hide Inv, Pushed;
    }
  }

  // ---- One connection at a time ------------------------------------------------------

  /** What an event does to one connection that is there for it. */
  function Effect<T>(s: State<T>, c: Conn<T>, e: Event<T>): Conn<T>
    requires Ready(c.path)
  {
    match e
    case Answer(id, record) => if c.id == id then To(c, DURABLE, true, record) else c
    case Authenticated(id, caps, pauses) =>
      if c.id == id then Replayed(c.(caps := Some(caps)), s.tally, s.kept, caps, pauses, 0).0 else c
    case TopicFilter(id, filter) => if c.id == id then c.(filter := filter) else c
    case Commit(a) =>
      if a.to.None? then Shared(c, a, false)
      else if c.id == a.to.value then To(c, a.class_, false, a.record) else c
    case Drains(id, rest) => if c.id == id then c.(path := Rested(c.path, rest)) else c
    case _ => c
  }

  function Each<T>(s: State<T>, conns: seq<Conn<T>>, e: Event<T>): (r: seq<Conn<T>>)
    requires AllReady(conns)
    ensures |r| == |conns| && forall i | 0 <= i < |r| :: r[i] == Effect(s, conns[i], e)
  {
    if conns == [] then [] else
    Each(s, conns[..|conns| - 1], e) + [Effect(s, conns[|conns| - 1], e)]
  }

  lemma EffectKeeps<T>(s: State<T>, c: Conn<T>, e: Event<T>)
    requires Ready(c.path)
    ensures var c' := Effect(s, c, e); c'.id == c.id && Inv(c'.path) && !c'.path.busy
  {
    hide Inv, Pushed, Rested;
    match e
    case Answer(id, record) => PushKeeps(c.path, DURABLE, true, record);
    case Commit(a) => PushKeeps(c.path, a.class_, false, a.record);
    case Drains(id, rest) => RestKeeps(c.path, rest);
    case _ =>
  }

  lemma EachKeeps<T>(s: State<T>, e: Event<T>)
    requires Fine(s)
    ensures var m := Each(s, s.conns, e); AllKept(m) && Unlike(m)
  {
    hide Inv, Each, Effect;
    forall i | 0 <= i < |s.conns|
      ensures var c := Each(s, s.conns, e)[i]; c.id == s.conns[i].id && Inv(c.path) && !c.path.busy
    {
      EffectKeeps(s, s.conns[i], e);
    }
  }

  /** Changing the one connection of an id is changing each that has it. */
  lemma OnlyThere<T>(s: State<T>, e: Event<T>, id: nat)
    requires Fine(s)
    requires forall i | 0 <= i < |s.conns| && s.conns[i].id != id :: Effect(s, s.conns[i], e) == s.conns[i]
    ensures var k := Find(s.conns, id);
            Each(s, s.conns, e) == if k < |s.conns| then s.conns[k := Effect(s, s.conns[k], e)] else s.conns
  {
    hide Inv, Each, Effect, Find;
  }

  lemma {:induction false} SelectAll<T>(conns: seq<Conn<T>>)
    requires AllReady(conns)
    ensures Select(conns, Open) == conns && Select(conns, Closed) == []
  {
    hide Inv;
    if conns != [] {
      SelectAll(conns[..|conns| - 1]);
      assert conns == conns[..|conns| - 1] + [conns[|conns| - 1]];
    }
  }

  /** The writer's loops over its connections come to this: the effect on each,
      and those it closed forgotten. */
  lemma NextIsEach<T>(s: State<T>, e: Event<T>)
    requires Fine(s) && Takes(s, e) && !e.Attach? && !e.Detach?
    ensures var m := Each(s, s.conns, e);
            Next(s, e).conns == Select(m, Open) && Next(s, e).gone == s.gone + Select(m, Closed)
  {
    hide Inv, Each, Select, Replayed, Pushed, Rested, WithheldAmong, UnwantedAmong, CostAmong, Find, Shared, Fanned;
    match e
    case Answer(id, record) => OnlyThere(s, e, id);
    case Authenticated(id, caps, pauses) => OnlyThere(s, e, id);
    case TopicFilter(id, filter) =>
      OnlyThere(s, e, id);
      SelectAll(Next(s, e).conns);
    case Commit(a) =>
      KeptsKeep(s, a);
      if a.to.Some? {
        OnlyThere(s, e, a.to.value);
      } else {
        assert Fanned(s.conns, a, false, |s.conns|) == Each(s, s.conns, e);
      }
    case Drains(id, rest) =>
      OnlyThere(s, e, id);
      var k := Find(s.conns, id);
      if k < |s.conns| { RestKeeps(s.conns[k].path, rest); }
      SelectAll(Next(s, e).conns);
  }

  lemma NextFine<T>(s: State<T>, e: Event<T>)
    requires Fine(s) && Takes(s, e)
    ensures Fine(Next(s, e)) && Next(s, e).size == s.size
  {
    if e.Attach? {
      NewcomerKeeps(e.id, e.capacities, e.first);
      hide Inv, Newcomer;
    } else if e.Detach? {
      DetachedFine(s, e.id);
    } else {
      EffectsFine(s, e);
    }
  }

  lemma EffectsFine<T>(s: State<T>, e: Event<T>)
    requires Fine(s) && Takes(s, e) && !e.Attach? && !e.Detach?
    ensures Fine(Next(s, e)) && Next(s, e).size == s.size
  {
    hide Next, Each, Select, Takes;
    EachKeeps(s, e);
    NextIsEach(s, e);
    NextKept(s, e);
    var before := Next(s, e).(conns := Each(s, s.conns, e), gone := s.gone);
    SettledFine(before);
    assert Settled(before) == Next(s, e);
  }

  lemma NextKept<T>(s: State<T>, e: Event<T>)
    requires Fine(s) && Takes(s, e)
    ensures Next(s, e).size == s.size
    ensures Next(s, e).kept == if e.Commit? then Kepts(s, e.a) else s.kept
    ensures Distinct(Next(s, e).kept) && forall i | 0 <= i < |Next(s, e).kept| :: Next(s, e).kept[i].slot < s.size
  {
    hide Inv, Select, Replayed, Pushed, Rested, WithheldAmong, UnwantedAmong, CostAmong, Find, Shared, Fanned, Kepts, Newcomer;
    if e.Commit? { KeptsKeep(s, e.a); }
  }

  // ---- Runs ---------------------------------------------------------------------------

  ghost predicate Known<T>(es: seq<Event<T>>, id: nat) {
    exists i :: 0 <= i < |es| && es[i].Attach? && es[i].id == id
  }

  /** No id is given out twice, and no ring is empty. */
  ghost predicate Legal<T>(es: seq<Event<T>>) {
    es == [] ||
    var front, e := es[..|es| - 1], es[|es| - 1];
    && Legal(front)
    && (e.Attach? ==> e.capacities.Positive() && !Known(front, e.id))
    && (e.Commit? ==> WellFormed(e.a))
  }

  ghost predicate AllKnown<T>(s: State<T>, es: seq<Event<T>>) {
    forall i | 0 <= i < |s.conns| :: Known(es, s.conns[i].id)
  }

  /** One more thing taken. */
  lemma TakesOne<T>(s: State<T>, es: seq<Event<T>>, e: Event<T>)
    requires Fine(s) && AllKnown(s, es) && (e.Attach? ==> !Known(es, e.id))
    requires e.Attach? ==> e.capacities.Positive()
    requires e.Commit? ==> WellFormed(e.a)
    ensures Takes(s, e) && Fine(Next(s, e)) && Next(s, e).size == s.size && AllKnown(Next(s, e), es + [e])
  {
    hide Fine, Next, AllKnown, Takes, Known;
    TakesNext(s, es, e);
    NextFine(s, e);
    NextKnown(s, es, e);
  }

  /** The writer after everything it has taken. */
  ghost function After<T>(size: nat, es: seq<Event<T>>): (s: State<T>)
    requires Legal(es)
    ensures Fine(s) && s.size == size && AllKnown(s, es)
  {
    if es == [] then New(size) else
    var front, e := es[..|es| - 1], es[|es| - 1];
    var s := After(size, front);
    TakesOne(s, front, e);
    assert es == front + [e];
    Next(s, e)
  }

  lemma TakesNext<T>(s: State<T>, es: seq<Event<T>>, e: Event<T>)
    requires Fine(s) && AllKnown(s, es) && (e.Attach? ==> !Known(es, e.id))
    requires e.Attach? ==> e.capacities.Positive()
    requires e.Commit? ==> WellFormed(e.a)
    ensures Takes(s, e)
  {
    hide Fine, Known;
  }

  /** Everyone there after was there before, or is who attached. */
  lemma NextIds<T>(s: State<T>, e: Event<T>, i: nat) returns (j: nat)
    requires Fine(s) && Takes(s, e) && i < |Next(s, e).conns|
    requires e.Attach? ==> Next(s, e).conns[i].id != e.id
    ensures j < |s.conns| && Ready(s.conns[j].path) && s.conns[j].id == Next(s, e).conns[i].id
    ensures Next(s, e).conns[i] == Effect(s, s.conns[j], e)
  {
    hide Inv, Newcomer, Select, Each;
    if e.Attach? {
      NewcomerKeeps(e.id, e.capacities, e.first);
      j := i;
    } else if e.Detach? {
      SelectKeeps(s.conns, Others(e.id));
      assert Next(s, e).conns[i] in s.conns;
      j :| 0 <= j < |s.conns| && s.conns[j] == Next(s, e).conns[i];
    } else {
      hide Effect;
      NextIsEach(s, e);
      hide Next;
      var m := Each(s, s.conns, e);
      SelectKeeps(m, Open);
      assert Next(s, e).conns[i] in m;
      j :| 0 <= j < |m| && m[j] == Next(s, e).conns[i];
      EffectKeeps(s, s.conns[j], e);
    }
  }

  lemma NextKnown<T>(s: State<T>, es: seq<Event<T>>, e: Event<T>)
    requires Fine(s) && Takes(s, e) && AllKnown(s, es)
    ensures AllKnown(Next(s, e), es + [e])
  {
    hide Fine, Next, Takes;
    var s', es' := Next(s, e), es + [e];
    assert es'[|es|] == e;
    forall i | 0 <= i < |s'.conns| ensures Known(es', s'.conns[i].id) {
      if !(e.Attach? && e.id == s'.conns[i].id) {
        var j := NextIds(s, e, i);
        var m :| 0 <= m < |es| && es[m].Attach? && es[m].id == s.conns[j].id;
        assert es'[m] == es[m];
      }
    }
  }
}
