/** The writer's counters against its connections: nothing is lost, withheld or
    refused that is not counted, and nothing counted twice. */
module Accounts {
  import opened Basics
  import opened Delivery
  import opened Retain
  import opened Merge
  import opened Hall
  import opened HallProofs
  import opened Streams

  function Plus(a: Counts, b: Counts): Counts {
    Counts(a.lossy + b.lossy, a.durable + b.durable, a.answer + b.answer, a.disconnects + b.disconnects)
  }

  function Total<T>(conns: seq<Conn<T>>): Counts {
    if conns == [] then Counts(0, 0, 0, 0)
    else Plus(Total(conns[..|conns| - 1]), conns[|conns| - 1].path.counts)
  }

  lemma TotalLast<T>(conns: seq<Conn<T>>, c: Conn<T>)
    ensures Total(conns + [c]) == Plus(Total(conns), c.path.counts)
  {
    assert (conns + [c])[..|conns|] == conns;
  }

  lemma {:induction false} TotalAdds<T>(a: seq<Conn<T>>, b: seq<Conn<T>>)
    ensures Total(a + b) == Plus(Total(a), Total(b))
  {
    if b == [] {
      assert a + b == a;
    } else {
      hide *;
      var front, c := b[..|b| - 1], b[|b| - 1];
      assert b == front + [c] && a + b == (a + front) + [c];
      TotalAdds(a, front);
      TotalLast(a + front, c);
      TotalLast(front, c);
      PlusSwaps(Total(a), Total(front), c.path.counts);
    }
  }

  lemma {:induction false} TotalChanges<T>(conns: seq<Conn<T>>, k: nat, c: Conn<T>)
    requires k < |conns|
    ensures Plus(Total(conns[k := c]), conns[k].path.counts) == Plus(Total(conns), c.path.counts)
  {
    var front, last := conns[..|conns| - 1], conns[|conns| - 1];
    if k == |front| {
      assert conns[k := c] == front + [c];
      TotalLast(front, c);
    } else {
      TotalChanges(front, k, c);
      assert conns[k := c] == front[k := c] + [last];
      TotalLast(front[k := c], last);
    }
  }

  function Remaining(which: Which): Which {
    match which
    case Open => Closed
    case Closed => Open
    case Named(id) => Others(id)
    case Others(id) => Named(id)
  }

  lemma RemainingMeets<T>(c: Conn<T>, which: Which)
    ensures Meets(c, Remaining(which)) == !Meets(c, which)
  {
    match which
    case Open =>
    case Closed =>
    case Named(id) =>
    case Others(id) =>
  }

  lemma SelectLast<T>(conns: seq<Conn<T>>, c: Conn<T>, which: Which)
    ensures Select(conns + [c], which) == if Meets(c, which) then Select(conns, which) + [c] else Select(conns, which)
  {
    assert (conns + [c])[..|conns|] == conns;
  }

  lemma PlusSwaps(a: Counts, b: Counts, c: Counts)
    ensures Plus(Plus(a, b), c) == Plus(Plus(a, c), b) == Plus(a, Plus(b, c))
  {
  }

  lemma {:induction false} TotalSplits<T>(conns: seq<Conn<T>>, which: Which)
    ensures Total(conns) == Plus(Total(Select(conns, which)), Total(Select(conns, Remaining(which))))
  {
    if conns == [] {
      assert Select(conns, which) == [] && Select(conns, Remaining(which)) == [];
    } else {
      hide *;
      var front, last := conns[..|conns| - 1], conns[|conns| - 1];
      assert conns == front + [last];
      TotalSplits(front, which);
      SplitsLast(front, last, which);
    }
  }

  lemma SplitsLast<T>(front: seq<Conn<T>>, last: Conn<T>, which: Which)
    requires Total(front) == Plus(Total(Select(front, which)), Total(Select(front, Remaining(which))))
    ensures Total(front + [last]) == Plus(Total(Select(front + [last], which)), Total(Select(front + [last], Remaining(which))))
  {
    RemainingMeets(last, which);
    hide *;
    var yes, no := Select(front, which), Select(front, Remaining(which));
    SelectLast(front, last, which);
    SelectLast(front, last, Remaining(which));
    TotalLast(front, last);
    PlusSwaps(Total(yes), Total(no), last.path.counts);
    if Meets(last, which) { TotalLast(yes, last); } else { TotalLast(no, last); }
  }

  /** What was charged is what the rings lost, over every connection there ever
      was. */
  ghost predicate Balanced<T>(s: State<T>) { s.tally.lost == Plus(Total(s.conns), Total(s.gone)) }

  lemma SettledBalances<T>(s: State<T>)
    requires Balanced(s)
    ensures Balanced(Settled(s))
  {
    TotalSplits(s.conns, Open);
    TotalAdds(s.gone, Select(s.conns, Closed));
    hide Total, Select;
  }

  lemma PushCharges<T>(c: Conn<T>, ring: Class, answer: bool, record: T)
    requires Ready(c.path) && (answer ==> ring == DURABLE)
    ensures To(c, ring, answer, record).path.counts == Charge(c.path.counts, Cost(c.path, ring, answer))
  {
    PushNumbers(c.path, ring, answer, record);
  }

  lemma {:induction false} FannedBalances<T>(conns: seq<Conn<T>>, a: Addressed<T>, answer: bool, n: nat, lost: Counts, rest: Counts)
    requires AllReady(conns) && (answer ==> a.class_ == DURABLE) && n <= |conns|
    requires lost == Plus(Total(conns), rest)
    ensures CostAmong(conns, a, answer, n, lost) == Plus(Total(Fanned(conns, a, answer, n)), rest)
  {
    hide Inv, Cost, Pushed, Total;
    if n > 0 {
      FannedBalances(conns, a, answer, n - 1, lost, rest);
      var before, c := Fanned(conns, a, answer, n - 1), conns[n - 1];
      TotalChanges(before, n - 1, Shared(c, a, answer));
      if Receives(c, a) { PushCharges(c, a.class_, answer, a.record); }
    }
  }

  lemma DeliveredBalances<T>(s: State<T>, a: Addressed<T>, answer: bool)
    requires Fine(s) && Balanced(s) && (answer ==> a.class_ == DURABLE)
    ensures Balanced(Delivered(s, a, answer))
  {
    hide Inv, Cost, Pushed, Total, Fanned, CostAmong, WithheldAmong, UnwantedAmong;
    if a.to.Some? {
      var k := Find(s.conns, a.to.value);
      if k < |s.conns| {
        PushCharges(s.conns[k], a.class_, answer, a.record);
        TotalChanges(s.conns, k, To(s.conns[k], a.class_, answer, a.record));
      }
    } else {
      FannedBalances(s.conns, a, answer, |s.conns|, s.tally.lost, Total(s.gone));
    }
  }

  /** A replay charges what the connection lost. */
  lemma {:induction false} ReplayCharges<T>(c: Conn<T>, tally: Tally, kept: seq<Kept<T>>, caps: Capabilities,
                                           pauses: seq<seq<Rest>>, i: nat, rest: Counts)
    requires Inv(c.path) && !c.path.busy && i <= |kept| && tally.lost == Plus(c.path.counts, rest)
    ensures var r := Replayed(c, tally, kept, caps, pauses, i); r.1.lost == Plus(r.0.path.counts, rest)
    decreases |kept| - i
  {
    hide Inv, Covers, Pushed, Cost;
    if i < |kept| && !c.path.closed {
      if !Covers(caps, kept[i].need) {
        ReplayCharges(c, tally.(filtered := tally.filtered + 1), kept, caps, pauses, i + 1, rest);
      } else {
        var path := Paused(c.path, Nth(pauses, i));
        PushKeeps(path, LIFECYCLE, false, kept[i].record);
        PushNumbers(path, LIFECYCLE, false, kept[i].record);
        ReplayCharges(c.(path := Pushed(path, LIFECYCLE, false, kept[i].record)),
          tally.(lost := Charge(tally.lost, Cost(path, LIFECYCLE, false)), replayed := tally.replayed + 1),
          kept, caps, pauses, i + 1, rest);
      }
    }
  }

  function Minus(a: Counts, b: Counts): Counts
    requires a.lossy >= b.lossy && a.durable >= b.durable && a.answer >= b.answer && a.disconnects >= b.disconnects
  {
    Counts(a.lossy - b.lossy, a.durable - b.durable, a.answer - b.answer, a.disconnects - b.disconnects)
  }

  lemma {:induction false} TotalHasEach<T>(conns: seq<Conn<T>>, k: nat)
    requires k < |conns|
    ensures var t, c := Total(conns), conns[k].path.counts;
            t.lossy >= c.lossy && t.durable >= c.durable && t.answer >= c.answer && t.disconnects >= c.disconnects
  {
    if k < |conns| - 1 { TotalHasEach(conns[..|conns| - 1], k); }
  }

  lemma AuthenticatedBalances<T>(s: State<T>, id: nat, caps: Capabilities, pauses: seq<seq<Rest>>)
    requires Fine(s) && Balanced(s)
    ensures Balanced(Next(s, Authenticated(id, caps, pauses)))
  {
    hide Inv, Replayed, Total, Select;
    var k := Find(s.conns, id);
    if k < |s.conns| {
      var c := s.conns[k].(caps := Some(caps));
      TotalHasEach(s.conns, k);
      var rest := Minus(s.tally.lost, c.path.counts);
      ReplayCharges(c, s.tally, s.kept, caps, pauses, 0, rest);
      var r := Replayed(c, s.tally, s.kept, caps, pauses, 0);
      TotalChanges(s.conns, k, r.0);
      SettledBalances(s.(conns := s.conns[k := r.0], tally := r.1));
    } else {
      SettledBalances(s);
    }
  }

  lemma NextBalances<T>(s: State<T>, e: Event<T>)
    requires Fine(s) && Takes(s, e) && Balanced(s)
    ensures Balanced(Next(s, e))
  {
    hide Inv, Newcomer, Select, Delivered, Kepts, Replayed, Rested, Total, Find;
    match e
    case Attach(id, capacities, first) =>
      NewcomerKeeps(id, capacities, first);
      TotalLast(s.conns, Newcomer(id, capacities, first));
    case Detach(id) =>
      TotalSplits(s.conns, Others(id));
      TotalAdds(s.gone, Select(s.conns, Named(id)));
    case Answer(id, record) =>
      DeliveredBalances(s, AnswerTo(id, record), true);
      SettledBalances(Delivered(s, AnswerTo(id, record), true));
    case Authenticated(id, caps, pauses) => AuthenticatedBalances(s, id, caps, pauses);
    case TopicFilter(id, filter) =>
      var k := Find(s.conns, id);
      if k < |s.conns| { TotalChanges(s.conns, k, s.conns[k].(filter := filter)); }
    case Commit(a) =>
      KeptsKeep(s, a);
      var t := s.(kept := Kepts(s, a));
      DeliveredBalances(t, a, false);
      SettledBalances(Delivered(t, a, false));
    case Drains(id, rest) =>
      var k := Find(s.conns, id);
      if k < |s.conns| {
        RestKeeps(s.conns[k].path, rest);
        TotalChanges(s.conns, k, s.conns[k].(path := Rested(s.conns[k].path, rest)));
      }
  }

  /** Over any run. */
  lemma {:induction false} LossesBalance<T>(size: nat, es: seq<Event<T>>)
    requires Legal(es)
    ensures Balanced(After(size, es))
  {
    if es != [] {
      var front, e := es[..|es| - 1], es[|es| - 1];
      LossesBalance(size, front);
      TakesNext(After(size, front), front, e);
      NextBalances(After(size, front), e);
      hide Next, Takes, Fine, Balanced;
    }
  }

  /** The records dropped by the rings of all these connections. */
  function RingDrops<T>(conns: seq<Conn<T>>): nat
    requires AllKept(conns)
  {
    if conns == [] then 0 else RingDrops(conns[..|conns| - 1]) + Drops(conns[|conns| - 1].path)
  }

  lemma {:induction false} RingDropsAreTotal<T>(conns: seq<Conn<T>>)
    requires AllKept(conns)
    ensures var t := Total(conns); RingDrops(conns) == t.lossy + t.durable + t.answer + t.disconnects
  {
    if conns != [] {
      RingDropsAreTotal(conns[..|conns| - 1]);
      assert Accounted(conns[|conns| - 1].path);
      hide LogOk, HandedOk, Rings, Fates;
    }
  }

  /** After any run: the drops of the rings of every connection ever attached add
      up to the writer's four counters, and each connection still held has, of
      the numbers it was given, handed on, holds, queues or dropped every one. */
  lemma LossAccounting<T>(size: nat, es: seq<Event<T>>)
    requires Legal(es)
    ensures var s := After(size, es);
            && AllKept(s.conns) && AllKept(s.gone)
            && RingDrops(s.conns) + RingDrops(s.gone)
               == s.tally.lost.lossy + s.tally.lost.durable + s.tally.lost.answer + s.tally.lost.disconnects
            && forall i | 0 <= i < |s.conns| ::
                 var p := s.conns[i].path; |p.log| == |p.handed| + InHand(p) + Queueing(p) + Drops(p)
  {
    var s := After(size, es);
    LossesBalance(size, es);
    RingDropsAreTotal(s.conns);
    RingDropsAreTotal(s.gone);
    forall i | 0 <= i < |s.conns| ensures Accounted(s.conns[i].path) && !s.conns[i].path.busy {
      assert Ready(s.conns[i].path);
      hide LogOk, HandedOk, Rings, Fates;
    }
    hide After, Inv, RingDrops, Total, Legal;
  }

  /** What a connection lost, counted one number at a time by what it was. */
  ghost function LostBy<T>(p: Path<T>): Counts
    requires Shaped(p)
  {
    Counts(LostAmong(p, LOSSY, false, |p.log|), LostAmong(p, DURABLE, false, |p.log|),
           LostAmong(p, DURABLE, true, |p.log|), LostAmong(p, LIFECYCLE, false, |p.log|))
  }

  ghost function LostOf<T>(conns: seq<Conn<T>>): Counts
    requires AllKept(conns)
  {
    if conns == [] then Counts(0, 0, 0, 0)
    else Plus(LostOf(conns[..|conns| - 1]), LostBy(conns[|conns| - 1].path))
  }

  lemma CountsAreLosses<T>(p: Path<T>)
    requires Inv(p)
    ensures p.counts == LostBy(p)
  {
    hide LogOk, HandedOk, Rings, Fates, LostAmong;
  }

  lemma {:induction false} TotalIsLost<T>(conns: seq<Conn<T>>)
    requires AllKept(conns)
    ensures Total(conns) == LostOf(conns)
  {
    if conns != [] {
      CountsAreLosses(conns[|conns| - 1].path);
      hide Inv, LostBy, Plus;
      TotalIsLost(conns[..|conns| - 1]);
    }
  }

  /** And each counter is of what was lost: lossy records, durable ones, broker
      answers, and the boundary records that closed their connections. */
  lemma LossesByLabel<T>(size: nat, es: seq<Event<T>>)
    requires Legal(es)
    ensures var s := After(size, es);
            AllKept(s.conns) && AllKept(s.gone) && s.tally.lost == Plus(LostOf(s.conns), LostOf(s.gone))
  {
    var s := After(size, es);
    LossesBalance(size, es);
    assert AllKept(s.conns) && AllKept(s.gone);
    hide After, Inv, Legal, AllKept, Plus;
    TotalIsLost(s.conns);
    TotalIsLost(s.gone);
    hide LostOf, Total;
  }

  // ---- Nobody is forgotten for nothing ---------------------------------------------

  ghost predicate Here<T>(conns: seq<Conn<T>>, id: nat) { exists i :: 0 <= i < |conns| && conns[i].id == id }

  ghost predicate Shut<T>(gone: seq<Conn<T>>, id: nat) {
    exists i :: 0 <= i < |gone| && gone[i].id == id && gone[i].path.closed
  }

  lemma ShutStays<T>(a: seq<Conn<T>>, b: seq<Conn<T>>, id: nat)
    requires Shut(a, id) || Shut(b, id)
    ensures Shut(a + b, id)
  {
    if Shut(a, id) {
      var i :| 0 <= i < |a| && a[i].id == id && a[i].path.closed;
      assert (a + b)[i] == a[i];
    } else {
      var i :| 0 <= i < |b| && b[i].id == id && b[i].path.closed;
      assert (a + b)[|a| + i] == b[i];
    }
  }

  lemma SelectHere<T>(conns: seq<Conn<T>>, k: nat, which: Which)
    requires k < |conns| && Meets(conns[k], which)
    ensures Here(Select(conns, which), conns[k].id)
    ensures which == Closed ==> Shut(Select(conns, which), conns[k].id)
  {
    SelectKeeps(conns, which);
    assert conns[k] in Select(conns, which);
    var i :| 0 <= i < |Select(conns, which)| && Select(conns, which)[i] == conns[k];
  }

  lemma NextHere<T>(s: State<T>, e: Event<T>, k: nat)
    requires Fine(s) && Takes(s, e) && k < |s.conns| && (e.Detach? ==> s.conns[k].id != e.id)
    ensures Here(Next(s, e).conns, s.conns[k].id) || Shut(Next(s, e).gone, s.conns[k].id)
  {
    hide Inv, Newcomer, Select, Each, Effect, Shut;
    if e.Attach? {
      assert Next(s, e).conns[k].id == s.conns[k].id;
    } else if e.Detach? {
      SelectHere(s.conns, k, Others(e.id));
    } else {
      NextIsEach(s, e);
      hide Next;
      EffectKeeps(s, s.conns[k], e);
      var m := Each(s, s.conns, e);
      if m[k].path.closed {
        SelectHere(m, k, Closed);
        ShutStays(s.gone, Select(m, Closed), m[k].id);
      } else {
        SelectHere(m, k, Open);
      }
    }
  }

  lemma NextGone<T>(s: State<T>, e: Event<T>, id: nat)
    requires Fine(s) && Takes(s, e) && Shut(s.gone, id)
    ensures Shut(Next(s, e).gone, id)
  {
    hide Inv, Newcomer, Select, Each;
    if e.Attach? {
    } else if e.Detach? {
      ShutStays(s.gone, Select(s.conns, Named(e.id)), id);
    } else {
      NextIsEach(s, e);
      ShutStays(s.gone, Select(Each(s, s.conns, e), Closed), id);
      hide Next;
    }
  }

  /** A connection that attached and has not detached is still served, or the
      writer closed it: its boundary ring was full. */
  lemma {:induction false} ServedOrClosed<T>(size: nat, es: seq<Event<T>>, id: nat)
    requires Legal(es) && View(size, es, id).Present?
    ensures Here(After(size, es).conns, id) || Shut(After(size, es).gone, id)
  {
    if es != [] {
      var front, e := es[..|es| - 1], es[|es| - 1];
      var s := After(size, front);
      TakesNext(s, front, e);
      if e.Attach? && e.id == id {
        NewcomerKeeps(e.id, e.capacities, e.first);
        hide Newcomer, Inv;
        assert Next(s, e).conns[|s.conns|].id == id;
      } else {
        assert View(size, front, id).Present?;
        ServedOrClosed(size, front, id);
        if Here(s.conns, id) {
          var k :| 0 <= k < |s.conns| && s.conns[k].id == id;
          NextHere(s, e, k);
        } else {
          NextGone(s, e, id);
        }
      }
      hide Next, Takes, Fine, View, Here, Shut;
    }
  }

  // ---- Every record sent somewhere, or counted -----------------------------------------

  /** How many numbers have been given out. */
  function Numbers<T>(conns: seq<Conn<T>>): nat {
    if conns == [] then 0 else Numbers(conns[..|conns| - 1]) + |conns[|conns| - 1].path.log|
  }

  function StrangersAmong<T>(conns: seq<Conn<T>>, n: nat): nat
    requires n <= |conns|
  {
    if n == 0 then 0 else StrangersAmong(conns, n - 1) + if conns[n - 1].caps.None? then 1 else 0
  }

  lemma {:induction false} NumbersChange<T>(conns: seq<Conn<T>>, k: nat, c: Conn<T>)
    requires k < |conns|
    ensures Numbers(conns[k := c]) + |conns[k].path.log| == Numbers(conns) + |c.path.log|
  {
    var front := conns[..|conns| - 1];
    if k == |front| {
      assert conns[k := c][..|front|] == front;
    } else {
      NumbersChange(front, k, c);
      assert conns[k := c][..|front|] == front[k := c];
    }
  }

  lemma {:induction false} FannedNumbers<T>(conns: seq<Conn<T>>, a: Addressed<T>, answer: bool, n: nat)
    requires AllReady(conns) && (answer ==> a.class_ == DURABLE) && n <= |conns|
    ensures Numbers(Fanned(conns, a, answer, n)) + WithheldAmong(conns, a, n) + StrangersAmong(conns, n) == Numbers(conns) + n
  {
    hide Inv, Pushed, Numbers;
    if n > 0 {
      FannedNumbers(conns, a, answer, n - 1);
      var c := conns[n - 1];
      NumbersChange(Fanned(conns, a, answer, n - 1), n - 1, Shared(c, a, answer));
      if Receives(c, a) { PushNumbers(c.path, a.class_, answer, a.record); }
    }
  }

  /** A record for one connection is numbered for it or counted as having
      nowhere to go. A record for all is, for every connection, numbered for it,
      counted as withheld, or passed over since it has not authenticated. */
  lemma EveryRecordAnswersFor<T>(s: State<T>, a: Addressed<T>, answer: bool)
    requires Fine(s) && (answer ==> a.class_ == DURABLE)
    ensures var s' := Delivered(s, a, answer);
            if a.to.Some? then
              && Numbers(s'.conns) + s'.tally.unaddressed == Numbers(s.conns) + s.tally.unaddressed + 1
              && s'.tally.filtered == s.tally.filtered
            else
              && Numbers(s'.conns) + s'.tally.filtered + StrangersAmong(s.conns, |s.conns|)
                 == Numbers(s.conns) + s.tally.filtered + |s.conns|
              && s'.tally.unaddressed == s.tally.unaddressed
  {
    hide Inv, Cost, Pushed, Numbers, Fanned, CostAmong, WithheldAmong, UnwantedAmong, StrangersAmong;
    if a.to.Some? {
      var k := Find(s.conns, a.to.value);
      if k < |s.conns| {
        PushNumbers(s.conns[k].path, a.class_, answer, a.record);
        NumbersChange(s.conns, k, To(s.conns[k], a.class_, answer, a.record));
      }
    } else {
      FannedNumbers(s.conns, a, answer, |s.conns|);
    }
  }

  /** The connections among the first `n` that the record was withheld from, and
      of those the ones whose filter alone withheld it. */
  ghost function WithheldFrom<T>(conns: seq<Conn<T>>, a: Addressed<T>, n: nat): set<nat>
    requires n <= |conns|
  {
    set i: nat | i < n && conns[i].caps.Some?
                 && !(Covers(conns[i].caps.value, a.need) && conns[i].filter.Admits(a.class_, a.topic))
  }

  ghost function FilteredFrom<T>(conns: seq<Conn<T>>, a: Addressed<T>, n: nat): set<nat>
    requires n <= |conns|
  {
    set i: nat | i < n && conns[i].caps.Some?
                 && Covers(conns[i].caps.value, a.need) && !conns[i].filter.Admits(a.class_, a.topic)
  }

  lemma FromNext<T>(conns: seq<Conn<T>>, a: Addressed<T>, n: nat)
    requires 0 < n <= |conns|
    ensures n - 1 !in WithheldFrom(conns, a, n - 1) && n - 1 !in FilteredFrom(conns, a, n - 1)
    ensures WithheldFrom(conns, a, n)
         == if Withheld(conns[n - 1], a) then WithheldFrom(conns, a, n - 1) + {n - 1} else WithheldFrom(conns, a, n - 1)
    ensures FilteredFrom(conns, a, n)
         == if Unwanted(conns[n - 1], a) then FilteredFrom(conns, a, n - 1) + {n - 1} else FilteredFrom(conns, a, n - 1)
  {
    hide Covers, Filter.Admits;
  }

  lemma {:induction false} AmongAreSets<T>(conns: seq<Conn<T>>, a: Addressed<T>, n: nat)
    requires n <= |conns|
    ensures WithheldAmong(conns, a, n) == |WithheldFrom(conns, a, n)|
    ensures UnwantedAmong(conns, a, n) == |FilteredFrom(conns, a, n)|
  {
    if n == 0 {
      assert WithheldFrom(conns, a, 0) == {} && FilteredFrom(conns, a, 0) == {};
    } else {
      AmongAreSets(conns, a, n - 1);
      FromNext(conns, a, n);
      hide WithheldFrom, FilteredFrom, Withheld, Unwanted;
    }
  }

  /** `filtered` rises by one for each connection withheld from, and
      `filtered_topic` by one for each of those its capabilities would have
      covered. */
  lemma FilteredExactly<T>(s: State<T>, a: Addressed<T>)
    requires Fine(s) && a.to.None?
    ensures var t, t' := s.tally, Delivered(s, a, false).tally;
            && t'.filtered == t.filtered + |WithheldFrom(s.conns, a, |s.conns|)|
            && t'.filteredTopic == t.filteredTopic + |FilteredFrom(s.conns, a, |s.conns|)|
            && FilteredFrom(s.conns, a, |s.conns|) <= WithheldFrom(s.conns, a, |s.conns|)
  {
    AmongAreSets(s.conns, a, |s.conns|);
    hide Fine, WithheldAmong, UnwantedAmong, CostAmong, Fanned;
  }
}
