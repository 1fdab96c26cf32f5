/** Each connection's rings keep the sizes it was attached with, and so, with
    those the broker starts connections with, a first replay always fits. */
module RingSizes {
  import opened Basics
  import opened Delivery
  import opened Retain
  import opened Merge
  import opened MergeProofs
  import opened Hall
  import opened HallProofs
  import opened Streams
  import Replay

  /** A record of this class has been numbered. */
  ghost predicate Used<T>(log: seq<Entry<T>>, ring: nat) {
    exists k :: 0 <= k < |log| && log[k].ring == ring
  }

  /** The rings hold what they were asked to, each class in its own, and none is
      being taken from that never had a record. */
  ghost predicate Sized<T>(p: Path<T>, c: Capacities) {
    && |p.rings| == 3
    && p.rings[LOSSY].capacity == c.lossy
    && p.rings[DURABLE].capacity == c.durable
    && p.rings[LIFECYCLE].capacity == c.lifecycle
    && forall j | 0 <= j < 3 && p.rings[j].taking :: Used(p.log, j)
  }

  lemma UsedStays<T>(log: seq<Entry<T>>, e: Entry<T>, ring: nat)
    requires Used(log, ring)
    ensures Used(log + [e], ring)
  {
    var k :| 0 <= k < |log| && log[k].ring == ring;
    assert (log + [e])[k] == log[k];
  }

  lemma WrittenSized<T>(p: Path<T>, w: Write<T>, c: Capacities)
    requires Inv(p) && CanWrite(p, w) && Sized(p, c)
    ensures Sized(Written(p, w), c)
  {
    if w.Number? {
      forall j | 0 <= j < 3 && p.rings[j].taking ensures Used(Written(p, w).log, j) {
        UsedStays(p.log, Entry(w.ring, w.answer, w.record), j);
      }
    }
    hide LogOk, HandedOk, Accounted, Rings, Fates, Used;
  }

  lemma PushedSized<T>(p: Path<T>, ring: Class, answer: bool, record: T, c: Capacities)
    requires Ready(p) && (answer ==> ring == DURABLE) && Sized(p, c)
    ensures Sized(Pushed(p, ring, answer, record), c)
  {
    hide Sized, Inv, Written;
    var w := Number(ring, answer, record);
    WriteKeeps(p, w);
    InvIsShaped(p);
    InvIsShaped(Written(p, w));
    WrittenSized(p, w, c);
    var numbered := Written(p, w);
    NumberIsBusy(p, w);
    WriteKeeps(numbered, Continue);
    WrittenSized(numbered, Continue, c);
    var pushed := Written(numbered, Continue);
    InvIsShaped(pushed);
    if pushed.busy { WrittenSized(pushed, Continue, c); }
  }

  lemma NumberIsBusy<T>(p: Path<T>, w: Write<T>)
    requires Shaped(p) && w.Number? && CanWrite(p, w)
    ensures Written(p, w).busy
  {
  }

  lemma RestedSized<T>(p: Path<T>, r: Rest, c: Capacities)
    requires Inv(p) && Sized(p, c)
    ensures Sized(Rested(p, r), c)
  {
    match r
    case Take(j) =>
      assert RingOk(p, j);
      if p.rings[j].items != [] { assert p.log[p.rings[j].items[0] - 1].ring == j && Used(p.log, j); }
      hide LogOk, HandedOk, Accounted, Rings, Fates, Used;
    case Leave(j) => hide Inv, Used;
    case HandOn(j) =>
      if IsNext(p, j) { HandOnKeeps(p, j); }
      hide LogOk, HandedOk, Accounted, Rings, Fates, Used;
  }

  lemma {:induction false} PausedSized<T>(p: Path<T>, rests: seq<Rest>, c: Capacities)
    requires Inv(p) && Sized(p, c)
    ensures Sized(Paused(p, rests), c)
    decreases |rests|
  {
    hide Inv, Rested, Sized;
    if rests != [] {
      RestKeeps(p, rests[0]);
      RestedSized(p, rests[0], c);
      PausedSized(Rested(p, rests[0]), rests[1..], c);
    }
  }

  lemma {:induction false} ReplayedSized<T>(conn: Conn<T>, tally: Tally, kept: seq<Kept<T>>, caps: Capabilities,
                                           pauses: seq<seq<Rest>>, i: nat, c: Capacities)
    requires Inv(conn.path) && !conn.path.busy && i <= |kept| && Sized(conn.path, c)
    ensures Sized(Replayed(conn, tally, kept, caps, pauses, i).0.path, c)
    decreases |kept| - i
  {
    hide Inv, Covers, Pushed, Cost, Sized;
    if i < |kept| && !conn.path.closed {
      if !Covers(caps, kept[i].need) {
        ReplayedSized(conn, tally.(filtered := tally.filtered + 1), kept, caps, pauses, i + 1, c);
      } else {
        var path := Paused(conn.path, Nth(pauses, i));
        PausedSized(conn.path, Nth(pauses, i), c);
        PushKeeps(path, LIFECYCLE, false, kept[i].record);
        PushedSized(path, LIFECYCLE, false, kept[i].record, c);
        ReplayedSized(conn.(path := Pushed(path, LIFECYCLE, false, kept[i].record)),
          tally.(lost := Charge(tally.lost, Cost(path, LIFECYCLE, false)), replayed := tally.replayed + 1),
          kept, caps, pauses, i + 1, c);
      }
    }
  }

  lemma EffectSized<T>(s: State<T>, conn: Conn<T>, e: Event<T>, c: Capacities)
    requires Ready(conn.path) && Sized(conn.path, c)
    ensures Sized(Effect(s, conn, e).path, c)
  {
    hide Inv, Pushed, Rested, Sized, Replayed, Covers;
    match e
    case Answer(id, record) => PushedSized(conn.path, DURABLE, true, record, c);
    case Authenticated(id, caps, pauses) => ReplayedSized(conn.(caps := Some(caps)), s.tally, s.kept, caps, pauses, 0, c);
    case Commit(a) => PushedSized(conn.path, a.class_, false, a.record, c);
    case Drains(id, rest) => RestedSized(conn.path, rest, c);
    case _ =>
  }

  lemma NewcomerSized<T>(id: nat, capacities: Capacities, first: Option<T>)
    requires capacities.Positive()
    ensures Sized(Newcomer(id, capacities, first).path, capacities)
  {
    FreshOk<T>(capacities);
    if first.Some? { PushedSized(Fresh(capacities), DURABLE, true, first.value, capacities); }
    hide Inv, Pushed;
  }

  /** Whatever was pushed, refused, replayed and drained since, a connection's
      rings have the sizes its attaching named, class by class. */
  lemma {:induction false} SizesStay<T>(size: nat, es: seq<Event<T>>, i: nat, k: nat)
    requires Legal(es) && i < |After(size, es).conns|
    requires k < |es| && es[k].Attach? && es[k].id == After(size, es).conns[i].id
    ensures Sized(After(size, es).conns[i].path, es[k].capacities)
    decreases |es|
  {
    hide Fine, Next, Takes, Effect, Sized, Known;
    var front, e := es[..|es| - 1], es[|es| - 1];
    var s := After(size, front);
    assert forall m | 0 <= m < |front| :: front[m] == es[m];
    TakesNext(s, front, e);
    NextFine(s, e);
    assert After(size, es) == Next(s, e);
    if e.Attach? && e.id == es[k].id {
      NoneAttached(front, e.id);
      ArrivesSized(s, front, e, i);
    } else {
      var j := NextIds(s, e, i);
      SizesStay(size, front, j, k);
      EffectSized(s, s.conns[j], e, es[k].capacities);
    }
  }

  lemma NoneAttached<T>(es: seq<Event<T>>, id: nat)
    requires !Known(es, id)
    ensures forall k | 0 <= k < |es| && es[k].Attach? :: es[k].id != id
  {
  }

  lemma ArrivesSized<T>(s: State<T>, es: seq<Event<T>>, e: Event<T>, i: nat)
    requires Fine(s) && Takes(s, e) && AllKnown(s, es) && e.Attach? && !Known(es, e.id)
    requires i < |Next(s, e).conns| && Next(s, e).conns[i].id == e.id
    ensures Sized(Next(s, e).conns[i].path, e.capacities)
  {
    NewcomerSized(e.id, e.capacities, e.first);
    hide Newcomer, Inv, Known, Sized;
  }

  lemma UnusedIsEmpty<T>(p: Path<T>, c: Capacities)
    requires Inv(p) && Sized(p, c) && !Used(p.log, LIFECYCLE)
    ensures |p.rings| == 3 && Replay.Boundaries(p).capacity == c.lifecycle && Replay.Free(p) == c.lifecycle
  {
    ItemsAreUsed(p);
  }

  lemma ItemsAreUsed<T>(p: Path<T>)
    requires Inv(p)
    ensures p.rings[LIFECYCLE].items != [] ==> Used(p.log, LIFECYCLE)
  {
    assert RingOk(p, LIFECYCLE);
    var items := p.rings[LIFECYCLE].items;
    if items != [] { assert p.log[items[0] - 1].ring == LIFECYCLE; }
  }

  /** So after any run, a connection told of no boundary yet, whose boundary ring
      was asked to be longer than the retained set, is still there once it has
      authenticated. */
  lemma FirstReplayFits<T>(size: nat, es: seq<Event<T>>, i: nat, k: nat, caps: Capabilities, pauses: seq<seq<Rest>>)
    requires Legal(es) && i < |After(size, es).conns|
    requires k < |es| && es[k].Attach? && es[k].id == After(size, es).conns[i].id && es[k].capacities.lifecycle > size
    requires var seat := View(size, es, es[k].id); seat.Present? ==> !Used(seat.log, LIFECYCLE)
    ensures var s := After(size, es);
            !Replayed(s.conns[i].(caps := Some(caps)), s.tally, s.kept, caps, pauses, 0).0.path.closed
  {
    SizesStay(size, es, i, k);
    NumbersTheStream(size, es, i);
    var s := After(size, es);
    UnusedIsEmpty(s.conns[i].path, es[k].capacities);
    Replay.AuthenticatingKeeps(s, i, caps, pauses);
  }
}
