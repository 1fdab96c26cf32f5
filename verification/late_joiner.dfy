/** A connection that authenticates late ends up knowing what one that was there
    all along does. */
module LateJoiner {
  import opened Basics
  import opened Delivery
  import opened Retain
  import opened Merge
  import opened Hall
  import opened HallProofs
  import opened Streams

  /** Which slot a record is on, and what each slot needs: fixed as its topic is
      registered. */
  ghost predicate Tagged<T>(size: nat, es: seq<Event<T>>, tag: T -> Option<nat>, needs: nat -> Number) {
    forall i | 0 <= i < |es| && es[i].Commit? ::
      && tag(es[i].a.record) == es[i].a.slot
      && (es[i].a.slot.Some? ==> es[i].a.slot.value < size && es[i].a.need == needs(es[i].a.slot.value))
      && WellFormed(es[i].a)
  }

  /** What a consumer that keeps the last boundary record of each slot has kept
      from the records numbered for it. */
  function Told<T>(log: seq<Entry<T>>, tag: T -> Option<nat>, needs: nat -> Number): seq<Kept<T>> {
    if log == [] then [] else
    var front, last := Told(log[..|log| - 1], tag, needs), log[|log| - 1];
    if last.ring == LIFECYCLE && tag(last.record).Some?
    then Put(front, Kept(tag(last.record).value, needs(tag(last.record).value), last.record)) else front
  }

  lemma ToldLast<T>(log: seq<Entry<T>>, x: Entry<T>, tag: T -> Option<nat>, needs: nat -> Number)
    ensures Told(log + [x], tag, needs) ==
            if x.ring == LIFECYCLE && tag(x.record).Some?
            then Put(Told(log, tag, needs), Kept(tag(x.record).value, needs(tag(x.record).value), x.record))
            else Told(log, tag, needs)
  {
    assert (log + [x])[..|log|] == log;
  }

  ghost predicate TagsOk<T>(l: seq<Kept<T>>, tag: T -> Option<nat>, needs: nat -> Number) {
    forall i | 0 <= i < |l| :: tag(l[i].record) == Some(l[i].slot) && l[i].need == needs(l[i].slot)
  }

  /** A replay tells a consumer that knew nothing exactly what was replayed. */
  lemma {:induction false} ToldLines<T>(log: seq<Entry<T>>, l: seq<Kept<T>>, tag: T -> Option<nat>, needs: nat -> Number)
    requires Told(log, tag, needs) == [] && Distinct(l) && TagsOk(l, tag, needs)
    ensures Told(log + Lines(l), tag, needs) == l
  {
    if l == [] {
      assert log + Lines(l) == log;
    } else {
      var front, k := l[..|l| - 1], l[|l| - 1];
      assert l == front + [k];
      ToldLines(log, front, tag, needs);
      LinesLast(front, k);
      assert log + Lines(l) == (log + Lines(front)) + [Entry(LIFECYCLE, false, k.record)];
      ToldLast(log + Lines(front), Entry(LIFECYCLE, false, k.record), tag, needs);
      WithoutAbsent(front, k.slot);
      hide Told, Lines, Without;
    }
  }

  lemma {:induction false} LatestTags<T>(size: nat, es: seq<Event<T>>, tag: T -> Option<nat>, needs: nat -> Number)
    requires Tagged(size, es, tag, needs)
    ensures TagsOk(Latest(size, es), tag, needs) && Distinct(Latest(size, es))
  {
    if es != [] {
      var front, e := es[..|es| - 1], es[|es| - 1];
      LatestTags(size, front, tag, needs);
      if e.Commit? && e.a.slot.Some? && e.a.slot.value < size {
        var was, k := Latest(size, front), Kept(e.a.slot.value, e.a.need, e.a.record);
        PutKeeps(was, k);
        WithoutKeeps(was, k.slot);
        hide Without, Distinct;
        forall i | 0 <= i < |Put(was, k)|
          ensures tag(Put(was, k)[i].record) == Some(Put(was, k)[i].slot) && Put(was, k)[i].need == needs(Put(was, k)[i].slot)
        {
          if i < |Without(was, k.slot)| { assert Put(was, k)[i] in was; }
        }
      }
    }
  }

  lemma {:induction false} CoveredTags<T>(l: seq<Kept<T>>, caps: Capabilities, tag: T -> Option<nat>, needs: nat -> Number)
    requires TagsOk(l, tag, needs)
    ensures TagsOk(Covered(l, caps), tag, needs)
  {
    CoveredKeeps(l, caps);
    hide Covered, Covers;
    forall i | 0 <= i < |Covered(l, caps)|
      ensures tag(Covered(l, caps)[i].record) == Some(Covered(l, caps)[i].slot) && Covered(l, caps)[i].need == needs(Covered(l, caps)[i].slot)
    {
      assert Covered(l, caps)[i] in l;
    }
  }

  /** What a seat's consumer has been told: nothing before it authenticates, and
      after that what its capabilities cover of the set. */
  ghost predicate KnowsSet<T>(seat: Seat<T>, kept: seq<Kept<T>>, tag: T -> Option<nat>, needs: nat -> Number) {
    seat.Present? ==>
      && (seat.times == 0 ==> seat.caps == None && Told(seat.log, tag, needs) == [])
      && (seat.times == 1 ==> seat.caps.Some? && Told(seat.log, tag, needs) == Covered(kept, seat.caps.value))
  }

  lemma CommitTells<T>(seat: Seat<T>, a: Addressed<T>, id: nat, size: nat, was: seq<Kept<T>>,
                       tag: T -> Option<nat>, needs: nat -> Number)
    requires KnowsSet(seat, was, tag, needs) && TagsOk(was, tag, needs) && WellFormed(a) && tag(a.record) == a.slot
    requires a.slot.Some? ==> a.slot.value < size && a.need == needs(a.slot.value)
    ensures var now := if a.slot.Some? then Put(was, Kept(a.slot.value, a.need, a.record)) else was;
            KnowsSet(Seated(seat, Commit(a), id, was), now, tag, needs)
  {
    hide Told, Covered, Covers, Put;
    if seat.Present? {
      ToldLast(seat.log, Entry(a.class_, false, a.record), tag, needs);
      if a.slot.Some? && seat.caps.Some? { CoveredPut(was, Kept(a.slot.value, a.need, a.record), seat.caps.value); }
    }
  }

  lemma AttachTells<T>(first: Option<T>, tag: T -> Option<nat>, needs: nat -> Number)
    ensures Told(if first.Some? then [Entry(DURABLE, true, first.value)] else [], tag, needs) == []
  {
    assert Told<T>([], tag, needs) == [];
    if first.Some? {
      var x := Entry(DURABLE, true, first.value);
      assert [] + [x] == [x];
      ToldLast([], x, tag, needs);
    }
  }

  lemma ReplayTells<T>(log: seq<Entry<T>>, was: seq<Kept<T>>, caps: Capabilities, tag: T -> Option<nat>, needs: nat -> Number)
    requires TagsOk(was, tag, needs) && Distinct(was) && Told(log, tag, needs) == []
    ensures Told(log + Lines(Covered(was, caps)), tag, needs) == Covered(was, caps)
  {
    CoveredTags(was, caps, tag, needs);
    CoveredKeeps(was, caps);
    ToldLines(log, Covered(was, caps), tag, needs);
  }

  /** One event more. */
  lemma SeatTells<T>(seat: Seat<T>, e: Event<T>, id: nat, was: seq<Kept<T>>, tag: T -> Option<nat>, needs: nat -> Number)
    requires KnowsSet(seat, was, tag, needs) && TagsOk(was, tag, needs) && Distinct(was) && !e.Commit?
    ensures KnowsSet(Seated(seat, e, id, was), was, tag, needs)
  {
    hide Told, Covered, Lines, TagsOk, Distinct, Covers;
    match e {
      case Attach(_, _, first) => AttachTells(first, tag, needs);
      case Answer(_, record) => if seat.Present? { ToldLast(seat.log, Entry(DURABLE, true, record), tag, needs); }
      case Authenticated(_, caps, _) => if seat.Present? && seat.times == 0 { ReplayTells(seat.log, was, caps, tag, needs); }
      case _ =>
    }
  }

  lemma {:induction false} KeepsUp<T>(size: nat, es: seq<Event<T>>, id: nat, tag: T -> Option<nat>, needs: nat -> Number)
    requires Tagged(size, es, tag, needs)
    ensures KnowsSet(View(size, es, id), Latest(size, es), tag, needs)
  {
    hide Told, Covered, Lines, TagsOk, Put, Distinct, Seated;
    if es != [] {
      var front, e := es[..|es| - 1], es[|es| - 1];
      KeepsUp(size, front, id, tag, needs);
      LatestTags(size, front, tag, needs);
      var seat, was := View(size, front, id), Latest(size, front);
      hide KnowsSet;
      if e.Commit? {
        CommitTells(seat, e.a, id, size, was, tag, needs);
      } else {
        SeatTells(seat, e, id, was, tag, needs);
      }
    }
  }

  /** Of every connection held that has authenticated once: the last record of
      each slot among those numbered for it, replay and then live, in the order
      they came, is the retained set as far as its capabilities cover it. */
  lemma LateJoinerAgrees<T>(size: nat, es: seq<Event<T>>, i: nat, tag: T -> Option<nat>, needs: nat -> Number)
    requires Legal(es) && Tagged(size, es, tag, needs) && i < |After(size, es).conns|
    requires var seat := View(size, es, After(size, es).conns[i].id); seat.Present? && seat.times == 1
    ensures var s := After(size, es);
            && s.conns[i].caps.Some?
            && Told(s.conns[i].path.log, tag, needs) == Covered(s.kept, s.conns[i].caps.value)
  {
    NumbersTheStream(size, es, i);
    KeptIsLatest(size, es);
    KeepsUp(size, es, After(size, es).conns[i].id, tag, needs);
    hide Told, Covered, View, After, Latest, Legal, Tagged, Fine, AllKnown;
  }

  // ---- No record twice ------------------------------------------------------------------

  ghost predicate AllDifferent<T>(es: seq<Event<T>>) {
    forall i, j | 0 <= i < j < |es| && es[i].Commit? && es[j].Commit? :: es[i].a.record != es[j].a.record
  }

  /** Committed, for one connection or for all. */
  ghost predicate CommittedAs<T>(es: seq<Event<T>>, record: T, addressed: bool) {
    exists k :: 0 <= k < |es| && es[k].Commit? && es[k].a.record == record && es[k].a.to.Some? == addressed
  }

  lemma CommittedStill<T>(es: seq<Event<T>>, e: Event<T>, record: T, addressed: bool)
    requires CommittedAs(es, record, addressed)
    ensures CommittedAs(es + [e], record, addressed)
  {
    var k :| 0 <= k < |es| && es[k].Commit? && es[k].a.record == record && es[k].a.to.Some? == addressed;
    assert (es + [e])[k] == es[k];
  }

  ghost predicate NoneTwice<T>(log: seq<Entry<T>>) {
    forall i, j | 0 <= i < j < |log| && !log[i].answer && !log[j].answer :: log[i].record != log[j].record
  }

  /** Where a record that is not a broker answer came from: before the
      connection authenticated, only from a record addressed to it. */
  ghost predicate Sourced<T>(x: Entry<T>, es: seq<Event<T>>, times: nat) {
    x.answer || CommittedAs(es, x.record, true) || (times > 0 && CommittedAs(es, x.record, false))
  }

  ghost predicate AllSourced<T>(seat: Seat<T>, es: seq<Event<T>>) {
    seat.Present? ==>
      && (seat.times == 0 ==> seat.caps == None)
      && (forall i | 0 <= i < |seat.log| :: Sourced(seat.log[i], es, seat.times))
      && (seat.times <= 1 ==> NoneTwice(seat.log))
  }

  lemma {:induction false} LinesAre<T>(l: seq<Kept<T>>)
    ensures |Lines(l)| == |l| && forall i | 0 <= i < |l| :: Lines(l)[i] == Entry(LIFECYCLE, false, l[i].record)
  {
    if l != [] { LinesAre(l[..|l| - 1]); }
  }

  /** Entries of the set are records committed for all, each its own. */
  lemma SetRecords<T>(size: nat, es: seq<Event<T>>, caps: Capabilities, l: seq<Kept<T>>)
    requires l == Covered(Latest(size, es), caps)
    requires AllDifferent(es) && forall i | 0 <= i < |es| && es[i].Commit? :: WellFormed(es[i].a)
    ensures forall i | 0 <= i < |l| :: CommittedAs(es, l[i].record, false)
    ensures forall i, j | 0 <= i < j < |l| :: l[i].record != l[j].record
  {
    LatestIsLast(size, es);
    CoveredKeeps(Latest(size, es), caps);
    var all := Latest(size, es);
    hide Latest, Covered, LastAt, Covers;
    forall i | 0 <= i < |l| ensures CommittedAs(es, l[i].record, false) && IsLast(es, l[i]) {
      assert l[i] in all;
      var m :| 0 <= m < |all| && all[m] == l[i];
      assert es[LastAt(es, all[m].slot)].a.record == l[i].record;
    }
    forall i, j | 0 <= i < j < |l| ensures l[i].record != l[j].record {
      assert IsLast(es, l[i]) && IsLast(es, l[j]) && l[i].slot != l[j].slot;
      var a, b := LastAt(es, l[i].slot), LastAt(es, l[j].slot);
      assert es[a].a.slot != es[b].a.slot && a != b;
    }
  }

  lemma NotBoth<T>(es: seq<Event<T>>, x: T, y: T)
    requires AllDifferent(es) && CommittedAs(es, x, true) && CommittedAs(es, y, false)
    ensures x != y
  {
    var a :| 0 <= a < |es| && es[a].Commit? && es[a].a.record == x && es[a].a.to.Some? == true;
    var b :| 0 <= b < |es| && es[b].Commit? && es[b].a.record == y && es[b].a.to.Some? == false;
    assert a != b;
  }

  lemma {:induction false} ReplayOnce<T>(seat: Seat<T>, es: seq<Event<T>>, l: seq<Kept<T>>)
    requires AllDifferent(es) && seat.Present? && seat.times == 0 && AllSourced(seat, es)
    requires forall i | 0 <= i < |l| :: CommittedAs(es, l[i].record, false)
    requires forall i, j | 0 <= i < j < |l| :: l[i].record != l[j].record
    ensures NoneTwice(seat.log + Lines(l))
    ensures forall i | 0 <= i < |seat.log + Lines(l)| :: Sourced((seat.log + Lines(l))[i], es, 1)
  {
    hide CommittedAs, AllDifferent, Lines;
    LinesAre(l);
    var log := seat.log + Lines(l);
    forall i, j | 0 <= i < j < |log| && !log[i].answer && !log[j].answer ensures log[i].record != log[j].record {
      if i < |seat.log| <= j {
        assert Sourced(seat.log[i], es, 0);
        NotBoth(es, log[i].record, l[j - |seat.log|].record);
      }
    }
  }

  /** A record committed now was never committed before. */
  lemma {:induction false} NewRecord<T>(es: seq<Event<T>>, a: Addressed<T>, x: T, addressed: bool)
    requires AllDifferent(es + [Commit(a)]) && CommittedAs(es, x, addressed)
    ensures x != a.record
  {
    var k :| 0 <= k < |es| && es[k].Commit? && es[k].a.record == x && es[k].a.to.Some? == addressed;
    assert (es + [Commit(a)])[k] == es[k] && (es + [Commit(a)])[|es|] == Commit(a);
  }

  lemma {:induction false} OneMore<T>(log: seq<Entry<T>>, x: Entry<T>)
    requires NoneTwice(log)
    requires x.answer || forall i | 0 <= i < |log| && !log[i].answer :: log[i].record != x.record
    ensures NoneTwice(log + [x])
  {
  }

  lemma {:induction false} SourcedStill<T>(seat: Seat<T>, es: seq<Event<T>>, e: Event<T>)
    requires AllSourced(seat, es)
    ensures AllSourced(seat, es + [e])
  {
    hide CommittedAs, NoneTwice;
    if seat.Present? {
      forall i | 0 <= i < |seat.log| ensures Sourced(seat.log[i], es + [e], seat.times) {
        var x := seat.log[i];
        assert Sourced(x, es, seat.times);
        if CommittedAs(es, x.record, true) { CommittedStill(es, e, x.record, true); }
        if CommittedAs(es, x.record, false) { CommittedStill(es, e, x.record, false); }
      }
    }
  }

  lemma {:induction false} CommitOnce<T>(seat: Seat<T>, es: seq<Event<T>>, a: Addressed<T>, id: nat, kept: seq<Kept<T>>)
    requires AllSourced(seat, es) && AllDifferent(es + [Commit(a)])
    ensures AllSourced(Seated(seat, Commit(a), id, kept), es + [Commit(a)])
  {
    SourcedStill(seat, es, Commit(a));
    var seat', x := Seated(seat, Commit(a), id, kept), Entry(a.class_, false, a.record);
    if seat.Present? && seat'.log == seat.log + [x] {
      assert (es + [Commit(a)])[|es|] == Commit(a);
      assert CommittedAs(es + [Commit(a)], a.record, a.to.Some?);
      forall i | 0 <= i < |seat.log| && !seat.log[i].answer ensures seat.log[i].record != x.record {
        assert Sourced(seat.log[i], es, seat.times);
        NewRecord(es, a, seat.log[i].record, CommittedAs(es, seat.log[i].record, true));
      }
      hide CommittedAs, AllDifferent;
      if seat.times <= 1 { OneMore(seat.log, x); }
      hide NoneTwice;
    }
  }

  lemma {:induction false} AnswerOnce<T>(seat: Seat<T>, es: seq<Event<T>>, e: Event<T>, id: nat, kept: seq<Kept<T>>)
    requires AllSourced(seat, es) && (e.Answer? || e.Attach?)
    ensures AllSourced(Seated(seat, e, id, kept), es + [e])
  {
    SourcedStill(seat, es, e);
    hide CommittedAs;
    if e.Answer? && seat.Present? && seat.times <= 1 { OneMore(seat.log, Entry(DURABLE, true, e.record)); }
  }

  lemma {:induction false} ReplayedOnce<T>(size: nat, seat: Seat<T>, es: seq<Event<T>>, e: Event<T>, id: nat)
    requires AllSourced(seat, es) && e.Authenticated? && AllDifferent(es)
    requires forall i | 0 <= i < |es| && es[i].Commit? :: WellFormed(es[i].a)
    ensures AllSourced(Seated(seat, e, id, Latest(size, es)), es + [e])
  {
    hide CommittedAs, AllDifferent, Lines, Latest, Covered;
    var l := Covered(Latest(size, es), e.caps);
    SetRecords(size, es, e.caps, l);
    SourcedStill(seat, es, e);
    if seat.Present? && e.id == id {
      LinesAre(l);
      if seat.times == 0 { ReplayOnce(seat, es, l); }
      var seat' := Seated(seat, e, id, Latest(size, es));
      forall i | 0 <= i < |seat'.log| ensures Sourced(seat'.log[i], es + [e], seat'.times) {
        if i < |seat.log| {
          assert Sourced(seat.log[i], es + [e], seat.times);
        } else {
          CommittedStill(es, e, l[i - |seat.log|].record, false);
        }
      }
      hide NoneTwice;
    }
  }

  /** If no two commits are of the same record, a connection that has
      authenticated at most once is numbered no record twice. */
  lemma {:induction false} NumbersOnce<T>(size: nat, es: seq<Event<T>>, id: nat)
    requires AllDifferent(es) && forall i | 0 <= i < |es| && es[i].Commit? :: WellFormed(es[i].a)
    ensures AllSourced(View(size, es, id), es)
  {
    if es != [] {
      var front, e := es[..|es| - 1], es[|es| - 1];
      assert es == front + [e];
      NumbersOnce(size, front, id);
      var seat := View(size, front, id);
      match e {
        case Commit(a) => CommitOnce(seat, front, a, id, Latest(size, front));
        case Answer(_, _) => AnswerOnce(seat, front, e, id, Latest(size, front));
        case Attach(_, _, _) => AnswerOnce(seat, front, e, id, Latest(size, front));
        case Authenticated(_, _, _) => ReplayedOnce(size, seat, front, e, id);
        case _ => SourcedStill(seat, front, e);
      }
      hide CommittedAs, NoneTwice, Lines, Latest, Covered;
    }
  }
}
