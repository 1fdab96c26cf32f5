/** What one call of the ring's `push`, `offer` or `pop` was to the queue,
    whatever the other end did meanwhile. */
module RingCalls {
  import opened Basics
  import opened RingMachine
  import opened RingRefinement
  import opened RingLedger
  import Queue

  /** How a push ends: which record, if any, goes back to the caller. */
  datatype Push<T> = Stored | Evicted(record: T) | Refused(record: T)

  datatype End = Producer | Consumer

  function EndOf<T>(l: Label<T>): End { if l.CallPop? || l.Consume? then Consumer else Producer }

  /** What a step of one end is to the queue, if it is anything. */
  function Seen<T>(s: State<T>, l: Label<T>, end: End): seq<Queue.Event<T>>
    requires Shaped(s) && Enabled(s, l)
  {
    if EndOf(l) == end && !EventOf(s, l).Silent? then [EventOf(s, l)] else []
  }

  /** What one end did to the queue over a run. */
  function Did<T>(s: State<T>, ls: seq<Label<T>>, end: End): seq<Queue.Event<T>>
    requires Path(s, ls)
    decreases |ls|
  {
    if ls == [] then [] else Seen(s, ls[0], end) + Did(Next(s, ls[0]), ls[1..], end)
  }

  lemma {:induction false} StepOn<T>(s: State<T>, ls: seq<Label<T>>, t: State<T>, l: Label<T>)
    requires Path(s, ls) && Final(s, ls) == t && Shaped(t) && Enabled(t, l)
    ensures Path(s, ls + [l]) && Final(s, ls + [l]) == Next(t, l)
    ensures forall end :: Did(s, ls + [l], end) == Did(s, ls, end) + Seen(t, l, end)
    decreases |ls|
  {
    hide Next, Enabled, Shaped, Seen;
    if ls == [] {
      assert ls + [l] == [l] && [l][1..] == [];
    } else {
      StepOn(Next(s, ls[0]), ls[1..], t, l);
      assert (ls + [l])[1..] == ls[1..] + [l];
    }
  }

  // ---- A ring's own history -------------------------------------------------

  /** `s` is where the steps `ls` lead from `start`. */
  ghost predicate Reached<T>(start: State<T>, ls: seq<Label<T>>, s: State<T>) {
    Path(start, ls) && Final(start, ls) == s
  }

  ghost function History<T>(start: State<T>, ls: seq<Label<T>>, end: End): seq<Queue.Event<T>> {
    if Path(start, ls) then Did(start, ls, end) else []
  }

  lemma NothingYet<T>(s: State<T>)
    ensures Reached(s, [], s) && forall end :: History(s, [], end) == []
  {
  }

  lemma Stepped<T>(start: State<T>, ls: seq<Label<T>>, s: State<T>, l: Label<T>)
    requires Reached(start, ls, s) && Ledger(s) && Enabled(s, l)
    ensures Shaped(s) && Ledger(Next(s, l)) && Reached(start, ls + [l], Next(s, l))
    ensures forall end :: History(start, ls + [l], end) == History(start, ls, end) + Seen(s, l, end)
    ensures forall end | end != EndOf(l) :: History(start, ls + [l], end) == History(start, ls, end)
  {
    hide Ledger, Next, Enabled, Shaped, Seen, Path, Final, Did, EventOf;
    LedgerKeeps(s, l);
    LedgerIsShaped(s);
    OthersUnseen(s, l);
    StepOn(start, ls, s, l);
  }

  lemma OthersUnseen<T>(s: State<T>, l: Label<T>)
    requires Shaped(s) && Enabled(s, l)
    ensures forall end | end != EndOf(l) :: Seen(s, l, end) == []
  {
    hide EventOf;
  }

  lemma LedgerIsShaped<T>(s: State<T>)
    requires Ledger(s)
    ensures Shaped(s)
  {
  }

  // ---- Calls ----------------------------------------------------------------

  /** From `s` to `s'` by `ls`, which begin with this call; and of all its end
      does on the way, the queue sees `did`. */
  ghost predicate Called<T>(s: State<T>, ls: seq<Label<T>>, call: Label<T>, did: seq<Queue.Event<T>>, s': State<T>) {
    && ls != [] && ls[0] == call
    && Path(s, ls) && Final(s, ls) == s' && Did(s, ls, EndOf(call)) == did
  }

  lemma IsCalled<T>(start: State<T>, ls: seq<Label<T>>, s: State<T>, call: Label<T>, did: seq<Queue.Event<T>>)
    requires Reached(start, ls, s) && ls != [] && ls[0] == call && History(start, ls, EndOf(call)) == did
    ensures Called(start, ls, call, did, s)
  {
    hide Path, Final, Did;
  }

  /** Whatever an end is seen to do, it does at one instant of the run, to the
      queue as it is then. */
  lemma {:induction false} AnInstant<T>(s: State<T>, ls: seq<Label<T>>, end: End, e: Queue.Event<T>) returns (k: nat)
    requires Inv(s) && Path(s, ls) && e in Did(s, ls, end)
    ensures k < |ls| && Path(s, ls[..k])
    ensures var at := Final(s, ls[..k]);
            && Inv(at) && Enabled(at, ls[k]) && Matches(at, ls[k]) && EventOf(at, ls[k]) == e
    decreases |ls|
  {
    hide Inv, Next, Enabled, Matches, EventOf;
    StepRefines(s, ls[0]);
    if e in Seen(s, ls[0], end) {
      k := 0;
      assert ls[..0] == [];
    } else {
      var next := Next(s, ls[0]);
      var j := AnInstant(next, ls[1..], end, e);
      k := j + 1;
      assert ls[..k] == [ls[0]] + ls[1..][..j] && ls[..k][1..] == ls[1..][..j];
    }
  }

  // ---- What an answer means ----------------------------------------------------

  /** What the queue sees of a push that ends so. */
  function OfPush<T>(value: T, outcome: Push<T>): seq<Queue.Event<T>> {
    match outcome
    case Stored => [Queue.Insert(value)]
    case Evicted(x) => [Queue.Evict(x), Queue.Insert(value)]
    case Refused(_) => [Queue.Refuse(value)]
  }

  function OfOffer<T>(value: T, outcome: Push<T>): seq<Queue.Event<T>> {
    [if outcome.Stored? then Queue.Insert(value) else Queue.TurnAway(value)]
  }

  function OfPop<T>(r: Option<T>): seq<Queue.Event<T>> {
    if r.Some? then [Queue.Take(r.value), Queue.Leave] else [Queue.FindEmpty]
  }

  ghost predicate Allows<T>(q: Queue.Queue<T>, outcome: Push<T>) {
    match outcome
    case Stored => q.Used() < q.capacity
    case Evicted(x) => !q.taking && |q.items| == q.capacity && q.items != [] && x == q.items[0]
    case Refused(_) => q.taking && q.Used() == q.capacity
  }

  /** Under any schedule, a push refuses only where at some instant of it the
      ring is full and its oldest record is being taken; evicts the record that
      is the oldest of a full ring when it is evicted; and just stores where
      there is room. */
  lemma PushAnswers<T>(s: State<T>, ls: seq<Label<T>>, value: T, outcome: Push<T>, s': State<T>) returns (k: nat)
    requires Inv(s) && Called(s, ls, CallPush(value), OfPush(value, outcome), s')
    ensures k < |ls| && Path(s, ls[..k])
    ensures var at := Final(s, ls[..k]); Inv(at) && Oldest(at) <= |at.log| && Allows(Abs(at), outcome)
  {
    hide Inv, Path, Final, Did, Oldest, Abs, EventOf;
    k := AnInstant(s, ls, Producer, OfPush(value, outcome)[0]);
  }

  /** An offer is turned away only by a ring with every place spoken for. */
  lemma OfferAnswers<T>(s: State<T>, ls: seq<Label<T>>, value: T, outcome: Push<T>, s': State<T>) returns (k: nat)
    requires Inv(s) && Called(s, ls, CallOffer(value), OfOffer(value, outcome), s')
    ensures k < |ls| && Path(s, ls[..k])
    ensures var at := Final(s, ls[..k]);
            Inv(at) && Oldest(at) <= |at.log| && (outcome.Stored? <==> Abs(at).Used() < Abs(at).capacity)
  {
    hide Inv, Path, Final, Did, Oldest, Abs, EventOf;
    k := AnInstant(s, ls, Producer, OfOffer(value, outcome)[0]);
  }

  /** A pop answers with the record that is the oldest when it is taken, and
      with none only where at some instant nothing is queued. */
  lemma PopAnswers<T>(s: State<T>, ls: seq<Label<T>>, r: Option<T>, s': State<T>) returns (k: nat)
    requires Inv(s) && Called(s, ls, CallPop, OfPop(r), s')
    ensures k < |ls| && Path(s, ls[..k])
    ensures var at := Final(s, ls[..k]);
            && Inv(at) && Oldest(at) <= |at.log| && !Abs(at).taking
            && (if r.Some? then Abs(at).items != [] && Abs(at).items[0] == r.value else Abs(at).items == [])
  {
    hide Inv, Path, Final, Did, Oldest, Abs, EventOf;
    k := AnInstant(s, ls, Consumer, OfPop(r)[0]);
  }

  // ---- With the other end at rest -------------------------------------------------

  ghost predicate Alone<T>(ls: seq<Label<T>>, end: End) { forall l | l in ls :: EndOf(l) == end }

  lemma {:induction false} AloneRuns<T(!new)>(s: State<T>, ls: seq<Label<T>>, end: End)
    requires Inv(s) && Path(s, ls) && Alone(ls, end)
    ensures Oldest(s) <= |s.log| && Oldest(Final(s, ls)) <= |Final(s, ls).log|
    ensures Queue.Runs(Abs(s), Did(s, ls, end), Abs(Final(s, ls)))
    decreases |ls|
  {
    hide Inv, Next, Enabled, EventOf, Oldest, Abs;
    QueueOk(s);
    if ls != [] {
      StepRefines(s, ls[0]);
      AloneRuns(Next(s, ls[0]), ls[1..], end);
      var e, rest := EventOf(s, ls[0]), Did(Next(s, ls[0]), ls[1..], end);
      var es := Did(s, ls, end);
      assert ls[0] in ls;
      if e.Silent? {
        assert es == rest && Abs(Next(s, ls[0])) == Abs(s);
      } else {
        assert es == [e] + rest && es[1..] == rest && Queue.Step(Abs(s), es[0], Abs(Next(s, ls[0])));
      }
    }
  }

  /** What a push alone on the ring comes to. */
  function Pushed<T>(q: Queue.Queue<T>, value: T): (Push<T>, Queue.Queue<T>)
    requires q.Valid()
  {
    if q.Used() < q.capacity then (Stored, q.(items := q.items + [value]))
    else if q.taking then (Refused(value), q)
    else (Evicted(q.items[0]), q.(items := q.items[1..] + [value]))
  }

  /** With no step of the consumer in it, a push stores where there is room,
      evicts the oldest of a full ring, and refuses only if the consumer stands
      inside a slot of one. */
  lemma PushAlone<T(!new)>(s: State<T>, ls: seq<Label<T>>, value: T, outcome: Push<T>, s': State<T>)
    requires Inv(s) && Called(s, ls, CallPush(value), OfPush(value, outcome), s') && Alone(ls, Producer)
    requires outcome.Refused? ==> outcome.record == value
    ensures Oldest(s) <= |s.log| && Abs(s).Valid() && Oldest(s') <= |s'.log|
    ensures (outcome, Abs(s')) == Pushed(Abs(s), value)
  {
    hide Inv, Path, Final, Did, Oldest, Abs;
    QueueOk(s);
    AloneRuns(s, ls, Producer);
    match outcome
    case Evicted(x) => var mid := Queue.RunsTwo(Abs(s), Queue.Evict(x), Queue.Insert(value), Abs(s'));
    case _ => Queue.RunsOne(Abs(s), OfPush(value, outcome)[0], Abs(s'));
  }

  /** And a pop takes the oldest record there is. */
  lemma PopAlone<T(!new)>(s: State<T>, ls: seq<Label<T>>, r: Option<T>, s': State<T>)
    requires Inv(s) && Called(s, ls, CallPop, OfPop(r), s') && Alone(ls, Consumer)
    ensures Oldest(s) <= |s.log| && Oldest(s') <= |s'.log|
    ensures r.Some? <==> Abs(s).items != []
    ensures r.Some? ==> r.value == Abs(s).items[0] && Abs(s') == Abs(s).(items := Abs(s).items[1..])
    ensures r.None? ==> Abs(s') == Abs(s)
  {
    hide Inv, Path, Final, Did, Oldest, Abs;
    AloneRuns(s, ls, Consumer);
    match r
    case Some(x) => var mid := Queue.RunsTwo(Abs(s), Queue.Take(x), Queue.Leave, Abs(s'));
    case None => Queue.RunsOne(Abs(s), Queue.FindEmpty, Abs(s'));
  }
}
