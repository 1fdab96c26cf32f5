/** What one ring means to the code above it: a bounded queue that a push into
    a full one takes the oldest record out of.

    A take has two ends. The record leaves the queue when the consumer claims
    it, and its place is free again only when the consumer lets the slot go.
    `taking` is true in between. */
module Queue {
  datatype Queue<T> = Queue(capacity: nat, items: seq<T>, taking: bool) {
    /** How many of the ring's places are spoken for. */
    function Used(): nat { |items| + if taking then 1 else 0 }

    ghost predicate Valid() { capacity > 0 && Used() <= capacity }
  }

  /** What one atomic step of the ring does to the queue. */
  datatype Event<T> =
    | Silent
    | Insert(item: T)
    | Evict(item: T)
    | Refuse(item: T)
    | TurnAway(item: T)
    | Take(item: T)
    | Leave
    | FindEmpty

  function New<T>(capacity: nat): Queue<T> { Queue(capacity, [], false) }

  /** The queue's whole behaviour. `Evict` takes the oldest record and no
      other, and only from a full queue with no take in progress; `Refuse`
      happens only to a queue whose one missing record is being taken. */
  ghost predicate Step<T>(q: Queue<T>, e: Event<T>, q': Queue<T>) {
    match e
    case Silent => q' == q
    case Insert(x) => q.Used() < q.capacity && q' == q.(items := q.items + [x])
    case Evict(x) =>
      && !q.taking && |q.items| == q.capacity
      && q.items != [] && x == q.items[0]
      && q' == q.(items := q.items[1..])
    case Refuse(x) => q.taking && q.Used() == q.capacity && q' == q
    case TurnAway(x) => q.Used() == q.capacity && q' == q
    case Take(x) =>
      && !q.taking && q.items != [] && x == q.items[0]
      && q' == q.(items := q.items[1..], taking := true)
    case Leave => q.taking && q' == q.(taking := false)
    case FindEmpty => q.items == [] && !q.taking && q' == q
  }

  // ---- Runs of the queue -------------------------------------------------

  ghost predicate Runs<T(!new)>(q: Queue<T>, es: seq<Event<T>>, q': Queue<T>)
    decreases |es|
  {
    if es == [] then q' == q
    else exists next {:trigger Step(q, es[0], next)} :: Step(q, es[0], next) && Runs(next, es[1..], q')
  }

  lemma RunsOne<T(!new)>(q: Queue<T>, e: Event<T>, q': Queue<T>)
    requires Runs(q, [e], q')
    ensures Step(q, e, q')
  {
    assert [e][1..] == [];
  }

  lemma RunsTwo<T(!new)>(q: Queue<T>, e: Event<T>, f: Event<T>, q': Queue<T>) returns (next: Queue<T>)
    requires Runs(q, [e, f], q')
    ensures Step(q, e, next) && Step(next, f, q')
  {
    next :| Step(q, e, next) && Runs(next, [e, f][1..], q');
    assert [e, f][1..] == [f];
    RunsOne(next, f, q');
  }

  function Entering<T>(e: Event<T>): seq<T> { if e.Insert? then [e.item] else [] }

  function Leaving<T>(e: Event<T>): seq<T> { if e.Take? || e.Evict? then [e.item] else [] }

  /** The records a run put in, and the records it took out either way. */
  function Inserted<T>(es: seq<Event<T>>): seq<T> {
    if es == [] then [] else Entering(es[0]) + Inserted(es[1..])
  }

  function Removed<T>(es: seq<Event<T>>): seq<T> {
    if es == [] then [] else Leaving(es[0]) + Removed(es[1..])
  }

  lemma FirstOutStep<T>(q: Queue<T>, e: Event<T>, q': Queue<T>)
    requires Step(q, e, q')
    ensures Leaving(e) + q'.items == q.items + Entering(e)
  {
  }

  /** First in, first out, whichever way out: what has left, in the order it
      left, and then what remains, is what there was and then what was put in. */
  lemma {:induction false} FirstOut<T(!new)>(q: Queue<T>, es: seq<Event<T>>, q': Queue<T>)
    requires Runs(q, es, q')
    ensures Removed(es) + q'.items == q.items + Inserted(es)
    decreases |es|
  {
    if es != [] {
      var next :| Step(q, es[0], next) && Runs(next, es[1..], q');
      FirstOut(next, es[1..], q');
      FirstOutStep(q, es[0], next);
      Chain(Leaving(es[0]), next.items, q.items, Entering(es[0]),
            Removed(es[1..]), q'.items, Inserted(es[1..]));
    }
  }

  lemma Chain<T>(l: seq<T>, mid: seq<T>, from: seq<T>, e: seq<T>, r: seq<T>, to: seq<T>, i: seq<T>)
    requires l + mid == from + e && r + to == mid + i
    ensures (l + r) + to == from + (e + i)
  {
    assert (l + r) + to == l + (r + to);
    assert l + (mid + i) == (l + mid) + i;
    assert (from + e) + i == from + (e + i);
  }

  /** The queue never holds more than its capacity. */
  lemma {:induction false} StaysBounded<T(!new)>(q: Queue<T>, es: seq<Event<T>>, q': Queue<T>)
    requires Runs(q, es, q') && q.Valid()
    ensures q'.Valid() && q'.capacity == q.capacity
    decreases |es|
  {
    if es != [] {
      var next :| Step(q, es[0], next) && Runs(next, es[1..], q');
      StaysBounded(next, es[1..], q');
    }
  }
}
