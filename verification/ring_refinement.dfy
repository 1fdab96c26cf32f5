/** The ring is the queue: each atomic step is one event of the drop-oldest
    queue, so every run of the ring is a run of the queue. */
module RingRefinement {
  import opened Basics
  import opened RingMachine
  import opened RingProofs
  import Queue

  lemma QueueOk<T>(s: State<T>)
    requires Inv(s)
    ensures Oldest(s) <= |s.log| && Abs(s).Valid()
  {
  }

  /** What one step of the ring owes the queue. */
  ghost predicate Matches<T>(s: State<T>, l: Label<T>)
    requires Shaped(s) && Enabled(s, l)
  {
    && Oldest(s) <= |s.log|
    && Oldest(Next(s, l)) <= |Next(s, l).log|
    && Queue.Step(Abs(s), EventOf(s, l), Abs(Next(s, l)))
  }

  lemma LookRefines<T>(s: State<T>)
    requires Inv(s) && s.prod.PLook?
    ensures Matches(s, Produce)
  {
    AtProducer(s);
  }

  /** Winning the exchange takes the oldest record of a full queue. */
  lemma ClaimRefines<T>(s: State<T>)
    requires Inv(s) && s.prod.PClaim?
    ensures Matches(s, Produce)
  {
    AtProducer(s);
    if Next(s, Produce).prod.PSwap? {
      assert Oldest(s) == |s.log| - |s.slots| && !Taking(s);
      assert Abs(Next(s, Produce)).items == Abs(s).items[1..];
    }
  }

  lemma PublishRefines<T>(s: State<T>)
    requires Inv(s) && s.prod.PPublish?
    ensures Matches(s, Produce)
  {
    assert Oldest(Next(s, Produce)) == Oldest(s);
    assert Abs(Next(s, Produce)).items == Abs(s).items + [s.prod.value];
  }

  lemma ProducerRefines<T>(s: State<T>)
    requires Inv(s) && Enabled(s, Produce)
    ensures Matches(s, Produce)
  {
    match s.prod
    case PLook(_, _, _, _) => LookRefines(s);
    case PClaim(_, _, _) => ClaimRefines(s);
    case PPublish(_, _) => PublishRefines(s);
    case PSwap(_) => AtProducer(s);
    case _ =>
  }

  /** An empty answer is given at an instant when the queue is empty. */
  lemma PopLookRefines<T>(s: State<T>)
    requires Inv(s) && s.cons.CLook?
    ensures Matches(s, Consume)
  {
    AtConsumer(s);
  }

  /** Winning the exchange takes the oldest record there is. */
  lemma TakeRefines<T>(s: State<T>)
    requires Inv(s) && s.cons.CClaim?
    ensures Matches(s, Consume)
  {
    AtConsumer(s);
    if Next(s, Consume).cons.CMove? {
      assert Oldest(s) == s.cIndex;
      assert Abs(Next(s, Consume)).items == Abs(s).items[1..];
    }
  }

  lemma ConsumerRefines<T>(s: State<T>)
    requires Inv(s) && Enabled(s, Consume)
    ensures Matches(s, Consume)
  {
    match s.cons
    case CLook => PopLookRefines(s);
    case CClaim => TakeRefines(s);
    case CMove => AtConsumer(s);
    case _ =>
  }

  lemma CallKeeps<T>(s: State<T>, l: Label<T>)
    requires Inv(s) && Enabled(s, l) && !l.Produce? && !l.Consume?
    ensures Inv(Next(s, l))
  {
    var s' := Next(s, l);
    forall j | |s.log| <= j < |s.log| + |s.slots|
      ensures s'.slots[Place(j, |s.slots|)] == Expected(s', j)
    {
      assert s.slots[Place(j, |s.slots|)] == Expected(s, j);
    }
  }

  lemma StepRefines<T>(s: State<T>, l: Label<T>)
    requires Inv(s) && Enabled(s, l)
    ensures Inv(Next(s, l)) && Matches(s, l)
  {
    match l
    case Produce => ProducerKeeps(s); ProducerRefines(s);
    case Consume => ConsumerKeeps(s); ConsumerRefines(s);
    case _ => CallKeeps(s, l);
  }

  // ---- Runs --------------------------------------------------------------

  predicate Path<T>(s: State<T>, ls: seq<Label<T>>)
    decreases |ls|
  {
    ls == [] || (Shaped(s) && Enabled(s, ls[0]) && Path(Next(s, ls[0]), ls[1..]))
  }

  function Final<T>(s: State<T>, ls: seq<Label<T>>): State<T>
    requires Path(s, ls)
    decreases |ls|
  {
    if ls == [] then s else Final(Next(s, ls[0]), ls[1..])
  }

  function Events<T>(s: State<T>, ls: seq<Label<T>>): seq<Queue.Event<T>>
    requires Path(s, ls)
    decreases |ls|
  {
    if ls == [] then [] else [EventOf(s, ls[0])] + Events(Next(s, ls[0]), ls[1..])
  }

  /** Any interleaving of atomic steps, at any capacity, is a run of the
      drop-oldest queue. */
  lemma {:induction false} Refines<T(!new)>(s: State<T>, ls: seq<Label<T>>)
    requires Inv(s) && Path(s, ls)
    ensures Inv(Final(s, ls))
    ensures Oldest(s) <= |s.log| && Oldest(Final(s, ls)) <= |Final(s, ls).log|
    ensures Queue.Runs(Abs(s), Events(s, ls), Abs(Final(s, ls)))
    decreases |ls|
  {
    QueueOk(s);
    if ls != [] {
      var next := Next(s, ls[0]);
      StepRefines(s, ls[0]);
      Refines(next, ls[1..]);
      var es := Events(s, ls);
      assert es[0] == EventOf(s, ls[0]) && es[1..] == Events(next, ls[1..]);
      assert Queue.Step(Abs(s), es[0], Abs(next));
    }
  }

  /** From a new ring: the whole-run statement. */
  lemma RingIsQueue<T(!new)>(capacity: nat, ls: seq<Label<T>>)
    requires capacity > 0 && Path(Init<T>(capacity), ls)
    ensures var s := Final(Init<T>(capacity), ls);
            Inv(s) && Oldest(s) <= |s.log|
            && Queue.Runs(Queue.New(capacity), Events(Init<T>(capacity), ls), Abs(s))
  {
    InitOk<T>(capacity);
    Refines(Init<T>(capacity), ls);
  }
}
