/** What every step of the ring keeps, and what every run of it therefore is. */
module RingProofs {
  import opened Basics
  import opened RingMachine
  import Queue

  lemma InitOk<T>(capacity: nat)
    requires capacity > 0
    ensures Inv(Init<T>(capacity)) && Abs(Init<T>(capacity)) == Queue.New(capacity)
  {
    var s := Init<T>(capacity);
    forall j | 0 <= j < capacity ensures s.slots[Place(j, capacity)] == Expected(s, j) {
      FirstLap(j, capacity);
    }
  }

  /** A store into the slot for index `at` leaves every other slot's index
      alone. */
  lemma Elsewhere<T>(s: State<T>, at: nat)
    requires |s.slots| > 0 && |s.log| <= at < |s.log| + |s.slots|
    ensures forall j {:trigger Expected(s, j)} ::
              |s.log| <= j < |s.log| + |s.slots| && j != at ==> Place(j, |s.slots|) != Place(at, |s.slots|)
  {
    forall j | |s.log| <= j < |s.log| + |s.slots| && j != at
      ensures Place(j, |s.slots|) != Place(at, |s.slots|)
    {
      DifferentPlaces(Min(j, at), Max(j, at), |s.slots|);
    }
  }

  /** The slot the producer stands at. */
  lemma AtProducer<T>(s: State<T>)
    requires Inv(s) && !s.prod.PAdvance?
    ensures s.slots[s.pCursor] == Expected(s, |s.log|)
  {
  }

  /** A step that stores nothing and moves the producer between two places
      where it is not inside a slot. */
  lemma SlotsStay<T>(s: State<T>, s': State<T>)
    requires Inv(s)
    requires s'.slots == s.slots && s'.log == s.log && s'.cIndex == s.cIndex && s'.cons == s.cons
    requires !s.prod.PSwap? && !s.prod.PPublish? && !s'.prod.PSwap? && !s'.prod.PPublish?
    ensures SlotsOk(s')
  {
    forall j | |s.log| <= j < |s.log| + |s.slots|
      ensures s'.slots[Place(j, |s.slots|)] == Expected(s', j)
    {
      assert s.slots[Place(j, |s.slots|)] == Expected(s, j);
    }
  }

  /** A store by the producer, short of publishing, into the slot it stands
      at. */
  lemma OneSlotChanges<T>(s: State<T>, s': State<T>)
    requires Inv(s) && |s'.slots| == |s.slots| && !s.prod.PAdvance?
    requires s'.slots == s.slots[s.pCursor := s'.slots[s.pCursor]]
    requires s'.log == s.log && s'.cIndex == s.cIndex && s'.cons == s.cons
    requires Evicting(s') ==> |s.slots| <= |s.log|
    requires s'.slots[s.pCursor] == Expected(s', |s.log|)
    ensures SlotsOk(s')
  {
    Elsewhere(s, |s.log|);
    forall j | |s.log| <= j < |s.log| + |s.slots|
      ensures s'.slots[Place(j, |s.slots|)] == Expected(s', j)
    {
      assert s.slots[Place(j, |s.slots|)] == Expected(s, j);
      assert Expected(s', j) == Expected(s, j) || j == |s.log|;
    }
  }

  lemma LookKeeps<T>(s: State<T>)
    requires Inv(s) && s.prod.PLook?
    ensures Inv(Next(s, Produce))
  {
    AtProducer(s);
    SlotsStay(s, Next(s, Produce));
  }

  lemma ClaimKeeps<T>(s: State<T>)
    requires Inv(s) && s.prod.PClaim?
    ensures Inv(Next(s, Produce))
  {
    AtProducer(s);
    var s' := Next(s, Produce);
    if s'.prod.PSwap? { OneSlotChanges(s, s'); } else { SlotsStay(s, s'); }
  }

  lemma WriteKeeps<T>(s: State<T>)
    requires Inv(s) && (s.prod.PFill? || s.prod.PSwap?)
    ensures Inv(Next(s, Produce))
  {
    AtProducer(s);
    OneSlotChanges(s, Next(s, Produce));
  }

  /** The store that makes a record live moves the lap on by one. */
  lemma PublishKeeps<T>(s: State<T>)
    requires Inv(s) && s.prod.PPublish?
    ensures Inv(Next(s, Produce))
  {
    var s', n, l := Next(s, Produce), |s.slots|, |s.log|;
    AtProducer(s);
    Elsewhere(s, l);
    SamePlace(l, n);
    forall j | l + 1 <= j < l + 1 + n ensures s'.slots[Place(j, n)] == Expected(s', j) {
      if j < l + n { assert s.slots[Place(j, n)] == Expected(s, j); }
    }
  }

  lemma AdvanceKeeps<T>(s: State<T>)
    requires Inv(s) && (s.prod.PAdvance? || s.prod.PRefuse?)
    ensures Inv(Next(s, Produce))
  {
    SlotsStay(s, Next(s, Produce));
  }

  lemma ProducerKeeps<T>(s: State<T>)
    requires Inv(s) && Enabled(s, Produce)
    ensures Inv(Next(s, Produce))
  {
    match s.prod
    case PLook(_, _, _, _) => LookKeeps(s);
    case PClaim(_, _, _) => ClaimKeeps(s);
    case PPublish(_, _) => PublishKeeps(s);
    case PAdvance(_) => AdvanceKeeps(s);
    case PRefuse(_) => AdvanceKeeps(s);
    case _ => WriteKeeps(s);
  }

  /** The slot the consumer stands at: its own, or, once the producer has
      lapped it, one that names a later record. */
  lemma AtConsumer<T>(s: State<T>)
    requires Inv(s) && !s.cons.CAdvance?
    ensures |s.log| <= s.cIndex + |s.slots| ==>
              var j := if s.cIndex == |s.log| then |s.log| else s.cIndex + |s.slots|;
              s.slots[s.cCursor] == Expected(s, j)
    ensures s.cIndex + |s.slots| < |s.log| ==> s.slots[s.cCursor].index > s.cIndex
  {
    var n := |s.slots|;
    if |s.log| <= s.cIndex + n {
      SamePlace(s.cIndex, n);
    } else {
      var j := OnThisLap(s.cIndex, |s.log|, n);
      assert s.slots[Place(j, n)] == Expected(s, j);
    }
  }

  /** A step of the consumer that stores nothing. */
  lemma ConsumerMoves<T>(s: State<T>, s': State<T>)
    requires Inv(s)
    requires s'.slots == s.slots && s'.log == s.log && s'.prod == s.prod
    requires !Taking(s) && !Taking(s') && Passed(s) <= Passed(s')
    requires Passed(s') == Passed(s) || (Passed(s') == Passed(s) + 1 && Gone(s, Passed(s)))
    ensures SlotsOk(s')
  {
    forall j | |s.log| <= j < |s.log| + |s.slots|
      ensures s'.slots[Place(j, |s.slots|)] == Expected(s', j)
    {
      assert s.slots[Place(j, |s.slots|)] == Expected(s, j);
    }
  }

  /** A store by the consumer into the slot it owns or has just won. */
  lemma ConsumerStores<T>(s: State<T>, s': State<T>)
    requires Inv(s) && |s'.slots| == |s.slots| && !s.cons.CAdvance?
    requires s.cIndex < |s.log| <= s.cIndex + |s.slots|
    requires s.cIndex + |s.slots| == |s.log| ==> !s.prod.PSwap? && !s.prod.PPublish?
    requires s'.slots == s.slots[s.cCursor := s'.slots[s.cCursor]]
    requires s'.log == s.log && s'.prod == s.prod && s'.cIndex == s.cIndex
    requires s'.slots[s.cCursor] == Settled(s', s.cIndex + |s.slots|)
    ensures SlotsOk(s')
  {
    var n, at := |s.slots|, s.cIndex + |s.slots|;
    SamePlace(s.cIndex, n);
    Elsewhere(s, at);
    forall j | |s.log| <= j < |s.log| + n
      ensures s'.slots[Place(j, n)] == Expected(s', j)
    {
      assert s.slots[Place(j, n)] == Expected(s, j);
      assert Expected(s', j) == Expected(s, j) || j == at;
    }
  }

  lemma WalkKeeps<T>(s: State<T>)
    requires Inv(s) && (s.cons.CLook? || s.cons.CSkip? || s.cons.CAdvance?)
    ensures Inv(Next(s, Consume))
  {
    if !s.cons.CAdvance? { AtConsumer(s); }
    ConsumerMoves(s, Next(s, Consume));
  }

  lemma TakeKeeps<T>(s: State<T>)
    requires Inv(s) && s.cons.CClaim?
    ensures Inv(Next(s, Consume))
  {
    var s' := Next(s, Consume);
    AtConsumer(s);
    if s'.cons.CSkip? { ConsumerMoves(s, s'); } else { ConsumerStores(s, s'); }
  }

  lemma LeaveKeeps<T>(s: State<T>)
    requires Inv(s) && Taking(s)
    ensures Inv(Next(s, Consume))
  {
    AtConsumer(s);
    ConsumerStores(s, Next(s, Consume));
  }

  lemma ConsumerKeeps<T>(s: State<T>)
    requires Inv(s) && Enabled(s, Consume)
    ensures Inv(Next(s, Consume))
  {
    match s.cons
    case CClaim => TakeKeeps(s);
    case CMove => LeaveKeeps(s);
    case CRelease(_) => LeaveKeeps(s);
    case _ => WalkKeeps(s);
  }
}
