/** The ring, one atomic step at a time.

    The producer and the consumer each hold a program counter and their own
    index, and a step is one load, one compare-exchange or one store on a
    stamp, or one move of a record in or out of a slot. Every operation that
    decides anything is sequentially consistent, so any interleaving of these
    steps is a run of the program and every run is one. */
module RingMachine {
  import opened Basics
  import Queue

  datatype Owner = Empty | Full | HeldByProducer | HeldByConsumer

  /** A stamp and what is stored under it. `None` is uninitialised memory. */
  datatype Slot<T> = Slot(index: nat, owner: Owner, record: Option<T>)

  /** Where the producer is inside `push` or `offer`. `looks` counts the stamp
      loads made so far in this call. */
  datatype Producing<T> =
    | PIdle
    | PLook(value: T, offering: bool, reloaded: bool, looks: nat)
    | PClaim(value: T, reloaded: bool, looks: nat)
    | PRefuse(value: T)
    | PFill(value: T)
    | PSwap(value: T)
    | PPublish(value: T, evicted: Option<T>)
    | PAdvance(evicted: Option<T>)
    | PUnreachable

  /** Where the consumer is inside `pop`. */
  datatype Consuming<T> =
    | CIdle
    | CLook
    | CClaim
    | CSkip
    | CMove
    | CRelease(value: T)
    | CAdvance(value: T)

  /** The ring, its two ends, and four histories no step reads: the records
      stored, by index; every record a caller handed in; every record popped;
      every record handed back. */
  datatype State<T> = State(
    slots: seq<Slot<T>>,
    write: nat,
    read: nat,
    dropped: nat,
    pIndex: nat,
    pCursor: nat,
    prod: Producing<T>,
    cIndex: nat,
    cCursor: nat,
    cons: Consuming<T>,
    log: seq<T>,
    given: seq<T>,
    taken: seq<nat>,
    popped: seq<T>,
    returned: seq<T>
  )

  /** What the scheduler may pick next. */
  datatype Label<T> = CallPush(value: T) | CallOffer(value: T) | Produce | CallPop | Consume

  function Init<T>(capacity: nat): State<T> {
    State(seq(capacity, i requires 0 <= i => Slot(i, Empty, None)),
          0, 0, 0, 0, 0, PIdle, 0, 0, CIdle, [], [], [], [], [])
  }

  // ---- The steps -------------------------------------------------------

  predicate Shaped<T>(s: State<T>) {
    && |s.slots| > 0
    && s.pCursor < |s.slots|
    && s.cCursor < |s.slots|
  }

  predicate Enabled<T>(s: State<T>, l: Label<T>) {
    match l
    case CallPush(_) => s.prod.PIdle?
    case CallOffer(_) => s.prod.PIdle?
    case Produce => !s.prod.PIdle? && !s.prod.PUnreachable?
    case CallPop => s.cons.CIdle?
    case Consume => !s.cons.CIdle?
  }

  /** Give `v` back to the caller and count it. */
  function TurnedAway<T>(s: State<T>, v: T): State<T> {
    s.(prod := PIdle, dropped := s.dropped + 1, returned := s.returned + [v])
  }

  function StepProducer<T>(s: State<T>): State<T>
    requires Shaped(s) && Enabled(s, Produce)
  {
    var slot := s.slots[s.pCursor];
    match s.prod
    case PLook(v, offering, reloaded, looks) =>
      if slot.index == s.pIndex && slot.owner == Empty then s.(prod := PFill(v))
      else if offering then s.(prod := PRefuse(v))
      else (
        match slot.owner
        case Full => s.(prod := PClaim(v, reloaded, looks + 1))
        case HeldByConsumer =>
          if reloaded then s.(prod := PRefuse(v))
          else s.(prod := PLook(v, false, true, looks + 1))
        case _ => s.(prod := PUnreachable)
      )
    case PClaim(v, reloaded, looks) =>
      // `debug_assert`: the full slot holds the record one lap back.
      if s.pIndex < |s.slots| then s.(prod := PUnreachable)
      else if slot.owner == Full && slot.index == s.pIndex - |s.slots| then
        s.(slots := s.slots[s.pCursor := slot.(owner := HeldByProducer)], prod := PSwap(v))
      else s.(prod := PLook(v, false, reloaded, looks))
    case PRefuse(v) => TurnedAway(s, v)
    case PFill(v) =>
      s.(slots := s.slots[s.pCursor := slot.(record := Some(v))], prod := PPublish(v, None))
    case PSwap(v) =>
      s.(slots := s.slots[s.pCursor := slot.(record := Some(v))], prod := PPublish(v, slot.record))
    case PPublish(v, evicted) =>
      s.(slots := s.slots[s.pCursor := slot.(index := s.pIndex, owner := Full)],
         prod := PAdvance(evicted), log := s.log + [v])
    case PAdvance(evicted) =>
      var advanced := s.(pIndex := s.pIndex + 1, pCursor := Wrap(s.pCursor, |s.slots|), write := s.pIndex + 1);
      if evicted.Some? then TurnedAway(advanced, evicted.value) else advanced.(prod := PIdle)
    case _ => s
  }

  /** `Consumer::advance`: the next slot, and the index published. */
  function Advance<T>(s: State<T>): State<T> {
    s.(cIndex := s.cIndex + 1, cCursor := Wrap(s.cCursor, |s.slots|), read := s.cIndex + 1)
  }

  function StepConsumer<T>(s: State<T>): State<T>
    requires Shaped(s) && Enabled(s, Consume)
  {
    var slot := s.slots[s.cCursor];
    match s.cons
    case CLook =>
      if (slot.index == s.cIndex && slot.owner == Empty) || slot.index < s.cIndex then s.(cons := CIdle)
      else if slot.index == s.cIndex && slot.owner == Full then s.(cons := CClaim)
      else s.(cons := CSkip)
    case CClaim =>
      if slot.index == s.cIndex && slot.owner == Full then
        s.(slots := s.slots[s.cCursor := slot.(owner := HeldByConsumer)], cons := CMove)
      else s.(cons := CSkip)
    case CSkip => Advance(s).(cons := CLook)
    case CMove =>
      if slot.record.Some? then
        s.(slots := s.slots[s.cCursor := slot.(record := None)], cons := CRelease(slot.record.value))
      else s
    case CRelease(v) =>
      s.(slots := s.slots[s.cCursor := slot.(index := s.cIndex + |s.slots|, owner := Empty)],
         cons := CAdvance(v))
    case CAdvance(v) =>
      Advance(s).(cons := CIdle, taken := s.taken + [s.cIndex], popped := s.popped + [v])
    case _ => s
  }

  function Next<T>(s: State<T>, l: Label<T>): State<T>
    requires Shaped(s) && Enabled(s, l)
  {
    match l
    case CallPush(v) => s.(prod := PLook(v, false, false, 0), given := s.given + [v])
    case CallOffer(v) => s.(prod := PLook(v, true, false, 0), given := s.given + [v])
    case Produce => StepProducer(s)
    case CallPop => s.(cons := CLook)
    case Consume => StepConsumer(s)
  }

  /** `s'` is `s` after the step `l` picks. */
  predicate IsStep<T(==)>(s: State<T>, l: Label<T>, s': State<T>) {
    Shaped(s) && Enabled(s, l) && s' == Next(s, l)
  }

  // ---- The abstraction -------------------------------------------------

  /** The producer has won the oldest record and not yet published over it. */
  predicate Evicting<T>(s: State<T>) {
    s.prod.PSwap? || (s.prod.PPublish? && s.prod.evicted.Some?)
  }

  /** The consumer owns the slot at its index. */
  predicate Taking<T>(s: State<T>) { s.cons.CMove? || s.cons.CRelease? }

  /** The consumer's index, counting a slot it has left and not stepped past. */
  function Passed<T>(s: State<T>): nat { s.cIndex + if s.cons.CAdvance? then 1 else 0 }

  /** The index of the oldest record in the queue. */
  function Oldest<T>(s: State<T>): nat {
    Max(Passed(s) + if Taking(s) then 1 else 0,
        |s.log| - |s.slots| + if Evicting(s) then 1 else 0)
  }

  function Abs<T>(s: State<T>): Queue.Queue<T>
    requires Oldest(s) <= |s.log|
  {
    Queue.Queue(|s.slots|, s.log[Oldest(s)..], Taking(s))
  }

  /** What a step does to the queue. */
  function EventOf<T>(s: State<T>, l: Label<T>): Queue.Event<T>
    requires Shaped(s) && Enabled(s, l)
  {
    var s' := Next(s, l);
    match l
    case Produce => (
      match s.prod
      case PLook(v, offering, _, _) =>
        if s'.prod.PRefuse? then (if offering then Queue.TurnAway(v) else Queue.Refuse(v)) else Queue.Silent
      case PClaim(_, _, _) =>
        if s'.prod.PSwap? && s.slots[s.pCursor].record.Some?
        then Queue.Evict(s.slots[s.pCursor].record.value) else Queue.Silent
      case PPublish(v, _) => Queue.Insert(v)
      case _ => Queue.Silent
    )
    case Consume => (
      match s.cons
      case CLook => if s'.cons.CIdle? then Queue.FindEmpty else Queue.Silent
      case CClaim =>
        if s'.cons.CMove? && s.slots[s.cCursor].record.Some?
        then Queue.Take(s.slots[s.cCursor].record.value) else Queue.Silent
      case CRelease(_) => Queue.Leave
      case _ => Queue.Silent
    )
    case _ => Queue.Silent
  }

  // ---- The invariant ---------------------------------------------------

  /** What the slot for index `j` holds, `j` counted one lap ahead: the record
      of index `j` less the capacity until that record is gone, and room for
      `j` after. */
  function Settled<T>(s: State<T>, j: nat): Slot<T>
    requires |s.log| <= j < |s.log| + |s.slots|
  {
    if j < Passed(s) + |s.slots| then Slot(j, Empty, None)
    else if j == Passed(s) + |s.slots| && Taking(s) then
      Slot(j - |s.slots|, HeldByConsumer, if s.cons.CMove? then Some(s.log[j - |s.slots|]) else None)
    else Slot(j - |s.slots|, Full, Some(s.log[j - |s.slots|]))
  }

  /** The one slot the producer may be inside is the one it fills next. */
  function Expected<T>(s: State<T>, j: nat): Slot<T>
    requires |s.log| <= j < |s.log| + |s.slots|
    requires Evicting(s) ==> |s.slots| <= |s.log|
  {
    if j == |s.log| && s.prod.PSwap? then
      Slot(j - |s.slots|, HeldByProducer, Some(s.log[j - |s.slots|]))
    else if j == |s.log| && s.prod.PPublish? then
      if s.prod.evicted.Some? then Slot(j - |s.slots|, HeldByProducer, Some(s.prod.value))
      else Slot(j, Empty, Some(s.prod.value))
    else Settled(s, j)
  }

  ghost predicate SlotsOk<T>(s: State<T>)
    requires |s.slots| > 0
    requires Evicting(s) ==> |s.slots| <= |s.log|
  {
    forall j {:trigger Expected(s, j)} ::
      |s.log| <= j < |s.log| + |s.slots| ==> s.slots[Place(j, |s.slots|)] == Expected(s, j)
  }

  /** The producer's own state: its index is the next to be logged, and what
      it knows of the slot it stands at is still true. */
  ghost predicate ProducerOk<T>(s: State<T>)
    requires |s.slots| > 0
  {
    && !s.prod.PUnreachable?
    && s.pIndex + (if s.prod.PAdvance? then 1 else 0) == |s.log|
    && s.pCursor == Place(s.pIndex, |s.slots|)
    && s.write == s.pIndex
    && (Evicting(s) ==> |s.slots| <= |s.log|)
    && (s.prod.PSwap? || s.prod.PPublish? || s.prod.PFill? ==>
          !(Taking(s) && s.cIndex + |s.slots| == |s.log|))
    && (s.prod.PFill? || (s.prod.PPublish? && s.prod.evicted.None?) ==> |s.log| < Passed(s) + |s.slots|)
    && (s.prod.PClaim? ==> |s.slots| <= |s.log| && s.prod.looks == 1 && !s.prod.reloaded)
    && (s.prod.PLook? ==> LookOk(s))
    && (s.prod.PPublish? && s.prod.evicted.Some? ==> s.prod.evicted.value == s.log[|s.log| - |s.slots|])
    && (s.prod.PAdvance? && s.prod.evicted.Some? ==>
          |s.slots| < |s.log| && s.prod.evicted.value == s.log[|s.log| - 1 - |s.slots|])
  }

  /** After one look the oldest record is the consumer's, or gone, so no third
      look can find the slot full. */
  ghost predicate LookOk<T>(s: State<T>)
    requires |s.slots| > 0 && s.prod.PLook?
  {
    && s.prod.looks <= 2
    && (s.prod.offering ==> s.prod.looks == 0)
    && (s.prod.looks == 0 ==> !s.prod.reloaded)
    && (s.prod.looks == 2 ==> s.prod.reloaded)
    && (s.prod.looks >= 1 ==>
          |s.log| < Passed(s) + |s.slots| || (Taking(s) && |s.log| == s.cIndex + |s.slots|))
  }

  /** The consumer's own state: it never overtakes the log, and a slot it
      holds has not been reached a lap later. */
  ghost predicate ConsumerOk<T>(s: State<T>)
    requires |s.slots| > 0
  {
    && Passed(s) <= |s.log|
    && s.cCursor == Place(s.cIndex, |s.slots|)
    && s.read == s.cIndex
    && (Taking(s) ==> s.cIndex < |s.log| <= s.cIndex + |s.slots|)
    && (s.cons.CClaim? ==> s.cIndex < |s.log|)
    && (s.cons.CSkip? ==> Gone(s, s.cIndex))
    && (s.cons.CRelease? ==> s.cons.value == s.log[s.cIndex])
    && (s.cons.CAdvance? ==> s.cons.value == s.log[s.cIndex])
  }

  /** The record of index `i` was evicted, or is being evicted now. */
  predicate Gone<T>(s: State<T>, i: nat) {
    i + |s.slots| < |s.log| + if Evicting(s) then 1 else 0
  }

  /** Everything but the slots. */
  ghost predicate Core<T>(s: State<T>) {
    |s.slots| > 0 && ProducerOk(s) && ConsumerOk(s)
  }

  ghost predicate Inv<T>(s: State<T>) { Core(s) && SlotsOk(s) }
}
