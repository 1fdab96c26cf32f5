/** One connection as the writer thread holds it: what it may be sent, what it
    asked for, and a push into its rings as a single step.

    `Merge` has the push in its own steps; by the time the writer goes on to
    its next record they are all done, and what the connection's thread does
    between them it could as well have done before or after, which
    `Interleaving` shows. */
module Delivery {
  import opened Basics
  import opened Merge
  import opened MergeProofs

  type Class = c: nat | c < 3 witness LOSSY

  // ---- Capabilities and filters ------------------------------------------

  /** A capability's number, a 32-bit word, and a set of them: bit `n` of the
      mask is number `n`. */
  type Number = bv32
  type Capabilities = bv64

  function Bit(number: Number): Capabilities
    requires number < 64
  {
    1 << number
  }

  function With(caps: Capabilities, number: Number): Capabilities {
    if number < 64 then caps | Bit(number) else caps
  }

  predicate Covers(caps: Capabilities, number: Number) {
    number < 64 && caps & Bit(number) != 0
  }

  lemma ShiftsApart(caps: bv64, a: bv32, b: bv32)
    requires a < 64 && b < 64
    ensures (caps | (1 << a)) & (1 << b) != 0 <==> a == b || caps & (1 << b) != 0
  {
  }

  lemma BitsApart(caps: bv64, a: Number, b: Number)
    requires a < 64 && b < 64
    ensures (caps | Bit(a)) & Bit(b) != 0 <==> a == b || caps & Bit(b) != 0
  {
    ShiftsApart(caps, a, b);
    var x: bv64, y: bv64 := 1 << a, 1 << b;
    assert Bit(a) == x && Bit(b) == y;
  }

  /** The mask is a set: adding a capability covers it and changes no other. A
      number past the mask is neither added nor covered. */
  lemma WithCovers(caps: Capabilities, number: Number, other: Number)
    ensures Covers(With(caps, number), other) <==> (number == other && number < 64) || Covers(caps, other)
  {
    if number < 64 && other < 64 {
      BitsApart(caps, number, other);
      hide Bit;
    }
  }

  lemma NoneCovered(number: Number)
    ensures !Covers(0, number)
  {
    if number < 64 {
      var bit: bv64 := 1 << number;
      assert 0 & bit == 0;
    }
  }

  /** The mask of a list of capability numbers. */
  function Mask(numbers: seq<Number>): Capabilities {
    if numbers == [] then 0 else With(Mask(numbers[..|numbers| - 1]), numbers[|numbers| - 1])
  }

  lemma {:induction false} MaskCovers(numbers: seq<Number>, number: Number)
    ensures Covers(Mask(numbers), number) <==> number < 64 && number in numbers
  {
    if numbers == [] {
      NoneCovered(number);
    } else {
      MaskCovers(numbers[..|numbers| - 1], number);
      WithCovers(Mask(numbers[..|numbers| - 1]), numbers[|numbers| - 1], number);
      hide Covers, With;
    }
  }

  datatype Filter = All | Only(topics: set<string>) {
    /** A boundary record is wanted whatever is named, and a record on no topic
        is one nothing named. */
    predicate Admits(class_: Class, topic: Option<string>) {
      match this
      case All => true
      case Only(topics) => class_ == LIFECYCLE || (topic.Some? && topic.value in topics)
    }
  }

  // ---- Pushing -----------------------------------------------------------

  /** Between pushes, and open. */
  ghost predicate Ready<T>(p: Path<T>) { Inv(p) && !p.busy && !p.closed }

  datatype Lost = Nothing | Lossy | Durable | BrokerAnswer | Boundary

  /** What a push costs the connection it is for. */
  function Cost<T>(p: Path<T>, ring: Class, answer: bool): Lost
    requires Ready(p)
  {
    var q := p.rings[ring];
    if q.Used() < q.capacity then Nothing
    else if ring == LIFECYCLE then Boundary
    else if ring == LOSSY then Lossy
    else if (if q.taking || q.items == [] then answer else p.log[q.items[0] - 1].answer) then BrokerAnswer
    else Durable
  }

  function Charge(c: Counts, lost: Lost): Counts {
    match lost
    case Nothing => c
    case Lossy => c.(lossy := c.lossy + 1)
    case Durable => c.(durable := c.durable + 1)
    case BrokerAnswer => c.(answer := c.answer + 1)
    case Boundary => c.(disconnects := c.disconnects + 1)
  }

  /** Number a record, push it, and push on until its ring has settled. */
  function Pushed<T>(p: Path<T>, ring: Class, answer: bool, record: T): Path<T>
    requires Ready(p) && (answer ==> ring == DURABLE)
  {
    WriteKeeps(p, Number(ring, answer, record));
    var numbered := Written(p, Number(ring, answer, record));
    WriteKeeps(numbered, Continue);
    var pushed := Written(numbered, Continue);
    if pushed.busy then Written(pushed, Continue) else pushed
  }

  lemma PushKeeps<T>(p: Path<T>, ring: Class, answer: bool, record: T)
    requires Ready(p) && (answer ==> ring == DURABLE)
    ensures var p' := Pushed(p, ring, answer, record);
            Inv(p') && !p'.busy && (!p'.closed ==> Ready(p'))
  {
    var numbered := Written(p, Number(ring, answer, record));
    WriteKeeps(p, Number(ring, answer, record));
    WriteKeeps(numbered, Continue);
    var pushed := Written(numbered, Continue);
    EvictingEnds(numbered);
    if pushed.busy { WriteKeeps(pushed, Continue); }
  }

  /** An eviction leaves a place free, so the push it was for stores next. */
  lemma EvictingEnds<T>(p: Path<T>)
    requires Inv(p) && p.busy && Inv(Written(p, Continue))
    ensures var p' := Written(p, Continue);
            p'.busy ==> p'.rings[Target(p')].Used() < p'.rings[Target(p')].capacity
  {
    hide LogOk, HandedOk, Accounted, Fates, FateOk;
    assert RingOk(p, Target(p));
    hide Inv, RingOk, HeldOk;
  }

  /** A push takes the next number whether or not the record stays, costs what
      `Cost` says, and closes the connection exactly when it is a boundary
      record with no place to go. */
  lemma PushNumbers<T>(p: Path<T>, ring: Class, answer: bool, record: T)
    requires Ready(p) && (answer ==> ring == DURABLE)
    ensures var p' := Pushed(p, ring, answer, record);
            && p'.log == p.log + [Entry(ring, answer, record)]
            && p'.counts == Charge(p.counts, Cost(p, ring, answer))
            && (p'.closed <==> Cost(p, ring, answer) == Boundary)
            && p'.handed == p.handed && p'.held == p.held
  {
    var numbered := Written(p, Number(ring, answer, record));
    WriteKeeps(p, Number(ring, answer, record));
    WriteKeeps(numbered, Continue);
    EvictingEnds(numbered);
    RingsBounded(p);
    Settles(p, numbered);
    hide LogOk, HandedOk, Accounted, Fates, FateOk, Rings, RingOk, HeldOk, Lose;
  }

  /** The next step of a push, from a ring between pushes. */
  lemma Settles<T>(p: Path<T>, numbered: Path<T>)
    requires Ready(p) && |numbered.log| == |p.log| + 1
    requires var e := numbered.log[|p.log|];
             e.ring < 3 && (e.answer ==> e.ring == DURABLE)
             && numbered == Written(p, Number(e.ring, e.answer, e.record))
    ensures var e := numbered.log[|p.log|];
            var p' := Written(numbered, Continue);
            && p'.log == numbered.log && p'.handed == p.handed && p'.held == p.held
            && p'.counts == Charge(p.counts, Cost(p, e.ring, e.answer))
            && (p'.closed <==> Cost(p, e.ring, e.answer) == Boundary)
  {
    RingsBounded(p);
    hide LogOk, HandedOk, Accounted, Fates, FateOk, Rings, RingOk, HeldOk;
  }

  lemma RingsBounded<T>(p: Path<T>)
    requires Inv(p)
    ensures forall j | 0 <= j < 3 :: p.rings[j].Valid()
  {
    assert RingOk(p, 0) && RingOk(p, 1) && RingOk(p, 2);
  }

  // ---- The connection's own thread ----------------------------------------

  datatype Rest = Take(ring: Class) | Leave(ring: Class) | HandOn(ring: Class)

  /** What the connection's thread does, when it can; `Drain` in `DrainCode` has
      the loop these steps come from. */
  function Rested<T>(p: Path<T>, r: Rest): Path<T>
    requires Inv(p)
  {
    match r
    case Take(j) =>
      if p.rings[j].items != [] && !p.rings[j].taking && p.held[j].None? then Taken(p, j) else p
    case Leave(j) => Left(p, j)
    case HandOn(j) => if IsNext(p, j) then (HandOnKeeps(p, j); HandedOn(p, j)) else p
  }

  lemma RestKeeps<T>(p: Path<T>, r: Rest)
    requires Inv(p)
    ensures var p' := Rested(p, r);
            Inv(p') && p'.busy == p.busy && p'.closed == p.closed && p'.log == p.log && p'.counts == p.counts
  {
    match r
    case Take(j) =>
      if p.rings[j].items != [] && !p.rings[j].taking && p.held[j].None? {
        TakeKeeps(p, j);
        hide Inv;
      }
    case Leave(j) =>
      LeaveKeeps(p, j);
      hide Inv;
    case HandOn(j) =>
      if IsNext(p, j) {
        HandOnKeeps(p, j);
        hide Inv;
      }
  }

  /** What the thread does in a while. */
  function Paused<T>(p: Path<T>, rests: seq<Rest>): (p': Path<T>)
    requires Inv(p)
    ensures Inv(p') && p'.busy == p.busy && p'.closed == p.closed && p'.log == p.log && p'.counts == p.counts
    decreases |rests|
  {
    if rests == [] then p else
    RestKeeps(p, rests[0]);
    Paused(Rested(p, rests[0]), rests[1..])
  }
}
