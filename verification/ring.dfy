/** The ring as it is written: an array of stamped slots, two ends that each
    hold an index and a cursor, and `push`, `offer` and `pop` as loops over the
    slot at the cursor.

    Between any two atomic actions of one end, the other end may run any
    number of its own. `ConsumerRuns` and `ProducerRuns` are that freedom, so
    what a method ensures it ensures under every schedule. Each action is
    shown to be one step of the machine in `RingMachine`, and the machine is
    what the whole-run results are about. */
module RingCode {
  import opened Basics
  import opened RingMachine
  import opened RingProofs
  import opened RingLedger
  import opened RingCalls
  import Queue

  /** The exchange on the record one lap back, and on the record this end is
      owed. */
  function Evicts<T>(log: seq<T>, n: nat): seq<Queue.Event<T>> {
    if 0 < n <= |log| then [Queue.Evict(log[|log| - n])] else []
  }

  function Takes<T>(log: seq<T>, at: nat): seq<Queue.Event<T>> { if at < |log| then [Queue.Take(log[at])] else [] }

  lemma ClaimReady<T>(s: State<T>)
    requires Ledger(s) && s.prod.PClaim?
    ensures Shaped(s) && |s.slots| <= s.pIndex == |s.log| && s.prod.looks == 1
    ensures s.slots[s.pCursor].owner == Full ==> s.slots[s.pCursor].record == Some(s.log[|s.log| - |s.slots|])
  {
    AtProducer(s);
  }

  lemma ClaimSeen<T>(s: State<T>)
    requires Ledger(s) && s.prod.PClaim?
    ensures Shaped(s)
    ensures Next(s, Produce).prod.PSwap? ==> Seen(s, Produce, Producer) == Evicts(s.log, |s.slots|)
    ensures !Next(s, Produce).prod.PSwap? ==> Seen(s, Produce, Producer) == []
  {
    ClaimReady(s);
    hide Ledger;
  }

  lemma MoveReady<T>(s: State<T>)
    requires Ledger(s) && (s.prod.PFill? || s.prod.PSwap?)
    ensures Shaped(s)
    ensures s.slots[s.pCursor].record.Some? <==> s.prod.PSwap?
    ensures s.prod.PSwap? ==> Evicts(s.log, |s.slots|) == [Queue.Evict(s.slots[s.pCursor].record.value)]
  {
    AtProducer(s);
  }

  /** An empty answer is given where the consumer has reached the end of the
      log. */
  lemma Answers<T>(s: State<T>)
    requires Ledger(s) && s.cons.CLook?
    ensures Shaped(s)
    ensures var at := s.slots[s.cCursor];
            at.index < s.cIndex || (at.index == s.cIndex && at.owner == Empty) ==> s.cIndex == |s.log|
  {
    AtConsumer(s);
  }

  lemma Initialised<T>(s: State<T>)
    requires Ledger(s) && s.cons.CMove?
    ensures Shaped(s) && s.slots[s.cCursor].record.Some?
    ensures Takes(s.log, s.cIndex) == [Queue.Take(s.slots[s.cCursor].record.value)]
  {
    AtConsumer(s);
  }

  lemma AdvanceIs<T>(s: State<T>)
    requires Shaped(s) && s.prod.PAdvance?
    ensures var evicted := Held(s.prod.evicted);
            Next(s, Produce) == s.(pIndex := s.pIndex + 1, pCursor := Wrap(s.pCursor, |s.slots|), write := s.pIndex + 1,
                                   prod := PIdle, dropped := s.dropped + |evicted|, returned := s.returned + evicted)
  {
    assert s.returned + [] == s.returned;
  }

  /** The steps that move a record or an index are nothing to the queue. */
  lemma MovesUnseen<T>(s: State<T>)
    requires Shaped(s)
    ensures s.prod.PFill? || s.prod.PSwap? || s.prod.PAdvance? || s.prod.PRefuse? ==> Seen(s, Produce, Producer) == []
    ensures s.cons.CSkip? || s.cons.CMove? || s.cons.CAdvance? ==> Seen(s, Consume, Consumer) == []
  {
    hide Next;
  }

  lemma TakeReady<T>(s: State<T>)
    requires Ledger(s) && s.cons.CClaim?
    ensures Shaped(s)
    ensures s.cIndex < |s.log|
    ensures Next(s, Consume).cons.CMove? ==> Seen(s, Consume, Consumer) == Takes(s.log, s.cIndex)
    ensures !Next(s, Consume).cons.CMove? ==> Seen(s, Consume, Consumer) == []
  {
    AtConsumer(s);
  }

  lemma LedgerShape<T>(s: State<T>)
    requires Ledger(s)
    ensures Shaped(s) && !s.prod.PUnreachable? && s.cIndex <= |s.log|
  {
  }

  class Ring<T> {
    const slots: array<Slot<T>>
    var write: nat
    var read: nat
    var dropped: nat

    // The producer's end, and where it is.
    var pIndex: nat
    var pCursor: nat
    var prod: Producing<T>

    // The consumer's end, and where it is.
    var cIndex: nat
    var cCursor: nat
    var cons: Consuming<T>

    // Histories, which no action reads. `labels` is every step of either end
    // since `start`, where the last call made here began.
    var log: seq<T>
    var given: seq<T>
    var taken: seq<nat>
    var popped: seq<T>
    var returned: seq<T>
    ghost var start: State<T>
    ghost var labels: seq<Label<T>>

    function View(): State<T>
      reads this, slots
    {
      State(slots[..], write, read, dropped, pIndex, pCursor, prod, cIndex, cCursor, cons,
            log, given, taken, popped, returned)
    }

    ghost predicate Valid()
      reads this, slots
    {
      Shaped(View()) && !prod.PUnreachable? && Ledger(View()) && Reached(start, labels, View())
    }

    /** What one end has done to the queue since then. */
    ghost function Acts(end: End): seq<Queue.Event<T>>
      reads this
    {
      History(start, labels, end)
    }

    /** `Ring::split`: every slot free for its first lap. */
    constructor (capacity: nat)
      requires capacity > 0
      ensures fresh(slots) && View() == Init<T>(capacity) && Valid()
    {
      hide Ledger, Reached, History, Place;
      slots := new Slot<T>[capacity](i requires 0 <= i => Slot(i, Empty, None));
      write, read, dropped := 0, 0, 0;
      pIndex, pCursor, prod := 0, 0, PIdle;
      cIndex, cCursor, cons := 0, 0, CIdle;
      log, given, taken, popped, returned, labels := [], [], [], [], [], [];
      start := Init(capacity);
      new;
      assert slots[..] == Init<T>(capacity).slots;
      InitBalances<T>(capacity);
      NothingYet(start);
    }

    /** A call made here, once it is over. */
    lemma Ends(call: Label<T>, did: seq<Queue.Event<T>>)
      requires Valid() && labels != [] && labels[0] == call && Acts(EndOf(call)) == did
      ensures Called(start, labels, call, did, View())
    {
      hide Ledger, Reached, History, Called;
      IsCalled(start, labels, View(), call, did);
    }

    // ---- The other end, running freely ------------------------------------

    /** What the producer's end owns, which only its own actions change. */
    twostate predicate ProducerUntouched()
      reads this
    {
      && prod == old(prod) && pIndex == old(pIndex) && pCursor == old(pCursor)
      && write == old(write) && dropped == old(dropped)
      && log == old(log) && given == old(given) && returned == old(returned)
      && RunsOn() && Acts(Producer) == old(Acts(Producer))
    }

    /** Still the run of the same call. */
    twostate predicate RunsOn()
      reads this
    {
      start == old(start) && (old(labels) != [] ==> labels != [] && labels[0] == old(labels)[0])
    }

    /** One action of the consumer's end, whatever it is up to. */
    method ConsumerActs()
      requires Valid()
      modifies this, slots
      ensures Valid() && ProducerUntouched()
    {
      hide Ledger, Reached, History, Next, Seen;
      var act := if cons.CIdle? then CallPop else Consume;
      Stepped(start, labels, View(), act);
      ConsumerTouches(View(), act);
      LedgerShape(Next(View(), act));
      InstallConsumer(Next(View(), act));
      labels := labels + [act];
    }

    /** Put a state that differs only on the consumer's side in force. */
    method InstallConsumer(next: State<T>)
      requires Shaped(View()) && ConsumerOnly(View(), next)
      modifies this, slots
      ensures View() == next && start == old(start) && labels == old(labels)
      ensures prod == old(prod) && pIndex == old(pIndex) && pCursor == old(pCursor)
      ensures write == old(write) && dropped == old(dropped)
      ensures log == old(log) && given == old(given) && returned == old(returned)
    {
      slots[cCursor] := next.slots[cCursor];
      read, cIndex, cCursor, cons := next.read, next.cIndex, next.cCursor, next.cons;
      taken, popped := next.taken, next.popped;
      assert slots[..] == next.slots;
    }

    /** Any number of the consumer's actions. */
    method ConsumerRuns()
      requires Valid()
      modifies this, slots
      ensures Valid() && ProducerUntouched()
    {
      hide Ledger, Reached, History;
      var actions: nat := *;
      while actions > 0
        invariant Valid() && ProducerUntouched()
      {
        ConsumerActs();
        actions := actions - 1;
      }
    }

    /** What the consumer's end owns, which only its own actions change. */
    twostate predicate ConsumerUntouched()
      reads this
    {
      && cons == old(cons) && cIndex == old(cIndex) && cCursor == old(cCursor)
      && read == old(read) && taken == old(taken) && popped == old(popped)
      && RunsOn() && Acts(Consumer) == old(Acts(Consumer)) && old(log) <= log
    }

    /** Put a state that differs only on the producer's side in force. */
    method InstallProducer(next: State<T>)
      requires Shaped(View()) && ProducerOnly(View(), next)
      modifies this, slots
      ensures View() == next && start == old(start) && labels == old(labels)
      ensures cons == old(cons) && cIndex == old(cIndex) && cCursor == old(cCursor)
      ensures read == old(read) && taken == old(taken) && popped == old(popped)
    {
      slots[pCursor] := next.slots[pCursor];
      write, dropped, pIndex, pCursor, prod := next.write, next.dropped, next.pIndex, next.pCursor, next.prod;
      log, given, returned := next.log, next.given, next.returned;
      assert slots[..] == next.slots;
    }

    /** One action of the producer's end. A call it begins is for the record
        `supply` names next. */
    method ProducerActs(supply: nat -> T, offers: bool)
      requires Valid()
      modifies this, slots
      ensures Valid() && ConsumerUntouched() && |old(log)| <= |log| <= |old(log)| + 1
    {
      hide Ledger, Reached, History, Next, Seen;
      var act := Produce;
      if prod.PIdle? {
        act := if offers then CallOffer(supply(|given|)) else CallPush(supply(|given|));
      }
      Stepped(start, labels, View(), act);
      ProducerTouches(View(), act);
      LedgerShape(Next(View(), act));
      InstallProducer(Next(View(), act));
      labels := labels + [act];
    }

    /** Some of the producer's actions, at most `budget`. */
    method ProducerRuns(supply: nat -> T, budget: nat) returns (left: nat)
      requires Valid()
      modifies this, slots
      ensures Valid() && ConsumerUntouched()
      ensures left <= budget && |old(log)| <= |log| && |log| + left <= |old(log)| + budget
    {
      hide Ledger, Reached, History;
      left := budget;
      var actions: nat := *;
      while actions > 0 && left > 0
        invariant Valid() && ConsumerUntouched()
        invariant left <= budget && |old(log)| <= |log| && |log| + left <= |old(log)| + budget
      {
        var offers: bool := *;
        ProducerActs(supply, offers);
        actions, left := actions - 1, left - 1;
      }
    }

    // ---- The producer's actions, and `push` and `offer` made of them ------

    /** The caller's record arrives. */
    method Begin(value: T, offering: bool)
      requires Valid() && prod.PIdle?
      modifies this`start, this`labels, this`prod, this`given
      ensures Valid() && prod == PLook(value, offering, false, 0)
      ensures given == old(given) + [value]
      ensures start == old(View()) && labels == [if offering then CallOffer(value) else CallPush(value)]
      ensures Acts(Producer) == []
    {
      hide Ledger, Reached, History;
      var call := if offering then CallOffer(value) else CallPush(value);
      start, labels := View(), [];
      NothingYet(start);
      Stepped(start, labels, View(), call);
      labels := labels + [call];
      given := given + [value];
      prod := PLook(value, offering, false, 0);
    }

    /** Load the stamp of the slot at the cursor. */
    method Look() returns (current: Slot<T>)
      requires Valid() && prod.PLook?
      modifies this`labels, this`prod
      ensures Valid() && IsStep(old(View()), Produce, View()) && RunsOn()
      ensures current == slots[pCursor] && old(prod).looks <= 2
      ensures !prod.PRefuse? ==> Acts(Producer) == old(Acts(Producer))
      ensures prod.PRefuse? ==>
                Acts(Producer) == old(Acts(Producer)) + [if old(prod).offering then Queue.TurnAway(prod.value) else Queue.Refuse(prod.value)]
      ensures var was := old(prod);
              prod == if current.index == pIndex && current.owner == Empty then PFill(was.value)
                      else if was.offering then PRefuse(was.value)
                      else if current.owner == Full then PClaim(was.value, was.reloaded, was.looks + 1)
                      else if was.reloaded then PRefuse(was.value)
                      else PLook(was.value, false, true, was.looks + 1)
      ensures !old(prod).offering && current.owner == Full ==> current.index + slots.Length == pIndex
      ensures !old(prod).offering && current.owner != Full && current.owner != HeldByConsumer ==>
                current.index == pIndex && current.owner == Empty
    {
      hide Ledger, Reached, History;
      Stepped(start, labels, View(), Produce);
      labels := labels + [Produce];
      LooksLeft(View());
      ProducerTouches(View(), Produce);
      current := slots[pCursor];
      prod := Next(View(), Produce).prod;
    }

    /** The compare-exchange on the oldest record's stamp. */
    method ClaimOldest() returns (won: bool)
      requires Valid() && prod.PClaim?
      modifies this`labels, this`prod, slots
      ensures Valid() && IsStep(old(View()), Produce, View()) && RunsOn()
      ensures old(prod).looks == 1
      ensures won ==> prod == PSwap(old(prod).value) && Acts(Producer) == old(Acts(Producer)) + Evicts(log, slots.Length)
      ensures !won ==>
                prod == PLook(old(prod).value, false, old(prod).reloaded, old(prod).looks) && Acts(Producer) == old(Acts(Producer))
    {
      hide Ledger, Reached, History, Seen;
      Stepped(start, labels, View(), Produce);
      labels := labels + [Produce];
      ClaimReady(View());
      ClaimSeen(View());
      var oldest := pIndex - slots.Length;
      won := slots[pCursor].index == oldest && slots[pCursor].owner == Full;
      if won {
        slots[pCursor] := slots[pCursor].(owner := HeldByProducer);
        prod := PSwap(prod.value);
      } else {
        prod := PLook(prod.value, false, prod.reloaded, prod.looks);
      }
    }

    /** Move the record into the slot, and what was there out. */
    method MoveIn(value: T) returns (was: Option<T>)
      requires Valid() && (prod == PFill(value) || prod == PSwap(value))
      modifies this`labels, this`prod, slots
      ensures Valid() && IsStep(old(View()), Produce, View()) && RunsOn()
      ensures prod == PPublish(value, if old(prod).PSwap? then was else None)
      ensures was.Some? <==> old(prod).PSwap?
      ensures was.Some? ==> Evicts(log, slots.Length) == [Queue.Evict(was.value)]
      ensures Acts(Producer) == old(Acts(Producer))
    {
      hide Ledger, Reached, History, Seen;
      MovesUnseen(View());
      Stepped(start, labels, View(), Produce);
      labels := labels + [Produce];
      MoveReady(View());
      was := slots[pCursor].record;
      slots[pCursor] := slots[pCursor].(record := Some(value));
      prod := PPublish(value, if prod.PSwap? then was else None);
    }

    /** Stamp the slot full at this index. */
    method Publish()
      requires Valid() && prod.PPublish?
      modifies this`labels, this`prod, this`log, slots
      ensures Valid() && IsStep(old(View()), Produce, View()) && RunsOn()
      ensures prod == PAdvance(old(prod).evicted) && log == old(log) + [old(prod).value]
      ensures Acts(Producer) == old(Acts(Producer)) + [Queue.Insert(old(prod).value)]
    {
      hide Ledger, Reached, History;
      Stepped(start, labels, View(), Produce);
      labels := labels + [Produce];
      slots[pCursor] := slots[pCursor].(index := pIndex, owner := Full);
      log := log + [prod.value];
      prod := PAdvance(prod.evicted);
    }

    /** The next slot, the index published, and an evicted record returned. */
    method AdvanceProducer()
      requires Valid() && prod.PAdvance?
      modifies this`labels, this`prod, this`pIndex, this`pCursor, this`write, this`dropped, this`returned
      ensures Valid() && IsStep(old(View()), Produce, View()) && RunsOn()
      ensures prod.PIdle? && returned == old(returned) + Held(old(prod).evicted)
      ensures Acts(Producer) == old(Acts(Producer))
    {
      hide Ledger, Reached, History, Seen;
      MovesUnseen(View());
      AdvanceIs(View());
      Stepped(start, labels, View(), Produce);
      hide Next, RingMachine.Enabled, Wrap;
      labels := labels + [Produce];
      var evicted := prod.evicted;
      pIndex, pCursor := pIndex + 1, Wrap(pCursor, slots.Length);
      write := pIndex;
      if evicted.Some? {
        dropped := dropped + 1;
        returned := returned + [evicted.value];
      }
      prod := PIdle;
    }

    /** Count the caller's record and give it back. */
    method GiveBack()
      requires Valid() && prod.PRefuse?
      modifies this`labels, this`prod, this`dropped, this`returned
      ensures Valid() && IsStep(old(View()), Produce, View()) && RunsOn()
      ensures prod.PIdle? && returned == old(returned) + [old(prod).value]
      ensures Acts(Producer) == old(Acts(Producer))
    {
      hide Ledger, Reached, History, Seen;
      MovesUnseen(View());
      Stepped(start, labels, View(), Produce);
      labels := labels + [Produce];
      dropped := dropped + 1;
      returned := returned + [prod.value];
      prod := PIdle;
    }

    /** Store at the slot just found free, or just won. */
    method Store(value: T) returns (was: Option<T>)
      requires Valid() && (prod == PFill(value) || prod == PSwap(value))
      modifies this, slots
      ensures Valid() && prod.PIdle?
      ensures log == old(log) + [value] && given == old(given) && RunsOn()
      ensures was.Some? <==> old(prod).PSwap?
      ensures was.Some? ==> Evicts(old(log), slots.Length) == [Queue.Evict(was.value)]
      ensures returned == old(returned) + Held(was)
      ensures Acts(Producer) == old(Acts(Producer)) + [Queue.Insert(value)]
    {
      hide Ledger, Reached, History, IsStep;
      was := MoveIn(value);
      ConsumerRuns();
      Publish();
      ConsumerRuns();
      AdvanceProducer();
    }

    /** Go for the oldest record, and store over it if it is won. */
    method Evict(value: T) returns (won: Option<T>)
      requires Valid() && prod.PClaim? && prod.value == value
      modifies this, slots
      ensures Valid() && given == old(given) && RunsOn()
      ensures old(prod).looks == 1
      ensures won.Some? ==> prod.PIdle? && log == old(log) + [value] && returned == old(returned) + [won.value]
                            && Acts(Producer) == old(Acts(Producer)) + [Queue.Evict(won.value), Queue.Insert(value)]
      ensures won.None? ==> prod == PLook(value, false, old(prod).reloaded, old(prod).looks)
                            && log == old(log) && returned == old(returned) && Acts(Producer) == old(Acts(Producer))
    {
      hide Ledger, Reached, History, IsStep;
      var exchanged := ClaimOldest();
      ConsumerRuns();
      won := None;
      if exchanged { won := Store(value); }
    }

    /** Under every schedule of the consumer this ends within three looks at
        the stamp, the record is stored exactly when it is not handed back, and
        what is handed back is what the ring counts. */
    method Push(value: T) returns (outcome: Push<T>, looks: nat)
      requires Valid() && prod.PIdle?
      modifies this, slots
      ensures Valid() && prod.PIdle?
      ensures 1 <= looks <= 3
      ensures given == old(given) + [value]
      ensures outcome.Stored? ==> log == old(log) + [value] && returned == old(returned)
      ensures outcome.Evicted? ==> log == old(log) + [value] && returned == old(returned) + [outcome.record]
      ensures outcome.Refused? ==> outcome.record == value && log == old(log) && returned == old(returned) + [value]
      ensures (outcome.Evicted? ==> looks == 1) && (outcome.Refused? ==> looks >= 2)
      ensures Called(old(View()), labels, CallPush(value), OfPush(value, outcome), View())
    {
      hide Valid, View, Acts, IsStep, Called;
      Begin(value, false);
      ghost var was := start;
      ConsumerRuns();
      looks := 0;
      var reloaded := false;
      while true
        invariant Valid() && prod == PLook(value, false, reloaded, looks)
        invariant given == old(given) + [value] && log == old(log) && returned == old(returned)
        invariant start == was && labels != [] && labels[0] == CallPush(value)
        invariant Acts(Producer) == [] && (reloaded ==> looks >= 1)
        decreases 3 - looks
      {
        var current := Look();
        looks := looks + 1;
        ConsumerRuns();
        if current.index == pIndex && current.owner == Empty {
          var _ := Store(value);
          Ends(CallPush(value), OfPush(value, Stored));
          return Stored, looks;
        }
        match current.owner {
          case Full =>
            assert current.index + slots.Length == pIndex;
            var won := Evict(value);
            if won.Some? {
              Ends(CallPush(value), OfPush(value, Evicted(won.value)));
              return Evicted(won.value), looks;
            }
          case HeldByConsumer =>
            if reloaded {
              GiveBack();
              Ends(CallPush(value), OfPush(value, Refused(value)));
              return Refused(value), looks;
            }
            reloaded := true;
          case _ => assert false;
        }
      }
    }

    /** Offer a record: store it if the slot for it is free at one look, and
        give it back if not. Nothing is ever evicted. */
    method Offer(value: T) returns (outcome: Push<T>)
      requires Valid() && prod.PIdle?
      modifies this, slots
      ensures Valid() && prod.PIdle?
      ensures given == old(given) + [value] && !outcome.Evicted?
      ensures outcome.Stored? ==> log == old(log) + [value] && returned == old(returned)
      ensures outcome.Refused? ==> outcome.record == value && log == old(log) && returned == old(returned) + [value]
      ensures Called(old(View()), labels, CallOffer(value), OfOffer(value, outcome), View())
    {
      hide Valid, View, Acts, IsStep, Called;
      Begin(value, true);
      ConsumerRuns();
      var current := Look();
      ConsumerRuns();
      if current.index == pIndex && current.owner == Empty {
        var _ := Store(value);
        Ends(CallOffer(value), OfOffer(value, Stored));
        return Stored;
      }
      GiveBack();
      Ends(CallOffer(value), OfOffer(value, Refused(value)));
      return Refused(value);
    }

    // ---- The consumer's actions, and `pop` made of them -------------------

    method BeginPop()
      requires Valid() && cons.CIdle?
      modifies this`start, this`labels, this`cons
      ensures Valid() && cons.CLook?
      ensures start == old(View()) && labels == [CallPop] && Acts(Consumer) == []
    {
      hide Ledger, Reached, History;
      start, labels := View(), [];
      NothingYet(start);
      Stepped(start, labels, View(), CallPop);
      labels := labels + [CallPop];
      cons := CLook;
    }

    /** Load the stamp of the slot at the cursor. */
    method Peek() returns (current: Slot<T>)
      requires Valid() && cons.CLook?
      modifies this`labels, this`cons
      ensures Valid() && IsStep(old(View()), Consume, View()) && RunsOn()
      ensures current == slots[cCursor]
      ensures cons == if (current.index == cIndex && current.owner == Empty) || current.index < cIndex then CIdle
                      else if current.index == cIndex && current.owner == Full then CClaim
                      else CSkip
      ensures cons.CIdle? ==> cIndex == |log|
      ensures Acts(Consumer) == old(Acts(Consumer)) + (if cons.CIdle? then [Queue.FindEmpty] else [])
    {
      hide Ledger, Reached, History;
      Stepped(start, labels, View(), Consume);
      labels := labels + [Consume];
      Answers(View());
      current := slots[cCursor];
      cons := Next(View(), Consume).cons;
    }

    /** Step over a slot whose record is gone. */
    method StepOver()
      requires Valid() && cons.CSkip?
      modifies this`labels, this`cons, this`cIndex, this`cCursor, this`read
      ensures Valid() && IsStep(old(View()), Consume, View()) && RunsOn()
      ensures cons.CLook? && cIndex == old(cIndex) + 1 <= |log| && Acts(Consumer) == old(Acts(Consumer))
    {
      hide Ledger, Reached, History, Seen;
      MovesUnseen(View());
      Stepped(start, labels, View(), Consume);
      labels := labels + [Consume];
      LedgerShape(Next(View(), Consume));
      cIndex, cCursor := cIndex + 1, Wrap(cCursor, slots.Length);
      read := cIndex;
      cons := CLook;
    }

    /** The compare-exchange that wins the record this end is owed. */
    method TakeOldest() returns (won: bool)
      requires Valid() && cons.CClaim?
      modifies this`labels, this`cons, slots
      ensures Valid() && IsStep(old(View()), Consume, View()) && RunsOn()
      ensures cons == if won then CMove else CSkip
      ensures won ==> cIndex < |log| && Acts(Consumer) == old(Acts(Consumer)) + Takes(log, cIndex)
      ensures !won ==> Acts(Consumer) == old(Acts(Consumer))
    {
      hide Ledger, Reached, History, Seen;
      Stepped(start, labels, View(), Consume);
      TakeReady(View());
      labels := labels + [Consume];
      won := slots[cCursor].index == cIndex && slots[cCursor].owner == Full;
      if won {
        slots[cCursor] := slots[cCursor].(owner := HeldByConsumer);
        cons := CMove;
      } else {
        cons := CSkip;
      }
    }

    /** Move the record out of the slot won. */
    method MoveOut() returns (value: T)
      requires Valid() && cons.CMove?
      modifies this`labels, this`cons, slots
      ensures Valid() && IsStep(old(View()), Consume, View()) && RunsOn()
      ensures cons == CRelease(value) && Takes(log, cIndex) == [Queue.Take(value)] && Acts(Consumer) == old(Acts(Consumer))
    {
      hide Ledger, Reached, History, Seen;
      MovesUnseen(View());
      Stepped(start, labels, View(), Consume);
      labels := labels + [Consume];
      Initialised(View());
      value := slots[cCursor].record.value;
      slots[cCursor] := slots[cCursor].(record := None);
      cons := CRelease(value);
    }

    /** Free the slot for its next lap. */
    method Free()
      requires Valid() && cons.CRelease?
      modifies this`labels, this`cons, slots
      ensures Valid() && IsStep(old(View()), Consume, View()) && RunsOn()
      ensures cons == CAdvance(old(cons).value) && Acts(Consumer) == old(Acts(Consumer)) + [Queue.Leave]
    {
      hide Ledger, Reached, History;
      Stepped(start, labels, View(), Consume);
      labels := labels + [Consume];
      slots[cCursor] := slots[cCursor].(index := cIndex + slots.Length, owner := Empty);
      cons := CAdvance(cons.value);
    }

    /** The next slot, and the index published. */
    method AdvanceConsumer()
      requires Valid() && cons.CAdvance?
      modifies this`labels, this`cons, this`cIndex, this`cCursor, this`read, this`taken, this`popped
      ensures Valid() && IsStep(old(View()), Consume, View()) && RunsOn()
      ensures cons.CIdle? && popped == old(popped) + [old(cons).value] && taken == old(taken) + [old(cIndex)]
      ensures Acts(Consumer) == old(Acts(Consumer))
    {
      hide Ledger, Reached, History, Seen;
      MovesUnseen(View());
      Stepped(start, labels, View(), Consume);
      labels := labels + [Consume];
      taken, popped := taken + [cIndex], popped + [cons.value];
      cIndex, cCursor := cIndex + 1, Wrap(cCursor, slots.Length);
      read := cIndex;
      cons := CIdle;
    }

    /** Take the record just won. */
    method Take(supply: nat -> T, budget: nat) returns (value: T, left: nat)
      requires Valid() && cons.CMove?
      modifies this, slots
      ensures Valid() && cons.CIdle? && RunsOn()
      ensures popped == old(popped) + [value]
      ensures |old(log)| <= |log| && left <= budget && |log| + left <= |old(log)| + budget
      ensures Takes(old(log), old(cIndex)) == [Queue.Take(value)]
      ensures Acts(Consumer) == old(Acts(Consumer)) + [Queue.Leave]
    {
      hide Ledger, Reached, History, IsStep;
      value := MoveOut();
      left := ProducerRuns(supply, budget);
      Free();
      left := ProducerRuns(supply, left);
      AdvanceConsumer();
    }

    /** Go for the record this end is owed, and take it if it is won. */
    method Claim(supply: nat -> T, budget: nat) returns (won: Option<T>, left: nat)
      requires Valid() && cons.CClaim?
      modifies this, slots
      ensures Valid() && RunsOn() && |old(log)| <= |log| && left <= budget && |log| + left <= |old(log)| + budget
      ensures won.Some? ==> cons.CIdle? && popped == old(popped) + [won.value]
                            && Acts(Consumer) == old(Acts(Consumer)) + OfPop(won)
      ensures won.None? ==> cons.CSkip? && popped == old(popped) && taken == old(taken) && cIndex == old(cIndex)
                            && Acts(Consumer) == old(Acts(Consumer))
    {
      hide Ledger, Reached, History, IsStep;
      var exchanged := TakeOldest();
      left := ProducerRuns(supply, budget);
      won := None;
      if exchanged {
        var value;
        value, left := Take(supply, left);
        won := Some(value);
      }
    }

    /** One look at the slot at the cursor, and what comes of it: the end of the
        call, or the next slot. */
    method Turn(supply: nat -> T, budget: nat) returns (over: bool, r: Option<T>, left: nat)
      requires Valid() && cons.CLook?
      modifies this, slots
      ensures Valid() && RunsOn() && |old(log)| <= |log| && left <= budget && |log| + left <= |old(log)| + budget
      ensures over ==> cons.CIdle? && Acts(Consumer) == old(Acts(Consumer)) + OfPop(r)
      ensures over && r.Some? ==> popped == old(popped) + [r.value]
      ensures over && r.None? ==> popped == old(popped) && taken == old(taken) && cIndex == |log|
      ensures !over ==> cons.CLook? && old(cIndex) < cIndex <= |log| && Acts(Consumer) == old(Acts(Consumer))
                        && popped == old(popped) && taken == old(taken)
    {
      hide Ledger, Reached, History, IsStep;
      over, r, left := true, None, budget;
      var current := Peek();
      if (current.index == cIndex && current.owner == Empty) || current.index < cIndex { return; }
      left := ProducerRuns(supply, left);
      if current.index == cIndex && current.owner == Full {
        r, left := Claim(supply, left);
        if r.Some? { return; }
      }
      StepOver();
      left := ProducerRuns(supply, left);
      over := false;
    }

    /** Whatever the producer does within its budget, the loop ends; a record
        it answers with is the one stored at the index it steps past; and it
        answers with none only after seeing, at one instant, that every record
        stored so far was gone. */
    method Pop(supply: nat -> T, budget: nat) returns (r: Option<T>)
      requires Valid() && cons.CIdle?
      modifies this, slots
      ensures Valid() && cons.CIdle?
      ensures r.Some? ==> popped == old(popped) + [r.value]
      ensures r.None? ==> popped == old(popped) && taken == old(taken) && cIndex >= |old(log)|
      ensures Called(old(View()), labels, CallPop, OfPop(r), View())
    {
      hide Valid, View, Acts, IsStep, Called;
      BeginPop();
      ghost var was := start;
      var left := ProducerRuns(supply, budget);
      while true
        invariant Valid() && cons.CLook? && |old(log)| <= |log|
        invariant popped == old(popped) && taken == old(taken)
        invariant start == was && labels != [] && labels[0] == CallPop && Acts(Consumer) == []
        decreases |log| + left - cIndex
      {
        var over;
        over, r, left := Turn(supply, left);
        if over {
          Ends(CallPop, OfPop(r));
          return;
        }
      }
    }
  }
}
