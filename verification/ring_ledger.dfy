/** Who has each record: ownership of slots, conservation of records over
    runs, and the bounds the code's comments promise. */
module RingLedger {
  import opened Basics
  import opened RingMachine
  import opened RingProofs
  import opened RingRefinement

  function Held<T>(o: Option<T>): seq<T> { if o.Some? then [o.value] else [] }

  /** What the producer has in hand: the record it was given until that is
      live, and the record it has evicted until that is returned. */
  function ProducerHand<T>(s: State<T>): seq<T>
    requires s.prod.PSwap? ==> |s.slots| <= |s.log| && |s.slots| > 0
  {
    match s.prod
    case PLook(v, _, _, _) => [v]
    case PClaim(v, _, _) => [v]
    case PFill(v) => [v]
    case PRefuse(v) => [v]
    case PSwap(v) => [v, s.log[|s.log| - |s.slots|]]
    case PPublish(v, e) => [v] + Held(e)
    case PAdvance(e) => Held(e)
    case _ => []
  }

  function ConsumerHand<T>(s: State<T>): seq<T>
    requires s.cons.CMove? ==> s.cIndex < |s.log|
  {
    match s.cons
    case CMove => [s.log[s.cIndex]]
    case CRelease(v) => [v]
    case CAdvance(v) => [v]
    case _ => []
  }

  /** Where every record handed in may be. */
  datatype Books<T> = Books(given: seq<T>, popped: seq<T>, returned: seq<T>,
                            items: seq<T>, producer: seq<T>, consumer: seq<T>)
  {
    /** Every record handed in is in exactly one place. */
    ghost predicate Balance() {
      multiset(given)
      == multiset(popped) + multiset(returned) + multiset(items) + multiset(producer) + multiset(consumer)
    }
  }

  /** Enough of the invariant to say where every record is. */
  predicate Readable<T>(s: State<T>) {
    && |s.slots| > 0
    && Oldest(s) <= |s.log|
    && (s.prod.PSwap? ==> |s.slots| <= |s.log|)
    && (s.cons.CMove? ==> s.cIndex < |s.log|)
  }

  function BooksOf<T>(s: State<T>): Books<T>
    requires Readable(s)
  {
    Books(s.given, s.popped, s.returned, Abs(s).items, ProducerHand(s), ConsumerHand(s))
  }

  /** The ways a record changes hands. */
  datatype Move = Stay | Give | Evict | Publish | Return | Take | Pop

  ghost predicate Moves<T>(m: Move, b: Books<T>, b': Books<T>) {
    match m
    case Stay => b' == b
    case Give => b.producer == [] && b' == b.(given := b.given + b'.producer, producer := b'.producer)
    case Evict => b.items != [] && b' == b.(items := b.items[1..], producer := b.producer + b.items[..1])
    case Publish =>
      b.producer != [] && b' == b.(items := b.items + b.producer[..1], producer := b.producer[1..])
    case Return =>
      b.producer != [] && b' == b.(returned := b.returned + b.producer[..1], producer := b.producer[1..])
    case Take => b.items != [] && b' == b.(items := b.items[1..], consumer := b.consumer + b.items[..1])
    case Pop =>
      b.consumer != [] && b' == b.(popped := b.popped + b.consumer[..1], consumer := b.consumer[1..])
  }

  lemma HeadApart<T>(s: seq<T>)
    ensures s != [] ==> multiset(s) == multiset(s[..1]) + multiset(s[1..])
  {
    if s != [] { assert s == s[..1] + s[1..]; }
  }

  lemma MovesBalance<T>(m: Move, b: Books<T>, b': Books<T>)
    requires Moves(m, b, b') && b.Balance()
    ensures b'.Balance()
  {
    match m
    case Stay =>
    case Give =>
    case Evict => HeadApart(b.items);
    case Take => HeadApart(b.items);
    case Publish => HeadApart(b.producer);
    case Return => HeadApart(b.producer);
    case Pop => HeadApart(b.consumer);
  }

  /** What has been popped is a subsequence of what was stored, in order. */
  ghost predicate InOrder<T>(s: State<T>) {
    && |s.taken| == |s.popped|
    && (forall k | 0 <= k < |s.taken| :: s.taken[k] < |s.log| && s.popped[k] == s.log[s.taken[k]])
    && (forall k | 0 <= k < |s.taken| :: s.taken[k] < s.cIndex)
    && (forall j, k | 0 <= j < k < |s.taken| :: s.taken[j] < s.taken[k])
  }

  /** `a` is `b` with some records left out, and in the same order. */
  ghost predicate Subsequence<T>(a: seq<T>, b: seq<T>)
    decreases |b|
  {
    a == [] || (b != [] &&
    ((a[|a| - 1] == b[|b| - 1] && Subsequence(a[..|a| - 1], b[..|b| - 1])) || Subsequence(a, b[..|b| - 1])))
  }

  lemma SubsequenceSkips<T>(a: seq<T>, b: seq<T>, x: T)
    requires Subsequence(a, b)
    ensures Subsequence(a, b + [x])
  {
    assert (b + [x])[..|b|] == b;
  }

  lemma SubsequenceTakes<T>(a: seq<T>, b: seq<T>, x: T)
    requires Subsequence(a, b)
    ensures Subsequence(a + [x], b + [x])
  {
    assert (a + [x])[..|a|] == a && (b + [x])[..|b|] == b;
  }

  lemma {:induction false} SubsequenceFollows<T>(a: seq<T>, b: seq<T>, c: seq<T>)
    requires Subsequence(a, b) && Subsequence(b, c)
    ensures Subsequence(a, c)
    decreases |c|
  {
    if a != [] {
      var c' := c[..|c| - 1];
      if b[|b| - 1] == c[|c| - 1] && Subsequence(b[..|b| - 1], c') {
        if a[|a| - 1] == b[|b| - 1] && Subsequence(a[..|a| - 1], b[..|b| - 1]) {
          SubsequenceFollows(a[..|a| - 1], b[..|b| - 1], c');
        } else {
          SubsequenceFollows(a, b[..|b| - 1], c');
        }
      } else {
        SubsequenceFollows(a, b, c');
      }
    }
  }

  /** Records at rising places. */
  lemma {:induction false} RisingIsSubsequence<T>(a: seq<T>, at: seq<nat>, b: seq<T>)
    requires |at| == |a| && forall k | 0 <= k < |at| :: at[k] < |b| && a[k] == b[at[k]]
    requires forall j, k | 0 <= j < k < |at| :: at[j] < at[k]
    ensures Subsequence(a, b)
    decreases |b|
  {
    if a != [] {
      assert at[|at| - 1] < |b|;
      var b' := b[..|b| - 1];
      if at[|at| - 1] == |b| - 1 {
        RisingIsSubsequence(a[..|a| - 1], at[..|at| - 1], b');
      } else {
        RisingIsSubsequence(a, at, b');
      }
    }
  }

  /** The record given and not yet stored, if there is one. */
  function Unstored<T>(s: State<T>): seq<T> {
    match s.prod
    case PLook(v, _, _, _) => [v]
    case PClaim(v, _, _) => [v]
    case PFill(v) => [v]
    case PRefuse(v) => [v]
    case PSwap(v) => [v]
    case PPublish(v, _) => [v]
    case _ => []
  }

  /** What has been stored is a subsequence of what was given: the record in
      hand is the last given, and the rest are stored in order or not at all. */
  ghost predicate Embeds<T>(log: seq<T>, given: seq<T>, hand: seq<T>) {
    |hand| <= |given| && given[|given| - |hand|..] == hand && Subsequence(log, given[..|given| - |hand|])
  }

  lemma EmbedsGiven<T>(log: seq<T>, given: seq<T>, v: T)
    requires Embeds(log, given, [])
    ensures Embeds(log, given + [v], [v])
  {
    assert given[..|given|] == given && (given + [v])[..|given|] == given;
  }

  lemma EmbedsStored<T>(log: seq<T>, given: seq<T>, v: T)
    requires Embeds(log, given, [v])
    ensures Embeds(log + [v], given, [])
  {
    var rest := given[..|given| - 1];
    SubsequenceTakes(log, rest, v);
    assert given == rest + [v] && given[..|given|] == given;
  }

  lemma EmbedsReturned<T>(log: seq<T>, given: seq<T>, v: T)
    requires Embeds(log, given, [v])
    ensures Embeds(log, given, [])
  {
    var rest := given[..|given| - 1];
    SubsequenceSkips(log, rest, v);
    assert given == rest + [v] && given[..|given|] == given;
  }

  ghost predicate StoredInOrder<T>(s: State<T>) { Embeds(s.log, s.given, Unstored(s)) }

  ghost predicate Ledger<T>(s: State<T>) {
    Inv(s) && BooksOf(s).Balance() && InOrder(s) && StoredInOrder(s) && s.dropped == |s.returned|
  }

  /** Which move a step is. */
  function MoveOf<T>(s: State<T>, l: Label<T>): Move
    requires Shaped(s) && Enabled(s, l)
  {
    match l
    case CallPop => Stay
    case Produce => (
      match s.prod
      case PRefuse(_) => Return
      case PClaim(_, _, _) => if Next(s, l).prod.PSwap? then Evict else Stay
      case PPublish(_, _) => Publish
      case PAdvance(e) => if e.Some? then Return else Stay
      case _ => Stay
    )
    case Consume => (
      match s.cons
      case CClaim => if Next(s, l).cons.CMove? then Take else Stay
      case CAdvance(_) => Pop
      case _ => Stay
    )
    case _ => Give
  }

  lemma CallMoves<T>(s: State<T>, l: Label<T>)
    requires Core(s) && Enabled(s, l) && !l.Produce? && !l.Consume? && Readable(Next(s, l))
    ensures Moves(MoveOf(s, l), BooksOf(s), BooksOf(Next(s, l)))
  {
  }

  lemma LookMoves<T>(s: State<T>)
    requires Core(s) && s.prod.PLook? && Readable(Next(s, Produce)) && !Next(s, Produce).prod.PUnreachable?
    ensures Moves(MoveOf(s, Produce), BooksOf(s), BooksOf(Next(s, Produce)))
  {
    assert Oldest(Next(s, Produce)) == Oldest(s);
  }

  lemma ClaimMoves<T>(s: State<T>)
    requires Core(s) && s.prod.PClaim? && Readable(Next(s, Produce))
    requires s.slots[s.pCursor] == Expected(s, |s.log|)
    ensures Moves(MoveOf(s, Produce), BooksOf(s), BooksOf(Next(s, Produce)))
  {
    if Next(s, Produce).prod.PSwap? {
      ClaimWins(s);
    } else {
      assert Oldest(Next(s, Produce)) == Oldest(s);
    }
  }

  lemma ClaimWins<T>(s: State<T>)
    requires Core(s) && s.prod.PClaim? && Readable(Next(s, Produce))
    requires s.slots[s.pCursor] == Expected(s, |s.log|) && Next(s, Produce).prod.PSwap?
    ensures Moves(MoveOf(s, Produce), BooksOf(s), BooksOf(Next(s, Produce)))
  {
    var s', at := Next(s, Produce), |s.log| - |s.slots|;
    assert Oldest(s) == at && Oldest(s') == at + 1;
    assert s.log[at..][..1] == [s.log[at]] && s.log[at..][1..] == s.log[at + 1..];
    hide Core, Expected;
  }

  lemma WriteMoves<T>(s: State<T>)
    requires Core(s) && (s.prod.PSwap? || s.prod.PFill?) && Readable(Next(s, Produce))
    requires s.slots[s.pCursor] == Expected(s, |s.log|)
    ensures Moves(MoveOf(s, Produce), BooksOf(s), BooksOf(Next(s, Produce)))
  {
    assert Oldest(Next(s, Produce)) == Oldest(s);
  }

  lemma PublishMoves<T>(s: State<T>)
    requires Core(s) && s.prod.PPublish? && Readable(Next(s, Produce))
    ensures Moves(MoveOf(s, Produce), BooksOf(s), BooksOf(Next(s, Produce)))
  {
    assert Oldest(Next(s, Produce)) == Oldest(s);
    assert ([s.prod.value] + Held(s.prod.evicted))[1..] == Held(s.prod.evicted);
  }

  lemma AdvanceMoves<T>(s: State<T>)
    requires Core(s) && s.prod.PAdvance? && Readable(Next(s, Produce))
    ensures Moves(MoveOf(s, Produce), BooksOf(s), BooksOf(Next(s, Produce)))
  {
    assert Oldest(Next(s, Produce)) == Oldest(s);
  }

  lemma RefuseMoves<T>(s: State<T>)
    requires Core(s) && s.prod.PRefuse? && Readable(Next(s, Produce))
    ensures Moves(MoveOf(s, Produce), BooksOf(s), BooksOf(Next(s, Produce)))
  {
    assert Oldest(Next(s, Produce)) == Oldest(s);
  }

  lemma OutMoves<T>(s: State<T>)
    requires Core(s) && s.cons.CMove? && Readable(Next(s, Consume))
    requires s.slots[s.cCursor].record == Some(s.log[s.cIndex])
    ensures Moves(MoveOf(s, Consume), BooksOf(s), BooksOf(Next(s, Consume)))
  {
    assert Oldest(Next(s, Consume)) == Oldest(s);
  }

  lemma TakeMoves<T>(s: State<T>)
    requires Core(s) && s.cons.CClaim? && Readable(Next(s, Consume))
    requires Next(s, Consume).cons.CMove? ==> Oldest(s) == s.cIndex
    ensures Moves(MoveOf(s, Consume), BooksOf(s), BooksOf(Next(s, Consume)))
  {
    var s' := Next(s, Consume);
    if s'.cons.CMove? {
      assert s.log[s.cIndex..][..1] == [s.log[s.cIndex]] && Oldest(s') == Oldest(s) + 1;
    } else {
      assert Oldest(s') == Oldest(s);
    }
  }

  lemma WalkMoves<T>(s: State<T>)
    requires Core(s) && Enabled(s, Consume) && !s.cons.CClaim? && !s.cons.CMove? && Readable(Next(s, Consume))
    ensures Moves(MoveOf(s, Consume), BooksOf(s), BooksOf(Next(s, Consume)))
  {
    assert Oldest(Next(s, Consume)) == Oldest(s);
  }

  lemma StepMoves<T>(s: State<T>, l: Label<T>)
    requires Inv(s) && Enabled(s, l) && Inv(Next(s, l))
    ensures Moves(MoveOf(s, l), BooksOf(s), BooksOf(Next(s, l)))
  {
    match l
    case Produce =>
      if s.prod.PLook? { LookMoves(s); }
      else if s.prod.PPublish? { PublishMoves(s); }
      else if s.prod.PAdvance? { AdvanceMoves(s); }
      else if s.prod.PRefuse? { RefuseMoves(s); }
      else if s.prod.PClaim? { AtProducer(s); ClaimMoves(s); }
      else { AtProducer(s); WriteMoves(s); }
    case Consume =>
      if s.cons.CClaim? {
        AtConsumer(s);
        TakeMoves(s);
      } else if s.cons.CMove? {
        AtConsumer(s);
        OutMoves(s);
      } else {
        WalkMoves(s);
      }
    case _ => CallMoves(s, l);
  }

  lemma LogGrows<T>(s: State<T>)
    requires Shaped(s) && Enabled(s, Produce)
    ensures var s' := Next(s, Produce);
            s'.taken == s.taken && s'.popped == s.popped && s'.cIndex == s.cIndex && s.log <= s'.log
            && (s'.dropped - s.dropped == |s'.returned| - |s.returned|)
  {
  }

  lemma OrderKeeps<T>(s: State<T>, l: Label<T>)
    requires Core(s) && InOrder(s) && s.dropped == |s.returned| && Enabled(s, l)
    ensures InOrder(Next(s, l)) && Next(s, l).dropped == |Next(s, l).returned|
  {
    if l.Produce? {
      LogGrows(s);
    } else if l.Consume? && s.cons.CAdvance? {
      assert Next(s, l).taken == s.taken + [s.cIndex];
    }
  }

  lemma StoredKeeps<T>(s: State<T>, l: Label<T>)
    requires Shaped(s) && StoredInOrder(s) && Enabled(s, l) && !Next(s, l).prod.PUnreachable?
    ensures StoredInOrder(Next(s, l))
  {
    hide Embeds;
    match l
    case Produce =>
      if s.prod.PPublish? { EmbedsStored(s.log, s.given, s.prod.value); }
      if s.prod.PRefuse? { EmbedsReturned(s.log, s.given, s.prod.value); }
    case CallPush(v) => EmbedsGiven(s.log, s.given, v);
    case CallOffer(v) => EmbedsGiven(s.log, s.given, v);
    case _ =>
  }

  lemma LedgerKeeps<T>(s: State<T>, l: Label<T>)
    requires Ledger(s) && Enabled(s, l)
    ensures Ledger(Next(s, l))
  {
    hide StoredInOrder;
    StepRefines(s, l);
    ThreeLooks(Next(s, l));
    StoredKeeps(s, l);
    StepMoves(s, l);
    OrderKeeps(s, l);
    MovesBalance(MoveOf(s, l), BooksOf(s), BooksOf(Next(s, l)));
  }

  /** Over every run, every record given is popped, returned, queued or in one
      hand, exactly once; and `dropped` counts what was returned. */
  lemma {:induction false} LedgerRuns<T>(s: State<T>, ls: seq<Label<T>>)
    requires Ledger(s) && Path(s, ls)
    ensures Ledger(Final(s, ls))
    decreases |ls|
  {
    if ls != [] {
      LedgerKeeps(s, ls[0]);
      LedgerRuns(Next(s, ls[0]), ls[1..]);
    }
  }

  lemma InitBalances<T>(capacity: nat)
    requires capacity > 0
    ensures Ledger(Init<T>(capacity)) && !Init<T>(capacity).prod.PUnreachable?
  {
    InitOk<T>(capacity);
    InitBooks<T>(capacity);
    InitStored<T>(capacity);
    hide Inv, BooksOf, StoredInOrder, Books.Balance;
  }

  lemma InitBooks<T>(capacity: nat)
    requires capacity > 0
    ensures Readable(Init<T>(capacity)) && BooksOf(Init<T>(capacity)).Balance()
  {
    assert Abs(Init<T>(capacity)).items == [];
  }

  lemma InitStored<T>(capacity: nat)
    ensures StoredInOrder(Init<T>(capacity))
  {
    var none: seq<T> := [];
    assert none[..0] == [] && none[0..] == [];
  }

  /** From a new ring: the books balance, and what has been popped is a
      subsequence of what was stored, and that of what was given, in order. */
  lemma NothingLost<T>(capacity: nat, ls: seq<Label<T>>)
    requires capacity > 0 && Path(Init<T>(capacity), ls)
    ensures var s := Final(Init<T>(capacity), ls);
            && Ledger(s) && Subsequence(s.popped, s.log) && Subsequence(s.log, s.given) && Subsequence(s.popped, s.given)
  {
    hide *;
    InitBalances<T>(capacity);
    LedgerRuns(Init<T>(capacity), ls);
    PoppedInOrder(Final(Init<T>(capacity), ls));
  }

  lemma PoppedInOrder<T>(s: State<T>)
    requires Ledger(s)
    ensures Subsequence(s.popped, s.log) && Subsequence(s.log, s.given) && Subsequence(s.popped, s.given)
  {
    hide Inv, BooksOf, Subsequence;
    RisingIsSubsequence(s.popped, s.taken, s.log);
    if Unstored(s) != [] { EmbedsReturned(s.log, s.given, Unstored(s)[0]); }
    assert s.given[..|s.given|] == s.given;
    SubsequenceFollows(s.popped, s.log, s.given);
  }

  // ---- Ownership ---------------------------------------------------------

  /** The producer may touch a slot's record only here, the consumer only
      where it is taking; never both in one slot, and never memory that is not
      initialised. */
  lemma OneOwner<T>(s: State<T>)
    requires Inv(s)
    ensures (s.prod.PFill? || s.prod.PSwap? || s.prod.PPublish?) && Taking(s) ==> s.pCursor != s.cCursor
    ensures s.prod.PSwap? ==> s.slots[s.pCursor].record.Some?
    ensures s.prod.PFill? ==> s.slots[s.pCursor].record.None?
    ensures s.cons.CMove? ==> s.slots[s.cCursor].record.Some?
  {
    if !s.prod.PAdvance? { AtProducer(s); }
    if !s.cons.CAdvance? { AtConsumer(s); }
    if (s.prod.PFill? || s.prod.PSwap? || s.prod.PPublish?) && Taking(s) {
      SamePlace(s.cIndex, |s.slots|);
      DifferentPlaces(|s.log|, s.cIndex + |s.slots|, |s.slots|);
    }
  }

  /** A full slot never names a record the consumer has passed. */
  lemma NoneLeftBehind<T>(s: State<T>, k: nat)
    requires Inv(s) && k < |s.slots| && s.slots[k].owner == Full
    ensures Oldest(s) <= s.slots[k].index < |s.log|
    ensures Place(s.slots[k].index, |s.slots|) == k
    ensures s.slots[k].record == Some(s.log[s.slots[k].index])
  {
    var n := |s.slots|;
    var j := LapIndex(s, k);
    assert s.slots[Place(j, n)] == Expected(s, j);
    SamePlace(j - n, n);
  }

  lemma LapIndex<T>(s: State<T>, k: nat) returns (j: nat)
    requires |s.slots| > 0 && k < |s.slots|
    ensures |s.log| <= j < |s.log| + |s.slots| && Place(j, |s.slots|) == k
  {
    FirstLap(k, |s.slots|);
    if k <= |s.log| {
      j := OnThisLap(k, |s.log|, |s.slots|);
    } else {
      j := k;
    }
  }

  /** And every record still in the queue is in the slot of its index. */
  lemma EveryLiveIsFull<T>(s: State<T>, i: nat)
    requires Inv(s) && Oldest(s) <= i < |s.log|
    ensures s.slots[Place(i, |s.slots|)] == Slot(i, Full, Some(s.log[i]))
  {
    SamePlace(i, |s.slots|);
    assert s.slots[Place(i + |s.slots|, |s.slots|)] == Expected(s, i + |s.slots|);
  }

  // ---- What a step leaves alone ----------------------------------------

  /** The producer's own fields and the one slot it stands at are all that
      differ. */
  ghost predicate ProducerOnly<T>(s: State<T>, s': State<T>)
    requires Shaped(s)
  {
    && |s'.slots| == |s.slots|
    && s' == s.(slots := s.slots[s.pCursor := s'.slots[s.pCursor]], write := s'.write,
                dropped := s'.dropped, pIndex := s'.pIndex, pCursor := s'.pCursor,
                prod := s'.prod, log := s'.log, given := s'.given, returned := s'.returned)
  }

  lemma ProducerTouches<T>(s: State<T>, l: Label<T>)
    requires Shaped(s) && Enabled(s, l) && !l.CallPop? && !l.Consume?
    ensures ProducerOnly(s, Next(s, l)) && s.log <= Next(s, l).log && |Next(s, l).log| <= |s.log| + 1
  {
  }

  /** What is known before a look. */
  lemma LooksLeft<T>(s: State<T>)
    requires Ledger(s) && s.prod.PLook?
    ensures Shaped(s) && s.prod.looks <= 2
    ensures !Next(s, Produce).prod.PUnreachable?
    ensures var at := s.slots[s.pCursor];
            && (at.owner == Full ==> at.index + |s.slots| == s.pIndex)
            && (at.owner == Full || at.owner == HeldByConsumer || (at.owner == Empty && at.index == s.pIndex))
  {
    ProducerKeeps(s);
    AtProducer(s);
  }

  /** The consumer's own fields and the one slot it stands at. */
  ghost predicate ConsumerOnly<T>(s: State<T>, s': State<T>)
    requires Shaped(s)
  {
    && |s'.slots| == |s.slots|
    && s' == s.(slots := s.slots[s.cCursor := s'.slots[s.cCursor]], read := s'.read,
                cIndex := s'.cIndex, cCursor := s'.cCursor, cons := s'.cons,
                taken := s'.taken, popped := s'.popped)
  }

  lemma ConsumerTouches<T>(s: State<T>, l: Label<T>)
    requires Shaped(s) && Enabled(s, l) && (l.CallPop? || l.Consume?)
    ensures ConsumerOnly(s, Next(s, l))
  {
  }

  // ---- Bounds ------------------------------------------------------------

  /** `push` looks at the stamp at most three times, the third look decides,
      `offer` looks once, and the arm the code calls unreachable is. */
  lemma ThreeLooks<T>(s: State<T>)
    requires Inv(s)
    ensures !s.prod.PUnreachable?
    ensures s.prod.PLook? ==> s.prod.looks < 3
    ensures s.prod.PLook? && (s.prod.looks == 2 || s.prod.offering) ==>
              var s' := Next(s, Produce); s'.prod.PRefuse? || s'.prod.PFill?
    ensures s.prod.PClaim? ==>
              s.slots[s.pCursor].owner == Full ==> s.slots[s.pCursor].index + |s.slots| == s.pIndex
  {
    if !s.prod.PAdvance? { AtProducer(s); }
  }

  /** `Ring::len`, both indices read at one instant. */
  function Len<T>(s: State<T>): nat { Min(Max(s.write - s.read, 0), |s.slots|) }

  /** With the producer between calls, a record in the queue shows in the
      published indices; this is what the parking thread relies on. */
  lemma LiveShows<T>(s: State<T>)
    requires Inv(s) && s.prod.PIdle? && Oldest(s) < |s.log|
    ensures s.write > s.read && Len(s) > 0
  {
  }

  /** With both ends between calls the depth gauge is exact. */
  lemma QuietLenIsExact<T>(s: State<T>)
    requires Inv(s) && s.prod.PIdle? && s.cons.CIdle?
    ensures Oldest(s) <= |s.log| && Len(s) == |Abs(s).items|
  {
  }

  /** `read` runs past `write` by at most one, and only while the producer is
      between publishing a record and publishing its index. */
  lemma ReadAhead<T>(s: State<T>)
    requires Inv(s)
    ensures s.read <= s.write + 1
    ensures s.read == s.write + 1 ==> s.prod.PAdvance?
  {
  }

  /** `Drop for Ring`: with both ends gone, walk the slots and drop what the
      full ones hold. `freed` is the indices dropped: every live record, once,
      and nothing else. */
  method DropAll<T>(s: State<T>) returns (freed: seq<nat>)
    requires Inv(s) && s.prod.PIdle? && s.cons.CIdle?
    ensures forall i :: i in freed <==> Oldest(s) <= i < |s.log|
    ensures forall a, b :: 0 <= a < b < |freed| ==> freed[a] != freed[b]
  {
    freed := [];
    hide SlotsOk, ProducerOk, ConsumerOk;
    for k := 0 to |s.slots|
      invariant forall i :: i in freed ==> Oldest(s) <= i < |s.log| && Place(i, |s.slots|) < k
      invariant forall i | Oldest(s) <= i < |s.log| && Place(i, |s.slots|) < k :: i in freed
      invariant forall a, b :: 0 <= a < b < |freed| ==> freed[a] != freed[b]
    {
      if s.slots[k].owner == Full {
        NoneLeftBehind(s, k);
        freed := freed + [s.slots[k].index];
      }
      forall i | Oldest(s) <= i < |s.log| && Place(i, |s.slots|) < k + 1 ensures i in freed {
        EveryLiveIsFull(s, i);
      }
    }
  }
}
