/** What every step on one connection's path keeps. */
module MergeProofs {
  import opened Basics
  import opened Merge

  lemma InvIsShaped<T>(p: Path<T>)
    requires Inv(p)
    ensures Shaped(p)
  {
  }

  // ---- Losses by label ---------------------------------------------------------------

  lemma {:induction false} LostSame<T>(p: Path<T>, p': Path<T>, ring: nat, answer: bool, n: nat)
    requires n <= |p.log| && n <= |p.fate| && n <= |p'.log| && n <= |p'.fate|
    requires forall k | 0 <= k < n :: p'.log[k] == p.log[k] && (p'.fate[k].Lost? <==> p.fate[k].Lost?)
    ensures LostAmong(p', ring, answer, n) == LostAmong(p, ring, answer, n)
  {
    if n > 0 { LostSame(p, p', ring, answer, n - 1); }
  }

  lemma {:induction false} LostOne<T>(p: Path<T>, p': Path<T>, x: nat, ring: nat, answer: bool, n: nat)
    requires Shaped(p) && x < n <= |p.log| && p'.log == p.log && |p'.fate| == |p.fate|
    requires p'.fate[x].Lost? && !p.fate[x].Lost?
    requires forall k | 0 <= k < n && k != x :: p'.fate[k] == p.fate[k]
    ensures LostAmong(p', ring, answer, n)
         == LostAmong(p, ring, answer, n) + if p.log[x].ring == ring && p.log[x].answer == answer then 1 else 0
  {
    if n == x + 1 { LostSame(p, p', ring, answer, x); } else { LostOne(p, p', x, ring, answer, n - 1); }
  }

  /** A step that loses nothing, with or without a new number. */
  lemma LabelsStay<T>(p: Path<T>, p': Path<T>)
    requires Shaped(p) && Labelled(p) && Shaped(p') && p'.counts == p.counts
    requires p'.log == p.log || (|p'.log| == |p.log| + 1 && p'.log[..|p.log|] == p.log && !p'.fate[|p.log|].Lost?)
    requires forall k | 0 <= k < |p.fate| :: p'.fate[k].Lost? <==> p.fate[k].Lost?
    ensures Labelled(p')
  {
    assert forall k | 0 <= k < |p.log| :: p'.log[k] == p.log[k];
    LostSame(p, p', LOSSY, false, |p.log|);
    LostSame(p, p', DURABLE, false, |p.log|);
    LostSame(p, p', DURABLE, true, |p.log|);
    LostSame(p, p', LIFECYCLE, false, |p.log|);
  }

  /** A loss counted by the ring and the record lost. */
  lemma LabelsLose<T>(p: Path<T>, p': Path<T>, x: nat)
    requires Shaped(p) && LogOk(p) && Labelled(p) && Shaped(p') && x < |p.log| && p'.log == p.log
    requires !p.fate[x].Lost? && p'.fate[x].Lost? && p'.fate == p.fate[x := p'.fate[x]]
    requires p'.counts == Count(p.counts, p.log[x].ring, p.log[x].answer)
    ensures Labelled(p')
  {
    LostOne(p, p', x, LOSSY, false, |p.log|);
    LostOne(p, p', x, DURABLE, false, |p.log|);
    LostOne(p, p', x, DURABLE, true, |p.log|);
    LostOne(p, p', x, LIFECYCLE, false, |p.log|);
    hide LostAmong;
  }

  // ---- Steps --------------------------------------------------------------------------

  lemma NumberKeeps<T>(p: Path<T>, w: Write<T>)
    requires Inv(p) && w.Number? && CanWrite(p, w)
    ensures Inv(Written(p, w))
  {
    var p' := Written(p, w);
    LabelsStay(p, p');
    hide Labelled;
    forall k: nat | k < |p'.log| ensures FateOk(p', k) {
      if k < |p.log| { assert FateOk(p, k); }
    }
    forall j: nat | j < 3 ensures RingOk(p', j) && HeldOk(p', j) { assert RingOk(p, j) && HeldOk(p, j); }
  }

  /** Every other step touches one ring `r` and the fate of one of its
      records, at place `x`. */
  ghost predicate OnlyAt<T>(p: Path<T>, p': Path<T>, r: nat, x: nat)
    requires Shaped(p)
  {
    && r < 3 && x < |p.log| && p.log[x].ring == r
    && |p'.rings| == 3 && |p'.held| == 3 && |p'.fate| == |p.fate| && |p'.ringDropped| == 3
    && p'.log == p.log
    && p'.rings == p.rings[r := p'.rings[r]]
    && p'.held == p.held[r := p'.held[r]]
    && p'.fate == p.fate[x := p'.fate[x]]
    && p.handed <= p'.handed && p.refusals <= p'.refusals && (p.closed ==> p'.closed)
    && (p'.busy ==> p.busy)
    && (forall i | 0 <= i < |p'.rings[r].items| :: 1 <= p'.rings[r].items[i] <= |p.log|)
  }

  lemma RingsKeep<T>(p: Path<T>, p': Path<T>, r: nat, x: nat)
    requires Shaped(p) && Rings(p) && OnlyAt(p, p', r, x) && Shaped(p')
    requires RingOk(p', r) && HeldOk(p', r)
    ensures Rings(p')
  {
    forall j: nat | j < 3 ensures RingOk(p', j) && HeldOk(p', j) { assert RingOk(p, j) && HeldOk(p, j); }
  }

  lemma FatesKeep<T>(p: Path<T>, p': Path<T>, r: nat, x: nat)
    requires Books(p) && Fates(p) && OnlyAt(p, p', r, x) && Books(p')
    requires FateOk(p', x) && Last(p) <= Last(p')
    requires Last(p') == Last(p) || forall k: nat | k < |p.log| && k != x ::
               p.fate[k].InPush? || p.fate[k].Waiting? || p.fate[k].Held? ==> Last(p') < k + 1
    requires forall k: nat | k < |p.log| && k != x && p.log[k].ring == r ::
               && (p.fate[k].Waiting? && k + 1 in p.rings[r].items ==> k + 1 in p'.rings[r].items)
               && (p.fate[k].Held? && p.held[r] == Some(k + 1) ==> p'.held[r] == Some(k + 1))
    ensures Fates(p')
  {
    forall k: nat | k < |p.log| ensures FateOk(p', k) { assert FateOk(p, k); }
  }

  /** What is known of the record being pushed and of its ring. */
  lemma AtPush<T>(p: Path<T>)
    requires Inv(p) && p.busy
    ensures var n := |p.log|; var r := Target(p);
            && RingOk(p, r) && HeldOk(p, r) && FateOk(p, n - 1)
            && Done(p) == n - 1
            && n !in p.rings[r].items && p.held[r] != Some(n)
            && forall i | 0 <= i < |p.rings[r].items| :: p.rings[r].items[i] < n
  {
  }

  lemma BooksKeep<T>(p: Path<T>, p': Path<T>, r: nat, x: nat)
    requires Books(p) && OnlyAt(p, p', r, x) && Shaped(p') && Accounted(p')
    requires p'.handed == p.handed && !p.fate[x].Handed? && !p'.fate[x].InPush?
    requires p'.closed ==> !p'.busy
    requires p'.busy <==> p.busy && x != |p.log| - 1
    ensures Books(p') && Last(p') == Last(p)
  {
  }

  /** What is left to show once the step's own ring and record are right. */
  lemma StepKeeps<T>(p: Path<T>, p': Path<T>, r: nat, x: nat)
    requires Inv(p) && OnlyAt(p, p', r, x) && Shaped(p')
    requires RingOk(p', r) && HeldOk(p', r) && Books(p') && FateOk(p', x)
    requires Last(p) <= Last(p')
    requires Last(p') == Last(p) || forall k: nat | k < |p.log| && k != x ::
               p.fate[k].InPush? || p.fate[k].Waiting? || p.fate[k].Held? ==> Last(p') < k + 1
    requires forall i | 0 <= i < |p.rings[r].items| && p.rings[r].items[i] != x + 1 ::
               p.rings[r].items[i] in p'.rings[r].items
    requires p.held[r].Some? && p.held[r].value != x + 1 ==> p'.held[r] == p.held[r]
    ensures Inv(p')
  {
    hide RingOk, HeldOk, LogOk, HandedOk, Accounted, FateOk, Last;
    RingsKeep(p, p', r, x);
    FatesKeep(p, p', r, x);
  }

  lemma StoreKeeps<T>(p: Path<T>)
    requires Inv(p) && p.busy && p.rings[Target(p)].Used() < p.rings[Target(p)].capacity
    ensures Inv(Stored(p))
  {
    AtPush(p);
    StoreShape(p);
    StoreRing(p);
    StoreBooks(p);
    assert Stored(p).rings[Target(p)].items == p.rings[Target(p)].items + [|p.log|];
    StepKeeps(p, Stored(p), Target(p), |p.log| - 1);
  }

  lemma StoreShape<T>(p: Path<T>)
    requires Inv(p) && p.busy && p.rings[Target(p)].Used() < p.rings[Target(p)].capacity
    ensures OnlyAt(p, Stored(p), Target(p), |p.log| - 1) && Shaped(Stored(p)) && Accounted(Stored(p))
  {
    AtPush(p);
    LabelsStay(p, Stored(p));
    hide LogOk, HandedOk, FateOk, Labelled;
  }

  lemma StoreRing<T>(p: Path<T>)
    requires Inv(p) && p.busy && p.rings[Target(p)].Used() < p.rings[Target(p)].capacity
    requires OnlyAt(p, Stored(p), Target(p), |p.log| - 1) && Shaped(Stored(p)) && Accounted(Stored(p))
    ensures RingOk(Stored(p), Target(p)) && HeldOk(Stored(p), Target(p))
  {
    AtPush(p);
    hide LogOk, HandedOk, FateOk, Accounted, Fates;
  }

  lemma StoreBooks<T>(p: Path<T>)
    requires Inv(p) && p.busy && p.rings[Target(p)].Used() < p.rings[Target(p)].capacity
    requires OnlyAt(p, Stored(p), Target(p), |p.log| - 1) && Shaped(Stored(p)) && Accounted(Stored(p))
    ensures Books(Stored(p)) && Last(Stored(p)) == Last(p) && FateOk(Stored(p), |p.log| - 1)
  {
    AtPush(p);
    BooksKeep(p, Stored(p), Target(p), |p.log| - 1);
    hide LogOk, HandedOk, RingOk, HeldOk, Accounted;
  }

  /** The record being pushed is lost to its own push. */
  lemma LostShape<T>(p: Path<T>, p': Path<T>)
    requires Inv(p) && p.busy && p' == if Target(p) == LIFECYCLE then TurnedAway(p) else Refused(p)
    ensures OnlyAt(p, p', Target(p), |p.log| - 1) && Shaped(p') && Accounted(p')
  {
    AtPush(p);
    LabelsLose(p, p', |p.log| - 1);
    hide LogOk, HandedOk, FateOk, Labelled;
  }

  lemma LostRing<T>(p: Path<T>, p': Path<T>)
    requires Inv(p) && p.busy && p' == if Target(p) == LIFECYCLE then TurnedAway(p) else Refused(p)
    requires OnlyAt(p, p', Target(p), |p.log| - 1) && Shaped(p') && Accounted(p')
    ensures RingOk(p', Target(p)) && HeldOk(p', Target(p))
  {
    AtPush(p);
    hide LogOk, HandedOk, FateOk, Accounted, Fates;
  }

  lemma LostBooks<T>(p: Path<T>, p': Path<T>)
    requires Inv(p) && p.busy && p' == if Target(p) == LIFECYCLE then TurnedAway(p) else Refused(p)
    requires OnlyAt(p, p', Target(p), |p.log| - 1) && Shaped(p') && Accounted(p')
    ensures Books(p') && Last(p') == Last(p) && FateOk(p', |p.log| - 1)
  {
    AtPush(p);
    BooksKeep(p, p', Target(p), |p.log| - 1);
    hide LogOk, HandedOk, RingOk, HeldOk, Accounted;
  }

  lemma LostKeeps<T>(p: Path<T>, p': Path<T>)
    requires Inv(p) && p.busy
    requires p' == if Target(p) == LIFECYCLE then TurnedAway(p) else Refused(p)
    ensures Inv(p')
  {
    LostShape(p, p');
    LostRing(p, p');
    LostBooks(p, p');
    StepKeeps(p, p', Target(p), |p.log| - 1);
  }

  lemma EvictShape<T>(p: Path<T>)
    requires Inv(p) && p.busy && Target(p) != LIFECYCLE && p.rings[Target(p)].items != []
    ensures OnlyAt(p, Evicted(p), Target(p), p.rings[Target(p)].items[0] - 1) && Shaped(Evicted(p))
  {
    AtPush(p);
    assert p.log[p.rings[Target(p)].items[0] - 1].ring == Target(p);
    hide LogOk, HandedOk, FateOk, RingOk, HeldOk, Accounted;
  }

  lemma EvictAccounted<T>(p: Path<T>)
    requires Books(p) && p.busy && Target(p) != LIFECYCLE && p.rings[Target(p)].items != [] && Shaped(Evicted(p))
    requires p.log[p.rings[Target(p)].items[0] - 1].ring == Target(p) && p.fate[p.rings[Target(p)].items[0] - 1].Waiting?
    ensures Accounted(Evicted(p))
  {
    LabelsLose(p, Evicted(p), p.rings[Target(p)].items[0] - 1);
    hide HandedOk, Labelled;
  }

  lemma EvictRing<T>(p: Path<T>)
    requires Inv(p) && p.busy && Target(p) != LIFECYCLE && p.rings[Target(p)].items != []
    requires OnlyAt(p, Evicted(p), Target(p), p.rings[Target(p)].items[0] - 1) && Shaped(Evicted(p)) && Accounted(Evicted(p))
    ensures RingOk(Evicted(p), Target(p)) && HeldOk(Evicted(p), Target(p))
  {
    AtPush(p);
    hide LogOk, HandedOk, FateOk, Accounted, Fates;
  }

  lemma EvictBooks<T>(p: Path<T>)
    requires Inv(p) && p.busy && Target(p) != LIFECYCLE && p.rings[Target(p)].items != []
    requires OnlyAt(p, Evicted(p), Target(p), p.rings[Target(p)].items[0] - 1) && Shaped(Evicted(p)) && Accounted(Evicted(p))
    ensures Books(Evicted(p)) && Last(Evicted(p)) == Last(p) && FateOk(Evicted(p), p.rings[Target(p)].items[0] - 1)
  {
    AtPush(p);
    BooksKeep(p, Evicted(p), Target(p), p.rings[Target(p)].items[0] - 1);
    hide LogOk, HandedOk, HeldOk, Accounted;
  }

  lemma EvictKeeps<T>(p: Path<T>)
    requires Inv(p) && p.busy && Target(p) != LIFECYCLE && p.rings[Target(p)].items != []
    ensures Inv(Evicted(p))
  {
    EvictShape(p);
    AtPush(p);
    EvictAccounted(p);
    EvictRing(p);
    EvictBooks(p);
    StepKeeps(p, Evicted(p), Target(p), p.rings[Target(p)].items[0] - 1);
  }

  lemma WriteKeeps<T>(p: Path<T>, w: Write<T>)
    requires Inv(p) && CanWrite(p, w)
    ensures Inv(Written(p, w))
  {
    if w.Number? {
      NumberKeeps(p, w);
    } else {
      var q := p.rings[Target(p)];
      if q.Used() < q.capacity { StoreKeeps(p); }
      else if Target(p) == LIFECYCLE { LostKeeps(p, TurnedAway(p)); }
      else if q.taking || q.items == [] { LostKeeps(p, Refused(p)); }
      else { EvictKeeps(p); }
    }
  }

  lemma TakeShape<T>(p: Path<T>, j: nat)
    requires Inv(p) && j < 3 && p.rings[j].items != [] && !p.rings[j].taking && p.held[j].None?
    ensures OnlyAt(p, Taken(p, j), j, p.rings[j].items[0] - 1) && Shaped(Taken(p, j))
  {
    assert RingOk(p, j) && FateOk(p, p.rings[j].items[0] - 1);
    assert p.log[p.rings[j].items[0] - 1].ring == j;
    hide LogOk, HandedOk, FateOk, RingOk, HeldOk, Accounted;
  }

  lemma TakeAccounted<T>(p: Path<T>, j: nat)
    requires Books(p) && j < 3 && p.rings[j].items != [] && p.held[j].None? && Shaped(Taken(p, j))
    requires p.fate[p.rings[j].items[0] - 1].Waiting?
    ensures Accounted(Taken(p, j))
  {
    hide LogOk, HandedOk, Labelled;
    LabelsStay(p, Taken(p, j));
  }

  lemma TakeRing<T>(p: Path<T>, j: nat)
    requires Inv(p) && j < 3 && p.rings[j].items != [] && !p.rings[j].taking && p.held[j].None?
    requires OnlyAt(p, Taken(p, j), j, p.rings[j].items[0] - 1) && Shaped(Taken(p, j)) && Accounted(Taken(p, j))
    ensures RingOk(Taken(p, j), j) && HeldOk(Taken(p, j), j)
  {
    assert RingOk(p, j);
    hide LogOk, HandedOk, FateOk, Accounted, Fates;
  }

  lemma TakeBooks<T>(p: Path<T>, j: nat)
    requires Inv(p) && j < 3 && p.rings[j].items != [] && !p.rings[j].taking && p.held[j].None?
    requires OnlyAt(p, Taken(p, j), j, p.rings[j].items[0] - 1) && Shaped(Taken(p, j)) && Accounted(Taken(p, j))
    ensures Books(Taken(p, j)) && Last(Taken(p, j)) == Last(p) && FateOk(Taken(p, j), p.rings[j].items[0] - 1)
  {
    assert RingOk(p, j) && FateOk(p, p.rings[j].items[0] - 1);
    BooksKeep(p, Taken(p, j), j, p.rings[j].items[0] - 1);
    hide LogOk, HandedOk, RingOk, HeldOk, Accounted;
  }

  lemma TakeKeeps<T>(p: Path<T>, j: nat)
    requires Inv(p) && j < 3 && p.rings[j].items != [] && !p.rings[j].taking && p.held[j].None?
    ensures Inv(Taken(p, j))
  {
    TakeShape(p, j);
    assert RingOk(p, j);
    TakeAccounted(p, j);
    TakeRing(p, j);
    TakeBooks(p, j);
    StepKeeps(p, Taken(p, j), j, p.rings[j].items[0] - 1);
  }

  lemma LeaveRings<T>(p: Path<T>, j: nat)
    requires Inv(p) && j < 3
    ensures Shaped(Left(p, j)) && Rings(Left(p, j))
  {
    hide LogOk, HandedOk, Accounted, FateOk, Fates;
    var p' := Left(p, j);
    forall i: nat | i < 3 ensures RingOk(p', i) && HeldOk(p', i) { assert RingOk(p, i) && HeldOk(p, i); }
  }

  lemma LeaveBooks<T>(p: Path<T>, j: nat)
    requires Books(p) && j < 3 && Shaped(Left(p, j))
    ensures Books(Left(p, j)) && Last(Left(p, j)) == Last(p)
  {
    hide Labelled;
    LabelsStay(p, Left(p, j));
  }

  lemma LeaveKeeps<T>(p: Path<T>, j: nat)
    requires Inv(p) && j < 3
    ensures Inv(Left(p, j))
  {
    hide RingOk, HeldOk, Labelled;
    LeaveRings(p, j);
    var p' := Left(p, j);
    LeaveBooks(p, j);
    hide LogOk, HandedOk, Accounted;
    forall k: nat | k < |p.log| ensures FateOk(p', k) { assert FateOk(p, k); }
  }

  /** The record in ring place `j` is the next: nothing still to come has a
      lower number. */
  predicate IsNext<T>(p: Path<T>, j: nat)
    requires Shaped(p) && j < 3
  {
    && p.held[j].Some?
    && forall k: nat | k < |p.fate| ::
         p.fate[k].InPush? || p.fate[k].Waiting? || p.fate[k].Held? ==> p.held[j].value <= k + 1
  }

  lemma HandOnLocal<T>(p: Path<T>, j: nat)
    requires Inv(p) && j < 3 && IsNext(p, j)
    ensures 1 <= p.held[j].value <= |p.log|
    ensures var p', x := HandedOn(p, j), p.held[j].value - 1;
            && OnlyAt(p, p', j, x) && Shaped(p')
            && RingOk(p', j) && HeldOk(p', j) && Last(p) < x + 1 == Last(p')
  {
    assert RingOk(p, j) && HeldOk(p, j) && FateOk(p, p.held[j].value - 1);
    hide LogOk, HandedOk, Accounted, Fates;
  }

  lemma HandOnBooks<T>(p: Path<T>, j: nat)
    requires Inv(p) && j < 3 && p.held[j].Some? && 1 <= p.held[j].value <= |p.log| && Shaped(HandedOn(p, j))
    requires p.fate[p.held[j].value - 1].Held? && Last(p) < p.held[j].value
    ensures Books(HandedOn(p, j)) && FateOk(HandedOn(p, j), p.held[j].value - 1)
  {
    LastIsMost(p);
    LabelsStay(p, HandedOn(p, j));
    hide RingOk, HeldOk, FateOk, Labelled;
    assert Accounted(HandedOn(p, j));
    assert HandedOk(HandedOn(p, j));
    assert HandedOn(p, j).handed[|p.handed|] == p.held[j].value;
  }

  lemma LastIsMost<T>(p: Path<T>)
    requires Inv(p)
    ensures forall a | 0 <= a < |p.handed| :: p.handed[a] <= Last(p)
  {
  }

  lemma HandOnKeeps<T>(p: Path<T>, j: nat)
    requires Inv(p) && j < 3 && IsNext(p, j)
    ensures 1 <= p.held[j].value <= |p.log|
    ensures Inv(HandedOn(p, j)) && Last(p) < p.held[j].value == Last(HandedOn(p, j))
  {
    HandOnLocal(p, j);
    assert HeldOk(p, j);
    HandOnBooks(p, j);
    StepKeeps(p, HandedOn(p, j), j, p.held[j].value - 1);
  }
}
