/** Why a push may be taken as one step: whatever the connection's own thread
    does between its steps, it could as well have done before or after. */
module Interleaving {
  import opened Basics
  import opened Merge
  import opened MergeProofs
  import opened Delivery

  /** Between the number and the first look at the ring, the thread could have
      gone first. */
  lemma NumberThenRest<T>(p: Path<T>, w: Write<T>, r: Rest)
    requires Inv(p) && w.Number? && CanWrite(p, w) && Inv(Written(p, w))
    requires Inv(Rested(p, r)) && CanWrite(Rested(p, r), w)
    ensures Rested(Written(p, w), r) == Written(Rested(p, r), w)
  {
    var n := Written(p, w);
    assert HeldOk(p, r.ring);
    match r
    case Take(j) => if p.rings[j].items != [] && !p.rings[j].taking && p.held[j].None? { TakeNumbers(p, w, j); }
    case Leave(j) =>
    case HandOn(j) =>
      IsNextNumbers(p, w, j);
      if IsNext(p, j) { HandOnNumbers(p, w, j); }
  }

  lemma TakeNumbers<T>(p: Path<T>, w: Write<T>, j: nat)
    requires Inv(p) && w.Number? && CanWrite(p, w) && Shaped(Written(p, w)) && j < 3 && p.rings[j].items != []
    requires Shaped(Taken(p, j))
    ensures Taken(Written(p, w), j) == Written(Taken(p, j), w)
  {
    var x := p.rings[j].items[0] - 1;
    assert (p.fate + [InPush])[x := Held] == p.fate[x := Held] + [InPush];
    hide Inv;
  }

  lemma IsNextNumbers<T>(p: Path<T>, w: Write<T>, j: nat)
    requires Inv(p) && w.Number? && CanWrite(p, w) && Shaped(Written(p, w)) && j < 3
    ensures IsNext(Written(p, w), j) <==> IsNext(p, j)
  {
    assert HeldOk(p, j);
    var n := Written(p, w);
    assert forall k | 0 <= k < |p.fate| :: n.fate[k] == p.fate[k];
    hide Inv;
  }

  lemma HandOnNumbers<T>(p: Path<T>, w: Write<T>, j: nat)
    requires Inv(p) && w.Number? && CanWrite(p, w) && Shaped(Written(p, w)) && j < 3 && p.held[j].Some?
    requires 1 <= p.held[j].value <= |p.log| && Shaped(HandedOn(p, j))
    ensures HandedOn(Written(p, w), j) == Written(HandedOn(p, j), w)
  {
    var x := p.held[j].value - 1;
    assert (p.fate + [InPush])[x := Handed] == p.fate[x := Handed] + [InPush];
    hide Inv;
  }

  lemma {:induction false} NumberThenPause<T>(p: Path<T>, w: Write<T>, rests: seq<Rest>)
    requires Ready(p) && w.Number? && CanWrite(p, w) && Inv(Written(p, w))
    ensures CanWrite(Paused(p, rests), w)
    ensures Paused(Written(p, w), rests) == Written(Paused(p, rests), w)
    decreases |rests|
  {
    if rests != [] {
      hide Inv, Rested, Written;
      RestKeeps(p, rests[0]);
      assert CanWrite(Rested(p, rests[0]), w);
      WriteKeeps(Rested(p, rests[0]), w);
      NumberThenRest(p, w, rests[0]);
      NumberThenPause(Rested(p, rests[0]), w, rests[1..]);
    }
  }

  /** A push that has made room and not yet stored. */
  ghost predicate Storing<T>(p: Path<T>) {
    Inv(p) && Shaped(p) && p.busy && p.rings[Target(p)].Used() < p.rings[Target(p)].capacity
  }

  /** What the thread does then it could do once the record is stored, but for a
      look that found the ring empty: that it need not have made. */
  lemma RestThenStore<T>(p: Path<T>, r: Rest) returns (after: seq<Rest>)
    requires Storing(p)
    ensures Storing(Rested(p, r)) && Inv(Stored(p))
    ensures Stored(Rested(p, r)) == Paused(Stored(p), after)
  {
    StoreKeeps(p);
    RestKeeps(p, r);
    StaysStoring(p, r);
    if Rested(p, r) == p {
      after := [];
    } else {
      after := [r];
      RestKeeps(Stored(p), r);
      StoreCommutes(p, r);
      assert Paused(Rested(Stored(p), r), []) == Rested(Stored(p), r);
      assert [r][1..] == [];
      hide Inv, Rested;
    }
  }

  lemma StaysStoring<T>(p: Path<T>, r: Rest)
    requires Storing(p) && Inv(Rested(p, r)) && Rested(p, r).busy && Rested(p, r).log == p.log
    ensures Storing(Rested(p, r))
  {
    assert Shaped(Rested(p, r));
    hide Inv;
  }

  lemma StoreCommutes<T>(p: Path<T>, r: Rest)
    requires Storing(p) && Inv(Rested(p, r)) && Storing(Rested(p, r)) && Inv(Stored(p)) && Rested(p, r) != p
    ensures Stored(Rested(p, r)) == Rested(Stored(p), r)
  {
    hide Inv, Stored, Storing, Left, Taken, HandedOn;
    match r
    case Take(j) => TakeCommutes(p, j);
    case Leave(j) => LeaveCommutes(p, j);
    case HandOn(j) => HandOnCommutes(p, j);
  }

  lemma LeaveCommutes<T>(p: Path<T>, j: Class)
    requires Storing(p) && Inv(Stored(p)) && Inv(Left(p, j)) && Storing(Left(p, j))
    ensures Stored(Left(p, j)) == Rested(Stored(p), Leave(j))
  {
    InvIsShaped(Stored(p));
    hide Inv;
  }

  lemma TakeCommutes<T>(p: Path<T>, j: Class)
    requires Storing(p) && Inv(Stored(p)) && Inv(Rested(p, Take(j))) && Storing(Rested(p, Take(j))) && Rested(p, Take(j)) != p
    ensures Stored(Rested(p, Take(j))) == Rested(Stored(p), Take(j))
  {
    InvIsShaped(Stored(p));
    InvIsShaped(Rested(p, Take(j)));
    TakeStores(p, j);
    hide Inv;
  }

  lemma HandOnCommutes<T>(p: Path<T>, j: Class)
    requires Storing(p) && Inv(Stored(p)) && IsNext(p, j) && Storing(Rested(p, HandOn(j)))
    ensures Stored(Rested(p, HandOn(j))) == Rested(Stored(p), HandOn(j))
  {
    HandOnKeeps(p, j);
    IsNextStores(p, j);
    HandOnKeeps(Stored(p), j);
    HandOnStores(p, j);
    hide Inv, IsNext;
  }

  lemma TakeStores<T>(p: Path<T>, j: nat)
    requires Storing(p) && j < 3 && p.rings[j].items != [] && !p.rings[j].taking && p.held[j].None?
    requires Shaped(Stored(p)) && Shaped(Taken(p, j))
    ensures Stored(Taken(p, j)) == Taken(Stored(p), j)
  {
    AtPush(p);
    var n, t, q := |p.log|, Target(p), p.rings[j];
    assert RingOk(p, j);
    assert q.items[0] != n;
    assert (q.items + [n])[1..] == q.items[1..] + [n] && (q.items + [n])[0] == q.items[0];
    hide Inv, RingOk, HeldOk, FateOk;
    assert p.fate[q.items[0] - 1 := Held][n - 1 := Waiting] == p.fate[n - 1 := Waiting][q.items[0] - 1 := Held];
    if t == j {
      assert Stored(Taken(p, j)).rings == Taken(Stored(p), j).rings;
    } else {
      assert Stored(Taken(p, j)).rings == Taken(Stored(p), j).rings;
    }
  }

  lemma IsNextStores<T>(p: Path<T>, j: nat)
    requires Storing(p) && j < 3 && Shaped(Stored(p))
    ensures IsNext(Stored(p), j) <==> IsNext(p, j)
  {
    AtPush(p);
    var n := |p.log|;
    assert forall k | 0 <= k < |p.fate| && k != n - 1 :: Stored(p).fate[k] == p.fate[k];
    assert Stored(p).fate[n - 1] == Waiting && p.fate[n - 1] == InPush;
    hide Inv;
  }

  lemma HandOnStores<T>(p: Path<T>, j: nat)
    requires Storing(p) && j < 3 && p.held[j].Some? && 1 <= p.held[j].value <= |p.log|
    requires Shaped(Stored(p)) && Shaped(HandedOn(p, j))
    ensures Stored(HandedOn(p, j)) == HandedOn(Stored(p), j)
  {
    AtPush(p);
    assert HeldOk(p, j);
    var n, x := |p.log|, p.held[j].value - 1;
    assert x != n - 1;
    hide Inv, RingOk, HeldOk, FateOk;
    assert p.fate[x := Handed][n - 1 := Waiting] == p.fate[n - 1 := Waiting][x := Handed];
  }

  lemma {:induction false} PausedOn<T>(p: Path<T>, a: seq<Rest>, b: seq<Rest>)
    requires Inv(p)
    ensures Paused(Paused(p, a), b) == Paused(p, a + b)
    decreases |a|
  {
    hide Inv, Rested;
    if a == [] {
      assert a + b == b;
    } else {
      RestKeeps(p, a[0]);
      PausedOn(Rested(p, a[0]), a[1..], b);
      assert (a + b)[1..] == a[1..] + b;
    }
  }

  lemma {:induction false} PauseThenStore<T>(p: Path<T>, rests: seq<Rest>) returns (after: seq<Rest>)
    requires Storing(p)
    ensures Storing(Paused(p, rests)) && Inv(Stored(p))
    ensures Stored(Paused(p, rests)) == Paused(Stored(p), after)
    decreases |rests|
  {
    hide Inv, Rested, Stored;
    if rests == [] {
      StoreKeeps(p);
      after := [];
    } else {
      RestKeeps(p, rests[0]);
      var first := RestThenStore(p, rests[0]);
      var rest := PauseThenStore(Rested(p, rests[0]), rests[1..]);
      PausedOn(Stored(p), first, rest);
      after := first + rest;
    }
  }

  /** A push with the thread at work between its steps: after the number, and
      between an eviction and the store it makes room for. */
  function Spread<T>(p: Path<T>, ring: Class, answer: bool, record: T, before: seq<Rest>, between: seq<Rest>): Path<T>
    requires Ready(p) && (answer ==> ring == DURABLE)
  {
    WriteKeeps(p, Number(ring, answer, record));
    var numbered := Paused(Written(p, Number(ring, answer, record)), before);
    WriteKeeps(numbered, Continue);
    var pushed := Paused(Written(numbered, Continue), between);
    if pushed.busy then Written(pushed, Continue) else pushed
  }

  /** Whatever the thread does, and wherever, the push and its steps come to some
      of them, `Pushed`, and some more. */
  lemma AnyInterleaving<T>(p: Path<T>, ring: Class, answer: bool, record: T, before: seq<Rest>, between: seq<Rest>)
      returns (after: seq<Rest>)
    requires Ready(p) && (answer ==> ring == DURABLE)
    ensures Ready(Paused(p, before)) && Inv(Pushed(Paused(p, before), ring, answer, record))
    ensures Spread(p, ring, answer, record, before, between)
         == Paused(Pushed(Paused(p, before), ring, answer, record), after)
  {
    hide Inv, Rested;
    var w, q := Number(ring, answer, record), Paused(p, before);
    InvIsShaped(p);
    InvIsShaped(q);
    WriteKeeps(p, w);
    NumberThenPause(p, w, before);
    PushKeeps(q, ring, answer, record);
    var numbered := Written(q, w);
    WriteKeeps(numbered, Continue);
    EvictingEnds(numbered);
    var pushed := Written(numbered, Continue);
    if pushed.busy {
      after := PauseThenStore(pushed, between);
    } else {
      after := between;
    }
  }
}
