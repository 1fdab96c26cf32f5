/** `Drain::pop`: three rings merged back into one stream in order of number,
    while the writer thread goes on pushing into them. */
module DrainCode {
  import opened Basics
  import opened Merge
  import opened MergeProofs
  import Q = Queue

  /** How many places in hand are free. */
  function Free(held: seq<Option<nat>>): nat
    requires |held| == 3
  {
    (if held[0].None? then 1 else 0) + (if held[1].None? then 1 else 0) + (if held[2].None? then 1 else 0)
  }

  /** Late enough: what is in hand was pushed by `mark`, and of the rings below
      `upTo` nothing is in hand from, none holds a number so old. */
  ghost predicate Settled<T>(p: Path<T>, mark: int, upTo: nat)
    requires Shaped(p) && upTo <= 3
  {
    && (forall i | 0 <= i < 3 && p.held[i].Some? :: p.held[i].value <= mark)
    && (forall i, n | 0 <= i < upTo && p.held[i].None? && n in p.rings[i].items :: n > mark)
  }

  /** Every number up to `mark` has been handed on or lost. */
  ghost predicate Resolved<T>(p: Path<T>, mark: int) {
    mark <= |p.fate| && forall k | 0 <= k < mark :: p.fate[k].Handed? || p.fate[k].Lost?
  }

  /** What the writer thread may change between two looks of the connection's
      thread: rings lose from the front, and gain only numbers not yet done. */
  ghost predicate WriterOnly<T>(p: Path<T>, p': Path<T>) {
    && |p.rings| == 3 && |p'.rings| == 3
    && p'.held == p.held && p'.handed == p.handed
    && Done(p) <= Done(p')
    && (forall j | 0 <= j < 3 :: p'.rings[j].taking == p.rings[j].taking)
    && (forall j, n | 0 <= j < 3 && n in p'.rings[j].items :: n in p.rings[j].items || n > Done(p))
  }

  lemma HeldIsDone<T>(p: Path<T>)
    requires Inv(p)
    ensures forall i | 0 <= i < 3 && p.held[i].Some? :: p.held[i].value <= Done(p)
  {
    forall i: nat | i < 3 && p.held[i].Some? ensures p.held[i].value <= Done(p) { assert HeldOk(p, i); }
  }

  lemma SettledAtFirst<T>(p: Path<T>, mark: int)
    requires Shaped(p) && forall i | 0 <= i < 3 && p.held[i].Some? :: p.held[i].value <= mark
    ensures Settled(p, mark, 0)
  {
  }

  /** A ring found empty after `mark` gains only later numbers. */
  lemma SettledKeeps<T>(p: Path<T>, p': Path<T>, mark: int, j: nat)
    requires Shaped(p) && Shaped(p') && j < 3 && WriterOnly(p, p')
    requires Settled(p, mark, j) && mark <= Done(p)
    requires p'.held[j].None? ==> p'.rings[j].items == []
    ensures Settled(p', mark, j + 1)
  {
  }

  lemma TakeDone<T>(p: Path<T>, j: nat)
    requires Inv(p) && j < 3 && p.rings[j].items != []
    ensures Done(Taken(p, j)) == Done(p)
  {
  }

  lemma LowestIsNext<T>(p: Path<T>, mark: int, next: nat)
    requires Inv(p) && Settled(p, mark, 3) && mark <= Done(p)
    requires next < 3 && p.held[next].Some?
    requires forall i | 0 <= i < 3 && p.held[i].Some? :: p.held[next].value <= p.held[i].value
    ensures IsNext(p, next)
  {
    forall k: nat | k < |p.fate| && (p.fate[k].InPush? || p.fate[k].Waiting? || p.fate[k].Held?)
      ensures p.held[next].value <= k + 1
    {
      assert FateOk(p, k) && RingOk(p, p.log[k].ring);
    }
  }

  lemma AllResolved<T>(p: Path<T>, mark: int)
    requires Inv(p) && Settled(p, mark, 3) && mark <= Done(p)
    requires forall i | 0 <= i < 3 :: p.held[i].None?
    ensures Resolved(p, mark)
  {
    forall k: nat | k < mark ensures p.fate[k].Handed? || p.fate[k].Lost? {
      assert FateOk(p, k);
    }
  }

  lemma WriteOnly<T>(p: Path<T>, w: Write<T>)
    requires Inv(p) && CanWrite(p, w)
    ensures WriterOnly(p, Written(p, w))
  {
  }

  class Drain<T> {
    // The three rings, which the writer thread fills.
    var rings: seq<Q.Queue<nat>>
    // The record popped from each ring and not yet handed on.
    var held: seq<Option<nat>>

    // The writer thread's side of the connection, and the histories.
    var log: seq<Entry<T>>
    var busy: bool
    var closed: bool
    var counts: Counts
    var ringDropped: seq<nat>
    var refusals: nat
    var fate: seq<Fate>
    var handed: seq<nat>

    function View(): Path<T>
      reads this
    {
      Path(rings, held, log, busy, closed, counts, ringDropped, refusals, fate, handed)
    }

    method Install(p: Path<T>)
      modifies this
      ensures View() == p
    {
      rings, held, log, busy, closed := p.rings, p.held, p.log, p.busy, p.closed;
      counts, ringDropped, refusals, fate, handed := p.counts, p.ringDropped, p.refusals, p.fate, p.handed;
    }

    ghost predicate Valid()
      reads this
    {
      Inv(View()) && forall j | 0 <= j < 3 :: !rings[j].taking
    }

    constructor (capacities: Capacities)
      requires capacities.Positive()
      ensures Valid() && View() == Fresh<T>(capacities)
    {
      var p := Fresh<T>(capacities);
      rings, held, log, busy, closed := p.rings, p.held, p.log, p.busy, p.closed;
      counts, ringDropped, refusals, fate, handed := p.counts, p.ringDropped, p.refusals, p.fate, p.handed;
      new;
      FreshOk<T>(capacities);
    }

    /** Any number of the writer thread's steps, on any records. */
    method WriterRuns(supply: nat -> Write<T>)
      requires Inv(View())
      modifies this
      ensures Inv(View()) && WriterOnly(old(View()), View())
    {
      InvIsShaped(View());
      hide Inv;
      var steps: nat := *;
      while steps > 0
        invariant Inv(View()) && WriterOnly(old(View()), View())
      {
        var w := if busy then Continue else supply(steps);
        InvIsShaped(View());
        if CanWrite(View(), w) {
          WriteKeeps(View(), w);
          WriteOnly(View(), w);
          Install(Written(View(), w));
        }
        steps := steps - 1;
      }
    }

    /** One ring's turn in a pass: its oldest record if there is one, held. */
    method PopRing(j: nat, supply: nat -> Write<T>) returns (some: bool)
      requires Valid() && j < 3 && held[j].None?
      modifies this
      ensures Valid() && handed == old(handed) && Done(old(View())) <= Done(View())
      ensures some ==> |held| == 3 && held[j].Some? && held == old(held)[j := held[j]]
      ensures !some ==> View() == old(View()) && |rings| == 3 && rings[j].items == []
    {
      InvIsShaped(View());
      hide Inv;
      some := rings[j].items != [];
      if some {
        TakeKeeps(View(), j);
        TakeDone(View(), j);
        Install(Taken(View(), j));
        WriterRuns(supply);
        InvIsShaped(View());
        LeaveKeeps(View(), j);
        Install(Left(View(), j));
      }
    }

    /** Ring `j`'s turn, whenever it comes. */
    method Turn(j: nat, supply: nat -> Write<T>) returns (some: bool)
      requires Valid() && j < 3
      modifies this
      ensures Valid() && |held| == |old(held)| == 3 && handed == old(handed) && Done(old(View())) <= Done(View())
      ensures some ==> Free(held) < Free(old(held))
      ensures !some ==> WriterOnly(old(View()), View()) && (held[j].None? ==> rings[j].items == [])
    {
      InvIsShaped(View());
      hide Inv, Done;
      WriterRuns(supply);
      InvIsShaped(View());
      some := false;
      if held[j].None? {
        some := PopRing(j, supply);
        InvIsShaped(View());
      }
    }

    /** One pass: pop every ring nothing is held from. */
    method Pass(supply: nat -> Write<T>) returns (popped: bool)
      requires Valid()
      modifies this
      ensures Valid() && |held| == |old(held)| == 3 && handed == old(handed)
      ensures Done(old(View())) <= Done(View())
      ensures popped ==> Free(held) < Free(old(held))
      ensures !popped ==> held == old(held) && Shaped(View()) && Settled(View(), Done(old(View())), 3)
    {
      InvIsShaped(View());
      HeldIsDone(View());
      hide Inv, Done, Free, Settled;
      ghost var mark := Done(View());
      popped := false;
      assert Settled(View(), mark, 0) by { SettledAtFirst(View(), mark); }
      for j := 0 to 3
        invariant Valid() && |held| == 3 && handed == old(handed) && mark <= Done(View())
        invariant popped ==> Free(held) < Free(old(held))
        invariant !popped ==> held == old(held) && Shaped(View()) && Settled(View(), mark, j)
      {
        ghost var before := View();
        var some := Turn(j, supply);
        InvIsShaped(View());
        if !popped && !some { SettledKeeps(before, View(), mark, j); }
        popped := popped || some;
      }
    }

    /** Which place in hand has the lowest number, or 3 if all are free. */
    method Lowest() returns (next: nat)
      requires |held| == 3
      ensures next <= 3 && (next < 3 ==> held[next].Some?)
      ensures forall i | 0 <= i < 3 && held[i].Some? :: next < 3 && held[next].value <= held[i].value
    {
      next := 3;
      for j := 0 to 3
        invariant next <= 3 && (next < 3 ==> held[next].Some?)
        invariant forall i | 0 <= i < j && held[i].Some? :: next < 3 && held[next].value <= held[i].value
      {
        if held[j].Some? && (next == 3 || held[j].value < held[next].value) { next := j; }
      }
    }

    /** The next record in order of number, or none when nothing is queued. A
        record handed on has a number above every number handed on before, and
        is the record that was numbered so; none is answered only once every
        number pushed before the call has been handed on or lost. Passes repeat
        until one pops nothing, which is four at most. */
    method Pop(supply: nat -> Write<T>) returns (r: Option<Numbered<T>>, passes: nat)
      requires Valid()
      modifies this
      ensures Valid() && passes <= 4
      ensures r.Some? ==>
                var n := r.value.seqno;
                Last(old(View())) < n <= |log| && handed == old(handed) + [n] && r.value.record == log[n - 1].record
      ensures r.None? ==> handed == old(handed) && Resolved(View(), Done(old(View())))
    {
      InvIsShaped(View());
      hide Inv, Done;
      passes := 0;
      var popped := true;
      ghost var mark := Done(View());
      while popped
        invariant Valid() && |held| == 3 && handed == old(handed)
        invariant popped ==> passes + Free(held) <= 3
        invariant passes <= 4
        invariant Done(old(View())) <= mark <= Done(View())
        invariant !popped ==> Shaped(View()) && Settled(View(), mark, 3)
        decreases Free(held), popped
      {
        mark := Done(View());
        popped := Pass(supply);
        passes := passes + 1;
        InvIsShaped(View());
      }
      var next := Lowest();
      if next == 3 {
        AllResolved(View(), mark);
        return None, passes;
      }
      LowestIsNext(View(), mark, next);
      HandOnKeeps(View(), next);
      var n := held[next].value;
      Install(HandedOn(View(), next));
      return Some(Numbered(n, log[n - 1].record)), passes;
    }
  }
}
