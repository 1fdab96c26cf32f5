/** The rings of a connection's path are the drop-oldest queues of `Queue`, and
    so, by `RingRefinement`, the lock-free rings: each step on the path is one
    step of one queue, and leaves the other two alone. */
module MergeQueues {
  import opened Basics
  import opened Merge
  import opened MergeProofs
  import Q = Queue

  /** One queue takes a step, and no other moves. */
  ghost predicate OneSteps<T>(p: Path<T>, p': Path<T>, j: nat, e: Q.Event<nat>) {
    && |p.rings| == |p'.rings| == 3 && j < 3
    && Q.Step(p.rings[j], e, p'.rings[j])
    && forall i | 0 <= i < 3 && i != j :: p'.rings[i] == p.rings[i]
  }

  /** What a push's next step is to the queue it is for. */
  function PushEvent<T>(p: Path<T>): Q.Event<nat>
    requires Shaped(p) && p.busy
  {
    var q := p.rings[Target(p)];
    if q.Used() < q.capacity then Q.Insert(|p.log|)
    else if Target(p) == LIFECYCLE then Q.TurnAway(|p.log|)
    else if q.taking || q.items == [] then Q.Refuse(|p.log|)
    else Q.Evict(q.items[0])
  }

  lemma PushIsQueueStep<T>(p: Path<T>)
    requires Inv(p) && p.busy
    ensures OneSteps(p, Written(p, Continue), Target(p), PushEvent(p))
  {
    assert RingOk(p, Target(p));
    hide LogOk, HandedOk, Accounted, Fates, Rings, RingOk, HeldOk, FateOk;
  }

  /** Taking a number touches no queue. */
  lemma NumberIsNoStep<T>(p: Path<T>, w: Write<T>)
    requires Inv(p) && w.Number? && CanWrite(p, w)
    ensures Written(p, w).rings == p.rings
  {
    hide Inv;
  }

  lemma TakeIsQueueStep<T>(p: Path<T>, j: nat)
    requires Inv(p) && j < 3 && p.rings[j].items != [] && !p.rings[j].taking
    ensures OneSteps(p, Taken(p, j), j, Q.Take(p.rings[j].items[0]))
  {
    hide LogOk, HandedOk, Accounted, Fates, Rings;
  }

  lemma LeaveIsQueueStep<T>(p: Path<T>, j: nat)
    requires Inv(p) && j < 3
    ensures OneSteps(p, Left(p, j), j, if p.rings[j].taking then Q.Leave else Q.Silent)
  {
    hide LogOk, HandedOk, Accounted, Fates, Rings;
  }

  lemma HandOnIsNoStep<T>(p: Path<T>, j: nat)
    requires Inv(p) && j < 3 && p.held[j].Some? && 1 <= p.held[j].value <= |p.log|
    ensures HandedOn(p, j).rings == p.rings
  {
    hide LogOk, HandedOk, Accounted, Fates, Rings;
  }
}
