/** What the invariant of one connection's path says to someone reading it. */
module MergeResults {
  import opened Basics
  import opened Merge

  /** Numbers are handed on in order, and one skipped is one a ring evicted or
      refused. */
  lemma SkippedIsLost<T>(p: Path<T>, n: nat)
    requires Inv(p) && 1 <= n <= Last(p)
    ensures n in p.handed <==> p.fate[n - 1].Handed?
    ensures n !in p.handed <==> p.fate[n - 1].Lost?
    ensures forall a, b | 0 <= a < b < |p.handed| :: p.handed[a] < p.handed[b]
  {
    assert FateOk(p, n - 1);
    LastIsLogged(p);
  }

  lemma LastIsLogged<T>(p: Path<T>)
    requires Inv(p)
    ensures Last(p) <= |p.log|
  {
  }

  /** A record is lost to a push of its own class and no other: one that came
      after it, or its own. */
  lemma LostWithinItsClass<T>(p: Path<T>, n: nat)
    requires Inv(p) && 1 <= n <= |p.log| && p.fate[n - 1].Lost?
    ensures n <= p.fate[n - 1].cause <= |p.log|
    ensures p.log[p.fate[n - 1].cause - 1].ring == p.log[n - 1].ring
  {
    assert FateOk(p, n - 1);
  }

  /** The boundary records handed on are all those numbered before them: no
      gap, whatever the other classes lost. */
  lemma BoundariesInOrder<T>(p: Path<T>, a: nat, b: nat)
    requires Inv(p) && 1 <= a < b <= |p.log|
    requires p.log[a - 1].ring == p.log[b - 1].ring == LIFECYCLE && p.fate[b - 1].Handed?
    ensures p.fate[a - 1].Handed?
  {
    assert FateOk(p, a - 1) && FateOk(p, b - 1);
  }

  /** The writer closes a connection only for a boundary record whose ring has
      no free slot, counts it once, and numbers nothing for it after. */
  lemma ClosedWhenFull<T>(p: Path<T>, w: Write<T>)
    requires Inv(p) && CanWrite(p, w) && !p.closed
    ensures Written(p, w).closed <==>
              p.busy && Target(p) == LIFECYCLE && p.rings[LIFECYCLE].Used() == p.rings[LIFECYCLE].capacity
    ensures Written(p, w).closed ==>
              && Written(p, w).counts.disconnects == p.counts.disconnects + 1
              && forall v: Write<T> :: !CanWrite(Written(p, w), v)
  {
    assert RingOk(p, LIFECYCLE);
  }

  ghost predicate Drained<T>(p: Path<T>)
    requires Shaped(p)
  {
    !p.busy && forall j | 0 <= j < 3 :: p.held[j].None? && p.rings[j].items == []
  }

  /** Once drained, what was not handed on is what the rings dropped. A consumer
      that sees only numbers can tell every loss exactly when the last number
      reached it, and it does unless that record's own push was refused. */
  lemma LastReaches<T>(p: Path<T>)
    requires Inv(p) && Drained(p)
    ensures |p.log| - |p.handed| == Drops(p)
    ensures p.counts.lossy + p.counts.durable + p.counts.answer + p.counts.disconnects == Drops(p)
    ensures Last(p) == |p.log| <==> |p.log| == 0 || !p.fate[|p.log| - 1].Lost?
    ensures p.refusals == 0 && !p.closed ==> Last(p) == |p.log|
  {
    LastIsLogged(p);
    if |p.log| > 0 { assert FateOk(p, |p.log| - 1); }
  }
}
