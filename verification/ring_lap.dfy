/** The one case in `pop` that looks as if it could not happen: a slot stamped
    for an index the consumer has already been past. */
module RingLap {
  import opened Basics
  import opened RingMachine
  import opened RingRefinement
  import RingCalls

  /** A ring of one: `a` is pushed, and a push of `b` claims its slot; a `pop`
      begun then finds the record it is owed evicted and steps over it. */
  function LapRun<T>(a: T, b: T): seq<Label<T>> {
    [CallPush(a), Produce, Produce, Produce, Produce, CallPush(b), Produce, Produce, CallPop, Consume, Consume]
  }

  lemma LapState<T>(a: T, b: T) returns (s: State<T>)
    ensures Path(Init<T>(1), LapRun(a, b)) && Final(Init<T>(1), LapRun(a, b)) == s
    ensures s.cons == CLook && s.prod == PSwap(b)
    ensures s.cIndex == s.pIndex == 1 && s.cCursor == s.pCursor == 0 && s.slots == [Slot(0, HeldByProducer, Some(a))]
  {
    s := Init(1);
    var ls: seq<Label<T>> := [];
    for i := 0 to 11
      invariant i <= 11 && ls == LapRun(a, b)[..i] && Path(Init<T>(1), ls) && Final(Init<T>(1), ls) == s
      invariant s == LapAt(a, b, i)
    {
      LapNext(a, b, i);
      RingCalls.StepOn(Init<T>(1), ls, s, LapRun(a, b)[i]);
      assert LapRun(a, b)[..i + 1] == LapRun(a, b)[..i] + [LapRun(a, b)[i]];
      s := Next(s, LapRun(a, b)[i]);
      ls := ls + [LapRun(a, b)[i]];
      hide Next, Enabled, Shaped, Path, Final, LapAt, Init;
    }
    assert LapRun(a, b)[..11] == LapRun(a, b);
    assert s == LapAt(a, b, 11);
  }

  /** Where the run stands after `i` of its steps. */
  function LapAt<T>(a: T, b: T, i: nat): State<T>
    requires i <= 11
  {
    var empty, full, held := Slot(0, Empty, None), Slot(0, Full, Some(a)), Slot(0, HeldByProducer, Some(a));
    var begun := State([empty], 0, 0, 0, 0, 0, PIdle, 0, 0, CIdle, [], [], [], [], []);
    var pushed := begun.(slots := [full], write := 1, pIndex := 1, log := [a], given := [a]);
    var claimed := pushed.(slots := [held], prod := PSwap(b), given := [a, b]);
    match i
    case 0 => begun
    case 1 => begun.(prod := PLook(a, false, false, 0), given := [a])
    case 2 => begun.(prod := PFill(a), given := [a])
    case 3 => begun.(slots := [Slot(0, Empty, Some(a))], prod := PPublish(a, None), given := [a])
    case 4 => begun.(slots := [full], prod := PAdvance(None), given := [a], log := [a])
    case 5 => pushed
    case 6 => pushed.(prod := PLook(b, false, false, 0), given := [a, b])
    case 7 => pushed.(prod := PClaim(b, false, 1), given := [a, b])
    case 8 => claimed
    case 9 => claimed.(cons := CLook)
    case 10 => claimed.(cons := CSkip)
    case _ => claimed.(cons := CLook, cIndex := 1, read := 1)
  }

  lemma LapNext<T>(a: T, b: T, i: nat)
    requires i < 11
    ensures Shaped(LapAt(a, b, i)) && Enabled(LapAt(a, b, i), LapRun(a, b)[i])
    ensures Next(LapAt(a, b, i), LapRun(a, b)[i]) == LapAt(a, b, i + 1)
    ensures i == 0 ==> LapAt(a, b, 0) == Init(1)
  {
    assert Init<T>(1).slots == [Slot(0, Empty, None)];
    assert [] + [a] == [a] && [a] + [b] == [a, b];
    assert forall x: Slot<T>, y: Slot<T> :: [x][0 := y] == [y];
  }

  /** The case is reached: the consumer meets a stamp of an index below its own,
      held by the producer, and answers that there is nothing. The record it is
      owed is on its way into that very slot, and nowhere else. */
  lemma ALapBehind<T>(a: T, b: T)
    ensures Path(Init<T>(1), LapRun(a, b))
    ensures var s := Final(Init<T>(1), LapRun(a, b));
            && Shaped(s) && s.cons == CLook
            && s.slots[s.cCursor].owner == HeldByProducer && s.slots[s.cCursor].index < s.cIndex
            && Next(s, Consume).cons == CIdle && Next(s, Consume).cIndex == s.cIndex
            && s.pIndex == s.cIndex && s.pCursor == s.cCursor
  {
    var s := LapState(a, b);
    hide Path, Final;
  }
}
