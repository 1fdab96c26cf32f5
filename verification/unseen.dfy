/** A loss its consumer is not told of: the last push of all was refused. */
module Unseen {
  import opened Basics
  import opened Merge
  import opened MergeProofs
  import opened Delivery
  import MergeResults
  import Q = Queue
  import TailCode

  /** A push into a ring with room, as one step. */
  lemma PushStores<T>(p: Path<T>, record: T)
    requires Ready(p) && p.rings[LOSSY].Used() < p.rings[LOSSY].capacity
    ensures Pushed(p, LOSSY, false, record)
         == p.(rings := p.rings[LOSSY := p.rings[LOSSY].(items := p.rings[LOSSY].items + [|p.log| + 1])],
               log := p.log + [Entry(LOSSY, false, record)], fate := p.fate + [Waiting])
  {
    WriteKeeps(p, Number(LOSSY, false, record));
    hide Inv;
    var numbered := Written(p, Number(LOSSY, false, record));
    assert numbered.fate[|p.log| := Waiting] == p.fate + [Waiting];
  }

  /** And one into a ring whose every place is being taken from. */
  lemma PushRefused<T>(p: Path<T>, record: T)
    requires Ready(p) && p.rings[LOSSY].Used() == p.rings[LOSSY].capacity && p.rings[LOSSY].items == []
    ensures Pushed(p, LOSSY, false, record)
         == p.(log := p.log + [Entry(LOSSY, false, record)], fate := p.fate + [Lost(|p.log| + 1)],
               ringDropped := p.ringDropped[LOSSY := p.ringDropped[LOSSY] + 1], refusals := p.refusals + 1,
               counts := p.counts.(lossy := p.counts.lossy + 1))
  {
    WriteKeeps(p, Number(LOSSY, false, record));
    hide Inv;
    var numbered := Written(p, Number(LOSSY, false, record));
    assert numbered.fate[|p.log| := Lost(|p.log| + 1)] == p.fate + [Lost(|p.log| + 1)];
  }

  /** The run: the first is stored; its take begins; the second is pushed; the
      take ends, and the first is handed on. */
  ghost predicate IsRun<T>(run: seq<Path<T>>, x: T, y: T) {
    && |run| == 6 && run[0] == Fresh(Capacities(1, 1, 1)) && (forall i | 0 <= i < 6 :: Ready(run[i]))
    && run[1] == Pushed(run[0], LOSSY, false, x)
    && run[2] == Rested(run[1], Take(LOSSY))
    && run[3] == Pushed(run[2], LOSSY, false, y)
    && run[4] == Rested(run[3], Leave(LOSSY))
    && run[5] == Rested(run[4], HandOn(LOSSY))
  }

  /** What the second push meets and makes of it. */
  lemma Refusal<T>(start: Path<T>, x: T, y: T) returns (stored: Path<T>, taking: Path<T>, refused: Path<T>)
    requires start == Fresh(Capacities(1, 1, 1)) && Ready(start)
    ensures stored == Pushed(start, LOSSY, false, x) && Ready(stored)
    ensures taking == Rested(stored, Take(LOSSY)) && Ready(taking)
    ensures refused == Pushed(taking, LOSSY, false, y) && Ready(refused)
    ensures refused.rings == start.rings[0 := Q.Queue(1, [], true)] && refused.held == [Some(1), None, None]
    ensures refused.fate == [Held, Lost(2)] && refused.handed == [] && refused.refusals == 1
    ensures |refused.log| == 2 && refused.ringDropped == [1, 0, 0]
  {
    hide Inv, Pushed;
    PushKeeps(start, LOSSY, false, x);
    PushStores(start, x);
    stored := Pushed(start, LOSSY, false, x);
    assert stored.rings[0].items == [1] && stored.fate == [Waiting];
    RestKeeps(stored, Take(LOSSY));
    taking := Rested(stored, Take(LOSSY));
    assert taking.rings[0] == Q.Queue(1, [], true) && taking.fate == [Held];
    PushKeeps(taking, LOSSY, false, y);
    PushRefused(taking, y);
    refused := Pushed(taking, LOSSY, false, y);
  }

  /** At its end the consumer has seen one frame and no gap, while the rings have
      dropped one record. */
  lemma UnseenLoss<T>(x: T, y: T) returns (run: seq<Path<T>>)
    ensures IsRun(run, x, y)
    ensures var p := run[5];
            && MergeResults.Drained(p) && p.refusals == 1 && Drops(p) == 1
            && TailCode.Summarised(p.handed) == TailCode.Summary(1, 0, 0, 0)
  {
    hide Inv, Pushed;
    var start := Fresh<T>(Capacities(1, 1, 1));
    FreshOk<T>(Capacities(1, 1, 1));
    var stored, taking, refused := Refusal(start, x, y);
    RestKeeps(refused, Leave(LOSSY));
    var left := Rested(refused, Leave(LOSSY));
    RestKeeps(left, HandOn(LOSSY));
    assert IsNext(left, 0);
    var over := Rested(left, HandOn(LOSSY));
    assert over.handed == [1] && [1][..0] == [];
    run := [start, stored, taking, refused, left, over];
  }
}
