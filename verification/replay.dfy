/** When the retained set fits a connection's boundary ring. */
module Replay {
  import opened Basics
  import opened Delivery
  import opened Retain
  import opened Merge
  import opened MergeProofs
  import opened Hall
  import Q = Queue

  function Boundaries<T>(p: Path<T>): Q.Queue<nat>
    requires |p.rings| == 3
  {
    p.rings[LIFECYCLE]
  }

  function Free<T>(p: Path<T>): int
    requires |p.rings| == 3
  {
    Boundaries(p).capacity - Boundaries(p).Used()
  }

  /** A boundary record takes one place, or finds none and closes. */
  lemma PushFills<T>(p: Path<T>, record: T)
    requires Ready(p)
    ensures var p' := Pushed(p, LIFECYCLE, false, record);
            && Inv(p') && !p'.busy && 0 <= Free(p)
            && (p'.closed <==> Free(p) == 0)
            && (!p'.closed ==> Free(p') == Free(p) - 1)
  {
    PushKeeps(p, LIFECYCLE, false, record);
    RingsBounded(p);
    var numbered := Written(p, Number(LIFECYCLE, false, record));
    WriteKeeps(p, Number(LIFECYCLE, false, record));
    assert Boundaries(numbered) == Boundaries(p);
    hide Inv, Lose;
  }

  /** The connection's own thread only makes room. */
  lemma RestFrees<T>(p: Path<T>, r: Rest)
    requires Inv(p)
    ensures Inv(Rested(p, r)) && Free(Rested(p, r)) >= Free(p)
  {
    RestKeeps(p, r);
    hide LogOk, HandedOk, Accounted, RingOk, HeldOk, FateOk, Fates, Rings;
    match r
    case Take(j) =>
    case Leave(j) =>
    case HandOn(j) => if IsNext(p, j) { HandOnKeeps(p, j); }
  }

  lemma {:induction false} PausedFrees<T>(p: Path<T>, rests: seq<Rest>)
    requires Inv(p)
    ensures Free(Paused(p, rests)) >= Free(p)
    ensures rests == [] ==> Paused(p, rests) == p
    decreases |rests|
  {
    hide Inv, Rested, Free;
    if rests != [] {
      RestKeeps(p, rests[0]);
      RestFrees(p, rests[0]);
      PausedFrees(Rested(p, rests[0]), rests[1..]);
    }
  }

  /** What of the set is still to come after its first `i` entries. */
  function Ahead<T>(kept: seq<Kept<T>>, caps: Capabilities, i: nat): nat
    requires i <= |kept|
    decreases |kept| - i
  {
    if i == |kept| then 0 else Ahead(kept, caps, i + 1) + if Covers(caps, kept[i].need) then 1 else 0
  }

  lemma {:induction false} AheadCounts<T>(kept: seq<Kept<T>>, caps: Capabilities, i: nat)
    requires i <= |kept|
    ensures |Covered(kept[..i], caps)| + Ahead(kept, caps, i) == |Covered(kept, caps)|
    decreases |kept| - i
  {
    hide Covers, Covered;
    if i == |kept| {
      assert kept[..i] == kept;
    } else {
      AheadCounts(kept, caps, i + 1);
      assert kept[..i + 1] == kept[..i] + [kept[i]];
      CoveredLast(kept[..i], kept[i], caps);
    }
  }

  /** A replay with places enough never closes the connection, whatever its
      thread does meanwhile; one with too few does, unless the thread makes
      some. */
  lemma {:induction false} ReplayCloses<T>(c: Conn<T>, tally: Tally, kept: seq<Kept<T>>, caps: Capabilities,
                                          pauses: seq<seq<Rest>>, i: nat)
    requires Ready(c.path) && i <= |kept|
    ensures var closed := Replayed(c, tally, kept, caps, pauses, i).0.path.closed;
            && (Ahead(kept, caps, i) <= Free(c.path) ==> !closed)
            && (pauses == [] ==> (closed <==> Ahead(kept, caps, i) > Free(c.path)))
    decreases |kept| - i
  {
    hide Inv, Covers, Pushed, Cost, Free;
    if i < |kept| {
      if !Covers(caps, kept[i].need) {
        ReplayCloses(c, tally.(filtered := tally.filtered + 1), kept, caps, pauses, i + 1);
      } else {
        var path := Paused(c.path, Nth(pauses, i));
        PausedFrees(c.path, Nth(pauses, i));
        PushFills(path, kept[i].record);
        var next := c.(path := Pushed(path, LIFECYCLE, false, kept[i].record));
        if !next.path.closed {
          ReplayCloses(next,
            tally.(lost := Charge(tally.lost, Cost(path, LIFECYCLE, false)), replayed := tally.replayed + 1),
            kept, caps, pauses, i + 1);
        }
      }
    } else {
      RingsBounded(c.path);
      FreeIsNat(c.path);
    }
  }

  lemma FreeIsNat<T>(p: Path<T>)
    requires Inv(p)
    ensures Free(p) >= 0
  {
    RingsBounded(p);
  }

  function Slots<T>(kept: seq<Kept<T>>): set<nat> {
    if kept == [] then {} else Slots(kept[..|kept| - 1]) + {kept[|kept| - 1].slot}
  }

  lemma {:induction false} SlotsCount<T>(kept: seq<Kept<T>>, size: nat)
    requires Distinct(kept) && forall i | 0 <= i < |kept| :: kept[i].slot < size
    ensures |Slots(kept)| == |kept| && forall s | s in Slots(kept) :: s < size && Retain.Holds(kept, s)
  {
    if kept != [] {
      var front, last := kept[..|kept| - 1], kept[|kept| - 1].slot;
      SlotsCount(front, size);
      assert kept[|kept| - 1].slot == last;
      forall s | s in Slots(front) ensures Retain.Holds(kept, s) && s != last {
        var i :| 0 <= i < |front| && front[i].slot == s;
        assert kept[i].slot == s;
      }
    }
  }

  function UpTo(n: nat): (s: set<nat>)
    ensures |s| == n && forall i: nat :: i in s <==> i < n
  {
    if n == 0 then {} else UpTo(n - 1) + {n - 1}
  }

  /** Slots are distinct and under the size, so the set is no longer than it. */
  lemma SetFits<T>(kept: seq<Kept<T>>, size: nat)
    requires Distinct(kept) && forall i | 0 <= i < |kept| :: kept[i].slot < size
    ensures |kept| <= size
  {
    SlotsCount(kept, size);
    assert UpTo(size) == Slots(kept) + (UpTo(size) - Slots(kept));
  }

  /** Into an empty ring, with its thread doing nothing, a replay closes the
      connection exactly when what it covers of the set is more than the ring
      holds. */
  lemma ReplayIntoEmpty<T>(c: Conn<T>, tally: Tally, kept: seq<Kept<T>>, caps: Capabilities)
    requires Ready(c.path) && Free(c.path) == Boundaries(c.path).capacity
    ensures Replayed(c, tally, kept, caps, [], 0).0.path.closed <==> |Covered(kept, caps)| > Boundaries(c.path).capacity
  {
    ReplayCloses(c, tally, kept, caps, [], 0);
    AheadCounts(kept, caps, 0);
  }

  /** So a connection whose boundary ring is empty, and longer than the set, is
      never closed as it authenticates. */
  lemma AuthenticatingKeeps<T>(s: State<T>, k: nat, caps: Capabilities, pauses: seq<seq<Rest>>)
    requires Fine(s) && k < |s.conns|
    requires Free(s.conns[k].path) == Boundaries(s.conns[k].path).capacity && s.size < Boundaries(s.conns[k].path).capacity
    ensures !Replayed(s.conns[k].(caps := Some(caps)), s.tally, s.kept, caps, pauses, 0).0.path.closed
  {
    ReplayCloses(s.conns[k].(caps := Some(caps)), s.tally, s.kept, caps, pauses, 0);
    AheadCounts(s.kept, caps, 0);
    CoveredKeeps(s.kept, caps);
    SetFits(s.kept, s.size);
  }
}
