/** One connection's outbound path: records numbered as they are pushed, three
    rings that each drop by their own rule, and the records in hand between a
    ring and the socket.

    The rings are drop-oldest queues, as `MergeQueues` shows and `RingRefinement`
    of the lock-free ring, at the same grain: an eviction and the insertion it
    makes room for are two steps, and so are a take and the release of its
    slot. */
module Merge {
  import opened Basics
  import Q = Queue

  const LOSSY: nat := 0
  const DURABLE: nat := 1
  const LIFECYCLE: nat := 2

  datatype Numbered<T> = Numbered(seqno: nat, record: T)

  /** A number given out: the ring its record went to, whether it was a broker
      answer, and the record. A ring's item is named by its number, which this
      turns back into the record. */
  datatype Entry<T> = Entry(ring: nat, answer: bool, record: T)

  /** What has become of a number. `Lost` names the push that cost it. */
  datatype Fate = InPush | Waiting | Held | Handed | Lost(cause: nat)

  /** What the writer counts, by label. */
  datatype Counts = Counts(lossy: nat, durable: nat, answer: nat, disconnects: nat)

  /** One connection. `log` and `fate` say of number `n`, at place `n - 1`,
      what was numbered and where it is; `handed` is the numbers handed on. */
  datatype Path<T> = Path(
    rings: seq<Q.Queue<nat>>,
    held: seq<Option<nat>>,
    log: seq<Entry<T>>,
    busy: bool,
    closed: bool,
    counts: Counts,
    ringDropped: seq<nat>,
    refusals: nat,
    fate: seq<Fate>,
    handed: seq<nat>
  )

  /** How many records each of a connection's rings holds. */
  datatype Capacities = Capacities(lossy: nat, durable: nat, lifecycle: nat) {
    predicate Positive() { lossy > 0 && durable > 0 && lifecycle > 0 }
  }

  function Fresh<T>(c: Capacities): Path<T> {
    Path([Q.New(c.lossy), Q.New(c.durable), Q.New(c.lifecycle)],
         [None, None, None], [], false, false, Counts(0, 0, 0, 0), [0, 0, 0], 0, [], [])
  }

  // ---- The writer thread's steps -----------------------------------------

  datatype Write<T> = Number(ring: nat, answer: bool, record: T) | Continue

  predicate CanWrite<T>(p: Path<T>, w: Write<T>) {
    match w
    case Number(ring, answer, _) => !p.busy && !p.closed && ring < 3 && (answer ==> ring == DURABLE)
    case Continue => p.busy
  }

  ghost predicate Shaped<T>(p: Path<T>) {
    && |p.rings| == 3 && |p.held| == 3 && |p.ringDropped| == 3 && |p.fate| == |p.log|
    && (p.busy ==> |p.log| > 0 && p.log[|p.log| - 1].ring < 3)
    && (forall j, i | 0 <= j < 3 && 0 <= i < |p.rings[j].items| :: 1 <= p.rings[j].items[i] <= |p.log|)
  }

  /** Counted as what was lost: the ring says the class, the record whether it
      was a broker answer. */
  function Count(c: Counts, ring: nat, answer: bool): Counts {
    if ring == LOSSY then c.(lossy := c.lossy + 1)
    else if ring == LIFECYCLE then c.(disconnects := c.disconnects + 1)
    else if answer then c.(answer := c.answer + 1)
    else c.(durable := c.durable + 1)
  }

  /** Number `n` is gone, to the push of the latest number. */
  function Lose<T>(p: Path<T>, n: nat, ring: nat): Path<T>
    requires Shaped(p) && ring < 3 && 1 <= n <= |p.log|
  {
    p.(fate := p.fate[n - 1 := Lost(|p.log|)],
       ringDropped := p.ringDropped[ring := p.ringDropped[ring] + 1],
       counts := Count(p.counts, ring, p.log[n - 1].answer))
  }

  /** The ring the number being pushed is for. */
  function Target<T>(p: Path<T>): nat
    requires Shaped(p) && p.busy
  {
    p.log[|p.log| - 1].ring
  }

  function Stored<T>(p: Path<T>): Path<T>
    requires Shaped(p) && p.busy
  {
    var n, r := |p.log|, Target(p);
    p.(rings := p.rings[r := p.rings[r].(items := p.rings[r].items + [n])],
       fate := p.fate[n - 1 := Waiting], busy := false)
  }

  /** Only a `LIFECYCLE` record is offered, and one turned away closes the
      connection. */
  function TurnedAway<T>(p: Path<T>): Path<T>
    requires Shaped(p) && p.busy
  {
    Lose(p, |p.log|, Target(p)).(closed := true, busy := false)
  }

  function Refused<T>(p: Path<T>): Path<T>
    requires Shaped(p) && p.busy
  {
    Lose(p, |p.log|, Target(p)).(refusals := p.refusals + 1, busy := false)
  }

  function Evicted<T>(p: Path<T>): Path<T>
    requires Shaped(p) && p.busy && p.rings[Target(p)].items != []
  {
    var q := p.rings[Target(p)];
    Lose(p, q.items[0], Target(p)).(rings := p.rings[Target(p) := q.(items := q.items[1..])])
  }

  /** `Connection::push` takes the number first; `Outbox::push` then stores,
      evicts and goes on to store, or is refused. */
  function Written<T>(p: Path<T>, w: Write<T>): Path<T>
    requires Shaped(p) && CanWrite(p, w)
  {
    match w
    case Number(ring, answer, record) =>
      p.(log := p.log + [Entry(ring, answer, record)], fate := p.fate + [InPush], busy := true)
    case Continue =>
      var q := p.rings[Target(p)];
      if q.Used() < q.capacity then Stored(p)
      else if Target(p) == LIFECYCLE then TurnedAway(p)
      else if q.taking || q.items == [] then Refused(p)
      else Evicted(p)
  }

  // ---- The connection thread's steps -------------------------------------

  /** The consumer's claim on the oldest record of a ring. */
  function Taken<T>(p: Path<T>, j: nat): Path<T>
    requires Shaped(p) && j < 3 && p.rings[j].items != []
  {
    var q := p.rings[j];
    p.(rings := p.rings[j := q.(items := q.items[1..], taking := true)],
       held := p.held[j := Some(q.items[0])],
       fate := p.fate[q.items[0] - 1 := Held])
  }

  function Left<T>(p: Path<T>, j: nat): Path<T>
    requires Shaped(p) && j < 3
  {
    p.(rings := p.rings[j := p.rings[j].(taking := false)])
  }

  /** A held record goes to the caller. */
  function HandedOn<T>(p: Path<T>, j: nat): Path<T>
    requires Shaped(p) && j < 3 && p.held[j].Some? && 1 <= p.held[j].value <= |p.log|
  {
    p.(held := p.held[j := None], fate := p.fate[p.held[j].value - 1 := Handed],
       handed := p.handed + [p.held[j].value])
  }

  // ---- The invariant -------------------------------------------------------

  /** The numbers whose push is over: 1 to this. */
  function Done<T>(p: Path<T>): int { |p.log| - if p.busy then 1 else 0 }

  function Last<T>(p: Path<T>): nat { if p.handed == [] then 0 else p.handed[|p.handed| - 1] }

  ghost predicate LogOk<T>(p: Path<T>)
    requires Shaped(p)
  {
    && (forall k | 0 <= k < |p.log| :: p.log[k].ring < 3 && (p.log[k].answer ==> p.log[k].ring == DURABLE))
    && (forall k | 0 <= k < |p.fate| :: p.fate[k].InPush? <==> p.busy && k == |p.log| - 1)
    && (p.closed ==> !p.busy)
  }

  /** Ring `j` holds, in order of number, exactly its waiting records. */
  ghost predicate RingOk<T>(p: Path<T>, j: nat)
    requires Shaped(p) && j < 3
  {
    var items := p.rings[j].items;
    && p.rings[j].Valid()
    && (forall i | 0 <= i < |items| :: p.log[items[i] - 1].ring == j && p.fate[items[i] - 1] == Waiting)
    && (forall a, b | 0 <= a < b < |items| :: items[a] < items[b])
    && (p.held[j].Some? ==> forall i | 0 <= i < |items| :: p.held[j].value < items[i])
  }

  ghost predicate HeldOk<T>(p: Path<T>, j: nat)
    requires Shaped(p) && j < 3
  {
    p.held[j].Some? ==>
      var n := p.held[j].value;
      1 <= n <= |p.log| && p.log[n - 1].ring == j && p.fate[n - 1] == Held
  }

  /** What each fate promises of its number. */
  ghost predicate FateOk<T>(p: Path<T>, k: nat)
    requires Shaped(p) && k < |p.log| && p.log[k].ring < 3
  {
    match p.fate[k]
    case InPush => Last(p) < k + 1
    case Waiting => Last(p) < k + 1 && k + 1 in p.rings[p.log[k].ring].items
    case Held => Last(p) < k + 1 && p.held[p.log[k].ring] == Some(k + 1)
    case Handed => k + 1 <= Last(p) && k + 1 in p.handed
    case Lost(cause) =>
      && k + 1 <= cause <= |p.log| && p.log[cause - 1].ring == p.log[k].ring
      && (cause == k + 1 ==> p.refusals > 0 || p.closed)
      && (p.log[k].ring == LIFECYCLE ==> p.closed && k + 1 == |p.log|)
  }

  ghost predicate HandedOk<T>(p: Path<T>)
    requires Shaped(p)
  {
    && (forall a | 0 <= a < |p.handed| :: 1 <= p.handed[a] <= |p.log| && p.fate[p.handed[a] - 1] == Handed)
    && (forall a, b | 0 <= a < b < |p.handed| :: p.handed[a] < p.handed[b])
  }

  function InHand<T>(p: Path<T>): nat
    requires Shaped(p)
  {
    (if p.held[0].Some? then 1 else 0) + (if p.held[1].Some? then 1 else 0) + (if p.held[2].Some? then 1 else 0)
  }

  function Queueing<T>(p: Path<T>): nat
    requires Shaped(p)
  {
    |p.rings[0].items| + |p.rings[1].items| + |p.rings[2].items|
  }

  function Drops<T>(p: Path<T>): nat
    requires Shaped(p)
  {
    p.ringDropped[0] + p.ringDropped[1] + p.ringDropped[2]
  }

  /** Of the first `n` numbers, how many of a class, answers or not, are lost. */
  function LostAmong<T>(p: Path<T>, ring: nat, answer: bool, n: nat): nat
    requires n <= |p.log| && n <= |p.fate|
  {
    if n == 0 then 0 else
    LostAmong(p, ring, answer, n - 1)
    + if p.fate[n - 1].Lost? && p.log[n - 1].ring == ring && p.log[n - 1].answer == answer then 1 else 0
  }

  /** Each loss is counted as what was lost. */
  ghost predicate Labelled<T>(p: Path<T>)
    requires Shaped(p)
  {
    && p.counts.lossy == LostAmong(p, LOSSY, false, |p.log|)
    && p.counts.durable == LostAmong(p, DURABLE, false, |p.log|)
    && p.counts.answer == LostAmong(p, DURABLE, true, |p.log|)
    && p.counts.disconnects == LostAmong(p, LIFECYCLE, false, |p.log|)
  }

  /** Every number is handed on, in hand, queued, dropped, or being pushed, and
      what the rings dropped is what the writer counted. */
  ghost predicate Accounted<T>(p: Path<T>)
    requires Shaped(p)
  {
    && Labelled(p)
    && |p.log| == |p.handed| + InHand(p) + Queueing(p) + Drops(p) + (if p.busy then 1 else 0)
    && p.ringDropped[LOSSY] == p.counts.lossy
    && p.ringDropped[DURABLE] == p.counts.durable + p.counts.answer
    && p.ringDropped[LIFECYCLE] == p.counts.disconnects == if p.closed then 1 else 0
  }

  ghost predicate Books<T>(p: Path<T>) {
    Shaped(p) && LogOk(p) && HandedOk(p) && Accounted(p)
  }

  ghost predicate Rings<T>(p: Path<T>)
    requires Shaped(p)
  {
    forall j: nat | j < 3 :: RingOk(p, j) && HeldOk(p, j)
  }

  ghost predicate Fates<T>(p: Path<T>)
    requires Shaped(p) && LogOk(p)
  {
    forall k: nat | k < |p.log| :: FateOk(p, k)
  }

  ghost predicate Inv<T>(p: Path<T>) { Books(p) && Rings(p) && Fates(p) }

  lemma FreshOk<T>(capacities: Capacities)
    requires capacities.Positive()
    ensures Inv(Fresh<T>(capacities))
  {
  }
}
