/** The connections the writer thread holds, and what each thing it takes does
    to them: every control message, every committed record. */
module Hall {
  import opened Basics
  import opened Delivery
  import opened Retain
  import opened Merge

  /** A connection: its path, its capabilities once it has authenticated, and
      what it wants of what they cover. */
  datatype Conn<T> = Conn(id: nat, path: Path<T>, caps: Option<Capabilities>, filter: Filter)

  /** A committed record: for one connection or, when it names none, for all. */
  datatype Addressed<T> = Addressed(
    to: Option<nat>, need: Number, class_: Class, slot: Option<nat>, topic: Option<string>, record: T)

  /** What the writer counts. */
  datatype Tally = Tally(unaddressed: nat, filtered: nat, filteredTopic: nat, replayed: nat, lost: Counts)

  /** `size` is the retained set's; `gone` are the connections forgotten. */
  datatype State<T> = State(conns: seq<Conn<T>>, kept: seq<Kept<T>>, size: nat, tally: Tally, gone: seq<Conn<T>>)

  ghost predicate AllReady<T>(conns: seq<Conn<T>>) {
    forall i | 0 <= i < |conns| :: Ready(conns[i].path)
  }

  /** As `AllReady`, but for connections a push may have just closed. */
  ghost predicate AllKept<T>(conns: seq<Conn<T>>) {
    forall i | 0 <= i < |conns| :: Inv(conns[i].path) && !conns[i].path.busy
  }

  ghost predicate Unlike<T>(conns: seq<Conn<T>>) {
    forall i, j | 0 <= i < j < |conns| :: conns[i].id != conns[j].id
  }

  ghost predicate Fine<T>(s: State<T>) {
    && AllReady(s.conns) && Unlike(s.conns) && AllKept(s.gone)
    && Distinct(s.kept) && (forall i | 0 <= i < |s.kept| :: s.kept[i].slot < s.size)
  }

  function New<T>(size: nat): State<T> {
    State([], [], size, Tally(0, 0, 0, 0, Counts(0, 0, 0, 0)), [])
  }

  // ---- Who is who ----------------------------------------------------------------

  datatype Which = Open | Closed | Named(id: nat) | Others(id: nat)

  predicate Meets<T>(c: Conn<T>, which: Which) {
    match which
    case Open => !c.path.closed
    case Closed => c.path.closed
    case Named(id) => c.id == id
    case Others(id) => c.id != id
  }

  function Select<T>(conns: seq<Conn<T>>, which: Which): seq<Conn<T>> {
    if conns == [] then [] else
    Select(conns[..|conns| - 1], which) + if Meets(conns[|conns| - 1], which) then [conns[|conns| - 1]] else []
  }

  function FindFrom<T>(conns: seq<Conn<T>>, id: nat, i: nat): (k: nat)
    requires i <= |conns|
    ensures i <= k <= |conns| && (k < |conns| ==> conns[k].id == id)
    ensures forall j | i <= j < k :: conns[j].id != id
    decreases |conns| - i
  {
    if i == |conns| || conns[i].id == id then i else FindFrom(conns, id, i + 1)
  }

  /** The connection of that id, or none: the length. */
  function Find<T>(conns: seq<Conn<T>>, id: nat): (k: nat)
    ensures k <= |conns| && (k < |conns| ==> conns[k].id == id)
    ensures forall j | 0 <= j < k :: conns[j].id != id
  {
    FindFrom(conns, id, 0)
  }

  // ---- Delivering ------------------------------------------------------------------

  function To<T>(c: Conn<T>, ring: Class, answer: bool, record: T): Conn<T>
    requires Ready(c.path) && (answer ==> ring == DURABLE)
  {
    c.(path := Pushed(c.path, ring, answer, record))
  }

  /** Capabilities are asked first and the filter second. */
  predicate Entitled<T>(c: Conn<T>, a: Addressed<T>) { c.caps.Some? && Covers(c.caps.value, a.need) }

  predicate Receives<T>(c: Conn<T>, a: Addressed<T>) {
    Entitled(c, a) && c.filter.Admits(a.class_, a.topic)
  }

  /** Authenticated, and yet not sent it. */
  predicate Withheld<T>(c: Conn<T>, a: Addressed<T>) { c.caps.Some? && !Receives(c, a) }

  predicate Unwanted<T>(c: Conn<T>, a: Addressed<T>) { Entitled(c, a) && !Receives(c, a) }

  function Shared<T>(c: Conn<T>, a: Addressed<T>, answer: bool): Conn<T>
    requires Ready(c.path) && (answer ==> a.class_ == DURABLE)
  {
    if Receives(c, a) then To(c, a.class_, answer, a.record) else c
  }

  /** Each of the first `n` connections has been sent its share. */
  function Fanned<T>(conns: seq<Conn<T>>, a: Addressed<T>, answer: bool, n: nat): (r: seq<Conn<T>>)
    requires AllReady(conns) && (answer ==> a.class_ == DURABLE) && n <= |conns|
    ensures |r| == |conns|
    ensures forall i | 0 <= i < n :: r[i] == Shared(conns[i], a, answer)
    ensures forall i | n <= i < |conns| :: r[i] == conns[i]
  {
    if n == 0 then conns else
    var r := Fanned(conns, a, answer, n - 1);
    r[n - 1 := Shared(conns[n - 1], a, answer)]
  }

  function WithheldAmong<T>(conns: seq<Conn<T>>, a: Addressed<T>, n: nat): nat
    requires n <= |conns|
  {
    if n == 0 then 0 else WithheldAmong(conns, a, n - 1) + if Withheld(conns[n - 1], a) then 1 else 0
  }

  function UnwantedAmong<T>(conns: seq<Conn<T>>, a: Addressed<T>, n: nat): nat
    requires n <= |conns|
  {
    if n == 0 then 0 else UnwantedAmong(conns, a, n - 1) + if Unwanted(conns[n - 1], a) then 1 else 0
  }

  /** What sharing it among the first `n` costs them. */
  function CostAmong<T>(conns: seq<Conn<T>>, a: Addressed<T>, answer: bool, n: nat, lost: Counts): Counts
    requires AllReady(conns) && n <= |conns|
  {
    if n == 0 then lost else
    var before := CostAmong(conns, a, answer, n - 1, lost);
    if Receives(conns[n - 1], a) then Charge(before, Cost(conns[n - 1].path, a.class_, answer)) else before
  }

  function Delivered<T>(s: State<T>, a: Addressed<T>, answer: bool): State<T>
    requires Fine(s) && (answer ==> a.class_ == DURABLE)
  {
    if a.to.Some? then
      var k := Find(s.conns, a.to.value);
      if k < |s.conns| then
        s.(conns := s.conns[k := To(s.conns[k], a.class_, answer, a.record)],
           tally := s.tally.(lost := Charge(s.tally.lost, Cost(s.conns[k].path, a.class_, answer))))
      else
        s.(tally := s.tally.(unaddressed := s.tally.unaddressed + 1))
    else
      var n := |s.conns|;
      s.(conns := Fanned(s.conns, a, answer, n),
         tally := s.tally.(filtered := s.tally.filtered + WithheldAmong(s.conns, a, n),
                           filteredTopic := s.tally.filteredTopic + UnwantedAmong(s.conns, a, n),
                           lost := CostAmong(s.conns, a, answer, n, s.tally.lost)))
  }

  /** A connection a push closed is forgotten once the walk is over. */
  function Settled<T>(s: State<T>): State<T> {
    s.(conns := Select(s.conns, Open), gone := s.gone + Select(s.conns, Closed))
  }

  // ---- Replay ---------------------------------------------------------------------------

  function Nth(pauses: seq<seq<Rest>>, i: nat): seq<Rest> { if i < |pauses| then pauses[i] else [] }

  /** The retained set from its entry `i` on, pushed to one connection; before
      entry `i` its own thread does what `pauses` says. */
  function Replayed<T>(c: Conn<T>, tally: Tally, kept: seq<Kept<T>>, caps: Capabilities,
                       pauses: seq<seq<Rest>>, i: nat): (r: (Conn<T>, Tally))
    requires Inv(c.path) && !c.path.busy && i <= |kept|
    ensures r.0.id == c.id && r.0.caps == c.caps && r.0.filter == c.filter && Inv(r.0.path) && !r.0.path.busy
    decreases |kept| - i
  {
    if i == |kept| || c.path.closed then (c, tally)
    else if !Covers(caps, kept[i].need) then
      Replayed(c, tally.(filtered := tally.filtered + 1), kept, caps, pauses, i + 1)
    else
      var path := Paused(c.path, Nth(pauses, i));
      PushKeeps(path, LIFECYCLE, false, kept[i].record);
      Replayed(c.(path := Pushed(path, LIFECYCLE, false, kept[i].record)),
               tally.(lost := Charge(tally.lost, Cost(path, LIFECYCLE, false)), replayed := tally.replayed + 1),
               kept, caps, pauses, i + 1)
  }

  // ---- What the writer takes -------------------------------------------------------------

  /** A control message, a record off the commit ring, or the connection's own
      thread at work on its end. */
  datatype Event<T> =
    | Attach(id: nat, capacities: Capacities, first: Option<T>)
    | Detach(id: nat)
    | Answer(id: nat, record: T)
    | Authenticated(id: nat, caps: Capabilities, pauses: seq<seq<Rest>>)
    | TopicFilter(id: nat, filter: Filter)
    | Commit(a: Addressed<T>)
    | Drains(id: nat, rest: Rest)

  /** A slot comes with a boundary record for everyone. */
  predicate WellFormed<T>(a: Addressed<T>) {
    a.slot.Some? ==> a.to.None? && a.class_ == LIFECYCLE
  }

  ghost predicate Takes<T>(s: State<T>, e: Event<T>) {
    match e
    case Attach(id, capacities, _) =>
      && capacities.Positive()
      && Find(s.conns, id) == |s.conns|
    case Commit(a) => WellFormed(a)
    case _ => true
  }

  function Newcomer<T>(id: nat, capacities: Capacities, first: Option<T>): Conn<T>
    requires capacities.Positive()
  {
    FreshOk<T>(capacities);
    var c := Conn(id, Fresh(capacities), None, All);
    if first.Some? then To(c, DURABLE, true, first.value) else c
  }

  function AnswerTo<T>(id: nat, record: T): Addressed<T> {
    Addressed(Some(id), 0, DURABLE, None, None, record)
  }

  function Kepts<T>(s: State<T>, a: Addressed<T>): seq<Kept<T>> {
    if a.slot.Some? && a.slot.value < s.size then Put(s.kept, Kept(a.slot.value, a.need, a.record)) else s.kept
  }

  lemma KeptsKeep<T>(s: State<T>, a: Addressed<T>)
    requires Fine(s)
    ensures Fine(s.(kept := Kepts(s, a)))
  {
    if a.slot.Some? && a.slot.value < s.size {
      PutKeeps(s.kept, Kept(a.slot.value, a.need, a.record));
      WithoutKeeps(s.kept, a.slot.value);
    }
    hide AllReady, AllKept, Unlike;
  }

  function Next<T>(s: State<T>, e: Event<T>): State<T>
    requires Fine(s) && Takes(s, e)
  {
    match e
    case Attach(id, capacities, first) => s.(conns := s.conns + [Newcomer(id, capacities, first)])
    case Detach(id) => s.(conns := Select(s.conns, Others(id)), gone := s.gone + Select(s.conns, Named(id)))
    case Answer(id, record) => Settled(Delivered(s, AnswerTo(id, record), true))
    case Authenticated(id, caps, pauses) =>
      var k := Find(s.conns, id);
      if k == |s.conns| then Settled(s) else
      var r := Replayed(s.conns[k].(caps := Some(caps)), s.tally, s.kept, caps, pauses, 0);
      Settled(s.(conns := s.conns[k := r.0], tally := r.1))
    case TopicFilter(id, filter) =>
      var k := Find(s.conns, id);
      if k == |s.conns| then s else s.(conns := s.conns[k := s.conns[k].(filter := filter)])
    case Commit(a) =>
      KeptsKeep(s, a);
      Settled(Delivered(s.(kept := Kepts(s, a)), a, false))
    case Drains(id, rest) =>
      var k := Find(s.conns, id);
      if k == |s.conns| then s else s.(conns := s.conns[k := s.conns[k].(path := Rested(s.conns[k].path, rest))])
  }
}
