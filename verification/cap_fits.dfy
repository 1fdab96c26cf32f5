/** The boundary topics, the retained set and a connection's boundary ring:
    three sizes decided in three places, and when they agree. */
module CapFits {
  import opened Basics
  import opened Configuration
  import opened Registration
  import opened BridgeCode
  import Delivery
  import Hall
  import HallProofs
  import Streams
  import Merge
  import RingSizes

  /** Every configuration a table gives has the ring above its own cap. */
  lemma AcceptedIsAbove(base: Config, table: seq<Row>, everyTier: bool)
    requires Complete(base) && AllFit(table) && Complete(InForce(base, table, everyTier))
    requires Broken(InForce(base, table, everyTier)) == None
    ensures RingAbove(InForce(base, table, everyTier))
  {
    hide Complete, InForce;
  }

  /** But the first table's cap gives way to one frozen before it. What is then
      in force has the ring above the cap exactly when the table's ring is above
      the frozen number, which it always is when nothing was frozen. */
  lemma FirstIsAbove(table: seq<Row>, cap: nat)
    requires AllFit(table) && Complete(InForce(Defaults(), table, true)) && 1 <= cap <= U32_MAX
    requires Broken(InForce(Defaults(), table, true)) == None
    ensures Complete(Frozen(table, cap))
    ensures RingAbove(Frozen(table, cap)) <==> cap < Ring(InForce(Defaults(), table, true))
    ensures cap <= Topics(InForce(Defaults(), table, true)) ==> RingAbove(Frozen(table, cap))
  {
    AcceptedIsAbove(Defaults(), table, true);
    WithTopics(InForce(Defaults(), table, true), cap);
    hide InForce, Complete, Broken;
  }

  /** Below it, the broker stays as it is: every later table is refused, whatever
      it says, until a restart. */
  lemma BelowIsStuck(base: Config, table: seq<Row>)
    requires Complete(base) && AllFit(table) && !RingAbove(base)
    ensures Complete(InForce(base, table, false)) && Broken(InForce(base, table, false)).Some?
  {
    InForceComplete(base, table, false);
    KeepsRestart(base, table, MaxLifecycleTopics);
    KeepsRestart(base, table, RingOutLifecycleRecords);
    BelowIsBroken(InForce(base, table, false));
    hide InForce, Complete, Broken;
  }

  lemma BelowIsBroken(c: Config)
    requires Complete(c) && !RingAbove(c)
    ensures Broken(c).Some?
  {
    hide Complete;
  }

  /** Above it, it stays above: both keys wait for a restart. */
  lemma AboveStays(base: Config, table: seq<Row>)
    requires Complete(base) && AllFit(table) && RingAbove(base)
    ensures Complete(InForce(base, table, false)) && RingAbove(InForce(base, table, false))
  {
    InForceComplete(base, table, false);
    KeepsRestart(base, table, MaxLifecycleTopics);
    KeepsRestart(base, table, RingOutLifecycleRecords);
    hide InForce, Complete;
  }

  /** A table of these two keys. */
  function SmallTable(ring: nat, topics: nat): seq<Row> {
    [(Owned(RingOutLifecycleRecords), Number(ring as real)), (Owned(MaxLifecycleTopics), Number(topics as real))]
  }

  lemma SmallTableFits(ring: nat, topics: nat)
    requires 1 <= topics <= U32_MAX && 1 <= ring <= U32_MAX
    ensures AllFit(SmallTable(ring, topics)) && Complete(InForce(Defaults(), SmallTable(ring, topics), true))
    ensures Ring(InForce(Defaults(), SmallTable(ring, topics), true)) == ring
    ensures Topics(InForce(Defaults(), SmallTable(ring, topics), true)) == topics
  {
    var table := SmallTable(ring, topics);
    assert (ring as real).Floor == ring && (topics as real).Floor == topics;
    assert !Bad(table[0]) && !Bad(table[1]);
    InForceComplete(Defaults(), table, true);
    assert table[..1] == [table[0]];
    assert Says([table[0]], RingOutLifecycleRecords) == Some(Num(ring));
    assert Says(table, RingOutLifecycleRecords) == Some(Num(ring));
    assert Says(table, MaxLifecycleTopics) == Some(Num(topics));
    hide InForce, Complete;
  }

  lemma SmallTableQuiet(ring: nat, topics: nat, k: Key)
    requires 1 <= topics <= U32_MAX && 1 <= ring <= U32_MAX
    requires k != RingOutLifecycleRecords && k != MaxLifecycleTopics
    ensures AllFit(SmallTable(ring, topics)) && InForce(Defaults(), SmallTable(ring, topics), true)[k] == k.Default()
  {
    SmallTableFits(ring, topics);
    var table := SmallTable(ring, topics);
    assert table[..1] == [table[0]];
    assert Says([table[0]], k) == None;
    assert Says(table, k) == None;
  }

  lemma SmallTableInOrder(ring: nat, topics: nat)
    requires 1 <= topics < ring <= U32_MAX
    ensures AllFit(SmallTable(ring, topics)) && Complete(InForce(Defaults(), SmallTable(ring, topics), true))
    ensures Broken(InForce(Defaults(), SmallTable(ring, topics), true)) == None
  {
    hide InForce, Complete, AllFit, SmallTable, Broken, Ring, Topics, Key.Default, Guarded, RingAbove;
    SmallTableFits(ring, topics);
    AboveMeans(InForce(Defaults(), SmallTable(ring, topics), true));
    SmallTableQuiet(ring, topics, MaxUnauthenticatedConnections);
    SmallTableQuiet(ring, topics, MaxConnections);
    SmallTableQuiet(ring, topics, HeartbeatIntervalMs);
    SmallTableQuiet(ring, topics, DcsAliveThresholdMs);
    SmallTableQuiet(ring, topics, DcsAliveThresholdLoadingMs);
    SmallTableQuiet(ring, topics, LoadTimeoutMs);
    SmallTableQuiet(ring, topics, BindAddress);
    AsTheyCome(InForce(Defaults(), SmallTable(ring, topics), true));
    RulesHold(InForce(Defaults(), SmallTable(ring, topics), true));
  }

  lemma AboveMeans(c: Config)
    requires Complete(c)
    ensures RingAbove(c) <==> Ring(c) > Topics(c)
  {
    hide Complete;
  }

  /** A boundary topic registered before any table freezes the cap at 64. */
  method BoundFirst() returns (b: Bridge)
    ensures fresh(b) && fresh(b.registry) && b.Valid() && !b.Configured() && b.cap == Some(64)
  {
    hide Bridge.Valid, Broken, Complete;
    b := new Bridge();
    var rows := [("a.Boundary", LifecycleRecord)];
    assert rows[0].1 == LifecycleRecord && Binding(rows);
    var registered := b.RegisterClasses(rows);
  }

  /** A boundary topic registered before the first table, and a table that is in
      order: what is in force has a ring of 20 under a cap of 64. */
  method RingBelowCap() returns (b: Bridge)
    ensures b.Valid() && b.Configured() && Complete(b.config) && !RingAbove(b.config)
  {
    hide InForce, Broken, Complete, AllFit, SmallTable, Topics, Ring, Bridge.Valid, Guarded, RingAbove;
    b := BoundFirst();
    SmallTableFits(20, 10);
    SmallTableInOrder(20, 10);
    var configured := b.First(SmallTable(20, 10), true);
    WithTopics(InForce(Defaults(), SmallTable(20, 10), true), 64);
    AboveMeans(b.config);
  }

  /** A bind that fails refuses its table, but keeps its cap. */
  method FailedBind(ring: nat, topics: nat) returns (b: Bridge, refused: Result<Applied, Refused>)
    requires 1 <= topics < ring <= U32_MAX
    ensures fresh(b) && b.Valid() && !b.Configured() && refused == Err(NoBind) && b.cap == Some(topics)
  {
    hide InForce, Broken, Complete, AllFit, SmallTable, Topics, Ring, Bridge.Valid, Guarded, RingAbove, Accepts;
    b := new Bridge();
    SmallTableFits(ring, topics);
    SmallTableInOrder(ring, topics);
    refused := b.First(SmallTable(ring, topics), false);
  }

  /** So whatever number the corrected table has, the refused one's is in
      force. */
  method FailedBindFreezes(ring: nat, topics: nat, ring': nat, topics': nat) returns (b: Bridge, refused: Result<Applied, Refused>)
    requires 1 <= topics < ring <= U32_MAX && 1 <= topics' < ring' <= U32_MAX
    ensures refused == Err(NoBind)
    ensures b.Valid() && b.Configured() && AllFit(SmallTable(ring', topics'))
    ensures Complete(InForce(Defaults(), SmallTable(ring', topics'), true))
    ensures Topics(InForce(Defaults(), SmallTable(ring', topics'), true)) == topics'
    ensures Complete(b.config) && Topics(b.config) == topics
  {
    hide InForce, Broken, Complete, AllFit, SmallTable, Topics, Ring, Bridge.Valid, Guarded, RingAbove, Accepts;
    b, refused := FailedBind(ring, topics);
    SmallTableFits(ring', topics');
    SmallTableInOrder(ring', topics');
    var configured := b.First(SmallTable(ring', topics'), true);
    WithTopics(InForce(Defaults(), SmallTable(ring', topics'), true), topics);
  }

  // ---- Slots ------------------------------------------------------------------------------

  /** Every slot a record can carry is inside the retained set, so keeping it
      never discards it. */
  lemma SlotsInside(b: Bridge, topic: Topic)
    requires b.Valid() && b.started.Some? && topic in b.registry.slots
    ensures b.registry.slots[topic] < b.started.value.slots == b.cap.value
    ensures b.registry.Required(topic).Some? && topic != COMMAND_ACK ==>
              b.registry.Required(topic).value.2 == Some(b.registry.slots[topic])
  {
    assert |b.registry.slots| > 0;
    hide Complete;
  }

  /** And after any run of a writer of that many slots, a connection attached
      with the sizes started with, and told of no boundary yet, is never closed
      by its own replay. */
  lemma ReplayFits<T>(b: Bridge, es: seq<Hall.Event<T>>, i: nat, k: nat, caps: Delivery.Capabilities,
                      pauses: seq<seq<Delivery.Rest>>)
    requires b.Valid() && b.started.Some? && Complete(b.config) && RingAbove(b.config)
    requires HallProofs.Legal(es) && i < |HallProofs.After(b.started.value.slots, es).conns|
    requires k < |es| && es[k].Attach? && es[k].id == HallProofs.After(b.started.value.slots, es).conns[i].id
    requires es[k].capacities == b.started.value.capacities
    requires var seat := Streams.View(b.started.value.slots, es, es[k].id);
             seat.Present? ==> !RingSizes.Used(seat.log, Merge.LIFECYCLE)
    ensures var s := HallProofs.After(b.started.value.slots, es);
            !Hall.Replayed(s.conns[i].(caps := Some(caps)), s.tally, s.kept, caps, pauses, 0).0.path.closed
  {
    AboveIs(b);
    hide *;
    RingSizes.FirstReplayFits(b.started.value.slots, es, i, k, caps, pauses);
  }

  lemma AboveIs(b: Bridge)
    requires b.Valid() && b.started.Some? && Complete(b.config) && RingAbove(b.config)
    ensures b.started.value.slots < b.started.value.capacities.lifecycle
  {
    hide Complete, Guarded;
  }

  // ---- Over any order of calls ------------------------------------------------------------------

  datatype Call = Classes(rows: seq<(Topic, RecordClass)>) | Table(table: seq<Row>, binds: bool) | Switch(enabled: bool)

  lemma InForceGuarded(b: Bridge)
    requires b.Valid()
    ensures Complete(b.config) && Guarded(b.config)
  {
  }

  /** However the calls come, what was bound stays bound where it was, the cap
      once frozen stays, what was started stays as it was started, and what is in
      force spares the pool, reads alive, and is on no public address but by
      leave. */
  method Calls(b: Bridge, calls: seq<Call>)
    requires b.Valid()
    modifies b, b.registry
    ensures b.Valid() && Extends(old(b.registry.slots), b.registry.slots)
    ensures old(b.cap).Some? ==> b.cap == old(b.cap)
    ensures old(b.started).Some? ==> b.started == old(b.started)
    ensures Complete(b.config) && Guarded(b.config)
  {
    hide Settled, Guarded, Registration.Slotted, NamedAs, Complete, Agree, Merged, InForce, Frozen, Binding;
    for i := 0 to |calls|
      invariant b.Valid() && Extends(old(b.registry.slots), b.registry.slots)
      invariant old(b.cap).Some? ==> b.cap == old(b.cap)
      invariant old(b.started).Some? ==> b.started == old(b.started)
    {
      match calls[i] {
        case Classes(rows) => var _ := b.RegisterClasses(rows);
        case Table(table, binds) => var _ := b.Configure(table, binds);
        case Switch(enabled) => b.SetEnabled(enabled);
      }
    }
    InForceGuarded(b);
  }
}
