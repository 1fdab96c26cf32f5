/** What the two Lua states share: the registry, the configuration in force, and
    the one number that bounds boundary topics, frozen by whoever needs it
    first. */
module BridgeCode {
  import opened Basics
  import opened Configuration
  import opened Registration
  import Merge

  /** What the outbound path was started with: the retained set's size and the
      rings each connection gets. */
  datatype Started = Started(slots: nat, capacities: Merge.Capacities)

  datatype Refused = BadTable(error: Error) | NoBind

  /** A number in force, by key. */
  function InUse(c: Config, k: Key): nat
    requires Complete(c) && k.KindOf().Whole?
  {
    c[k].n
  }

  function Topics(c: Config): nat
    requires Complete(c)
  {
    InUse(c, MaxLifecycleTopics)
  }

  function Ring(c: Config): nat
    requires Complete(c)
  {
    InUse(c, RingOutLifecycleRecords)
  }

  /** What a first table puts in force once the cap is `cap`. */
  ghost function Frozen(table: seq<Row>, cap: nat): Config
    requires AllFit(table)
  {
    InForce(Defaults(), table, true)[MaxLifecycleTopics := Num(cap)]
  }

  /** Each size is the one the configuration in force says. */
  ghost predicate SizedBy(c: Config, s: Started)
    requires Complete(c)
  {
    && Topics(c) == s.slots
    && c[RingOutLossyRecords] == Num(s.capacities.lossy)
    && c[RingOutDurableRecords] == Num(s.capacities.durable)
    && c[RingOutLifecycleRecords] == Num(s.capacities.lifecycle)
  }

  /** The cap bounds what is bound, is what the retained set was sized by, and is
      what the configuration in force says; until then it is the default. Of the
      rules, all but the last hold of what is in force at every moment. */
  ghost predicate Settled(bound: nat, cap: Option<nat>, config: Config, started: Option<Started>) {
    && Complete(config) && Guarded(config)
    && (bound > 0 ==> cap.Some? && bound <= cap.value)
    && (cap.Some? ==> 1 <= cap.value <= U32_MAX)
    && match started
       case Some(s) => cap == Some(s.slots) && SizedBy(config, s)
       case None => Topics(config) == 64
  }

  lemma FreezeSettles(bound: nat, cap: nat, config: Config, started: Option<Started>)
    requires Settled(bound, None, config, started) && 1 <= cap <= U32_MAX
    ensures Settled(bound, Some(cap), config, started) && started == None && bound == 0 && Topics(config) == 64
  {
    hide Complete;
  }

  lemma BindSettles(bound: nat, bound': nat, cap: Option<nat>, config: Config, started: Option<Started>)
    requires Settled(bound, cap, config, started)
    requires bound' == bound || (cap.Some? && bound' <= cap.value)
    ensures Settled(bound', cap, config, started)
  {
    hide Complete;
  }

  lemma DefaultSettles()
    ensures Complete(Defaults()) && Settled(0, None, Defaults(), None)
  {
    DefaultsGuarded();
    hide Guarded, Defaults, Complete;
    assert Defaults()[MaxLifecycleTopics] == MaxLifecycleTopics.Default();
  }

  lemma DefaultsGuarded()
    ensures Guarded(Defaults())
  {
    hide Key.Default, Key.KindOf, Defaults, Guarded;
    AsTheyCome(Defaults());
  }

  /** Without a boundary row a table cannot be refused for the cap. */
  lemma NoneOffered(bound: nat, cap: Option<nat>, config: Config, started: Option<Started>,
                    classes: map<Topic, RecordClass>, rows: seq<(Topic, RecordClass)>)
    requires Settled(bound, cap, config, started)
    ensures !Binding(rows) ==> bound + |Offered(classes, rows)| <= U32_MAX
  {
    if !Binding(rows) { assert Offered(classes, rows) == {}; }
    hide Complete;
  }

  lemma InRange(c: Config)
    requires Complete(c)
    ensures 1 <= Topics(c) <= U32_MAX
  {
    assert Holds(MaxLifecycleTopics.KindOf(), c[MaxLifecycleTopics]);
  }

  lemma WithTopics(c: Config, n: nat)
    requires Complete(c) && 1 <= n <= U32_MAX
    ensures var c' := c[MaxLifecycleTopics := Num(n)];
            && Complete(c') && Topics(c') == n && Ring(c') == Ring(c) && (n == Topics(c) ==> c' == c)
            && (Guarded(c) ==> Guarded(c'))
  {
    assert Holds(MaxLifecycleTopics.KindOf(), c[MaxLifecycleTopics]);
    if n == Topics(c) { assert c[MaxLifecycleTopics] == Num(n); }
  }

  lemma HoldsAt(c: Config, k: Key)
    requires Complete(c)
    ensures k in c && Holds(k.KindOf(), c[k])
  {
  }

  lemma StartSettles(bound: nat, cap: nat, was: Config, c: Config, s: Started)
    requires Settled(bound, Some(cap), was, None) && Complete(c) && Guarded(c)
    requires s == Sizes(c, cap) && Topics(c) == cap
    ensures Settled(bound, Some(cap), c, Some(s))
  {
    hide Complete, Guarded;
    HoldsAt(c, RingOutLossyRecords);
    HoldsAt(c, RingOutDurableRecords);
    HoldsAt(c, RingOutLifecycleRecords);
  }

  /** A later table leaves every restart key as it is. */
  lemma KeepsRestart(base: Config, table: seq<Row>, k: Key)
    requires Complete(base) && AllFit(table) && k.TierOf() == Restart
    ensures InForce(base, table, false)[k] == base[k]
  {
    hide Complete, Says, AllFit;
  }

  lemma SameSettles(bound: nat, cap: Option<nat>, c: Config, c': Config, started: Option<Started>)
    requires Settled(bound, cap, c, started) && Complete(c') && Guarded(c')
    requires c'[MaxLifecycleTopics] == c[MaxLifecycleTopics] && c'[RingOutLifecycleRecords] == c[RingOutLifecycleRecords]
    requires c'[RingOutLossyRecords] == c[RingOutLossyRecords] && c'[RingOutDurableRecords] == c[RingOutDurableRecords]
    ensures Settled(bound, cap, c', started)
  {
    hide Complete;
  }

  lemma LaterSettles(bound: nat, cap: Option<nat>, base: Config, started: Option<Started>, table: seq<Row>)
    requires Settled(bound, cap, base, started) && Accepts(base, table, false)
    ensures Settled(bound, cap, InForce(base, table, false), started)
  {
    hide InForce, AllFit, Guarded;
    KeepsRestart(base, table, MaxLifecycleTopics);
    KeepsRestart(base, table, RingOutLifecycleRecords);
    KeepsRestart(base, table, RingOutLossyRecords);
    KeepsRestart(base, table, RingOutDurableRecords);
    SameSettles(bound, cap, base, InForce(base, table, false), started);
    hide Complete, Settled;
  }

  lemma EnabledSettles(bound: nat, cap: Option<nat>, base: Config, started: Option<Started>, enabled: bool)
    requires Settled(bound, cap, base, started)
    ensures Settled(bound, cap, base[Enabled := Bool(enabled)], started)
  {
  }

  function Sizes(c: Config, slots: nat): Started
    requires Complete(c)
  {
    Started(slots, Merge.Capacities(InUse(c, RingOutLossyRecords), InUse(c, RingOutDurableRecords), InUse(c, RingOutLifecycleRecords)))
  }

  function Inbound(c: Config): (nat, nat)
    requires Complete(c)
  {
    (InUse(c, RingInSimDriverRecords), InUse(c, RingInHookDriverRecords))
  }

  ghost predicate Binding(rows: seq<(Topic, RecordClass)>) { exists j :: 0 <= j < |rows| && rows[j].1 == LifecycleRecord }

  /** With no boundary row there is no new boundary topic. */
  lemma NothingBinds(was: map<Topic, RecordClass>, rows: seq<(Topic, RecordClass)>, now: map<Topic, RecordClass>)
    requires Merged(was, rows, now) && !Binding(rows)
    ensures Boundaries(now) == Boundaries(was)
  {
    forall t | t in now && t !in was ensures now[t] != LifecycleRecord {
      var i :| 0 <= i < |rows| && rows[i].0 == t;
      assert now[rows[i].0] == rows[i].1;
    }
  }

  lemma SlotsAre(r: Registry)
    requires r.Valid()
    ensures |r.slots| == |Boundaries(r.classes)|
  {
    assert |r.slots| == |r.slots.Keys|;
  }

  class Bridge {
    const registry: Registry
    var cap: Option<nat>
    var config: Config
    var started: Option<Started>
    var inbound: Option<(nat, nat)>
    var pendingRestart: nat
    var unknownKeys: nat

    /** The first table is the one that starts everything. */
    predicate Configured() reads this { started.Some? }

    ghost predicate Valid() reads this, registry {
      registry.Valid() && Settled(|registry.slots|, cap, config, started)
    }

    constructor ()
      ensures Valid() && fresh(registry) && cap == None && !Configured() && config == Defaults() && registry.slots == map[]
    {
      hide Settled, Registration.Slotted, NamedAs;
      DefaultSettles();
      registry := new Registry();
      cap, config, started, inbound := None, Defaults(), None, None;
      pendingRestart, unknownKeys := 0, 0;
    }

    /** `max_lifecycle_topics` in force: the frozen number, or the one in the
        configuration frozen now. */
    method LifecycleCap() returns (n: nat)
      requires Valid()
      modifies this`cap
      ensures Valid() && cap == Some(n) && (if old(cap).Some? then cap == old(cap) else n == 64)
    {
      hide Registration.Slotted, NamedAs, Complete;
      if cap.None? {
        FreezeSettles(|registry.slots|, 64, config, started);
        cap := Some(Topics(config));
      }
      n := cap.value;
    }

    /** A table with no boundary topic freezes nothing. */
    method RegisterClasses(rows: seq<(Topic, RecordClass)>) returns (r: Result<nat, Refusal<RecordClass>>)
      requires Valid()
      modifies this`cap, registry`classes, registry`slots, registry`names
      ensures Valid() && Extends(old(registry.slots), registry.slots)
      ensures cap == if old(cap).None? && Binding(rows) then Some(64) else old(cap)
      ensures r.Ok? ==> Agree(old(registry.classes), rows) && Merged(old(registry.classes), rows, registry.classes)
      ensures r.Err? ==> registry.classes == old(registry.classes) && registry.slots == old(registry.slots)
      ensures Binding(rows) ==> cap.Some?
      ensures r.Ok? <==>
                && Agree(old(registry.classes), rows)
                && (Binding(rows) ==> |old(registry.slots)| + |Offered(old(registry.classes), rows)| <= cap.value)
    {
      hide Settled, Registration.Slotted, NamedAs, Agree, Merged, Boundaries;
      var binds, i := false, 0;
      while i < |rows| && !binds
        invariant i <= |rows| && (binds ==> Binding(rows))
        invariant !binds ==> forall j | 0 <= j < i :: rows[j].1 != LifecycleRecord
      {
        binds := rows[i].1 == LifecycleRecord;
        i := i + 1;
      }
      ghost var was, bound := registry.classes, |registry.slots|;
      NoneOffered(bound, cap, config, started, was, rows);
      if binds {
        var n := LifecycleCap();
        r := registry.RegisterClasses(rows, n);
      } else {
        SlotsAre(registry);
        r := registry.RegisterClasses(rows, U32_MAX);
        SlotsAre(registry);
        if r.Ok? { NothingBinds(was, rows, registry.classes); }
      }
      BindSettles(bound, |registry.slots|, cap, config, started);
    }

    /** The first table: every key applies, and everything is sized and started
        from it. `binds` is what the socket says. */
    method First(table: seq<Row>, binds: bool) returns (r: Result<Applied, Refused>)
      requires Valid() && !Configured()
      modifies this
      ensures Valid() && (old(cap).Some? ==> cap == old(cap))
      ensures r.Err? ==> config == old(config) && !Configured()
                         && pendingRestart == old(pendingRestart) && unknownKeys == old(unknownKeys)
      ensures !AllFit(table) ==> r.Err? && r.error.BadTable?
      ensures AllFit(table) ==>
                && Complete(InForce(Defaults(), table, true))
                && (Broken(InForce(Defaults(), table, true)).Some? <==> r.Err? && r.error.BadTable?)
                && (Broken(InForce(Defaults(), table, true)).None? ==>
                      && (r.Ok? <==> binds)
                      && cap == if old(cap).Some? then old(cap) else Some(Topics(InForce(Defaults(), table, true))))
      ensures r.Ok? <==> Accepts(Defaults(), table, true) && binds
      ensures Accepts(Defaults(), table, true) ==>
                inbound == if old(inbound).Some? then old(inbound) else Some(Inbound(InForce(Defaults(), table, true)))
      ensures r.Ok? ==> Configured() && AllFit(table) && cap.Some? && config == r.value.config == Frozen(table, cap.value)
      ensures r.Ok? ==> pendingRestart == |r.value.pending| && unknownKeys == |r.value.unknown|
    {
      hide Settled, InForce, Broken, Guarded, RingAbove, Pending, Unknown, LiveNamed, Registration.Slotted, NamedAs, Complete, Topics, Ring;
      var merged := Configuration.Merge(Defaults(), table, true);
      if merged.Err? { return Err(BadTable(merged.error)); }
      var applied := UnderCap(merged.value);
      var bound := Begin(applied, binds);
      if !bound { return Err(NoBind); }
      return Ok(applied);
    }

    /** What a first table comes to under the frozen cap: its own number waits
        for a restart if it is another. */
    method UnderCap(file: Applied) returns (applied: Applied)
      requires Valid() && !Configured() && Complete(file.config) && Guarded(file.config)
      modifies this`cap
      ensures Valid() && cap == if old(cap).Some? then old(cap) else Some(Topics(file.config))
      ensures cap.Some? && Complete(applied.config) && Guarded(applied.config) && Topics(applied.config) == cap.value
      ensures applied.config == file.config[MaxLifecycleTopics := Num(cap.value)]
      ensures applied.pending == if Topics(file.config) == cap.value then file.pending
                                 else file.pending + [Waiting(MaxLifecycleTopics, Num(cap.value), Num(Topics(file.config)))]
    {
      hide Settled, Registration.Slotted, NamedAs, Complete, Topics, Ring;
      InRange(file.config);
      var n := FreezeAt(Topics(file.config));
      WithTopics(file.config, n);
      applied := file;
      if Topics(file.config) != n {
        applied := file.(pending := file.pending + [Waiting(MaxLifecycleTopics, Num(n), Num(Topics(file.config)))],
                         config := file.config[MaxLifecycleTopics := Num(n)]);
      }
    }

    /** Start everything, if the socket binds. */
    method Begin(applied: Applied, binds: bool) returns (bound: bool)
      requires Valid() && !Configured() && Complete(applied.config) && Guarded(applied.config)
      requires cap == Some(Topics(applied.config))
      modifies this`started, this`inbound, this`config, this`pendingRestart, this`unknownKeys
      ensures Valid() && bound == binds && Configured() == binds
      ensures inbound == if old(inbound).Some? then old(inbound) else Some(Inbound(applied.config))
      ensures binds ==> config == applied.config && pendingRestart == |applied.pending| && unknownKeys == |applied.unknown|
      ensures !binds ==> config == old(config) && pendingRestart == old(pendingRestart) && unknownKeys == old(unknownKeys)
    {
      hide Settled, Registration.Slotted, NamedAs, Complete, Topics, Ring;
      StartInbound(applied.config);
      if !binds { return false; }
      var s := Sizes(applied.config, cap.value);
      StartSettles(|registry.slots|, cap.value, config, applied.config, s);
      started := Some(s);
      pendingRestart, unknownKeys := |applied.pending|, |applied.unknown|;
      config := applied.config;
      return true;
    }

    method StartInbound(c: Config)
      requires Complete(c)
      modifies this`inbound
      ensures inbound == if old(inbound).Some? then old(inbound) else Some(Inbound(c))
    {
      if inbound.None? { inbound := Some((InUse(c, RingInSimDriverRecords), InUse(c, RingInHookDriverRecords))); }
    }

    /** The frozen cap, or this number frozen now. */
    method FreezeAt(file: nat) returns (n: nat)
      requires Valid() && !Configured() && 1 <= file <= U32_MAX
      modifies this`cap
      ensures Valid() && cap == Some(n) && cap == (if old(cap).Some? then old(cap) else Some(file)) && 1 <= n <= U32_MAX
    {
      hide Registration.Slotted, NamedAs, Complete;
      if cap.None? {
        FreezeSettles(|registry.slots|, file, config, started);
        cap := Some(file);
      }
      n := cap.value;
    }

    /** A later table: the live keys move, and nothing is started again. */
    method Later(table: seq<Row>) returns (r: Result<Applied, Refused>)
      requires Valid() && Configured() && Complete(config)
      modifies this`config, this`pendingRestart, this`unknownKeys
      ensures Valid()
      ensures r.Err? ==> r.error.BadTable? && config == old(config)
                         && pendingRestart == old(pendingRestart) && unknownKeys == old(unknownKeys)
      ensures !AllFit(table) ==> r.Err?
      ensures AllFit(table) ==>
                && Complete(InForce(old(config), table, false))
                && (Broken(InForce(old(config), table, false)).Some? <==> r.Err?)
                && (r.Ok? ==> config == r.value.config == InForce(old(config), table, false))
      ensures r.Ok? <==> Accepts(old(config), table, false)
      ensures r.Ok? ==> pendingRestart == |r.value.pending| && unknownKeys == |r.value.unknown|
    {
      hide Settled, InForce, Broken, Guarded, RingAbove, Pending, Unknown, LiveNamed, Registration.Slotted, NamedAs, Complete;
      var merged := Configuration.Merge(config, table, false);
      if merged.Err? { return Err(BadTable(merged.error)); }
      LaterSettles(|registry.slots|, cap, config, started, table);
      config := merged.value.config;
      pendingRestart, unknownKeys := |merged.value.pending|, |merged.value.unknown|;
      return Ok(merged.value);
    }

    method Configure(table: seq<Row>, binds: bool) returns (r: Result<Applied, Refused>)
      requires Valid()
      modifies this
      ensures Valid() && (old(cap).Some? ==> cap == old(cap)) && (old(Configured()) ==> started == old(started))
      ensures Complete(old(config))
      ensures r.Ok? <==> if old(Configured()) then Accepts(old(config), table, false) else Accepts(Defaults(), table, true) && binds
      ensures r.Err? ==> config == old(config) && started == old(started)
      ensures r.Ok? ==> Configured() && AllFit(table) && cap.Some? && config == r.value.config
      ensures r.Ok? && old(Configured()) ==> config == InForce(old(config), table, false)
      ensures r.Ok? && !old(Configured()) ==> config == Frozen(table, cap.value)
    {
      hide InForce, Broken, Registration.Slotted, NamedAs, Complete, Guarded, RingAbove, Accepts, Frozen;
      if Configured() { r := Later(table); } else { r := First(table, binds); }
    }

    /** The kill switch moves its own key. */
    method SetEnabled(enabled: bool)
      requires Valid()
      modifies this`config
      ensures Valid() && config == old(config)[Enabled := Bool(enabled)]
    {
      hide Settled, Registration.Slotted, NamedAs;
      EnabledSettles(|registry.slots|, cap, config, started, enabled);
      config := config[Enabled := Bool(enabled)];
    }
  }
}
