/** What the two registrars share: the topic tables, merged a call at a time and
    whole or not at all, and the retained-set slot of every boundary topic. */
module Registration {
  import opened Basics
  import opened Delivery
  import Merge

  type Topic = string

  const COMMAND_ACK: Topic := "dcsbridge.broker.CommandAck"

  datatype RecordClass = DurableRecord | LossyRecord | CommandRecord | LifecycleRecord {
    /** A class's drop policy: only durable records and commands share one. */
    function Outbound(): Class {
      match this
      case LossyRecord => Merge.LOSSY
      case DurableRecord => Merge.DURABLE
      case CommandRecord => Merge.DURABLE
      case LifecycleRecord => Merge.LIFECYCLE
    }
  }

  datatype Capability = Read | Command | Reload {
    function Number(): Number {
      match this
      case Read => 1
      case Command => 2
      case Reload => 3
    }
  }

  datatype Target = SimDriver | HookDriver

  datatype Refusal<V> =
    | Conflict(topic: Topic, held: V, offered: V)
    | OverCap(bound: nat, offering: nat, cap: nat)

  // ---- Merging a table -------------------------------------------------------------

  /** Row `i` disagrees with the map, or with an earlier row of the call. */
  ghost predicate Disagrees<V>(m: map<Topic, V>, rows: seq<(Topic, V)>, i: nat)
    requires i < |rows|
  {
    (rows[i].0 in m && m[rows[i].0] != rows[i].1)
    || exists j :: 0 <= j < i && rows[j].0 == rows[i].0 && rows[j].1 != rows[i].1
  }

  ghost predicate Agree<V>(m: map<Topic, V>, rows: seq<(Topic, V)>) {
    forall i: nat | i < |rows| :: !Disagrees(m, rows, i)
  }

  /** The rows of the first `n` that are new to the map. */
  ghost predicate AreFresh<V>(m: map<Topic, V>, rows: seq<(Topic, V)>, n: nat, added: map<Topic, V>)
    requires n <= |rows|
  {
    && (forall t | t in added :: t !in m)
    && (forall i | 0 <= i < n :: rows[i].0 in m || (rows[i].0 in added && added[rows[i].0] == rows[i].1))
    && (forall t | t in added :: exists i :: 0 <= i < n && rows[i] == (t, added[t]))
  }

  lemma RowAgrees<V>(m: map<Topic, V>, rows: seq<(Topic, V)>, i: nat, added: map<Topic, V>)
    requires i < |rows| && AreFresh(m, rows, i, added) && forall j: nat | j < i :: !Disagrees(m, rows, j)
    requires rows[i].0 in m ==> m[rows[i].0] == rows[i].1
    requires rows[i].0 !in m && rows[i].0 in added ==> added[rows[i].0] == rows[i].1
    ensures !Disagrees(m, rows, i)
  {
    forall j | 0 <= j < i && rows[j].0 == rows[i].0 ensures rows[j].1 == rows[i].1 { assert !Disagrees(m, rows, j); }
  }

  /** The first pass: the rows new to the map, or the first conflict. */
  method Fresh<V(==)>(m: map<Topic, V>, rows: seq<(Topic, V)>) returns (r: Result<map<Topic, V>, Refusal<V>>)
    ensures r.Ok? <==> Agree(m, rows)
    ensures r.Ok? ==> AreFresh(m, rows, |rows|, r.value)
    ensures r.Err? ==> r.error.Conflict? && exists i: nat ::
              && i < |rows| && Disagrees(m, rows, i) && (forall j: nat | j < i :: !Disagrees(m, rows, j))
              && r.error.topic == rows[i].0 && r.error.offered == rows[i].1 && r.error.held != rows[i].1
              && (if rows[i].0 in m then r.error.held == m[rows[i].0]
                  else exists j :: 0 <= j < i && rows[j] == (rows[i].0, r.error.held))
  {
    var added: map<Topic, V> := map[];
    for i := 0 to |rows|
      invariant AreFresh(m, rows, i, added)
      invariant forall j: nat | j < i :: !Disagrees(m, rows, j)
    {
      var (topic, offered) := rows[i];
      var held: Option<V> := if topic in m then Some(m[topic]) else if topic in added then Some(added[topic]) else None;
      match held {
        case Some(value) =>
          if value != offered {
            if topic !in m {
              var j :| 0 <= j < i && rows[j] == (topic, value);
            }
            assert Disagrees(m, rows, i);
            return Err(Conflict(topic, value, offered));
          }
          RowAgrees(m, rows, i, added);
        case None =>
          RowAgrees(m, rows, i, added);
          ghost var before := added;
          added := added[topic := offered];
          forall t | t in added ensures exists k :: 0 <= k < i + 1 && rows[k] == (t, added[t]) {
            if t == topic {
              assert rows[i] == (t, added[t]);
            } else {
              var k :| 0 <= k < i && rows[k] == (t, before[t]);
            }
          }
      }
    }
    return Ok(added);
  }

  /** `m` with every row of a call that agrees. */
  ghost predicate Merged<V>(m: map<Topic, V>, rows: seq<(Topic, V)>, m': map<Topic, V>) {
    && (forall t | t in m :: t in m' && m'[t] == m[t])
    && (forall i | 0 <= i < |rows| :: rows[i].0 in m' && m'[rows[i].0] == rows[i].1)
    && (forall t | t in m' :: t in m || exists i :: 0 <= i < |rows| && rows[i].0 == t)
  }

  lemma MergeWithin<V>(m: map<Topic, V>, rows: seq<(Topic, V)>, a: map<Topic, V>, b: map<Topic, V>, t: Topic)
    requires Merged(m, rows, a) && Merged(m, rows, b) && t in a
    ensures t in b && a[t] == b[t]
  {
    if t !in m {
      var i :| 0 <= i < |rows| && rows[i].0 == t;
    }
  }

  /** A table that agrees can only merge one way, whatever the order of its
      rows. */
  lemma OneMerge<V>(m: map<Topic, V>, rows: seq<(Topic, V)>, a: map<Topic, V>, b: map<Topic, V>)
    requires Merged(m, rows, a) && Merged(m, rows, b)
    ensures a == b
  {
    forall t | t in a ensures t in b && a[t] == b[t] { MergeWithin(m, rows, a, b, t); }
    forall t | t in b ensures t in a { MergeWithin(m, rows, b, a, t); }
    hide Merged;
  }

  lemma FreshMerges<V>(m: map<Topic, V>, rows: seq<(Topic, V)>, added: map<Topic, V>)
    requires Agree(m, rows) && AreFresh(m, rows, |rows|, added)
    ensures Merged(m, rows, m + added) && m.Keys !! added.Keys
  {
    forall i | 0 <= i < |rows| ensures rows[i].0 in m + added && (m + added)[rows[i].0] == rows[i].1 {
      assert !Disagrees(m, rows, i);
    }
    forall t | t in m + added && t !in m ensures exists i :: 0 <= i < |rows| && rows[i].0 == t {
      var i :| 0 <= i < |rows| && rows[i] == (t, added[t]);
    }
  }

  // ---- Slots ---------------------------------------------------------------------------

  function Boundaries(classes: map<Topic, RecordClass>): set<Topic> {
    set t | t in classes && classes[t] == LifecycleRecord
  }

  /** The boundary topics a table would bind. */
  ghost function Offered(classes: map<Topic, RecordClass>, rows: seq<(Topic, RecordClass)>): set<Topic> {
    set i | 0 <= i < |rows| && rows[i].0 !in classes && rows[i].1 == LifecycleRecord :: rows[i].0
  }

  lemma FreshOffers(classes: map<Topic, RecordClass>, rows: seq<(Topic, RecordClass)>, added: map<Topic, RecordClass>)
    requires Agree(classes, rows) && AreFresh(classes, rows, |rows|, added)
    ensures Boundaries(added) == Offered(classes, rows)
  {
    forall t | t in added ensures t in Boundaries(added) <==> t in Offered(classes, rows) {
      var i :| 0 <= i < |rows| && rows[i] == (t, added[t]);
      forall j | 0 <= j < |rows| && rows[j].0 == t ensures rows[j].1 == added[t] { assert t in classes || added[t] == rows[j].1; }
    }
  }

  ghost predicate Taken(slots: map<Topic, nat>, n: nat) { exists t :: t in slots && slots[t] == n }

  /** Each boundary topic has a slot of its own, and the slots are the numbers
      from 0 with none left out. */
  ghost predicate Slotted(classes: map<Topic, RecordClass>, slots: map<Topic, nat>) {
    && slots.Keys == Boundaries(classes)
    && (forall t | t in slots :: slots[t] < |slots|)
    && (forall t, u | t in slots && u in slots && slots[t] == slots[u] :: t == u)
    && (forall n: nat | n < |slots| :: Taken(slots, n))
  }

  lemma BoundariesNext(classes: map<Topic, RecordClass>, topic: Topic, c: RecordClass)
    requires topic !in classes
    ensures Boundaries(classes[topic := c]) == if c == LifecycleRecord then Boundaries(classes) + {topic} else Boundaries(classes)
  {
  }

  lemma TakenNext(slots: map<Topic, nat>, topic: Topic, n: nat)
    requires topic !in slots && (n < |slots| ==> Taken(slots, n)) && n <= |slots|
    ensures Taken(slots[topic := |slots|], n)
  {
    var slots' := slots[topic := |slots|];
    if n == |slots| {
      assert slots'[topic] == n;
    } else {
      var t :| t in slots && slots[t] == n;
      assert t in slots' && slots'[t] == n;
    }
  }

  lemma SlotNext(classes: map<Topic, RecordClass>, slots: map<Topic, nat>, topic: Topic, c: RecordClass)
    requires Slotted(classes, slots) && topic !in classes
    ensures Slotted(classes[topic := c], if c == LifecycleRecord then slots[topic := |slots|] else slots)
  {
    BoundariesNext(classes, topic, c);
    assert topic !in Boundaries(classes);
    hide Boundaries, Taken;
    if c == LifecycleRecord {
      var slots' := slots[topic := |slots|];
      assert slots'.Keys == slots.Keys + {topic} && |slots'| == |slots| + 1;
      forall n: nat | n < |slots'| ensures Taken(slots', n) { TakenNext(slots, topic, n); }
    }
  }

  /** Nothing bound has moved. */
  ghost predicate Extends(slots: map<Topic, nat>, slots': map<Topic, nat>) {
    forall t | t in slots :: t in slots' && slots'[t] == slots[t]
  }

  ghost predicate NamedAs(classes: map<Topic, RecordClass>, names: map<Topic, string>) {
    names.Keys == classes.Keys && forall t | t in names :: names[t] == t
  }

  lemma NameNext(classes: map<Topic, RecordClass>, names: map<Topic, string>, topic: Topic, c: RecordClass)
    requires NamedAs(classes, names)
    ensures NamedAs(classes[topic := c], names[topic := topic])
  {
  }

  /** All of a table but the topics `todo` has been added. */
  ghost predicate Midway(was: map<Topic, RecordClass>, added: map<Topic, RecordClass>, todo: set<Topic>,
                         now: map<Topic, RecordClass>) {
    && was.Keys !! added.Keys && todo <= added.Keys
    && now.Keys == was.Keys + (added.Keys - todo)
    && forall t | t in now :: now[t] == if t in added then added[t] else was[t]
  }

  lemma MidwayNext(was: map<Topic, RecordClass>, added: map<Topic, RecordClass>, todo: set<Topic>,
                   now: map<Topic, RecordClass>, topic: Topic)
    requires Midway(was, added, todo, now) && topic in todo
    ensures topic in added && topic !in now
    ensures Midway(was, added, todo - {topic}, now[topic := added[topic]])
  {
  }

  lemma MidwayEnds(was: map<Topic, RecordClass>, added: map<Topic, RecordClass>, now: map<Topic, RecordClass>)
    requires Midway(was, added, {}, now)
    ensures now == was + added
  {
  }

  class Registry {
    var classes: map<Topic, RecordClass>
    var routes: map<Topic, Target>
    var caps: map<Topic, Capability>
    var replies: set<Topic>
    var slots: map<Topic, nat>
    /** The name each record carries, made as its topic's class arrives. */
    var names: map<Topic, string>

    ghost predicate Valid() reads this {
      Slotted(classes, slots) && NamedAs(classes, names)
    }

    constructor ()
      ensures Valid() && classes == map[] && routes == map[] && caps == map[] && replies == {} && slots == map[]
    {
      classes, routes, caps, replies, slots, names := map[], map[], map[], {}, map[], map[];
    }

    method BindOne(topic: Topic, c: RecordClass)
      requires Valid() && topic !in classes
      modifies this`classes, this`slots, this`names
      ensures Valid() && classes == old(classes)[topic := c] && Extends(old(slots), slots)
    {
      assert topic !in slots;
      SlotNext(classes, slots, topic, c);
      NameNext(classes, names, topic, c);
      hide Slotted, NamedAs;
      if c == LifecycleRecord { slots := slots[topic := |slots|]; }
      names := names[topic := topic];
      classes := classes[topic := c];
    }

    /** Bind each new boundary topic to the next slot, in whatever order the new
        rows come. */
    method Bind(added: map<Topic, RecordClass>)
      requires Valid() && classes.Keys !! added.Keys
      modifies this`classes, this`slots, this`names
      ensures Valid() && classes == old(classes) + added && Extends(old(slots), slots)
    {
      ghost var was := classes;
      var todo := added.Keys;
      assert Midway(was, added, todo, classes);
      hide Slotted, NamedAs, Midway;
      while todo != {}
        invariant Valid() && Midway(was, added, todo, classes) && Extends(old(slots), slots)
        decreases |todo|
      {
        var topic :| topic in todo;
        MidwayNext(was, added, todo, classes, topic);
        BindOne(topic, added[topic]);
        todo := todo - {topic};
      }
      MidwayEnds(was, added, classes);
    }

    /** A call that would take the bound slots past the cap is refused whole, its
        rows of other classes included. */
    method RegisterClasses(rows: seq<(Topic, RecordClass)>, cap: nat) returns (r: Result<nat, Refusal<RecordClass>>)
      requires Valid()
      modifies this`classes, this`slots, this`names
      ensures Valid()
      ensures r.Ok? ==> Agree(old(classes), rows) && Merged(old(classes), rows, classes)
                        && |slots| <= cap && |classes| == |old(classes)| + r.value
      ensures Extends(old(slots), slots)
      ensures r.Err? ==> classes == old(classes) && slots == old(slots) && names == old(names)
      ensures r.Err? <==> !Agree(old(classes), rows) || |old(slots)| + |Offered(old(classes), rows)| > cap
    {
      var first := Fresh(classes, rows);
      if first.Err? { return Err(first.error); }
      var added := first.value;
      FreshMerges(classes, rows, added);
      var bound, offered := |slots|, |Boundaries(added)|;
      BoundariesAdd(classes, added);
      assert |slots| == |slots.Keys|;
      FreshOffers(classes, rows, added);
      if bound + offered > cap {
        return Err(OverCap(bound, offered, cap));
      }
      ghost var was := classes;
      Bind(added);
      assert |slots| == |slots.Keys|;
      assert classes.Keys == was.Keys + added.Keys;
      assert |classes| == |classes.Keys| && |was| == |was.Keys| && |added| == |added.Keys|;
      return Ok(|added|);
    }

    method RegisterRoutes(rows: seq<(Topic, Target)>) returns (r: Result<nat, Refusal<Target>>)
      requires Valid()
      modifies this`routes
      ensures Valid() && (r.Ok? <==> Agree(old(routes), rows))
      ensures if r.Ok? then Merged(old(routes), rows, routes) else routes == old(routes)
    {
      var first := Fresh(routes, rows);
      if first.Err? { return Err(first.error); }
      FreshMerges(routes, rows, first.value);
      routes := routes + first.value;
      return Ok(|first.value|);
    }

    method RegisterCaps(rows: seq<(Topic, Capability)>) returns (r: Result<nat, Refusal<Capability>>)
      requires Valid()
      modifies this`caps
      ensures Valid() && (r.Ok? <==> Agree(old(caps), rows))
      ensures if r.Ok? then Merged(old(caps), rows, caps) else caps == old(caps)
    {
      var first := Fresh(caps, rows);
      if first.Err? { return Err(first.error); }
      FreshMerges(caps, rows, first.value);
      caps := caps + first.value;
      return Ok(|first.value|);
    }

    method RegisterReplies(topics: seq<Topic>) returns (added: nat)
      requires Valid()
      modifies this`replies
      ensures Valid() && replies == old(replies) + Elements(topics) && |replies| == |old(replies)| + added
    {
      hide Slotted;
      added := 0;
      for i := 0 to |topics|
        invariant replies == old(replies) + Elements(topics[..i]) && |replies| == |old(replies)| + added
        invariant Valid()
      {
        assert topics[..i + 1][..i] == topics[..i];
        if topics[i] !in replies {
          replies := replies + {topics[i]};
          added := added + 1;
        }
      }
      assert topics[..|topics|] == topics;
    }

    /** What a record on the topic needs, the ring it takes, the slot it fills and
        the name it carries; or nothing, until its class and its capability are
        both here. */
    function Required(topic: Topic): Option<(Capability, Class, Option<nat>, string)>
      reads this
    {
      if topic == COMMAND_ACK then Some((Command, Merge.DURABLE, None, COMMAND_ACK))
      else if topic !in classes then None
      else if topic !in names then None
      else if topic !in caps then None
      else Some((caps[topic], classes[topic].Outbound(), if topic in slots then Some(slots[topic]) else None, names[topic]))
    }
  }

  function Elements(topics: seq<Topic>): set<Topic> {
    if topics == [] then {} else Elements(topics[..|topics| - 1]) + {topics[|topics| - 1]}
  }

  lemma BoundariesAdd(a: map<Topic, RecordClass>, b: map<Topic, RecordClass>)
    requires a.Keys !! b.Keys
    ensures Boundaries(a + b) == Boundaries(a) + Boundaries(b)
    ensures |Boundaries(a + b)| == |Boundaries(a)| + |Boundaries(b)|
  {
    assert Boundaries(a) !! Boundaries(b);
    assert Boundaries(a + b) == Boundaries(a) + Boundaries(b);
  }
}
