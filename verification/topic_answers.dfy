/** What a consumer is told it will be sent, against what it is sent.

    The answers are worked out from the registrars' tables on the reader's
    thread; a record is sent or withheld by the mask and the filter on the
    writer's. */
module TopicAnswers {
  import opened Basics
  import opened Delivery
  import opened Registration
  import opened NameOrder
  import Hall
  import Merge

  datatype Listing = Listing(topic: Topic, class_: RecordClass, target: Option<Target>)

  datatype Resolved = Resolved(admitted: nat, unknown: seq<Topic>)

  // ---- The mask of a session's capabilities ----------------------------------------

  /** Folded over the set in whatever order it comes. */
  method CapabilitiesOf(granted: set<Capability>) returns (mask: Capabilities)
    ensures IsMask(granted, mask)
  {
    hide Covers, With;
    mask := 0;
    var rest := granted;
    forall c: Capability ensures !Covers(mask, c.Number()) { NoneCovered(c.Number()); }
    while rest != {}
      invariant rest <= granted && IsMask(granted - rest, mask)
      decreases |rest|
    {
      var cap :| cap in rest;
      MaskNext(granted - rest, mask, cap);
      assert granted - (rest - {cap}) == (granted - rest) + {cap};
      mask := With(mask, cap.Number());
      rest := rest - {cap};
    }
    assert granted - rest == granted;
  }

  ghost predicate IsMask(granted: set<Capability>, mask: Capabilities) {
    forall c: Capability :: Covers(mask, c.Number()) <==> c in granted
  }

  lemma MaskNext(granted: set<Capability>, mask: Capabilities, cap: Capability)
    requires IsMask(granted, mask)
    ensures IsMask(granted + {cap}, With(mask, cap.Number()))
  {
    hide Covers, With;
    forall c: Capability ensures Covers(With(mask, cap.Number()), c.Number()) <==> c in granted + {cap} {
      WithCovers(mask, cap.Number(), c.Number());
      assert cap.Number() < 64;
      assert cap.Number() == c.Number() <==> cap == c;
    }
  }

  // ---- The answers ------------------------------------------------------------------------

  predicate Admissible(r: Registry, granted: set<Capability>, topic: Topic)
    reads r
  {
    topic in r.classes && topic in r.caps && r.caps[topic] in granted
  }

  predicate Wanted(filter: Filter, class_: RecordClass, topic: Topic) {
    match filter
    case All => true
    case Only(named) => class_ == LifecycleRecord || topic in named
  }

  ghost function Admitted(r: Registry, granted: set<Capability>, filter: Filter): set<Topic>
    reads r
  {
    set t | t in r.classes && Wanted(filter, r.classes[t], t) && Admissible(r, granted, t)
  }

  /** The class the table gives the topic, and for an inbound one its target. */
  ghost predicate IsEntry(r: Registry, e: Listing)
    reads r
  {
    && e.topic in r.classes && e.class_ == r.classes[e.topic]
    && (e.target.Some? <==> e.topic in r.routes)
    && (e.target.Some? ==> e.target.value == r.routes[e.topic])
  }

  /** In name order, the topics an unfiltered connection is admitted to. */
  ghost predicate Lists(r: Registry, granted: set<Capability>, entries: seq<Listing>)
    reads r
  {
    && Ascending(seq(|entries|, i requires 0 <= i < |entries| => entries[i].topic))
    && (forall i | 0 <= i < |entries| ::
          entries[i].topic in Admitted(r, granted, All) && IsEntry(r, entries[i]))
    && (forall t | t in Admitted(r, granted, All) :: exists i :: 0 <= i < |entries| && entries[i].topic == t)
  }

  method GetTopics(r: Registry, granted: set<Capability>) returns (entries: Option<seq<Listing>>)
    requires r.Valid()
    ensures entries == None <==> r.classes == map[]
    ensures entries.Some? ==> Lists(r, granted, entries.value)
  {
    if r.classes == map[] { return None; }
    var names := Sorted(set t | t in r.classes.Keys && Admissible(r, granted, t));
    assert forall t :: t in names <==> t in Admitted(r, granted, All);
    var listed: seq<Listing> := [];
    for i := 0 to |names|
      invariant |listed| == i && forall k | 0 <= k < i :: listed[k].topic == names[k] && IsEntry(r, listed[k])
    {
      assert names[i] in names;
      listed := listed + [Listing(names[i], r.classes[names[i]], if names[i] in r.routes then Some(r.routes[names[i]]) else None)];
    }
    assert seq(|listed|, i requires 0 <= i < |listed| => listed[i].topic) == names;
    forall t | t in Admitted(r, granted, All) ensures exists i :: 0 <= i < |listed| && listed[i].topic == t {
      var i :| 0 <= i < |names| && names[i] == t;
      assert listed[i].topic == t;
    }
    return Some(listed);
  }

  lemma OneFewer(all: set<Topic>, rest: set<Topic>, topic: Topic)
    requires topic in rest
    ensures all - (rest - {topic}) == if topic in all then (all - rest) + {topic} else all - rest
    ensures |all - (rest - {topic})| == |all - rest| + if topic in all then 1 else 0
  {
  }

  method CountAdmitted(r: Registry, granted: set<Capability>, filter: Filter) returns (admitted: nat)
    ensures admitted == |Admitted(r, granted, filter)|
  {
    ghost var all := Admitted(r, granted, filter);
    var rest := r.classes.Keys;
    admitted := 0;
    assert all - rest == {};
    while rest != {}
      invariant rest <= r.classes.Keys && admitted == |all - rest|
      decreases |rest|
    {
      var topic :| topic in rest;
      OneFewer(all, rest, topic);
      rest := rest - {topic};
      if Wanted(filter, r.classes[topic], topic) && Admissible(r, granted, topic) { admitted := admitted + 1; }
      hide Wanted, Admissible;
    }
    assert all - rest == all;
  }

  method SetTopicFilter(r: Registry, granted: set<Capability>, filter: Filter) returns (answer: Resolved)
    requires r.Valid()
    ensures answer.admitted == |Admitted(r, granted, filter)|
    ensures Ascending(answer.unknown)
    ensures forall t :: t in answer.unknown <==> filter.Only? && t in filter.topics && !Admissible(r, granted, t)
  {
    hide Slotted, NamedAs, Admitted, Admissible, Ascending;
    var admitted := CountAdmitted(r, granted, filter);
    var unknown := Sorted(if filter.All? then {} else set t | t in filter.topics && !Admissible(r, granted, t));
    return Resolved(admitted, unknown);
  }

  // ---- And what fan-out does -----------------------------------------------------------------

  /** A record on the topic, as the writer meets it. */
  ghost predicate Delivered<T>(r: Registry, c: Hall.Conn<T>, topic: Topic, record: T)
    reads r
  {
    r.Required(topic).Some? &&
    var q := r.Required(topic).value;
    Hall.Receives(c, Hall.Addressed(None, q.0.Number(), q.1, q.2, Some(q.3), record))
  }

  /** A topic is admitted exactly when a record on it now would be sent; the
      acknowledgement, which the registry answers by name, apart. */
  lemma AdmittedIsDelivered<T>(r: Registry, granted: set<Capability>, c: Hall.Conn<T>, topic: Topic, record: T)
    requires r.Valid() && topic != COMMAND_ACK && c.caps.Some? && IsMask(granted, c.caps.value)
    ensures topic in Admitted(r, granted, c.filter) <==> Delivered(r, c, topic, record)
  {
    hide Covers, Slotted;
  }

  /** So as many are counted as would be sent, the acknowledgement again apart,
      and the topics listed are those an unfiltered connection is sent. */
  lemma AnswersAgree<T>(r: Registry, granted: set<Capability>, c: Hall.Conn<T>, record: T)
    requires r.Valid() && c.caps.Some? && IsMask(granted, c.caps.value)
    ensures Admitted(r, granted, c.filter) - {COMMAND_ACK}
         == set t | t in r.classes.Keys - {COMMAND_ACK} && Delivered(r, c, t, record)
  {
    forall t | t in r.classes.Keys - {COMMAND_ACK}
      ensures t in Admitted(r, granted, c.filter) <==> Delivered(r, c, t, record)
    {
      AdmittedIsDelivered(r, granted, c, t, record);
    }
    hide Delivered;
  }

  /** A named topic is unknown exactly when no filter would have it sent. */
  lemma UnknownIsUndeliverable<T>(r: Registry, granted: set<Capability>, c: Hall.Conn<T>, topic: Topic, record: T)
    requires r.Valid() && topic != COMMAND_ACK && c.caps.Some? && IsMask(granted, c.caps.value)
    ensures !Admissible(r, granted, topic) <==>
            forall f: Filter :: !Delivered(r, c.(filter := f), topic, record)
  {
    hide Delivered, Slotted, Hall.Receives;
    forall f: Filter ensures topic in Admitted(r, granted, f) <==> Delivered(r, c.(filter := f), topic, record) {
      AdmittedIsDelivered(r, granted, c.(filter := f), topic, record);
    }
    assert Admissible(r, granted, topic) <==> topic in Admitted(r, granted, All);
  }

  /** A record is lost as its class's policy says: a lossy one is counted lossy, a
      boundary one closes the connection and nothing else does, and one of the
      other classes is counted durable, or as the answer it evicted. */
  lemma LostAsItsClass<T>(p: Merge.Path<T>, c: RecordClass, record: T)
    requires Ready(p)
    ensures var cost := Cost(p, c.Outbound(), false);
            && (c == LossyRecord ==> cost == Nothing || cost == Lossy)
            && (c == LifecycleRecord ==> cost == Nothing || cost == Boundary)
            && (c == DurableRecord || c == CommandRecord ==> cost == Nothing || cost == Durable || cost == BrokerAnswer)
            && (Pushed(p, c.Outbound(), false, record).closed ==> c == LifecycleRecord)
  {
    PushNumbers(p, c.Outbound(), false, record);
    hide Pushed, Merge.Inv;
  }

  /** The acknowledgement goes as a durable topic of the command capability
      would, whatever is registered. */
  lemma AcknowledgementIsDurable(r: Registry, topic: Topic)
    requires r.Valid() && topic != COMMAND_ACK && topic in r.classes && r.classes[topic] == DurableRecord
    requires topic in r.caps && r.caps[topic] == Command
    ensures r.Required(COMMAND_ACK).Some? && r.Required(topic).Some?
    ensures var (ack, like) := (r.Required(COMMAND_ACK).value, r.Required(topic).value);
            ack.0 == like.0 && ack.1 == like.1 && ack.2 == like.2 == None && ack.3 == COMMAND_ACK
  {
  }

  /** The acknowledgement is why it is set apart: with nothing registered it
      passes as registered, and no answer counts it. */
  lemma AcknowledgementByName(r: Registry, granted: set<Capability>, filter: Filter)
    requires r.Valid() && r.classes == map[]
    ensures r.Required(COMMAND_ACK).Some? && COMMAND_ACK !in Admitted(r, granted, filter)
  {
  }
}
