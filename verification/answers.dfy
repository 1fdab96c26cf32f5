/** The broker's own answers, each built in a buffer sized for it. Every put is
    expected to fit; here it is shown to, for any input whose buffer is under
    2^35 bytes, and that what is handed on encodes the answer and nothing else. */
module Answers {
  import opened Basics
  import opened Wire
  import opened Encoding
  import opened Rendering
  import opened EncodeCode

  const ANSWER_BYTES: nat := 128
  const WIDEST: nat := 0x8_0000_0000

  /** A name's bytes. */
  function Ascii(s: string): (b: seq<byte>)
    ensures |b| == |s|
  {
    seq(|s|, i requires 0 <= i < |s| => (s[i] as int) % 256)
  }

  const PONG := "dcsbridge.broker.Pong"
  const REJECTED := "dcsbridge.broker.Rejected"
  const TOPIC_FILTER_RESULT := "dcsbridge.broker.TopicFilterResult"
  const TOPICS := "dcsbridge.broker.Topics"
  const SCHEMA := "dcsbridge.broker.Schema"
  const AUTH_RESULT := "dcsbridge.broker.AuthResult"
  const NO_TOPICS := "no class table has been registered with the broker"
  const NO_SCHEMA := "no schema has been handed to the broker"

  /** What an answer on `name` carrying `puts` is on the wire, built in a buffer
      of `capacity`. */
  ghost predicate IsAnswer(tail: seq<byte>, name: string, puts: seq<Put>, capacity: nat) {
    && tail == EncodedAll(Tail(Ascii(name), None, puts), VarintLen(capacity))
    && AllSound(Tail(Ascii(name), None, puts), VarintLen(capacity))
  }

  /** Anything under 2^35 takes five bytes at most as a varint. */
  lemma FiveBytes(v: nat)
    ensures v < WIDEST ==> VarintLen(v) <= 5
  {
    assert Room(5) == WIDEST;
    if v < WIDEST { WidthOfRoom(v, 5); }
  }

  lemma {:induction false} WidthOfRoom(v: nat, n: nat)
    requires n > 0 && v < Room(n)
    ensures VarintLen(v) <= n
  {
    if n == 1 {
      assert Room(1) == 128 * Room(0);
    } else if v >= 128 {
      WidthOfRoom(v / 128, n - 1);
    }
  }

  // ---- Puts that are expected to fit ---------------------------------------

  /** An answer on `name` under way: its fields so far, in at most `used` bytes. */
  ghost predicate Building(e: Encoder, name: string, puts: seq<Put>, used: nat)
    reads e
  {
    && e.Valid() && e.state.Open? && e.open == [] && e.lenWidth <= 5
    && e.topic == Ascii(name) && e.stamp == None
    && |e.frames| == 3 && e.frames[2].puts == puts && |e.buf| <= used <= e.capacity
  }

  method Start(name: string, capacity: nat) returns (e: Encoder)
    requires capacity < WIDEST && |name| < 100 && 34 + |name| <= capacity
    ensures fresh(e) && e.capacity == capacity && Building(e, name, [], 34 + |name|)
  {
    hide Ascii;
    e := new Encoder(capacity);
    FiveBytes(capacity);
    var _ := e.Begin(Ascii(name), None);
  }

  method Integer(e: Encoder, name: string, ghost puts: seq<Put>, ghost used: nat, number: nat, n: int)
    requires -0x8000_0000_0000_0000 <= n < 0x8000_0000_0000_0000 && 1 <= number < 16
    requires Building(e, name, puts, used) && used + 1 + VarintLen(Unsigned(n)) <= e.capacity
    modifies e
    ensures Building(e, name, puts + [Varint(number, Unsigned(n))], used + 1 + VarintLen(Unsigned(n)))
  {
    hide Ascii, Unsigned;
    var r := e.Integer(number, n);
    assert r.Ok?;
  }

  method Boolean(e: Encoder, name: string, ghost puts: seq<Put>, ghost used: nat, number: nat, b: bool)
    requires 1 <= number < 16 && Building(e, name, puts, used) && used + 2 <= e.capacity
    modifies e
    ensures Building(e, name, puts + [Varint(number, if b then 1 else 0)], used + 2)
  {
    hide Ascii;
    var r := e.Boolean(number, b);
    assert r.Ok?;
  }

  method String(e: Encoder, name: string, ghost puts: seq<Put>, ghost used: nat, number: nat, s: seq<byte>)
    requires 1 <= number < 16 && |s| < U64
    requires Building(e, name, puts, used) && used + 1 + VarintLen(|s|) + |s| <= e.capacity
    modifies e
    ensures Building(e, name, puts + [Text(number, s)], used + 1 + VarintLen(|s|) + |s|)
  {
    hide Ascii;
    var r := e.String(number, s);
    assert r.Ok?;
  }

  method Finish(e: Encoder, name: string, ghost puts: seq<Put>, ghost used: nat) returns (tail: seq<byte>)
    requires Building(e, name, puts, used)
    modifies e
    ensures IsAnswer(tail, name, puts, e.capacity) && |tail| <= used
    ensures forall schema :: AllConform(schema, Tail(Ascii(name), None, puts)) ==>
              Decode(schema, tail) == Some(Tail(Ascii(name), None, puts))
  {
    hide Ascii, AllConform, Decode, Tail, AllSound;
    var r := e.Commit();
    assert r.Ok?;
    tail := r.value;
  }

  // ---- The answers -----------------------------------------------------------

  datatype Liveness = Liveness(lastHeardMs: Option<nat>, alive: bool, enabled: bool)

  method Pong(l: Liveness) returns (tail: seq<byte>)
    requires l.lastHeardMs.Some? ==> l.lastHeardMs.value < U64
    ensures |tail| <= ANSWER_BYTES
    ensures IsAnswer(tail, PONG, PongPuts(l), ANSWER_BYTES)
  {
    hide Building, IsAnswer;
    var e := Start(PONG, ANSWER_BYTES);
    ghost var puts, used := [], 34 + |PONG|;
    Boolean(e, PONG, puts, used, 1, l.alive);
    puts, used := puts + [Varint(1, if l.alive then 1 else 0)], used + 2;
    if l.lastHeardMs.Some? {
      var n := SignedOf(l.lastHeardMs.value);
      SameBits(l.lastHeardMs.value);
      TenBytes(n);
      Integer(e, PONG, puts, used, 2, n);
      puts, used := puts + [Varint(2, Unsigned(n))], used + 1 + VarintLen(Unsigned(n));
    }
    Boolean(e, PONG, puts, used, 3, l.enabled);
    puts, used := puts + [Varint(3, if l.enabled then 1 else 0)], used + 2;
    assert puts == PongPuts(l);
    tail := Finish(e, PONG, puts, used);
  }

  function PongPuts(l: Liveness): seq<Put> {
    [Varint(1, if l.alive then 1 else 0)]
    + (if l.lastHeardMs.Some? then [Varint(2, l.lastHeardMs.value)] else [])
    + [Varint(3, if l.enabled then 1 else 0)]
  }

  /** `Rejected`: the sender's number and topic echoed, and why. */
  method Rejected(seqno: nat, topic: seq<byte>, reason: nat) returns (tail: seq<byte>)
    requires seqno < U64 && 1 <= reason <= 4 && ANSWER_BYTES + |topic| < WIDEST
    ensures IsAnswer(tail, REJECTED, [Varint(1, seqno), Text(2, topic), Varint(3, reason)], ANSWER_BYTES + |topic|)
  {
    hide Building, IsAnswer;
    var capacity := ANSWER_BYTES + |topic|;
    FiveBytes(|topic|);
    var e := Start(REJECTED, capacity);
    ghost var puts, used := [], 34 + |REJECTED|;
    var n := SignedOf(seqno);
    SameBits(seqno);
    TenBytes(n);
    Integer(e, REJECTED, puts, used, 1, n);
    puts, used := puts + [Varint(1, Unsigned(n))], used + 1 + VarintLen(Unsigned(n));
    String(e, REJECTED, puts, used, 2, topic);
    puts, used := puts + [Text(2, topic)], used + 1 + VarintLen(|topic|) + |topic|;
    Integer(e, REJECTED, puts, used, 3, reason);
    puts, used := puts + [Varint(3, reason)], used + 1 + VarintLen(reason);
    assert puts == [Varint(1, seqno), Text(2, topic), Varint(3, reason)];
    tail := Finish(e, REJECTED, puts, used);
  }

  /** What one name adds to a buffer sized for it, and what all of them do. */
  function Room8(names: seq<seq<byte>>): nat {
    if names == [] then 0 else Room8(names[..|names| - 1]) + |names[|names| - 1]| + 8
  }

  function NamePuts(names: seq<seq<byte>>): seq<Put> { seq(|names|, i requires 0 <= i < |names| => Text(4, names[i])) }

  /** `TopicFilterResult`, applied or refused; sized for the names it echoes. */
  method TopicFilterResult(result: Result<(nat, seq<seq<byte>>), nat>) returns (tail: seq<byte>)
    requires result.Ok? ==> result.value.0 <= 0xFFFF_FFFF && ANSWER_BYTES + Room8(result.value.1) < WIDEST
    requires result.Err? ==> 1 <= result.error <= 4
    ensures result.Ok? ==>
              IsAnswer(tail, TOPIC_FILTER_RESULT, [Varint(1, 1), Varint(3, result.value.0)] + NamePuts(result.value.1),
                       ANSWER_BYTES + Room8(result.value.1))
    ensures result.Err? ==>
              IsAnswer(tail, TOPIC_FILTER_RESULT, [Varint(1, 0), Varint(2, result.error)], ANSWER_BYTES)
  {
    hide Building, IsAnswer;
    var unknown: seq<seq<byte>> := if result.Ok? then result.value.1 else [];
    var e := Start(TOPIC_FILTER_RESULT, ANSWER_BYTES + Room8(unknown));
    ghost var puts, used := [], 34 + |TOPIC_FILTER_RESULT|;
    Boolean(e, TOPIC_FILTER_RESULT, puts, used, 1, result.Ok?);
    puts, used := puts + [Varint(1, if result.Ok? then 1 else 0)], used + 2;
    match result {
      case Ok((admitted, names)) =>
        FiveBytes(admitted);
        Integer(e, TOPIC_FILTER_RESULT, puts, used, 3, admitted);
        puts, used := puts + [Varint(3, admitted)], 76;
        Loosen(e, TOPIC_FILTER_RESULT, puts, 34 + |TOPIC_FILTER_RESULT| + 3 + VarintLen(admitted), used);
        for i := 0 to |names|
          invariant e.capacity == ANSWER_BYTES + Room8(names) && used == 76 + Room8(names[..i])
          invariant puts == [Varint(1, 1), Varint(3, admitted)] + NamePuts(names[..i])
          invariant Building(e, TOPIC_FILTER_RESULT, puts, used)
        {
          Room8Grows(names, i);
          FiveBytes(|names[i]|);
          String(e, TOPIC_FILTER_RESULT, puts, used, 4, names[i]);
          puts := puts + [Text(4, names[i])];
          Loosen(e, TOPIC_FILTER_RESULT, puts, used + 1 + VarintLen(|names[i]|) + |names[i]|, used + |names[i]| + 8);
          used := used + |names[i]| + 8;
        }
        assert names[..|names|] == names;
      case Err(refusal) =>
        Integer(e, TOPIC_FILTER_RESULT, puts, used, 2, refusal);
        puts, used := puts + [Varint(2, refusal)], used + 1 + VarintLen(refusal);
        assert puts == [Varint(1, 0), Varint(2, refusal)];
    }
    tail := Finish(e, TOPIC_FILTER_RESULT, puts, used);
  }

  lemma Room8Grows(names: seq<seq<byte>>, i: nat)
    requires i < |names|
    ensures Room8(names[..i + 1]) == Room8(names[..i]) + |names[i]| + 8 <= Room8(names)
    decreases |names|
  {
    if i + 1 == |names| {
      assert names[..i + 1] == names;
    } else {
      var front := names[..|names| - 1];
      Room8Grows(front, i);
      assert front[..i + 1] == names[..i + 1] && front[..i] == names[..i];
    }
  }

  lemma Loosen(e: Encoder, name: string, puts: seq<Put>, used: nat, more: nat)
    requires Building(e, name, puts, used) && used <= more <= e.capacity
    ensures Building(e, name, puts, more)
  {
  }

  datatype TopicEntry = TopicEntry(topicId: seq<byte>, class_: nat, target: Option<nat>)

  function EntryPuts(t: TopicEntry): seq<Put> {
    [Text(1, t.topicId), Varint(2, t.class_)] + if t.target.Some? then [Varint(3, t.target.value)] else []
  }

  predicate EntryOk(t: TopicEntry) {
    1 <= t.class_ <= 4 && (t.target.Some? ==> 1 <= t.target.value <= 2)
  }

  /** What the entries add to a buffer sized for them. */
  function Room16(entries: seq<TopicEntry>): nat {
    if entries == [] then 0 else Room16(entries[..|entries| - 1]) + |entries[|entries| - 1].topicId| + 16
  }

  lemma Room16Grows(entries: seq<TopicEntry>, i: nat)
    requires i < |entries|
    ensures Room16(entries[..i + 1]) == Room16(entries[..i]) + |entries[i].topicId| + 16 <= Room16(entries)
    decreases |entries|
  {
    if i + 1 == |entries| {
      assert entries[..i + 1] == entries;
    } else {
      var front := entries[..|entries| - 1];
      Room16Grows(front, i);
      assert front[..i + 1] == entries[..i + 1] && front[..i] == entries[..i];
    }
  }

  /** An entry's own fields, inside the message just opened for it. */
  method EntryFields(e: Encoder, ghost outer: seq<Frame>, t: TopicEntry)
    requires e.Valid() && e.state.Open? && EntryOk(t) && |t.topicId| < WIDEST
    requires e.frames == outer + [Frame(1, [])] && |e.buf| + |t.topicId| + 10 <= e.capacity
    modifies e`buf, e`state, e`frames
    ensures e.Valid() && e.state.Open? && e.frames == outer + [Frame(1, EntryPuts(t))]
    ensures |e.buf| <= |old(e.buf)| + |t.topicId| + 10
  {
    hide Rendered, GapAt, FramesSound;
    FiveBytes(|t.topicId|);
    var id, class_ := Text(1, t.topicId), Varint(2, t.class_);
    var r := e.String(1, t.topicId);
    assert r.Ok?;
    ExtendLast(outer, 1, [], id);
    r := e.Integer(2, t.class_);
    assert r.Ok?;
    ExtendLast(outer, 1, [] + [id], class_);
    assert [] + [id] + [class_] == [id, class_];
    if t.target.Some? {
      r := e.Integer(3, t.target.value);
      assert r.Ok?;
      ExtendLast(outer, 1, [id, class_], Varint(3, t.target.value));
      assert EntryPuts(t) == [id, class_] + [Varint(3, t.target.value)];
    } else {
      assert EntryPuts(t) == [id, class_];
    }
    assert e.frames == outer + [Frame(1, EntryPuts(t))];
  }

  /** One entry, a message of its own inside a length gap. */
  method Entry(e: Encoder, name: string, ghost puts: seq<Put>, ghost used: nat, t: TopicEntry)
    requires Building(e, name, puts, used) && EntryOk(t) && |t.topicId| < WIDEST
    requires used + |t.topicId| + 16 <= e.capacity
    modifies e
    ensures Building(e, name, puts + [Nested(1, EntryPuts(t))], used + |t.topicId| + 16)
  {
    hide Ascii, Rendered, GapAt, FramesSound, EntryPuts;
    ghost var outer := e.frames;
    var r := e.Message(1);
    assert r.Ok?;
    EntryFields(e, outer, t);
    assert (outer + [Frame(1, EntryPuts(t))])[..3] == outer;
    r := e.EndMessage();
    assert r.Ok?;
  }

  function TopicsPuts(entries: seq<TopicEntry>): seq<Put> {
    seq(|entries|, i requires 0 <= i < |entries| => Nested(1, EntryPuts(entries[i])))
  }

  /** `Topics`: what the token covers, or why there is nothing to list. */
  method Topics(entries: Option<seq<TopicEntry>>) returns (tail: seq<byte>)
    requires entries.Some? ==>
               (forall t | t in entries.value :: EntryOk(t)) && ANSWER_BYTES + Room16(entries.value) < WIDEST
    ensures entries.Some? ==> IsAnswer(tail, TOPICS, TopicsPuts(entries.value), ANSWER_BYTES + Room16(entries.value))
    ensures entries.None? ==> IsAnswer(tail, TOPICS, [Text(2, Ascii(NO_TOPICS))], ANSWER_BYTES)
  {
    hide Building, IsAnswer, EntryPuts, Ascii;
    ghost var puts, used := [], 34 + |TOPICS|;
    match entries {
      case Some(list) =>
        var e := Start(TOPICS, ANSWER_BYTES + Room16(list));
        for i := 0 to |list|
          invariant fresh(e) && e.capacity == ANSWER_BYTES + Room16(list)
          invariant used == 34 + |TOPICS| + Room16(list[..i])
          invariant puts == TopicsPuts(list[..i]) && Building(e, TOPICS, puts, used)
        {
          Room16Grows(list, i);
          Entry(e, TOPICS, puts, used, list[i]);
          puts, used := puts + [Nested(1, EntryPuts(list[i]))], used + |list[i].topicId| + 16;
        }
        assert list[..|list|] == list;
        tail := Finish(e, TOPICS, puts, used);
      case None =>
        var e := Start(TOPICS, ANSWER_BYTES);
        FiveBytes(|NO_TOPICS|);
        String(e, TOPICS, puts, used, 2, Ascii(NO_TOPICS));
        assert [] + [Text(2, Ascii(NO_TOPICS))] == [Text(2, Ascii(NO_TOPICS))];
        tail := Finish(e, TOPICS, [] + [Text(2, Ascii(NO_TOPICS))], used + 1 + VarintLen(|NO_TOPICS|) + |NO_TOPICS|);
    }
  }

  /** `Schema`: the set, or why not. What it adds to the set is at most 66
      bytes. */
  method SchemaAnswer(held: Option<seq<byte>>) returns (tail: seq<byte>)
    requires held.Some? ==> ANSWER_BYTES + |held.value| < WIDEST
    ensures held.Some? ==>
              IsAnswer(tail, SCHEMA, [Text(1, held.value)], ANSWER_BYTES + |held.value|) && |tail| <= |held.value| + 66
    ensures held.None? ==> IsAnswer(tail, SCHEMA, [Text(2, Ascii(NO_SCHEMA))], ANSWER_BYTES)
  {
    hide Building, IsAnswer, Ascii;
    ghost var used := 34 + |SCHEMA|;
    match held {
      case Some(bytes) =>
        var e := Start(SCHEMA, ANSWER_BYTES + |bytes|);
        FiveBytes(|bytes|);
        String(e, SCHEMA, [], used, 1, bytes);
        assert [] + [Text(1, bytes)] == [Text(1, bytes)];
        tail := Finish(e, SCHEMA, [] + [Text(1, bytes)], used + 1 + VarintLen(|bytes|) + |bytes|);
      case None =>
        var e := Start(SCHEMA, ANSWER_BYTES);
        FiveBytes(|NO_SCHEMA|);
        String(e, SCHEMA, [], used, 2, Ascii(NO_SCHEMA));
        assert [] + [Text(2, Ascii(NO_SCHEMA))] == [Text(2, Ascii(NO_SCHEMA))];
        tail := Finish(e, SCHEMA, [] + [Text(2, Ascii(NO_SCHEMA))], used + 1 + VarintLen(|NO_SCHEMA|) + |NO_SCHEMA|);
    }
  }

  /** `AuthResult`: whether, and if not, why. */
  method AuthResult(error: Option<nat>) returns (tail: seq<byte>)
    requires error.Some? ==> 1 <= error.value <= 3
    ensures IsAnswer(tail, AUTH_RESULT, if error.Some? then [Varint(1, 0), Varint(2, error.value)] else [Varint(1, 1)],
                     ANSWER_BYTES)
  {
    hide Building, IsAnswer;
    var e := Start(AUTH_RESULT, ANSWER_BYTES);
    ghost var puts, used := [], 34 + |AUTH_RESULT|;
    Boolean(e, AUTH_RESULT, puts, used, 1, error.None?);
    puts, used := puts + [Varint(1, if error.None? then 1 else 0)], used + 2;
    if error.Some? {
      Integer(e, AUTH_RESULT, puts, used, 2, error.value);
      puts, used := puts + [Varint(2, error.value)], used + 1 + VarintLen(error.value);
      assert puts == [Varint(1, 0), Varint(2, error.value)];
    } else {
      assert puts == [Varint(1, 1)];
    }
    tail := Finish(e, AUTH_RESULT, puts, used);
  }

  /** A schema `hold_schema` takes is one whose answer fits a frame, whatever
      number the frame carries: its body is the number's field and the tail. */
  method SchemaFrameFits(held: seq<byte>, maxFrameBytes: nat, seqno: nat) returns (body: nat)
    requires held != [] && |held| + ANSWER_BYTES <= maxFrameBytes <= 0xFFFF_FFFF && seqno < U64
    ensures body <= maxFrameBytes
  {
    var tail := SchemaAnswer(Some(held));
    LimitIsU64();
    WidthOfU64(seqno, 0);
    body := 1 + VarintLen(seqno) + |tail|;
  }

  /** `as i64`: a number's bits, read as signed, are put as the number. */
  lemma SameBits(v: nat)
    requires v < U64
    ensures -0x8000_0000_0000_0000 <= SignedOf(v) < 0x8000_0000_0000_0000 && Unsigned(SignedOf(v)) == v
  {
  }

  lemma TenBytes(n: int)
    requires -0x8000_0000_0000_0000 <= n < 0x8000_0000_0000_0000
    ensures VarintLen(Unsigned(n)) <= 10
  {
    LimitIsU64();
    WidthOfU64(Unsigned(n), 0);
  }
}
