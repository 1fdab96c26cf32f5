/** The messages of `broker.proto` as their readers take them: the envelope every
    frame is, and the broker's answers. A field given twice is the last one, and
    one not given is its default. */
module Messages {
  import opened Basics
  import opened Wire
  import opened Encoding
  import opened Rendering
  import opened Framing
  import opened Answers
  import Walk

  // ---- Fields by number ---------------------------------------------------------

  function Find(puts: seq<Put>, number: nat): (p: Option<Put>)
    ensures p.Some? ==> p.value in puts && p.value.number == number
  {
    if puts == [] then None
    else if puts[|puts| - 1].number == number then Some(puts[|puts| - 1])
    else Find(puts[..|puts| - 1], number)
  }

  lemma {:induction false} FindNone(puts: seq<Put>, number: nat)
    requires forall i | 0 <= i < |puts| :: puts[i].number != number
    ensures Find(puts, number) == None
  {
    if puts != [] { FindNone(puts[..|puts| - 1], number); }
  }

  lemma {:induction false} FindAt(puts: seq<Put>, k: nat)
    requires k < |puts| && forall i | k < i < |puts| :: puts[i].number != puts[k].number
    ensures Find(puts, puts[k].number) == Some(puts[k])
    decreases |puts|
  {
    if k < |puts| - 1 { FindAt(puts[..|puts| - 1], k); }
  }

  function Uint(puts: seq<Put>, number: nat): Option<nat> {
    match Find(puts, number)
    case Some(Varint(_, v)) => Some(v)
    case _ => None
  }

  function Bool(puts: seq<Put>, number: nat): bool { Uint(puts, number) != None && Uint(puts, number) != Some(0) }

  function Double(puts: seq<Put>, number: nat): Option<nat> {
    match Find(puts, number)
    case Some(Fixed(_, bits)) => Some(bits)
    case _ => None
  }

  function Bytes(puts: seq<Put>, number: nat): Option<seq<byte>> {
    match Find(puts, number)
    case Some(Text(_, data)) => Some(data)
    case _ => None
  }

  function Message(puts: seq<Put>, number: nat): Option<seq<Put>> {
    match Find(puts, number)
    case Some(Nested(_, inner)) => Some(inner)
    case _ => None
  }

  function Or<X>(o: Option<X>, other: X): X { if o.Some? then o.value else other }

  // ---- The envelope ---------------------------------------------------------------

  /** `value` is the record, by its own schema. */
  datatype Envelope = Envelope(seqno: nat, epoch: Option<nat>, missionTime: Option<nat>, typeUrl: seq<byte>, value: seq<Put>)

  function SchemaOf(record: Schema): Schema { Schema(map[4 := Schema(map[2 := record])]) }

  function ReadEnvelope(puts: seq<Put>): Option<Envelope> {
    var payload := Message(puts, 4);
    if payload.None? then None else
    Some(Envelope(Or(Uint(puts, 1), 0), Uint(puts, 2), Double(puts, 3),
                  Or(Bytes(payload.value, 1), []), Or(Message(payload.value, 2), [])))
  }

  /** A frame's body, read. */
  function ReadBody(record: Schema, body: seq<byte>): Option<Envelope> {
    var puts := Decode(SchemaOf(record), body);
    if puts.None? then None else ReadEnvelope(puts.value)
  }

  /** The topic is the URL less the prefix every runtime writes. */
  function TopicOf(e: Envelope): seq<byte> {
    var prefix := Ascii("type.googleapis.com/");
    if prefix <= e.typeUrl then e.typeUrl[|prefix|..] else e.typeUrl
  }

  lemma BodyIsEncoded(seqno: nat, tail: seq<Put>, width: nat)
    requires width > 0
    ensures Body(seqno, EncodedAll(tail, width)) == EncodedAll([Varint(1, seqno)] + tail, width)
  {
    var whole := [Varint(1, seqno)] + tail;
    HeadFirst(whole, width);
    assert whole[1..] == tail;
    assert Key(1, VARINT) == [SEQ_TAG];
  }

  /** A frame is read as the envelope it was begun and numbered as: its number,
      its stamp, its topic, and the record's own fields. */
  lemma EnvelopeBack(record: Schema, seqno: nat, topic: seq<byte>, stamp: Option<Stamp>, puts: seq<Put>, width: nat)
    requires seqno < U64 && 0 < width <= 10 && AllSound(Tail(topic, stamp, puts), width) && AllConform(record, puts)
    ensures var e := ReadBody(record, Body(seqno, EncodedAll(Tail(topic, stamp, puts), width)));
            && e.Some? && e.value.seqno == seqno && TopicOf(e.value) == topic && e.value.value == puts
            && e.value.epoch == (if stamp.Some? then Some(stamp.value.epoch) else None)
            && e.value.missionTime == if stamp.Some? then Some(stamp.value.missionTime) else None
  {
    var tail := Tail(topic, stamp, puts);
    var whole := [Varint(1, seqno)] + tail;
    BodyIsEncoded(seqno, tail, width);
    TailConforms(record, seqno, topic, stamp, puts);
    hide SchemaOf, AllConform, Tail, AllSound;
    SoundAll(seqno, tail, width);
    DecodesBack(SchemaOf(record), whole, width);
    EnvelopeRead(seqno, topic, stamp, puts);
    PrefixIs();
  }

  lemma TailConforms(record: Schema, seqno: nat, topic: seq<byte>, stamp: Option<Stamp>, puts: seq<Put>)
    requires AllConform(record, puts)
    ensures AllConform(SchemaOf(record), [Varint(1, seqno)] + Tail(topic, stamp, puts))
  {
    var payload := [Text(1, TYPE_URL_PREFIX + topic), Nested(2, puts)];
    assert AllConform(Schema(map[2 := record]), payload);
    assert Conforms(SchemaOf(record), Nested(4, payload));
  }

  lemma SoundAll(seqno: nat, tail: seq<Put>, width: nat)
    requires seqno < U64 && width > 0 && AllSound(tail, width)
    ensures AllSound([Varint(1, seqno)] + tail, width)
  {
  }

  lemma EnvelopeRead(seqno: nat, topic: seq<byte>, stamp: Option<Stamp>, puts: seq<Put>)
    ensures ReadEnvelope([Varint(1, seqno)] + Tail(topic, stamp, puts))
         == Some(Envelope(seqno, if stamp.Some? then Some(stamp.value.epoch) else None,
                          if stamp.Some? then Some(stamp.value.missionTime) else None, TYPE_URL_PREFIX + topic, puts))
  {
    var payload := [Text(1, TYPE_URL_PREFIX + topic), Nested(2, puts)];
    var whole := [Varint(1, seqno)] + Tail(topic, stamp, puts);
    assert whole[0] == Varint(1, seqno) && whole[|whole| - 1] == Nested(4, payload);
    assert stamp.Some? ==> whole[1] == Varint(2, stamp.value.epoch) && whole[2] == Fixed(3, stamp.value.missionTime);
    assert |whole| == if stamp.Some? then 4 else 2;
    hide Find, Tail, TYPE_URL_PREFIX;
    FindAt(payload, 0);
    FindAt(payload, 1);
    FindAt(whole, 0);
    FindAt(whole, |whole| - 1);
    if stamp.Some? {
      FindAt(whole, 1);
      FindAt(whole, 2);
    } else {
      FindNone(whole, 2);
      FindNone(whole, 3);
    }
  }

  lemma PrefixIs()
    ensures Ascii("type.googleapis.com/") == TYPE_URL_PREFIX
  {
  }

  // ---- The type URL's cap -----------------------------------------------------------

  /** What the walk meets in a payload the encoder wrote. */
  lemma PayloadFields(url: seq<byte>, puts: seq<Put>, width: nat) returns (fields: seq<Field>)
    requires 0 < width <= 10 && AllSound([Text(1, url), Nested(2, puts)], width)
    ensures Parse(EncodedAll([Text(1, url), Nested(2, puts)], width)) == Some(fields)
    ensures |fields| == 2 && fields[0] == Field(1, LENGTH, url) && fields[1].number == 2
  {
    hide Sound;
    fields := ParseAll([Text(1, url), Nested(2, puts)], width);
  }

  /** The last field of a tail is its payload, and no other is. */
  lemma TailFields(seqno: nat, topic: seq<byte>, stamp: Option<Stamp>, puts: seq<Put>, width: nat) returns (fields: seq<Field>)
    requires seqno < U64 && 0 < width <= 10 && AllSound(Tail(topic, stamp, puts), width)
    ensures Parse(Body(seqno, EncodedAll(Tail(topic, stamp, puts), width))) == Some(fields) && fields != []
    ensures forall i | 0 <= i < |fields| - 1 :: fields[i].number < 4
    ensures var payload := [Text(1, TYPE_URL_PREFIX + topic), Nested(2, puts)];
            fields[|fields| - 1] == Field(4, LENGTH, EncodedAll(payload, width)) && AllSound(payload, width)
  {
    var tail := Tail(topic, stamp, puts);
    var whole := [Varint(1, seqno)] + tail;
    SoundAll(seqno, tail, width);
    BodyIsEncoded(seqno, tail, width);
    hide AllSound, EncodedAll;
    fields := ParseAll(whole, width);
    PayloadSound(topic, stamp, puts, width);
    assert whole[|whole| - 1] == Nested(4, [Text(1, TYPE_URL_PREFIX + topic), Nested(2, puts)]);
  }

  lemma PayloadSound(topic: seq<byte>, stamp: Option<Stamp>, puts: seq<Put>, width: nat)
    requires width > 0 && AllSound(Tail(topic, stamp, puts), width)
    ensures AllSound([Text(1, TYPE_URL_PREFIX + topic), Nested(2, puts)], width)
  {
    var last := Nested(4, [Text(1, TYPE_URL_PREFIX + topic), Nested(2, puts)]);
    assert last in Tail(topic, stamp, puts) && Sound(last, width);
  }

  /** Of a frame as a sender writes it, the check measures the type URL and
      nothing else. */
  lemma UrlsSent(body: seq<byte>, topic: seq<byte>, fields: seq<Field>, inner: seq<Field>, cap: nat)
    requires Parse(body) == Some(fields) && fields != [] && forall i | 0 <= i < |fields| - 1 :: fields[i].number < 4
    requires fields[|fields| - 1].number == 4 && fields[|fields| - 1].wire == LENGTH
    requires Parse(fields[|fields| - 1].data) == Some(inner) && |inner| == 2 && inner[1].number == 2
    requires inner[0] == Field(1, LENGTH, TYPE_URL_PREFIX + topic)
    ensures Walk.Accepted(body) && (Walk.UrlsWithin(body, cap) <==> 20 + |topic| <= cap)
    ensures forall n | Walk.HasUrl(body, n) :: n == 20 + |topic|
  {
    Walk.AcceptedIsRead(body);
    Walk.WalkIsDecoder(body);
    var payload := fields[|fields| - 1];
    Walk.AcceptedIsRead(payload.data);
    Walk.WalkIsDecoder(payload.data);
    hide Parse;
    assert forall f | f in fields && Walk.IsPayload(f) :: f == payload;
    assert forall g | g in inner && Walk.IsUrl(g) :: g == inner[0];
    assert payload in fields && inner[0] in inner && Walk.IsPayload(payload) && Walk.IsUrl(inner[0]);
  }

  /** So a sender's frame passes exactly when its topic, behind the prefix, is
      within the cap, and is refused for that length. */
  method CheckSent(seqno: nat, topic: seq<byte>, stamp: Option<Stamp>, puts: seq<Put>, width: nat, cap: nat) returns (over: Option<nat>)
    requires seqno < U64 && 0 < width <= 10 && AllSound(Tail(topic, stamp, puts), width)
    requires |Body(seqno, EncodedAll(Tail(topic, stamp, puts), width))| <= 0xFFFF_FFFF
    ensures over == if 20 + |topic| <= cap then None else Some(20 + |topic|)
  {
    var body := Body(seqno, EncodedAll(Tail(topic, stamp, puts), width));
    var fields := TailFields(seqno, topic, stamp, puts, width);
    var inner := PayloadFields(TYPE_URL_PREFIX + topic, puts, width);
    UrlsSent(body, topic, fields, inner, cap);
    over := Walk.CheckTypeUrl(body, cap);
  }
}
