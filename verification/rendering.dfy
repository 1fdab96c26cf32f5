/** What the encoder's buffer holds while messages are open inside it, and how
    each step on the buffer is a step on the tree of fields. */
module Rendering {
  import opened Basics
  import opened Wire
  import opened Encoding

  /** The epoch and the sim's clock; the clock is a double's bits. */
  datatype Stamp = Stamp(epoch: nat, missionTime: nat)

  const ENVELOPE_EPOCH: nat := 2
  const ENVELOPE_MISSION_TIME: nat := 3
  const ENVELOPE_PAYLOAD: nat := 4
  const ANY_TYPE_URL: nat := 1
  const ANY_VALUE: nat := 2

  /** `type.googleapis.com/` */
  const TYPE_URL_PREFIX: seq<byte> :=
    [116, 121, 112, 101, 46, 103, 111, 111, 103, 108, 101, 97, 112, 105, 115, 46, 99, 111, 109, 47]

  // ---- What is open --------------------------------------------------------

  /** A message begun and not ended: its field, and its fields so far. */
  datatype Frame = Frame(number: nat, puts: seq<Put>)

  function Zeros(n: nat): (b: seq<byte>)
    ensures |b| == n
  {
    seq(n, _ => 0)
  }

  /** The buffer while messages are open: each inner one behind its key and a
      gap for its length. */
  function Rendered(frames: seq<Frame>, width: nat): seq<byte>
    requires width > 0 && |frames| > 0
  {
    var last := frames[|frames| - 1];
    if |frames| == 1 then EncodedAll(last.puts, width)
    else Rendered(frames[..|frames| - 1], width) + Key(last.number, LENGTH) + Zeros(width) + EncodedAll(last.puts, width)
  }

  /** Where the gap of frame `i` starts. */
  function GapAt(frames: seq<Frame>, i: nat, width: nat): nat
    requires width > 0 && 0 < i < |frames|
  {
    |Rendered(frames[..i], width)| + |Key(frames[i].number, LENGTH)|
  }

  /** The innermost message gains a field. */
  function Extended(frames: seq<Frame>, p: Put): seq<Frame>
    requires |frames| > 0
  {
    var last := frames[|frames| - 1];
    frames[..|frames| - 1] + [last.(puts := last.puts + [p])]
  }

  lemma ExtendLast(outer: seq<Frame>, number: nat, puts: seq<Put>, p: Put)
    ensures Extended(outer + [Frame(number, puts)], p) == outer + [Frame(number, puts + [p])]
  {
    assert (outer + [Frame(number, puts)])[..|outer|] == outer;
  }

  /** The innermost message ends and becomes a field of the one around it. */
  function Closed(frames: seq<Frame>): seq<Frame>
    requires |frames| > 1
  {
    var last := frames[|frames| - 1];
    Extended(frames[..|frames| - 1], Nested(last.number, last.puts))
  }

  function StampPuts(stamp: Option<Stamp>): seq<Put> {
    match stamp
    case None => []
    case Some(s) => [Varint(ENVELOPE_EPOCH, s.epoch), Fixed(ENVELOPE_MISSION_TIME, s.missionTime)]
  }

  /** What `begin` opens: the envelope with its stamp, the payload with its type
      URL, and the value the record's own fields go in. */
  function Begun(topic: seq<byte>, stamp: Option<Stamp>): seq<Frame> {
    [Frame(0, StampPuts(stamp)),
     Frame(ENVELOPE_PAYLOAD, [Text(ANY_TYPE_URL, TYPE_URL_PREFIX + topic)]),
     Frame(ANY_VALUE, [])]
  }

  /** The envelope's fields, once the record holding `puts` is closed. */
  function Tail(topic: seq<byte>, stamp: Option<Stamp>, puts: seq<Put>): seq<Put> {
    StampPuts(stamp)
    + [Nested(ENVELOPE_PAYLOAD, [Text(ANY_TYPE_URL, TYPE_URL_PREFIX + topic), Nested(ANY_VALUE, puts)])]
  }

  ghost predicate FramesSound(frames: seq<Frame>, width: nat)
    requires width > 0
  {
    && (forall f | f in frames :: AllSound(f.puts, width))
    && (forall i | 0 < i < |frames| :: 1 <= frames[i].number <= MAX_FIELD)
  }

  // ---- How the buffer follows what is open ---------------------------------

  lemma GapsStay(frames: seq<Frame>, longer: seq<Frame>, upTo: nat, width: nat)
    requires width > 0 && 0 < upTo <= |frames| && upTo <= |longer| && frames[..upTo - 1] == longer[..upTo - 1]
    requires frames[upTo - 1].number == longer[upTo - 1].number
    ensures forall i | 0 < i < upTo :: GapAt(longer, i, width) == GapAt(frames, i, width)
  {
    hide Rendered;
    forall i | 0 < i < upTo ensures GapAt(longer, i, width) == GapAt(frames, i, width) {
      assert longer[..i] == frames[..upTo - 1][..i] == frames[..i];
      assert i < upTo - 1 ==> longer[i] == longer[..upTo - 1][i] == frames[..upTo - 1][i];
    }
  }

  lemma ExtendSound(frames: seq<Frame>, p: Put, width: nat)
    requires width > 0 && |frames| > 0 && FramesSound(frames, width) && Sound(p, width)
    ensures FramesSound(Extended(frames, p), width)
  {
    hide Sound;
    var last := frames[|frames| - 1];
    assert AllSound(last.puts + [p], width);
  }

  lemma OneMore(puts: seq<Put>, p: Put, width: nat)
    requires width > 0
    ensures EncodedAll(puts + [p], width) == EncodedAll(puts, width) + Encoded(p, width)
  {
    hide Encoded;
    assert (puts + [p])[..|puts|] == puts;
  }

  lemma ExtendRenders(frames: seq<Frame>, p: Put, width: nat)
    requires width > 0 && |frames| > 0
    ensures Rendered(Extended(frames, p), width) == Rendered(frames, width) + Encoded(p, width)
  {
    hide Encoded, EncodedAll;
    var longer, outer, last := Extended(frames, p), frames[..|frames| - 1], frames[|frames| - 1];
    assert longer[..|frames| - 1] == outer && longer[|frames| - 1] == last.(puts := last.puts + [p]);
    OneMore(last.puts, p, width);
    if |frames| > 1 {
      var front := Rendered(outer, width) + Key(last.number, LENGTH) + Zeros(width);
      assert front + (EncodedAll(last.puts, width) + Encoded(p, width))
          == (front + EncodedAll(last.puts, width)) + Encoded(p, width);
    }
  }

  /** A put, all told. */
  lemma ExtendAll(frames: seq<Frame>, p: Put, width: nat)
    requires width > 0 && |frames| > 0 && FramesSound(frames, width) && Sound(p, width)
    ensures var longer := Extended(frames, p);
            && |longer| == |frames| && FramesSound(longer, width)
            && longer[..|frames| - 1] == frames[..|frames| - 1]
            && longer[|frames| - 1].number == frames[|frames| - 1].number
            && Rendered(longer, width) == Rendered(frames, width) + Encoded(p, width)
            && forall i | 0 < i < |frames| :: GapAt(longer, i, width) == GapAt(frames, i, width)
  {
    hide Rendered, GapAt, Sound, Encoded;
    var longer := Extended(frames, p);
    assert frames[..|frames| - 1] == longer[..|frames| - 1];
    ExtendSound(frames, p, width);
    ExtendRenders(frames, p, width);
    GapsStay(frames, longer, |frames|, width);
  }

  lemma OpenRenders(frames: seq<Frame>, number: nat, width: nat)
    requires width > 0 && |frames| > 0
    ensures var longer := frames + [Frame(number, [])];
            && Rendered(longer, width) == Rendered(frames, width) + (Key(number, LENGTH) + Zeros(width))
            && GapAt(longer, |frames|, width) == |Rendered(longer, width)| - width
  {
    var longer := frames + [Frame(number, [])];
    assert longer[..|frames|] == frames;
  }

  /** A message begun, all told. */
  lemma OpenAll(frames: seq<Frame>, number: nat, width: nat)
    requires width > 0 && |frames| > 0 && FramesSound(frames, width) && 1 <= number <= MAX_FIELD
    ensures var longer := frames + [Frame(number, [])];
            && FramesSound(longer, width)
            && Rendered(longer, width) == Rendered(frames, width) + (Key(number, LENGTH) + Zeros(width))
            && GapAt(longer, |frames|, width) == |Rendered(longer, width)| - width
            && forall i | 0 < i < |frames| :: GapAt(longer, i, width) == GapAt(frames, i, width)
  {
    OpenRenders(frames, number, width);
    hide Rendered, GapAt, Sound;
    var longer := frames + [Frame(number, [])];
    assert frames[..|frames| - 1] == longer[..|frames| - 1];
    GapsStay(frames, longer, |frames|, width);
    assert AllSound([], width);
  }

  lemma CloseSound(frames: seq<Frame>, width: nat)
    requires width > 0 && |frames| > 1 && FramesSound(frames, width)
    requires |Rendered(frames, width)| < Room(width) && |Rendered(frames, width)| < U64
    ensures FramesSound(Closed(frames), width)
    ensures Sound(Nested(frames[|frames| - 1].number, frames[|frames| - 1].puts), width)
  {
    var outer, last := frames[..|frames| - 1], frames[|frames| - 1];
    assert |EncodedAll(last.puts, width)| <= |Rendered(frames, width)|;
    assert FramesSound(outer, width);
    ExtendSound(outer, Nested(last.number, last.puts), width);
  }

  /** Filling the innermost gap with the length behind it closes the message. */
  lemma CloseRenders(frames: seq<Frame>, width: nat)
    requires width > 0 && |frames| > 1
    ensures var gap := GapAt(frames, |frames| - 1, width);
            var buf := Rendered(frames, width);
            && gap + width <= |buf|
            && Rendered(Closed(frames), width)
               == buf[..gap] + Padded(|buf| - (gap + width), width) + buf[gap + width..]
  {
    var outer, last := frames[..|frames| - 1], frames[|frames| - 1];
    var key, body := Key(last.number, LENGTH), EncodedAll(last.puts, width);
    var buf, gap := Rendered(frames, width), GapAt(frames, |frames| - 1, width);
    ExtendRenders(outer, Nested(last.number, last.puts), width);
    Patched(Rendered(outer, width) + key, width, body, buf);
  }

  /** A message ended, all told. */
  lemma CloseAll(frames: seq<Frame>, width: nat)
    requires width > 0 && |frames| > 1 && FramesSound(frames, width)
    requires |Rendered(frames, width)| < Room(width) && |Rendered(frames, width)| < U64
    ensures var gap, buf, shorter := GapAt(frames, |frames| - 1, width), Rendered(frames, width), Closed(frames);
            && |shorter| == |frames| - 1 && FramesSound(shorter, width)
            && gap + width <= |buf| == |Rendered(shorter, width)|
            && Rendered(shorter, width) == buf[..gap] + Padded(|buf| - (gap + width), width) + buf[gap + width..]
            && shorter[..|shorter| - 1] == frames[..|shorter| - 1]
            && shorter[|shorter| - 1].number == frames[|shorter| - 1].number
            && forall i | 0 < i < |shorter| :: GapAt(shorter, i, width) == GapAt(frames, i, width)
  {
    CloseSound(frames, width);
    CloseRenders(frames, width);
    hide Rendered, GapAt, Sound, FramesSound;
    var shorter := Closed(frames);
    var last := frames[|frames| - 1];
    assert shorter == Extended(frames[..|frames| - 1], Nested(last.number, last.puts));
    assert shorter[..|shorter| - 1] == frames[..|shorter| - 1];
    GapsStay(frames, shorter, |shorter|, width);
  }

  lemma Patched(before: seq<byte>, width: nat, body: seq<byte>, buf: seq<byte>)
    requires width > 0 && buf == before + Zeros(width) + body
    ensures before + (Padded(|body|, width) + body)
            == buf[..|before|] + Padded(|buf| - (|before| + width), width) + buf[|before| + width..]
  {
    Parts(before, Zeros(width), body);
    Apart(before, Padded(|body|, width), body);
  }

  lemma Parts<X>(a: seq<X>, m: seq<X>, c: seq<X>)
    ensures (a + m + c)[..|a|] == a && (a + m + c)[|a| + |m|..] == c
  {
  }

  lemma Apart<X>(a: seq<X>, m: seq<X>, c: seq<X>)
    ensures a + (m + c) == a + m + c
  {
  }

  // ---- A record from begin to commit ---------------------------------------

  function UrlOf(topic: seq<byte>): seq<byte> { TYPE_URL_PREFIX + topic }

  /** The wrapper's four parts as `begin` writes them. */
  function StampPart(stamp: Option<Stamp>, width: nat): seq<byte>
    requires width > 0
  {
    match stamp
    case None => []
    case Some(s) =>
      (Key(ENVELOPE_EPOCH, VARINT) + Minimal(s.epoch))
      + (Key(ENVELOPE_MISSION_TIME, FIXED64) + LittleEndian(s.missionTime, 8))
  }

  function GapPart(number: nat, width: nat): seq<byte> { Key(number, LENGTH) + Zeros(width) }

  function UrlPart(topic: seq<byte>): seq<byte> {
    Key(ANY_TYPE_URL, LENGTH) + (Minimal(|UrlOf(topic)|) + UrlOf(topic))
  }

  /** How many bytes the wrapper takes ahead of the record's own. */
  function WrapperSize(topic: seq<byte>, stamp: Option<Stamp>, width: nat): nat
    requires width > 0
  {
    |StampPart(stamp, width)| + |GapPart(ENVELOPE_PAYLOAD, width)| + |UrlPart(topic)| + |GapPart(ANY_VALUE, width)|
  }

  lemma StampRenders(stamp: Option<Stamp>, width: nat)
    requires width > 0 && (stamp.Some? ==> stamp.value.epoch < U64 && stamp.value.missionTime < U64)
    ensures EncodedAll(StampPuts(stamp), width) == StampPart(stamp, width) && AllSound(StampPuts(stamp), width)
  {
    if stamp.Some? {
      OneMore([], StampPuts(stamp)[0], width);
      OneMore([StampPuts(stamp)[0]], StampPuts(stamp)[1], width);
    }
  }

  lemma BegunRenders(topic: seq<byte>, stamp: Option<Stamp>, width: nat)
    requires width > 0 && |UrlOf(topic)| < U64
    requires stamp.Some? ==> stamp.value.epoch < U64 && stamp.value.missionTime < U64
    ensures var frames := Begun(topic, stamp);
            && FramesSound(frames, width)
            && Rendered(frames, width)
               == ((StampPart(stamp, width) + GapPart(ENVELOPE_PAYLOAD, width)) + UrlPart(topic)) + GapPart(ANY_VALUE, width)
            && GapAt(frames, 1, width) == |StampPart(stamp, width) + GapPart(ENVELOPE_PAYLOAD, width)| - width
            && GapAt(frames, 2, width) == WrapperSize(topic, stamp, width) - width
  {
    var f := Begun(topic, stamp);
    StampRenders(stamp, width);
    hide EncodedAll, Sound, StampPart;
    var one, two := [f[0]], [f[0], Frame(ENVELOPE_PAYLOAD, [])];
    assert Rendered(one, width) == StampPart(stamp, width) by { assert |one| == 1; }
    OpenRenders(one, ENVELOPE_PAYLOAD, width);
    var url := Text(ANY_TYPE_URL, UrlOf(topic));
    assert two[..1] == [f[0]] && [] + [url] == [url];
    assert Extended(two, url) == f[..2];
    ExtendRenders(two, url, width);
    OpenRenders(f[..2], ANY_VALUE, width);
    assert f[..2] + [Frame(ANY_VALUE, [])] == f;
    assert one + [Frame(ENVELOPE_PAYLOAD, [])] == two;
    BegunGaps(topic, stamp, width);
    BegunSound(topic, stamp, width);
  }

  lemma BegunGaps(topic: seq<byte>, stamp: Option<Stamp>, width: nat)
    requires width > 0
    ensures var f := Begun(topic, stamp);
            GapAt(f, 1, width) == GapAt([f[0], Frame(ENVELOPE_PAYLOAD, [])], 1, width)
  {
    var f := Begun(topic, stamp);
    assert f[..1] == [f[0], Frame(ENVELOPE_PAYLOAD, [])][..1];
  }

  lemma BegunSound(topic: seq<byte>, stamp: Option<Stamp>, width: nat)
    requires width > 0 && |UrlOf(topic)| < U64 && AllSound(StampPuts(stamp), width)
    ensures FramesSound(Begun(topic, stamp), width)
  {
    assert Sound(Text(ANY_TYPE_URL, UrlOf(topic)), width);
    assert AllSound([Text(ANY_TYPE_URL, UrlOf(topic))], width);
    assert AllSound([], width);
  }

  /** Closing the value and then the payload leaves the envelope. */
  lemma ClosedTwice(frames: seq<Frame>, topic: seq<byte>, stamp: Option<Stamp>)
    requires |frames| == 3 && frames[..2] == Begun(topic, stamp)[..2] && frames[2].number == ANY_VALUE
    ensures |Closed(Closed(frames))| == 1
    ensures Closed(Closed(frames))[0].puts == Tail(topic, stamp, frames[2].puts)
  {
    assert frames[0] == frames[..2][0] && frames[1] == frames[..2][1];
    var inner := Nested(ANY_VALUE, frames[2].puts);
    var payload := frames[1].(puts := frames[1].puts + [inner]);
    assert frames[..2][..1] == [frames[0]];
    assert Closed(frames) == [frames[0], payload];
    assert [frames[0], payload][..1] == [frames[0]] && [frames[0]][..0] == [];
    assert frames[0] == Begun(topic, stamp)[..2][0] && frames[1] == Begun(topic, stamp)[..2][1];
    assert payload.puts == [Text(ANY_TYPE_URL, TYPE_URL_PREFIX + topic), inner];
    assert Closed(Closed(frames)) == [frames[0].(puts := frames[0].puts + [Nested(ENVELOPE_PAYLOAD, payload.puts)])];
  }
}
