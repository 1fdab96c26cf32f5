/** The bytes a record's tree of fields takes, and that the reference decoder
    reads them back as that tree. Every message length is padded to one width,
    which is what the encoder leaves a gap for. */
module Encoding {
  import opened Basics
  import opened Wire

  const MAX_FIELD: nat := 0x1FFF_FFFF

  /** Bytes a varint takes: one per seven bits, at least one. */
  function VarintLen(v: nat): (n: nat)
    ensures n >= 1
  {
    if v < 128 then 1 else 1 + VarintLen(v / 128)
  }

  function Minimal(v: nat): (b: seq<byte>)
    ensures |b| == VarintLen(v)
  {
    if v < 128 then [v] else [v % 128 + 128] + Minimal(v / 128)
  }

  /** The same value in exactly `width` bytes. */
  function Padded(v: nat, width: nat): (b: seq<byte>)
    requires width > 0
    ensures |b| == width
  {
    if width == 1 then [v % 128] else [v % 128 + 128] + Padded(v / 128, width - 1)
  }

  /** The first value too big for `width` bytes. */
  function Room(width: nat): nat { if width == 0 then 1 else 128 * Room(width - 1) }

  function Key(number: nat, wire: nat): (b: seq<byte>)
    ensures |b| == VarintLen(8 * number + wire)
  {
    Minimal(8 * number + wire)
  }

  function Encoded(p: Put, width: nat): seq<byte>
    requires width > 0
    decreases p, 0
  {
    match p
    case Varint(n, v) => Key(n, VARINT) + Minimal(v)
    case Fixed(n, bits) => Key(n, FIXED64) + LittleEndian(bits, 8)
    case Text(n, data) => Key(n, LENGTH) + (Minimal(|data|) + data)
    case Nested(n, puts) => Key(n, LENGTH) + (Padded(|EncodedAll(puts, width)|, width) + EncodedAll(puts, width))
  }

  function EncodedAll(puts: seq<Put>, width: nat): seq<byte>
    requires width > 0
    decreases puts, 1
  {
    if puts == [] then [] else EncodedAll(puts[..|puts| - 1], width) + Encoded(puts[|puts| - 1], width)
  }

  /** What the encoder's checks leave: field numbers in range, values in a
      `u64`, and every message short enough for its gap. */
  ghost predicate Sound(p: Put, width: nat)
    requires width > 0
    decreases p, 0
  {
    && 1 <= p.number <= MAX_FIELD
    && match p
       case Varint(_, v) => v < U64
       case Fixed(_, bits) => bits < U64
       case Text(_, data) => |data| < U64
       case Nested(_, puts) => |EncodedAll(puts, width)| < Room(width) && |EncodedAll(puts, width)| < U64 && AllSound(puts, width)
  }

  ghost predicate AllSound(puts: seq<Put>, width: nat)
    requires width > 0
    decreases puts, 1
  {
    forall p | p in puts :: Sound(p, width)
  }

  /** The schema calls a message a message, and nothing else one. */
  ghost predicate Conforms(schema: Schema, p: Put)
    decreases p, 0
  {
    match p
    case Text(n, _) => n !in schema.messages
    case Nested(n, puts) => n in schema.messages && AllConform(schema.messages[n], puts)
    case _ => true
  }

  ghost predicate AllConform(schema: Schema, puts: seq<Put>)
    decreases puts, 1
  {
    forall p | p in puts :: Conforms(schema, p)
  }

  // ---- Varints read back ---------------------------------------------------

  lemma {:induction false} ReadMinimalFrom(v: nat, at: nat, rest: seq<byte>)
    requires at <= 9 && v < Limit(at)
    ensures ReadFrom(Minimal(v) + rest, at) == Some((v, rest))
    decreases 9 - at
  {
    var b := Minimal(v) + rest;
    if v < 128 {
      assert b[1..] == rest;
    } else {
      ReadMinimalFrom(v / 128, at + 1, rest);
      assert b[1..] == Minimal(v / 128) + rest;
    }
  }

  lemma ReadMinimal(v: nat, rest: seq<byte>)
    requires v < U64
    ensures ReadVarint(Minimal(v) + rest) == Some((v, rest))
  {
    LimitIsU64();
    ReadMinimalFrom(v, 0, rest);
  }

  lemma LimitIsU64()
    ensures Limit(0) == U64
  {
    assert Limit(8) == 128 * 2;
    assert Limit(6) == 128 * 128 * Limit(8);
    assert Limit(4) == 128 * 128 * Limit(6);
    assert Limit(2) == 128 * 128 * Limit(4);
  }

  lemma {:induction false} ReadPaddedFrom(v: nat, width: nat, at: nat, rest: seq<byte>)
    requires at <= 9 && 0 < width <= 10 - at && v < Room(width) && v < Limit(at)
    ensures ReadFrom(Padded(v, width) + rest, at) == Some((v, rest))
    decreases width
  {
    var b := Padded(v, width) + rest;
    if width == 1 {
      assert Room(1) == 128 * Room(0);
      assert b[1..] == rest;
    } else {
      ReadPaddedFrom(v / 128, width - 1, at + 1, rest);
      assert b[1..] == Padded(v / 128, width - 1) + rest;
    }
  }

  lemma ReadPadded(v: nat, width: nat, rest: seq<byte>)
    requires 0 < width <= 10 && v < Room(width) && v < U64
    ensures ReadVarint(Padded(v, width) + rest) == Some((v, rest))
  {
    LimitIsU64();
    ReadPaddedFrom(v, width, 0, rest);
  }

  /** A gap as wide as the capacity's own varint has room for any length up to
      it. */
  lemma {:induction false} RoomForAny(v: nat, capacity: nat)
    requires v <= capacity
    ensures v < Room(VarintLen(capacity))
    decreases capacity
  {
    if capacity < 128 {
      assert Room(1) == 128 * Room(0);
    } else {
      RoomForAny(v / 128, capacity / 128);
    }
  }

  lemma {:induction false} WidthOfU64(v: nat, at: nat)
    requires at <= 9 && v < Limit(at)
    ensures VarintLen(v) <= 10 - at
    decreases 9 - at
  {
    if v >= 128 { WidthOfU64(v / 128, at + 1); }
  }

  lemma {:induction false} EndianBack(v: nat, n: nat)
    requires v < Power256(n)
    ensures FromLittleEndian(LittleEndian(v, n)) == v
  {
    if n > 0 {
      EndianBack(v / 256, n - 1);
      assert LittleEndian(v, n)[1..] == LittleEndian(v / 256, n - 1);
    }
  }

  function Power256(n: nat): nat { if n == 0 then 1 else 256 * Power256(n - 1) }

  // ---- Fields read back ----------------------------------------------------

  function WireOf(p: Put): nat {
    match p
    case Varint(_, _) => VARINT
    case Fixed(_, _) => FIXED64
    case _ => LENGTH
  }

  function DataOf(p: Put, width: nat): seq<byte>
    requires width > 0
  {
    match p
    case Varint(_, v) => Minimal(v)
    case Fixed(_, bits) => LittleEndian(bits, 8)
    case Text(_, data) => data
    case Nested(_, puts) => EncodedAll(puts, width)
  }

  /** A field's value, its length in front when it has one. */
  function ValueOf(p: Put, width: nat): seq<byte>
    requires width > 0
  {
    match p
    case Text(_, data) => Minimal(|data|) + data
    case Nested(_, puts) => Padded(|EncodedAll(puts, width)|, width) + EncodedAll(puts, width)
    case _ => DataOf(p, width)
  }

  lemma ReadKeyBack(number: nat, wire: nat, rest: seq<byte>)
    requires 1 <= number <= MAX_FIELD && wire < 8
    ensures ReadKey(Key(number, wire) + rest) == Some((number, wire, rest))
  {
    ReadMinimal(8 * number + wire, rest);
  }

  lemma Associate<X>(a: seq<X>, b: seq<X>, c: seq<X>)
    ensures (a + b) + c == a + (b + c)
  {
  }

  lemma Halves<X>(a: seq<X>, b: seq<X>)
    ensures (a + b)[..|a|] == a && (a + b)[|a|..] == b
  {
  }

  /** A length and what it measures. */
  lemma TakeBack(length: seq<byte>, data: seq<byte>, rest: seq<byte>)
    requires ReadVarint(length + (data + rest)) == Some((|data|, data + rest))
    ensures ReadValue(LENGTH, (length + data) + rest) == Some((data, rest))
  {
    hide ReadVarint;
    Associate(length, data, rest);
    Halves(data, rest);
  }

  lemma ReadValueBack(p: Put, width: nat, rest: seq<byte>)
    requires 0 < width <= 10 && Sound(p, width)
    ensures ReadValue(WireOf(p), ValueOf(p, width) + rest) == Some((DataOf(p, width), rest))
  {
    match p
    case Varint(_, v) =>
      ReadMinimal(v, rest);
      Halves(Minimal(v), rest);
    case Fixed(_, bits) =>
      Halves(LittleEndian(bits, 8), rest);
    case Text(_, data) =>
      ReadMinimal(|data|, data + rest);
      TakeBack(Minimal(|data|), data, rest);
    case Nested(_, puts) =>
      var body := EncodedAll(puts, width);
      ReadPadded(|body|, width, body + rest);
      TakeBack(Padded(|body|, width), body, rest);
  }

  lemma EncodedParts(p: Put, width: nat)
    requires width > 0
    ensures Encoded(p, width) == Key(p.number, WireOf(p)) + ValueOf(p, width)
  {
  }

  lemma ParseStep(b: seq<byte>, n: nat, wire: nat, after: seq<byte>, data: seq<byte>, rest: seq<byte>)
    requires b != [] && ReadKey(b) == Some((n, wire, after)) && wire != START_GROUP
    requires ReadValue(wire, after) == Some((data, rest)) && Parse(rest).Some?
    ensures Parse(b) == Some([Field(n, wire, data)] + Parse(rest).value)
  {
    hide ReadKey, ReadValue, SkipGroup;
  }

  lemma ParseOne(p: Put, width: nat, rest: seq<byte>)
    requires 0 < width <= 10 && Sound(p, width) && Parse(rest).Some?
    ensures Parse(Encoded(p, width) + rest)
            == Some([Field(p.number, WireOf(p), DataOf(p, width))] + Parse(rest).value)
  {
    hide Key, ValueOf, ReadKey, ReadValue, Encoded, DataOf, Parse;
    var key, after := Key(p.number, WireOf(p)), ValueOf(p, width) + rest;
    ReadKeyBack(p.number, WireOf(p), after);
    ReadValueBack(p, width, rest);
    EncodedParts(p, width);
    Associate(key, ValueOf(p, width), rest);
    ParseStep(Encoded(p, width) + rest, p.number, WireOf(p), after, DataOf(p, width), rest);
  }

  /** Fields encode one after another. */
  lemma {:induction false} HeadFirst(puts: seq<Put>, width: nat)
    requires width > 0 && puts != []
    ensures EncodedAll(puts, width) == Encoded(puts[0], width) + EncodedAll(puts[1..], width)
  {
    var last := |puts| - 1;
    if last > 0 {
      HeadFirst(puts[..last], width);
      assert puts[..last][1..] == puts[1..][..last - 1];
    }
  }

  lemma {:induction false} ParseAll(puts: seq<Put>, width: nat) returns (fields: seq<Field>)
    requires 0 < width <= 10 && AllSound(puts, width)
    ensures Parse(EncodedAll(puts, width)) == Some(fields) && |fields| == |puts|
    ensures forall i | 0 <= i < |puts| :: fields[i] == Field(puts[i].number, WireOf(puts[i]), DataOf(puts[i], width))
  {
    if puts == [] {
      fields := [];
    } else {
      var rest := ParseAll(puts[1..], width);
      HeadFirst(puts, width);
      ParseOne(puts[0], width, EncodedAll(puts[1..], width));
      fields := [Field(puts[0].number, WireOf(puts[0]), DataOf(puts[0], width))] + rest;
    }
  }

  // ---- Trees read back -----------------------------------------------------

  /** The reference decoder reads a tree's bytes back as that tree, at any
      depth. */
  lemma {:induction false} DecodesBack(schema: Schema, puts: seq<Put>, width: nat)
    requires 0 < width <= 10 && AllSound(puts, width) && AllConform(schema, puts)
    ensures Decode(schema, EncodedAll(puts, width)) == Some(puts)
    decreases puts, 1
  {
    var b := EncodedAll(puts, width);
    var fields := ParseAll(puts, width);
    FieldsShorter(b);
    FieldsBack(schema, puts, 0, width, b, fields);
    assert fields[0..] == fields && puts[0..] == puts;
  }

  lemma {:induction false} FieldsBack(schema: Schema, puts: seq<Put>, at: nat, width: nat, b: seq<byte>, fields: seq<Field>)
    requires 0 < width <= 10 && AllSound(puts, width) && AllConform(schema, puts)
    requires at <= |puts| == |fields| && forall f | f in fields :: |f.data| < |b|
    requires forall i | 0 <= i < |puts| :: fields[i] == Field(puts[i].number, WireOf(puts[i]), DataOf(puts[i], width))
    ensures DecodeFields(schema, b, fields[at..]) == Some(puts[at..])
    decreases puts, 0, |puts| - at
  {
    if at == |puts| {
      assert fields[at..] == [] && puts[at..] == [];
    } else {
      FieldBack(schema, puts[at], width, b);
      FieldsBack(schema, puts, at + 1, width, b, fields);
      assert fields[at..][1..] == fields[at + 1..];
      assert puts[at..] == [puts[at]] + puts[at + 1..];
    }
  }

  lemma {:induction false} FieldBack(schema: Schema, p: Put, width: nat, b: seq<byte>)
    requires 0 < width <= 10 && Sound(p, width) && Conforms(schema, p)
    requires |DataOf(p, width)| < |b|
    ensures DecodeField(schema, b, Field(p.number, WireOf(p), DataOf(p, width))) == Some(p)
    decreases p, 2
  {
    match p
    case Varint(_, v) =>
      ReadMinimal(v, []);
      assert Minimal(v) + [] == Minimal(v);
    case Fixed(_, bits) =>
      assert Power256(8) == U64;
      EndianBack(bits, 8);
    case Text(_, _) =>
    case Nested(n, puts) =>
      DecodesBack(schema.messages[n], puts, width);
  }
}
