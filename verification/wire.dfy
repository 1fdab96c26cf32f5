/** The Protocol Buffers wire format, as the specification's "Encoding" page
    gives it, written as a decoder: "Base 128 Varints", "Length-Delimited
    Records" and "Groups". It is the reference the encoder and the inbound walk
    are held to, and shares no code with either. */
module Wire {
  import opened Basics

  type byte = b: int | 0 <= b < 256

  const U64: nat := 0x1_0000_0000_0000_0000
  const MAX_KEY: nat := 0xFFFF_FFFF

  const VARINT: nat := 0
  const FIXED64: nat := 1
  const LENGTH: nat := 2
  const START_GROUP: nat := 3
  const END_GROUP: nat := 4
  const FIXED32: nat := 5

  /** What is left of a 64-bit varint's range from its byte `at` on: seven bits
      a byte, and one bit for the tenth. */
  function Limit(at: nat): nat
    requires at <= 9
    decreases 9 - at
  {
    if at == 9 then 2 else 128 * Limit(at + 1)
  }

  /** A varint, `at` bytes of which have been read: its value and the bytes
      after it. Ten bytes at most, and padding is legal. */
  function ReadFrom(b: seq<byte>, at: nat): (r: Option<(nat, seq<byte>)>)
    ensures r.Some? ==> |r.value.1| < |b|
    decreases |b|
  {
    if b == [] || at > 9 || (at == 9 && b[0] > 1) then None
    else if b[0] < 128 then Some((b[0] as nat, b[1..]))
    else
      var rest := ReadFrom(b[1..], at + 1);
      if rest.None? then None else Some((b[0] - 128 + 128 * rest.value.0, rest.value.1))
  }

  function ReadVarint(b: seq<byte>): (r: Option<(nat, seq<byte>)>)
    ensures r.Some? ==> |r.value.1| < |b|
  {
    ReadFrom(b, 0)
  }

  /** One field outside any group: its number, its wire type and the bytes it
      spans, a length-delimited field's without their length. */
  datatype Field = Field(number: nat, wire: nat, data: seq<byte>)

  function Take(b: seq<byte>, n: nat): (r: Option<(seq<byte>, seq<byte>)>)
    ensures r.Some? ==> r.value.0 + r.value.1 == b && |r.value.0| == n
  {
    if n <= |b| then Some((b[..n], b[n..])) else None
  }

  /** A field's key: a number that is not zero, and a wire type. */
  function ReadKey(b: seq<byte>): (r: Option<(nat, nat, seq<byte>)>)
    ensures r.Some? ==> |r.value.2| < |b|
  {
    var key := ReadVarint(b);
    if key.None? || key.value.0 > MAX_KEY || key.value.0 < 8 then None
    else Some((key.value.0 / 8, key.value.0 % 8, key.value.1))
  }

  /** The value of a field that is not a group: its bytes, and those after. */
  function ReadValue(wire: nat, b: seq<byte>): (r: Option<(seq<byte>, seq<byte>)>)
    ensures r.Some? ==> |r.value.1| <= |b|
  {
    if wire == VARINT then
      var v := ReadVarint(b);
      if v.None? then None else Some((b[..|b| - |v.value.1|], v.value.1))
    else if wire == FIXED64 then Take(b, 8)
    else if wire == FIXED32 then Take(b, 4)
    else if wire == LENGTH then
      var n := ReadVarint(b);
      if n.None? then None else Take(n.value.1, n.value.0)
    else None
  }

  /** The bytes after the group opened on `number`: its fields are read and
      dropped, inner groups and all, up to the end tag that names it. */
  function SkipGroup(number: nat, b: seq<byte>): (r: Option<seq<byte>>)
    ensures r.Some? ==> |r.value| < |b|
    decreases |b|
  {
    var key := ReadKey(b);
    if key.None? then None
    else
      var (n, wire, rest) := key.value;
      if wire == END_GROUP then (if n == number then Some(rest) else None)
      else if wire == START_GROUP then
        var after := SkipGroup(n, rest);
        if after.None? then None else SkipGroup(number, after.value)
      else
        var value := ReadValue(wire, rest);
        if value.None? then None else SkipGroup(number, value.value.1)
  }

  /** A message's fields, groups skipped; nothing if any byte is out of place. */
  function Parse(b: seq<byte>): Option<seq<Field>>
    decreases |b|
  {
    if b == [] then Some([])
    else
      var key := ReadKey(b);
      if key.None? then None
      else
        var (n, wire, rest) := key.value;
        if wire == START_GROUP then
          var after := SkipGroup(n, rest);
          if after.None? then None else Parse(after.value)
        else
          var value := ReadValue(wire, rest);
          if value.None? then None
          else
            var fields := Parse(value.value.1);
            if fields.None? then None else Some([Field(n, wire, value.value.0)] + fields.value)
  }

  // ---- Values --------------------------------------------------------------

  /** A record as a tree of fields. `bits` is a double's, low byte first on the
      wire. */
  datatype Put =
    | Varint(number: nat, value: nat)
    | Fixed(number: nat, bits: nat)
    | Text(number: nat, data: seq<byte>)
    | Nested(number: nat, puts: seq<Put>)

  /** Which fields of a message are messages, and what those are. */
  datatype Schema = Schema(messages: map<nat, Schema>)

  /** A varint as a signed 64-bit number, which is sent as its two's complement. */
  function SignedOf(v: nat): int { if v < 0x8000_0000_0000_0000 then v else v - U64 }

  function LittleEndian(v: nat, n: nat): (b: seq<byte>)
    ensures |b| == n
  {
    if n == 0 then [] else [v % 256] + LittleEndian(v / 256, n - 1)
  }

  function FromLittleEndian(b: seq<byte>): nat {
    if b == [] then 0 else b[0] + 256 * FromLittleEndian(b[1..])
  }

  /** A field is shorter than the message it is in. */
  lemma {:induction false} FieldsShorter(b: seq<byte>)
    requires Parse(b).Some?
    ensures forall f | f in Parse(b).value :: |f.data| < |b|
    decreases |b|
  {
    if b != [] {
      var (n, wire, rest) := ReadKey(b).value;
      if wire == START_GROUP {
        FieldsShorter(SkipGroup(n, rest).value);
      } else {
        FieldsShorter(ReadValue(wire, rest).value.1);
      }
    }
  }

  /** The tree a message's bytes stand for, under a schema. */
  function Decode(schema: Schema, b: seq<byte>): Option<seq<Put>>
    decreases |b|, 1, 0
  {
    var fields := Parse(b);
    if fields.None? then None
    else
      FieldsShorter(b);
      DecodeFields(schema, b, fields.value)
  }

  function DecodeFields(schema: Schema, b: seq<byte>, fields: seq<Field>): Option<seq<Put>>
    requires forall f | f in fields :: |f.data| < |b|
    decreases |b|, 0, |fields|
  {
    if fields == [] then Some([])
    else
      var put := DecodeField(schema, b, fields[0]);
      var puts := DecodeFields(schema, b, fields[1..]);
      if put.None? || puts.None? then None else Some([put.value] + puts.value)
  }

  function DecodeField(schema: Schema, b: seq<byte>, f: Field): Option<Put>
    requires |f.data| < |b|
    decreases |b|, 0, 0
  {
    if f.wire == VARINT then
      var v := ReadVarint(f.data);
      if v.None? then None else Some(Varint(f.number, v.value.0))
    else if f.wire == FIXED64 then Some(Fixed(f.number, FromLittleEndian(f.data)))
    else if f.wire != LENGTH then None
    else if f.number in schema.messages then
      var puts := Decode(schema.messages[f.number], f.data);
      if puts.None? then None else Some(Nested(f.number, puts.value))
    else Some(Text(f.number, f.data))
  }
}
