/** The inbound walk: step over one message's fields, groups and all, without
    decoding any, and refuse a type URL over the cap before the decoder can
    allocate for it. */
module Walk {
  import opened Basics
  import opened Wire

  const PAYLOAD_FIELD: nat := 4
  const TYPE_URL_FIELD: nat := 1
  const U32_MAX: nat := 0xFFFF_FFFF

  // ---- What the decoder reads ----------------------------------------------

  /** The fields the reference decoder has read by the end of the message, or
      by the first byte it refuses. */
  function ReadSoFar(b: seq<byte>): seq<Field>
    decreases |b|
  {
    if b == [] then []
    else
      var key := ReadKey(b);
      if key.None? then []
      else
        var (n, wire, rest) := key.value;
        if wire == START_GROUP then
          var after := SkipGroup(n, rest);
          if after.None? then [] else ReadSoFar(after.value)
        else
          var value := ReadValue(wire, rest);
          if value.None? then [] else [Field(n, wire, value.value.0)] + ReadSoFar(value.value.1)
  }

  /** On a message it accepts, that is all of them. */
  lemma {:induction false} AcceptedIsRead(b: seq<byte>)
    requires Parse(b).Some?
    ensures ReadSoFar(b) == Parse(b).value
    decreases |b|
  {
    hide ReadValue, SkipGroup, ReadVarint;
    if b != [] {
      var (n, wire, rest) := ReadKey(b).value;
      if wire == START_GROUP {
        AcceptedIsRead(SkipGroup(n, rest).value);
      } else {
        AcceptedIsRead(ReadValue(wire, rest).value.1);
      }
    }
  }

  // ---- What the walk steps over --------------------------------------------

  /** The next field outside any group, `depth` groups being open, by counting
      alone: no group's number is looked at, and no key is refused for its
      size. */
  function Stepped(b: seq<byte>, depth: nat): (r: Option<(Field, seq<byte>)>)
    ensures r.Some? ==> |r.value.1| < |b|
    decreases |b|
  {
    var key := ReadVarint(b);
    if b == [] || key.None? then None
    else
      var (n, wire, rest) := (key.value.0 / 8, key.value.0 % 8, key.value.1);
      if wire == START_GROUP then Stepped(rest, depth + 1)
      else if wire == END_GROUP then (if depth == 0 then None else Stepped(rest, depth - 1))
      else
        var value := ReadValue(wire, rest);
        if value.None? then None
        else if depth == 0 then Some((Field(n, wire, value.value.0), value.value.1))
        else Stepped(value.value.1, depth)
  }

  function Walked(b: seq<byte>): seq<Field>
    decreases |b|
  {
    var step := Stepped(b, 0);
    if step.None? then [] else [step.value.0] + Walked(step.value.1)
  }

  /** Counting depth comes out of a group where matching tags does. */
  lemma {:induction false} GroupSteppedOver(number: nat, b: seq<byte>, depth: nat)
    requires SkipGroup(number, b).Some?
    ensures Stepped(b, depth + 1) == Stepped(SkipGroup(number, b).value, depth)
    decreases |b|
  {
    var (n, wire, rest) := ReadKey(b).value;
    if wire == START_GROUP {
      GroupSteppedOver(n, rest, depth + 1);
      GroupSteppedOver(number, SkipGroup(n, rest).value, depth);
    } else if wire != END_GROUP {
      GroupSteppedOver(number, ReadValue(wire, rest).value.1, depth);
    }
  }

  lemma EndHasNoValue(b: seq<byte>)
    ensures ReadValue(END_GROUP, b).None?
  {
  }

  /** Whatever the bytes, every field the decoder reads is one the walk steps
      on, in the same order, so there is no string the decoder reaches and the
      walk does not. */
  lemma {:induction false} DecoderReadsNoMore(b: seq<byte>)
    ensures ReadSoFar(b) <= Walked(b)
    decreases |b|
  {
    hide ReadValue, SkipGroup, ReadVarint;
    if b != [] && ReadKey(b).Some? {
      var (n, wire, rest) := ReadKey(b).value;
      if wire == START_GROUP {
        if SkipGroup(n, rest).Some? {
          GroupSteppedOver(n, rest, 0);
          DecoderReadsNoMore(SkipGroup(n, rest).value);
          assert Walked(b) == Walked(SkipGroup(n, rest).value);
        }
      } else if ReadValue(wire, rest).Some? {
        EndHasNoValue(rest);
        DecoderReadsNoMore(ReadValue(wire, rest).value.1);
      }
    }
  }

  /** On every message the decoder accepts, the walk yields exactly its fields. */
  lemma {:induction false} WalkIsDecoder(b: seq<byte>)
    requires Parse(b).Some?
    ensures Walked(b) == Parse(b).value
    decreases |b|
  {
    hide ReadValue, SkipGroup, ReadVarint;
    if b == [] {
      assert Stepped(b, 0).None?;
    } else {
      var (n, wire, rest) := ReadKey(b).value;
      if wire == START_GROUP {
        GroupSteppedOver(n, rest, 0);
        WalkIsDecoder(SkipGroup(n, rest).value);
        assert Walked(b) == Walked(SkipGroup(n, rest).value);
      } else {
        EndHasNoValue(rest);
        WalkIsDecoder(ReadValue(wire, rest).value.1);
      }
    }
  }

  // ---- The walk itself -------------------------------------------------------

  class Fields {
    var rest: seq<byte>

    constructor (b: seq<byte>)
      ensures rest == b
    {
      rest := b;
    }

    /** Read one varint, ten bytes at most, refusing a tenth that carries more
        than the one bit left. */
    method Varint() returns (r: Option<nat>)
      modifies this
      ensures r.Some? <==> ReadVarint(old(rest)).Some?
      ensures r.Some? ==> ReadVarint(old(rest)) == Some((r.value, rest))
      ensures r.None? ==> rest == old(rest)
    {
      var value: nat, scale: nat, i: nat := 0, 1, 0;
      while i < |rest| && i < 10
        invariant rest == old(rest) && i <= |rest| && i <= 10
        invariant var left := ReadFrom(rest[i..], i);
                  ReadVarint(rest) == if left.None? then None
                                      else Some((value + scale * left.value.0, left.value.1))
      {
        var b := rest[i];
        assert rest[i..][0] == b && rest[i..][1..] == rest[i + 1..];
        if i == 9 && b > 1 { return None; }
        Shifted(value, scale, b, ReadFrom(rest[i + 1..], i + 1));
        value := value + scale * (b % 128);
        if b < 128 {
          rest := rest[i + 1..];
          return Some(value);
        }
        i, scale := i + 1, 128 * scale;
      }
      return None;
    }

    /** Take `len` bytes, or nothing if fewer remain. */
    method TakeBytes(len: nat) returns (r: Option<seq<byte>>)
      modifies this
      ensures r == if len <= |old(rest)| then Some(old(rest)[..len]) else None
      ensures rest == if r.Some? then old(rest)[len..] else old(rest)
    {
      if len > |rest| { return None; }
      r := Some(rest[..len]);
      rest := rest[len..];
    }

    /** A field's value, of a wire type that has one. */
    method Value(wire: nat) returns (r: Option<seq<byte>>)
      modifies this
      ensures r.Some? <==> ReadValue(wire, old(rest)).Some?
      ensures r.Some? ==> ReadValue(wire, old(rest)) == Some((r.value, rest))
    {
      match wire {
        case 0 =>
          var start := rest;
          var v := Varint();
          if v.None? { return None; }
          return Some(start[..|start| - |rest|]);
        case 1 => r := TakeBytes(8);
        case 2 =>
          var len := Varint();
          if len.None? { return None; }
          r := TakeBytes(len.value);
        case 5 => r := TakeBytes(4);
        case _ => return None;
      }
    }

    /** The next field outside any group, or none at the end or at a byte the
        walk cannot read. A frame's length is a `u32`, so the count of open
        groups never overflows one. */
    method Next() returns (r: Option<Field>)
      requires |rest| <= U32_MAX
      modifies this
      ensures r.Some? <==> Stepped(old(rest), 0).Some?
      ensures r.Some? ==> Stepped(old(rest), 0) == Some((r.value, rest))
    {
      var depth := 0;
      while true
        invariant depth + |rest| <= |old(rest)|
        invariant Stepped(rest, depth) == Stepped(old(rest), 0)
        decreases |rest|
      {
        if rest == [] { return None; }
        var key := Varint();
        if key.None? { return None; }
        var field, wire := key.value / 8, key.value % 8;
        if wire == START_GROUP {
          if depth == U32_MAX { return None; }
          depth := depth + 1;
        } else if wire == END_GROUP {
          if depth == 0 { return None; }
          depth := depth - 1;
        } else {
          var value := Value(wire);
          if value.None? { return None; }
          if depth == 0 { return Some(Field(field, wire, value.value)); }
        }
      }
    }
  }

  // ---- The check -------------------------------------------------------------

  /** Whether a field is the payload, and whether one is a type URL. */
  predicate IsPayload(f: Field) { f.number == PAYLOAD_FIELD && f.wire == LENGTH }

  predicate IsUrl(f: Field) { f.number == TYPE_URL_FIELD && f.wire == LENGTH }

  /** Every type URL of every payload, as the decoder would come to read them,
      is within the cap. */
  ghost predicate UrlsWithin(body: seq<byte>, cap: nat) {
    forall f, g | f in ReadSoFar(body) && IsPayload(f) && g in ReadSoFar(f.data) && IsUrl(g) :: |g.data| <= cap
  }

  /** The walk meets a type URL of that length. */
  ghost predicate HasUrl(body: seq<byte>, length: nat) {
    exists f, g :: f in Walked(body) && IsPayload(f) && g in Walked(f.data) && IsUrl(g) && |g.data| == length
  }

  /** The decoder would accept the frame, as far as the walk descends into it. */
  ghost predicate Accepted(body: seq<byte>) {
    Parse(body).Some? && forall f | f in Parse(body).value && IsPayload(f) :: Parse(f.data).Some?
  }

  method WalkPayload(data: seq<byte>, cap: nat) returns (over: Option<nat>)
    requires |data| <= U32_MAX
    ensures over.None? <==> forall g | g in Walked(data) && IsUrl(g) :: |g.data| <= cap
    ensures over.Some? ==> over.value > cap && exists g :: g in Walked(data) && IsUrl(g) && |g.data| == over.value
  {
    hide IsUrl, Stepped;
    var inner := new Fields(data);
    ghost var seen: seq<Field> := [];
    while true
      invariant |inner.rest| <= |data| && Walked(data) == seen + Walked(inner.rest)
      invariant forall g | g in seen && IsUrl(g) :: |g.data| <= cap
      decreases |inner.rest|
    {
      var was := inner.rest;
      var field := inner.Next();
      if field.None? { return None; }
      assert Walked(was) == [field.value] + Walked(inner.rest);
      if IsUrl(field.value) && |field.value.data| > cap {
        assert field.value in Walked(data);
        return Some(|field.value.data|);
      }
      seen := seen + [field.value];
    }
  }

  /** `check_type_url`. Passing a frame, whatever its bytes, means no type URL
      the decoder can come to read is over the cap; on a frame the decoder
      accepts, it passes exactly those. */
  method CheckTypeUrl(body: seq<byte>, cap: nat) returns (over: Option<nat>)
    requires |body| <= U32_MAX
    ensures over.None? ==> UrlsWithin(body, cap)
    ensures Accepted(body) ==> (over.None? <==> UrlsWithin(body, cap))
    ensures over.Some? ==> over.value > cap && HasUrl(body, over.value)
  {
    hide UrlsWithin, Accepted, ReadSoFar, Stepped, IsUrl;
    DecoderReadsNoMore(body);
    var fields := new Fields(body);
    ghost var seen: seq<Field> := [];
    while true
      invariant |fields.rest| <= |body| && Walked(body) == seen + Walked(fields.rest)
      invariant forall f | f in seen && IsPayload(f) ::
                  forall g | g in Walked(f.data) && IsUrl(g) :: |g.data| <= cap
      decreases |fields.rest|
    {
      var was := fields.rest;
      var field := fields.Next();
      if field.None? {
        PassesAll(body, cap, seen);
        return None;
      }
      assert Walked(was) == [field.value] + Walked(fields.rest);
      if IsPayload(field.value) {
        SteppedIsShorter(was, 0);
        over := WalkPayload(field.value.data, cap);
        if over.Some? {
          assert field.value in Walked(body);
          if Accepted(body) { OverIsRead(body, cap, field.value); }
          return;
        }
      }
      seen := seen + [field.value];
    }
  }

  lemma {:induction false} SteppedIsShorter(b: seq<byte>, depth: nat)
    ensures Stepped(b, depth).Some? ==> |Stepped(b, depth).value.0.data| <= |b|
    decreases |b|
  {
    var key := ReadVarint(b);
    if b != [] && key.Some? {
      var (n, wire, rest) := (key.value.0 / 8, key.value.0 % 8, key.value.1);
      if wire == START_GROUP { SteppedIsShorter(rest, depth + 1); }
      else if wire == END_GROUP { if depth > 0 { SteppedIsShorter(rest, depth - 1); } }
      else if ReadValue(wire, rest).Some? && depth > 0 { SteppedIsShorter(ReadValue(wire, rest).value.1, depth); }
    }
  }

  lemma PassesAll(body: seq<byte>, cap: nat, seen: seq<Field>)
    requires ReadSoFar(body) <= Walked(body) == seen
    requires forall f | f in seen && IsPayload(f) :: forall g | g in Walked(f.data) && IsUrl(g) :: |g.data| <= cap
    ensures UrlsWithin(body, cap)
  {
    forall f, g | f in ReadSoFar(body) && IsPayload(f) && g in ReadSoFar(f.data) && IsUrl(g)
      ensures |g.data| <= cap
    {
      DecoderReadsNoMore(f.data);
      assert g in Walked(f.data);
    }
  }

  lemma OverIsRead(body: seq<byte>, cap: nat, f: Field)
    requires Accepted(body) && f in Walked(body) && IsPayload(f)
    requires !forall g | g in Walked(f.data) && IsUrl(g) :: |g.data| <= cap
    ensures !UrlsWithin(body, cap)
  {
    WalkIsDecoder(body);
    AcceptedIsRead(body);
    WalkIsDecoder(f.data);
    AcceptedIsRead(f.data);
  }

  lemma Shifted(value: nat, scale: nat, b: byte, rest: Option<(nat, seq<byte>)>)
    ensures b < 128 ==> value + scale * b == value + scale * (b % 128)
    ensures rest.Some? && b >= 128 ==>
              value + scale * (b - 128 + 128 * rest.value.0)
              == value + scale * (b % 128) + 128 * scale * rest.value.0
  {
    if rest.Some? && b >= 128 {
      assert b - 128 == b % 128;
      Spread(scale, b % 128, rest.value.0);
    }
  }

  lemma Spread(s: nat, x: nat, y: nat)
    ensures s * (x + 128 * y) == s * x + 128 * s * y
  {
  }
}
