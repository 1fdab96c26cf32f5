/** The record encoder: put calls that write protobuf into a buffer that never
    outgrows its capacity, with a gap left for each length and filled in when
    the message it measures is closed. */
module EncodeCode {
  import opened Basics
  import opened Wire
  import opened Encoding
  import opened Rendering

  const MAX_DEPTH: nat := 64

  datatype Error = NotOpen | Full | FieldNumber | Depth | Unbalanced

  datatype State = Idle | Open | Poisoned(error: Error)

  /** Writing the next element of the part after `d`. */
  lemma Poke<X>(a: seq<X>, d: seq<X>, c: seq<X>, x: X)
    requires c != []
    ensures (a + d + c)[|a| + |d| := x] == a + (d + [x]) + c[1..]
  {
  }

  // ---- The varint writers --------------------------------------------------

  /** `put_varint`: append `v`, seven bits a byte, low bits first. */
  method PutVarint(buf: seq<byte>, v: nat) returns (r: seq<byte>)
    ensures r == buf + Minimal(v)
  {
    r := buf;
    var left := v;
    while left >= 128
      invariant r + Minimal(left) == buf + Minimal(v)
    {
      assert Minimal(left) == [left % 128 + 128] + Minimal(left / 128);
      r := r + [left % 128 + 128];
      left := left / 128;
    }
    r := r + [left];
  }

  /** `varint_len`. */
  method CountVarint(v: nat) returns (n: nat)
    ensures n == VarintLen(v)
  {
    n := 1;
    var left := v;
    while left >= 128
      invariant n - 1 + VarintLen(left) == VarintLen(v)
    {
      left, n := left / 128, n + 1;
    }
  }

  /** `write_varint`, into a buffer on the stack. */
  method WriteVarint(out: array<byte>, at: nat, v: nat) returns (n: nat)
    requires at + VarintLen(v) <= out.Length
    modifies out
    ensures n == VarintLen(v)
    ensures out[..] == old(out[..at]) + Minimal(v) + old(out[at + n..])
  {
    n := 0;
    var left := v;
    ghost var was := out[..];
    ghost var done: seq<byte> := [];
    assert out[..] == was[..at] + done + was[at..];
    while left >= 128
      invariant |done| == n && n + VarintLen(left) == VarintLen(v)
      invariant done + Minimal(left) == Minimal(v)
      invariant out[..] == was[..at] + done + was[at + n..]
    {
      PutByte(out, was, at, n, done, left % 128 + 128);
      done := done + [left % 128 + 128];
      left, n := left / 128, n + 1;
    }
    PutByte(out, was, at, n, done, left);
    n := n + 1;
  }

  method PutByte(out: array<byte>, ghost was: seq<byte>, at: nat, n: nat, ghost done: seq<byte>, x: byte)
    requires |was| == out.Length && at + n < out.Length && |done| == n
    requires out[..] == was[..at] + done + was[at + |done|..]
    modifies out
    ensures out[..] == was[..at] + (done + [x]) + was[at + |done| + 1..]
  {
    ghost var now := out[..];
    Poke(was[..at], done, was[at + |done|..], x);
    assert was[at + |done|..][1..] == was[at + |done| + 1..];
    out[at + n] := x;
    assert out[..] == now[at + n := x];
  }

  /** `put_padded_varint`: fill `width` bytes at `gap` with `v`. */
  method PutPadded(buf: seq<byte>, gap: nat, width: nat, v: nat) returns (r: seq<byte>)
    requires 0 < width && gap + width <= |buf|
    ensures r == buf[..gap] + Padded(v, width) + buf[gap + width..]
  {
    r := buf;
    var left := v;
    ghost var done: seq<byte> := [];
    assert r == buf[..gap] + done + buf[gap..];
    for i := 0 to width
      invariant |done| == i && r == buf[..gap] + done + buf[gap + i..]
      invariant if i < width then done + Padded(left, width - i) == Padded(v, width) else done == Padded(v, width)
    {
      var next: byte := left % 128 + if i < width - 1 then 128 else 0;
      Poke(buf[..gap], done, buf[gap + i..], next);
      r := r[gap + i := next];
      done := done + [next];
      assert buf[gap + i..][1..] == buf[gap + i + 1..];
      left := left / 128;
    }
  }

  // ---- The encoder ---------------------------------------------------------

  /** What a put answers: the record must be open and unspoiled, the field
      number in range, and the key and value within what is left. */
  function PutOutcome(state: State, left: int, number: nat, wire: nat, size: nat): Result<(), Error> {
    match state
    case Idle => Err(NotOpen)
    case Poisoned(error) => Err(error)
    case Open =>
      if number == 0 || number > MAX_FIELD then Err(FieldNumber)
      else if left < VarintLen(8 * number + wire) + size then Err(Full)
      else Ok(())
  }

  /** A failure spoils an open record and changes nothing else. */
  function After(state: State, r: Result<(), Error>): State {
    if state.Open? && r.Err? then Poisoned(r.error) else state
  }

  class Encoder {
    const capacity: nat
    const lenWidth: nat
    var buf: seq<byte>
    var open: seq<nat>
    var payloadGap: nat
    var valueGap: nat
    var state: State
    var discarded: nat

    /** The messages open, the two of the wrapper included, with their fields. */
    ghost var frames: seq<Frame>
    ghost var topic: seq<byte>
    ghost var stamp: Option<Stamp>
    ghost var begun: nat
    ghost var committed: nat

    ghost predicate Valid()
      reads this
    {
      && capacity < U64 && lenWidth == VarintLen(capacity)
      && |buf| <= capacity && |open| <= MAX_DEPTH
      && begun == committed + discarded + (if state.Idle? then 0 else 1)
      && (state.Open? ==> InStep())
    }

    /** The buffer is the rendering of what is open, and the gaps are where the
        fields say. */
    ghost predicate InStep()
      reads this
    {
      && lenWidth > 0 && |frames| == |open| + 3
      && FramesSound(frames, lenWidth)
      && frames[..2] == Begun(topic, stamp)[..2] && frames[2].number == ANY_VALUE
      && buf == Rendered(frames, lenWidth)
      && payloadGap == GapAt(frames, 1, lenWidth) && valueGap == GapAt(frames, 2, lenWidth)
      && (forall i | 0 <= i < |open| :: open[i] == GapAt(frames, i + 3, lenWidth))
    }

    constructor (bytes: nat)
      requires bytes < U64
      ensures Valid() && state.Idle? && capacity == bytes && discarded == begun == committed == 0
    {
      capacity, lenWidth := bytes, VarintLen(bytes);
      buf, open, payloadGap, valueGap, state, discarded := [], [], 0, 0, Idle, 0;
      frames, topic, stamp, begun, committed := [], [], None, 0, 0;
    }

    /** Write one field whole, or not at all. */
    method Put(number: nat, wire: nat, value: seq<byte>) returns (r: Result<(), Error>)
      requires |buf| <= capacity
      modifies this`buf, this`state
      ensures r == PutOutcome(old(state), capacity - |old(buf)|, number, wire, |value|)
      ensures state == After(old(state), r)
      ensures buf == if r.Ok? then old(buf) + (Key(number, wire) + value) else old(buf)
      ensures |buf| <= capacity
    {
      match state {
        case Idle => return Err(NotOpen);
        case Poisoned(error) => return Err(error);
        case Open =>
      }
      if number == 0 || number > MAX_FIELD {
        state := Poisoned(FieldNumber);
        return Err(FieldNumber);
      }
      var size := CountVarint(8 * number + wire);
      if capacity - |buf| < size + |value| {
        state := Poisoned(Full);
        return Err(Full);
      }
      var key := PutVarint([], 8 * number + wire);
      buf := buf + (key + value);
      return Ok(());
    }

    /** A put of field `p` into the innermost open message. */
    method Append(ghost p: Put, number: nat, wire: nat, value: seq<byte>) returns (r: Result<(), Error>)
      requires Valid() && p.number == number
      requires Encoded(p, lenWidth) == Key(number, wire) + value
      requires 1 <= number <= MAX_FIELD ==> Sound(p, lenWidth)
      modifies this`buf, this`state, this`frames
      ensures Valid()
      ensures r == PutOutcome(old(state), capacity - |old(buf)|, number, wire, |value|)
      ensures state == After(old(state), r)
      ensures r.Ok? ==> frames == Extended(old(frames), p)
                        && |buf| == |old(buf)| + VarintLen(8 * number + wire) + |value|
      ensures r.Err? ==> buf == old(buf) && frames == old(frames)
    {
      hide Rendered, GapAt, FramesSound, Extended, Sound, Encoded;
      r := Put(number, wire, value);
      if r.Ok? {
        ExtendAll(frames, p, lenWidth);
        frames := Extended(frames, p);
      }
    }

    method Integer(number: nat, n: int) returns (r: Result<(), Error>)
      requires Valid() && -0x8000_0000_0000_0000 <= n < 0x8000_0000_0000_0000
      modifies this`buf, this`state, this`frames
      ensures Valid()
      ensures r == PutOutcome(old(state), capacity - |old(buf)|, number, VARINT, VarintLen(Unsigned(n)))
      ensures state == After(old(state), r)
      ensures r.Ok? ==> frames == Extended(old(frames), Varint(number, Unsigned(n)))
                        && |buf| == |old(buf)| + VarintLen(8 * number + VARINT) + VarintLen(Unsigned(n))
      ensures r.Err? ==> buf == old(buf) && frames == old(frames)
    {
      var value := PutVarint([], Unsigned(n));
      r := Append(Varint(number, Unsigned(n)), number, VARINT, value);
    }

    method Double(number: nat, bits: nat) returns (r: Result<(), Error>)
      requires Valid() && bits < U64
      modifies this`buf, this`state, this`frames
      ensures Valid()
      ensures r == PutOutcome(old(state), capacity - |old(buf)|, number, FIXED64, 8)
      ensures state == After(old(state), r)
      ensures r.Ok? ==> frames == Extended(old(frames), Fixed(number, bits))
                        && |buf| == |old(buf)| + VarintLen(8 * number + FIXED64) + 8
      ensures r.Err? ==> buf == old(buf) && frames == old(frames)
    {
      r := Append(Fixed(number, bits), number, FIXED64, LittleEndian(bits, 8));
    }

    method String(number: nat, s: seq<byte>) returns (r: Result<(), Error>)
      requires Valid() && |s| < U64
      modifies this`buf, this`state, this`frames
      ensures Valid()
      ensures r == PutOutcome(old(state), capacity - |old(buf)|, number, LENGTH, VarintLen(|s|) + |s|)
      ensures state == After(old(state), r)
      ensures r.Ok? ==> frames == Extended(old(frames), Text(number, s))
                        && |buf| == |old(buf)| + VarintLen(8 * number + LENGTH) + VarintLen(|s|) + |s|
      ensures r.Err? ==> buf == old(buf) && frames == old(frames)
    {
      var length := PutVarint([], |s|);
      r := Append(Text(number, s), number, LENGTH, length + s);
    }

    method Boolean(number: nat, b: bool) returns (r: Result<(), Error>)
      requires Valid()
      modifies this`buf, this`state, this`frames
      ensures Valid()
      ensures r == PutOutcome(old(state), capacity - |old(buf)|, number, VARINT, 1)
      ensures state == After(old(state), r)
      ensures r.Ok? ==> frames == Extended(old(frames), Varint(number, if b then 1 else 0))
                        && |buf| == |old(buf)| + VarintLen(8 * number + VARINT) + 1
      ensures r.Err? ==> buf == old(buf) && frames == old(frames)
    {
      r := Append(Varint(number, if b then 1 else 0), number, VARINT, [if b then 1 else 0]);
    }

    /** Open a nested message: a gap for its length, and puts land inside it. */
    method Message(number: nat) returns (r: Result<(), Error>)
      requires Valid()
      modifies this`buf, this`state, this`frames, this`open
      ensures Valid()
      ensures r == if old(state).Open? && |old(open)| == MAX_DEPTH then Err(Depth)
                   else PutOutcome(old(state), capacity - |old(buf)|, number, LENGTH, lenWidth)
      ensures state == After(old(state), r)
      ensures r.Ok? ==> frames == old(frames) + [Frame(number, [])] && |open| == |old(open)| + 1
                        && |buf| == |old(buf)| + VarintLen(8 * number + LENGTH) + lenWidth
      ensures r.Err? ==> buf == old(buf) && frames == old(frames) && open == old(open)
    {
      hide Rendered, GapAt, FramesSound;
      if state.Open? && |open| == MAX_DEPTH {
        state := Poisoned(Depth);
        return Err(Depth);
      }
      r := Put(number, LENGTH, Zeros(lenWidth));
      if r.Ok? {
        hide Key, Begun;
        OpenAll(frames, number, lenWidth);
        assert (frames + [Frame(number, [])])[..2] == frames[..2];
        frames := frames + [Frame(number, [])];
        open := open + [|buf| - lenWidth];
      }
    }

    /** Close the innermost message, its length written into its gap. */
    method EndMessage() returns (r: Result<(), Error>)
      requires Valid()
      modifies this`buf, this`state, this`frames, this`open
      ensures Valid()
      ensures r == if old(state).Idle? then Err(NotOpen)
                   else if old(state).Poisoned? then Err(old(state).error)
                   else if old(open) == [] then Err(Unbalanced) else Ok(())
      ensures state == After(old(state), r)
      ensures r.Ok? ==> |old(frames)| > 1 && frames == Closed(old(frames)) && |buf| == |old(buf)|
                        && |open| == |old(open)| - 1
      ensures r.Err? ==> buf == old(buf) && frames == old(frames) && open == old(open)
    {
      hide Rendered, GapAt, FramesSound, Closed;
      match state {
        case Idle => return Err(NotOpen);
        case Poisoned(error) => return Err(error);
        case Open =>
      }
      if open == [] {
        state := Poisoned(Unbalanced);
        return Err(Unbalanced);
      }
      RoomForAny(|buf|, capacity);
      CloseAll(frames, lenWidth);
      var gap := open[|open| - 1];
      open := open[..|open| - 1];
      var body := |buf| - (gap + lenWidth);
      buf := PutPadded(buf, gap, lenWidth, body);
      frames := Closed(frames);
      return Ok(());
    }

    /** A put on one of the wrapper's own field numbers. */
    method PutKnown(number: nat, wire: nat, value: seq<byte>) returns (ok: bool)
      requires state.Open? && |buf| <= capacity && 1 <= number <= ENVELOPE_PAYLOAD
      modifies this`buf, this`state
      ensures |buf| <= capacity
      ensures ok <==> |old(buf)| + |Key(number, wire) + value| <= capacity
      ensures ok ==> state == Open && buf == old(buf) + (Key(number, wire) + value)
      ensures !ok ==> state == Poisoned(Full)
    {
      hide Key;
      var r := Put(number, wire, value);
      ok := r.Ok?;
    }

    method PutStamp(at: Option<Stamp>) returns (ok: bool)
      requires state.Open? && buf == [] && lenWidth > 0
      modifies this`buf, this`state
      ensures |buf| <= capacity
      ensures ok <==> |StampPart(at, lenWidth)| <= capacity
      ensures state == if ok then Open else Poisoned(Full)
      ensures ok ==> buf == StampPart(at, lenWidth)
    {
      hide Key, Minimal, LittleEndian;
      ok := true;
      if at.Some? {
        var epoch := PutVarint([], at.value.epoch);
        ok := PutKnown(ENVELOPE_EPOCH, VARINT, epoch);
        if ok { ok := PutKnown(ENVELOPE_MISSION_TIME, FIXED64, LittleEndian(at.value.missionTime, 8)); }
      }
    }

    /** The wrapper's fields, one put each; they stop at the first refused. */
    method PutWrapper(name: seq<byte>, at: Option<Stamp>) returns (ok: bool)
      requires state.Open? && buf == [] && |UrlOf(name)| < U64 && lenWidth == VarintLen(capacity)
      modifies this`buf, this`state, this`payloadGap, this`valueGap
      ensures |buf| <= capacity
      ensures ok <==> WrapperSize(name, at, VarintLen(capacity)) <= capacity
      ensures state == if ok then Open else Poisoned(Full)
      ensures ok ==>
                && buf == ((StampPart(at, lenWidth) + GapPart(ENVELOPE_PAYLOAD, lenWidth)) + UrlPart(name))
                          + GapPart(ANY_VALUE, lenWidth)
                && payloadGap == |StampPart(at, lenWidth) + GapPart(ENVELOPE_PAYLOAD, lenWidth)| - lenWidth
                && valueGap == |buf| - lenWidth
    {
      hide Key, Minimal, StampPart, Zeros, UrlOf;
      ok := PutStamp(at);
      if ok { ok := PutKnown(ENVELOPE_PAYLOAD, LENGTH, Zeros(lenWidth)); }
      if ok {
        payloadGap := |buf| - lenWidth;
        var length := PutVarint([], |UrlOf(name)|);
        ok := PutKnown(ANY_TYPE_URL, LENGTH, length + UrlOf(name));
      }
      if ok { ok := PutKnown(ANY_VALUE, LENGTH, Zeros(lenWidth)); }
      if ok { valueGap := |buf| - lenWidth; }
    }

    /** Open a record on `name`, discarding one left open. The wrapper goes in
        first; a topic the buffer cannot hold spoils the record. */
    method Begin(name: seq<byte>, at: Option<Stamp>) returns (abandoned: bool)
      requires Valid() && |UrlOf(name)| < U64
      requires at.Some? ==> at.value.epoch < U64 && at.value.missionTime < U64
      modifies this
      ensures Valid() && abandoned == !old(state).Idle?
      ensures begun == old(begun) + 1 && committed == old(committed)
      ensures discarded == old(discarded) + if abandoned then 1 else 0
      ensures topic == name && stamp == at
      ensures if WrapperSize(name, at, lenWidth) <= capacity
              then state == Open && open == [] && frames == Begun(name, at)
                   && |buf| == WrapperSize(name, at, lenWidth)
              else state == Poisoned(Full)
    {
      hide Rendered, GapAt, FramesSound, StampPart, UrlPart, GapPart;
      abandoned := !state.Idle?;
      if abandoned { discarded := discarded + 1; }
      buf, open, state := [], [], Open;
      begun := begun + 1;
      topic, stamp, frames := name, at, Begun(name, at);
      BegunRenders(name, at, lenWidth);
      var _ := PutWrapper(name, at);
    }

    /** Fill the value's gap and then the payload's. */
    method Seal()
      requires Valid() && state.Open? && open == []
      modifies this`buf
      ensures |old(frames)| == 3 && |buf| == |old(buf)|
      ensures var tail := Tail(topic, stamp, frames[2].puts);
              && buf == EncodedAll(tail, lenWidth) && AllSound(tail, lenWidth)
              && forall schema :: AllConform(schema, tail) ==> Decode(schema, buf) == Some(tail)
    {
      hide Rendered, GapAt, FramesSound, Closed, Tail, Sound, AllSound, EncodedAll, Padded;
      RoomForAny(|buf|, capacity);
      CloseAll(frames, lenWidth);
      CloseAll(Closed(frames), lenWidth);
      ClosedTwice(frames, topic, stamp);
      var end := |buf|;
      buf := PutPadded(buf, valueGap, lenWidth, end - (valueGap + lenWidth));
      buf := PutPadded(buf, payloadGap, lenWidth, end - (payloadGap + lenWidth));
      TailReads(Closed(Closed(frames)), buf, Tail(topic, stamp, frames[2].puts));
    }

    /** Close the record and hand back the envelope's tail, or refuse and
        discard it. What is handed back is the encoding of the stamp, the type
        URL and the record's fields, and under every schema they conform to
        the reference decoder reads exactly those back. */
    method Commit() returns (r: Result<seq<byte>, Error>)
      requires Valid()
      modifies this
      ensures Valid() && begun == old(begun) && state.Idle?
      ensures r.Ok? <==> old(state).Open? && old(open) == []
      ensures old(state).Idle? ==> r == Err(NotOpen) && discarded == old(discarded)
      ensures old(state).Poisoned? ==> r == Err(old(state).error)
      ensures old(state).Open? && old(open) != [] ==> r == Err(Unbalanced)
      ensures r.Err? && !old(state).Idle? ==> discarded == old(discarded) + 1 && committed == old(committed)
      ensures r.Ok? ==> committed == old(committed) + 1 && discarded == old(discarded)
      ensures r.Ok? ==>
                && |old(frames)| == 3 && |r.value| == |old(buf)| <= capacity
                && var tail := Tail(old(topic), old(stamp), old(frames)[2].puts);
                   && r.value == EncodedAll(tail, lenWidth) && AllSound(tail, lenWidth)
                   && forall schema :: AllConform(schema, tail) ==> Decode(schema, r.value) == Some(tail)
    {
      hide Rendered, GapAt, FramesSound, Tail, Sound, AllSound, EncodedAll, AllConform, Decode;
      match state {
        case Idle => return Err(NotOpen);
        case Poisoned(error) =>
          Discard();
          return Err(error);
        case Open =>
      }
      if open != [] {
        Discard();
        return Err(Unbalanced);
      }
      Seal();
      state := Idle;
      committed := committed + 1;
      return Ok(buf);
    }

    method Discard()
      requires Valid() && !state.Idle?
      modifies this`buf, this`state, this`discarded
      ensures Valid() && state.Idle? && discarded == old(discarded) + 1
    {
      buf, state, discarded := [], Idle, discarded + 1;
    }

    lemma TailReads(whole: seq<Frame>, bytes: seq<byte>, tail: seq<Put>)
      requires lenWidth == VarintLen(capacity) && capacity < U64
      requires |whole| == 1 && whole[0].puts == tail && FramesSound(whole, lenWidth)
      requires bytes == Rendered(whole, lenWidth)
      ensures bytes == EncodedAll(tail, lenWidth) && AllSound(tail, lenWidth)
      ensures forall schema :: AllConform(schema, tail) ==> Decode(schema, bytes) == Some(tail)
    {
      LimitIsU64();
      WidthOfU64(capacity, 0);
      assert whole[0] in whole;
      forall schema | AllConform(schema, tail) ensures Decode(schema, bytes) == Some(tail) {
        DecodesBack(schema, tail, lenWidth);
      }
    }
  }

  /** A signed number's two's-complement bit pattern. */
  function Unsigned(n: int): (v: nat)
    requires -0x8000_0000_0000_0000 <= n < 0x8000_0000_0000_0000
    ensures v < U64 && (v - n) % U64 == 0 && SignedOf(v) == n
  {
    if n < 0 then n + U64 else n
  }
}
