/** Frames on a socket: a length, then the envelope's number, then the shared
    tail. A write may take fewer bytes than offered and a read may give fewer
    than asked for, in any pattern. */
module Framing {
  import opened Basics
  import opened Wire
  import opened Encoding
  import opened EncodeCode

  const SEQ_TAG: byte := 8
  const FRAME_MAX: nat := 0x100_0000
  const U32: nat := 0x1_0000_0000

  datatype IoError = WriteZero | InvalidData | UnexpectedEof | Failed

  /** The envelope's bytes: `seq` as field 1, then the tail. */
  function Body(seqno: nat, tail: seq<byte>): seq<byte> { [SEQ_TAG] + Minimal(seqno) + tail }

  function FrameOf(body: seq<byte>): seq<byte> { LittleEndian(|body|, 4) + body }

  // ---- Writing ---------------------------------------------------------------

  /** What a socket makes of one call: it takes some of what is offered, is
      interrupted, or fails. */
  datatype Taking = Took(n: nat) | Interrupted | Refused

  /** A socket, as the calls made on it will go. After them it takes whatever it
      is given. */
  class Sink {
    var wire: seq<byte>
    var script: seq<Taking>

    constructor (script: seq<Taking>)
      ensures wire == [] && this.script == script
    {
      wire, this.script := [], script;
    }

    /** One call offering `first` and then `second`. */
    method WriteVectored(first: seq<byte>, second: seq<byte>) returns (r: Taking)
      requires first + second != []
      modifies this
      ensures r.Took? ==> r.n <= |first + second| && wire == old(wire) + (first + second)[..r.n]
      ensures !r.Took? ==> wire == old(wire)
      ensures if old(script) == [] then r == Took(|first + second|) && script == []
              else script == old(script)[1..]
      ensures Takes(old(script)) ==> Takes(script) && r != Refused && r != Took(0)
    {
      var offered := first + second;
      if script == [] {
        r := Took(|offered|);
      } else {
        r := script[0];
        script := script[1..];
        if r.Took? { r := Took(Min(r.n, |offered|)); }
      }
      if r.Took? { wire := wire + offered[..r.n]; }
    }
  }

  /** No call fails, and none takes nothing. */
  predicate Takes(script: seq<Taking>) { forall i | 0 <= i < |script| :: script[i] != Refused && script[i] != Took(0) }

  /** `write_all_vectored`: offer what is left until nothing is. */
  method WriteAllVectored(sink: Sink, first: seq<byte>, second: seq<byte>) returns (r: Result<(), IoError>)
    modifies sink
    ensures r.Ok? ==> sink.wire == old(sink.wire) + (first + second)
    ensures Takes(old(sink.script)) ==> r.Ok? && Takes(sink.script)
    ensures r.Err? ==> exists k :: 0 <= k < |first + second| && sink.wire == old(sink.wire) + (first + second)[..k]
  {
    var left, right := first, second;
    ghost var whole, sent := first + second, 0;
    while left != [] || right != []
      invariant sent <= |whole| && left + right == whole[sent..]
      invariant sink.wire == old(sink.wire) + whole[..sent]
      invariant Takes(old(sink.script)) ==> Takes(sink.script)
      decreases |sink.script|, |left| + |right|
    {
      var call := sink.WriteVectored(left, right);
      match call {
        case Took(n) =>
          if n == 0 {
            assert sink.wire == old(sink.wire) + (first + second)[..sent];
            return Err(WriteZero);
          }
          assert whole[..sent] + whole[sent..][..n] == whole[..sent + n];
          sent := sent + n;
          if n < |left| {
            left := left[n..];
          } else {
            left, right := [], right[n - |left|..];
          }
        case Interrupted =>
        case Refused =>
          assert sink.wire == old(sink.wire) + (first + second)[..sent];
          return Err(Failed);
      }
    }
    assert whole[..sent] == whole;
    return Ok(());
  }

  /** `write_frame`: on success the wire holds exactly one more frame, and on
      failure a proper prefix of one. */
  method WriteFrame(sink: Sink, seqno: nat, tail: seq<byte>) returns (r: Result<(), IoError>)
    requires seqno < U64
    modifies sink
    ensures |Body(seqno, tail)| >= U32 ==> r == Err(InvalidData) && sink.wire == old(sink.wire)
    ensures r.Ok? ==> sink.wire == old(sink.wire) + FrameOf(Body(seqno, tail))
    ensures Takes(old(sink.script)) && |Body(seqno, tail)| < U32 ==> r.Ok? && Takes(sink.script)
    ensures r.Err? ==> exists k ::
              0 <= k < |FrameOf(Body(seqno, tail))| && sink.wire == old(sink.wire) + FrameOf(Body(seqno, tail))[..k]
  {
    LimitIsU64();
    WidthOfU64(seqno, 0);
    var digits := CountVarint(seqno);
    var length := 1 + digits + |tail|;
    if length >= U32 {
      assert sink.wire == sink.wire + FrameOf(Body(seqno, tail))[..0];
      return Err(InvalidData);
    }
    var header := Header(length, seqno);
    assert header + tail == FrameOf(Body(seqno, tail));
    r := WriteAllVectored(sink, header, tail);
  }

  /** The header, built on the stack: the length, the number's tag, the number. */
  method Header(length: nat, seqno: nat) returns (h: seq<byte>)
    requires VarintLen(seqno) <= 10
    ensures h == LittleEndian(length, 4) + ([SEQ_TAG] + Minimal(seqno))
  {
    var header := new byte[15](_ => 0);
    var bytes := LittleEndian(length, 4);
    forall i | 0 <= i < 4 { header[i] := bytes[i]; }
    header[4] := SEQ_TAG;
    assert header[..5] == bytes + [SEQ_TAG];
    var n := WriteVarint(header, 5, seqno);
    h := header[..5 + n];
    assert h == header[..][..5 + n];
  }

  // ---- Reading ---------------------------------------------------------------

  datatype Giving = Gave(n: nat) | Paused | Broke

  /** A stream, as the reads made on it will go. A read gives nothing only at
      the end; after the script it gives all it is asked for. */
  class Source {
    var left: seq<byte>
    var script: seq<Giving>

    constructor (bytes: seq<byte>, script: seq<Giving>)
      ensures left == bytes && this.script == script
    {
      left, this.script := bytes, script;
    }

    method Read(room: nat) returns (r: Giving, data: seq<byte>)
      requires room > 0
      modifies this
      ensures r.Gave? ==> |data| == r.n <= room && old(left) == data + left && (r.n == 0 <==> old(left) == [])
      ensures !r.Gave? ==> left == old(left)
      ensures if old(script) == [] then r.Gave? && script == [] else script == old(script)[1..] && (r.Broke? ==> old(script)[0].Broke?)
    {
      r, data := Gave(room), [];
      if script != [] {
        r := script[0];
        script := script[1..];
      }
      if r.Gave? {
        var n := Min(Min(Max(r.n, 1), room), |left|);
        r, data, left := Gave(n), left[..n], left[n..];
      }
    }
  }

  predicate NeverBreaks(script: seq<Giving>) { forall g | g in script :: !g.Broke? }

  /** `fill`: as many bytes as asked for, or all there are. */
  method Fill(source: Source, room: nat) returns (r: Result<seq<byte>, IoError>)
    modifies source
    ensures NeverBreaks(old(source.script)) ==> r.Ok? && NeverBreaks(source.script)
    ensures r.Ok? ==> |r.value| == Min(room, |old(source.left)|) && old(source.left) == r.value + source.left
    ensures r.Err? ==> r == Err(Failed)
  {
    var data: seq<byte> := [];
    while |data| < room
      invariant |data| <= room && old(source.left) == data + source.left
      invariant NeverBreaks(old(source.script)) ==> NeverBreaks(source.script)
      decreases |source.script|, room - |data|
    {
      var call, chunk := source.Read(room - |data|);
      match call {
        case Gave(n) =>
          if n == 0 { break; }
          data := data + chunk;
        case Paused =>
        case Broke => return Err(Failed);
      }
    }
    return Ok(data);
  }

  /** What a stream holds next. */
  datatype Next = End | Cut | NotAFrame | Whole(bytes: seq<byte>, after: seq<byte>)

  function NextFrame(b: seq<byte>): Next {
    if b == [] then End
    else if |b| < 4 then Cut
    else
      var length := FromLittleEndian(b[..4]);
      if length > FRAME_MAX then NotAFrame
      else if |b| < 4 + length then Cut
      else Whole(b[..4 + length], b[4 + length..])
  }

  /** `read_frame_bytes`: whatever the reads give, what comes back is what the
      stream holds next. */
  method ReadFrameBytes(source: Source) returns (r: Result<Option<seq<byte>>, IoError>)
    modifies source
    ensures NeverBreaks(old(source.script)) ==> r != Err(Failed) && NeverBreaks(source.script)
    ensures r != Err(Failed) ==>
              match NextFrame(old(source.left))
              case End => r == Ok(None)
              case Cut => r == Err(UnexpectedEof)
              case NotAFrame => r == Err(InvalidData)
              case Whole(bytes, after) => r == Ok(Some(bytes)) && source.left == after
  {
    var b := source.left;
    var prefix := Fill(source, 4);
    if prefix.Err? { return Err(Failed); }
    if |prefix.value| == 0 { return Ok(None); }
    if |prefix.value| < 4 { return Err(UnexpectedEof); }
    assert b[..4] == prefix.value;
    var length := FromLittleEndian(prefix.value);
    if length > FRAME_MAX { return Err(InvalidData); }
    var rest := Fill(source, length);
    if rest.Err? { return Err(Failed); }
    if |rest.value| < length { return Err(UnexpectedEof); }
    assert b == (prefix.value + rest.value) + source.left;
    return Ok(Some(prefix.value + rest.value));
  }
}
