/** `dcsb tail`: read frames until the stream ends, and say of each number
    whether it skips past the one before. */
module TailCode {
  import opened Basics
  import opened Wire
  import opened Encoding
  import opened Rendering
  import opened Framing
  import Merge
  import MergeResults

  /** What a run saw; `disorder` counts its out-of-order lines. */
  datatype Summary = Summary(frames: nat, gaps: nat, dropped: nat, disorder: nat)

  /** The envelope's number as a decoder takes it: the last one given, or zero. */
  function LastNumber(fields: seq<Field>): nat {
    if fields == [] then 0
    else
      var f := fields[|fields| - 1];
      if f.number == 1 && f.wire == VARINT && ReadVarint(f.data).Some? then ReadVarint(f.data).value.0
      else LastNumber(fields[..|fields| - 1])
  }

  function NumberOf(body: seq<byte>): Option<nat> {
    if Parse(body).None? then None else Some(LastNumber(Parse(body).value))
  }

  /** One frame's effect on the count. */
  function Saw(s: Summary, last: nat, seqno: nat): Summary {
    var told :=
      if seqno > last + 1 then s.(gaps := s.gaps + 1, dropped := s.dropped + (seqno - last - 1))
      else if seqno <= last then s.(disorder := s.disorder + 1)
      else s;
    told.(frames := told.frames + 1)
  }

  function LastOf(seqs: seq<nat>): nat { if seqs == [] then 0 else seqs[|seqs| - 1] }

  function Summarised(seqs: seq<nat>): Summary {
    if seqs == [] then Summary(0, 0, 0, 0)
    else Saw(Summarised(seqs[..|seqs| - 1]), LastOf(seqs[..|seqs| - 1]), seqs[|seqs| - 1])
  }

  /** The loop. Over a stream of frames as the writer thread numbers them, and
      whatever the reads give, the summary is that of their numbers; and a stream
      cut inside a frame is never summed up, but told as cut. */
  method Run(source: Source, ghost records: seq<(nat, seq<byte>)>, ghost cut: seq<byte>) returns (r: Result<Summary, IoError>)
    requires source.left == Stream(records) + cut && (cut == [] || NextFrame(cut) == Cut)
    requires forall x | x in records :: Sendable(x)
    modifies source
    ensures r.Ok? ==> cut == [] && r.value == Summarised(Numbers(records))
    ensures NeverBreaks(old(source.script)) ==> if cut == [] then r.Ok? else r == Err(UnexpectedEof)
  {
    var s, last := Summary(0, 0, 0, 0), 0;
    ghost var k := 0;
    while true
      invariant k <= |records| && source.left == Stream(records[k..]) + cut
      invariant NeverBreaks(old(source.script)) ==> NeverBreaks(source.script)
      invariant s == Summarised(Numbers(records[..k])) && last == LastOf(Numbers(records[..k]))
      decreases |records| - k
    {
      StreamNext(records[k..], cut);
      var frame := ReadFrameBytes(source);
      if frame.Err? { return Err(frame.error); }
      if frame.value.None? {
        assert records[..k] == records;
        return Ok(s);
      }
      ghost var x := records[k];
      assert records[k..][0] == x && records[k..][1..] == records[k + 1..];
      NumberBack(x);
      assert frame.value.value[4..] == Body(x.0, x.1);
      var number := NumberOf(frame.value.value[4..]);
      if number.None? { return Err(InvalidData); }
      OneMoreNumber(records, k);
      s := Saw(s, last, number.value);
      last, k := number.value, k + 1;
    }
  }

  // ---- What the writer puts on the wire --------------------------------------

  function Numbers(records: seq<(nat, seq<byte>)>): seq<nat> { seq(|records|, i requires 0 <= i < |records| => records[i].0) }

  function Stream(records: seq<(nat, seq<byte>)>): seq<byte> {
    if records == [] then [] else FrameOf(Body(records[0].0, records[0].1)) + Stream(records[1..])
  }

  /** A tail that is an envelope's fields but its number. */
  predicate TailOk(tail: seq<byte>) {
    Parse(tail).Some? && forall f | f in Parse(tail).value :: f.number != 1
  }

  /** A number and a tail whose frame is within the reader's cap. */
  predicate Sendable(x: (nat, seq<byte>)) {
    x.0 < U64 && TailOk(x.1) && |Body(x.0, x.1)| <= FRAME_MAX
  }

  /** Whatever the encoder commits is such a tail. */
  lemma EncodedTailOk(topic: seq<byte>, stamp: Option<Stamp>, puts: seq<Put>, width: nat)
    requires 0 < width <= 10 && AllSound(Tail(topic, stamp, puts), width)
    ensures TailOk(EncodedAll(Tail(topic, stamp, puts), width))
  {
    var fields := ParseAll(Tail(topic, stamp, puts), width);
  }

  lemma {:induction false} NoNumber(fields: seq<Field>, first: Field)
    requires forall f | f in fields :: f.number != 1
    requires first.number == 1 && first.wire == VARINT && ReadVarint(first.data).Some?
    ensures LastNumber([first] + fields) == ReadVarint(first.data).value.0
  {
    var all := [first] + fields;
    if fields != [] {
      NoNumber(fields[..|fields| - 1], first);
      assert all[..|all| - 1] == [first] + fields[..|fields| - 1];
    }
  }

  lemma NumberBack(x: (nat, seq<byte>))
    requires Sendable(x)
    ensures NumberOf(Body(x.0, x.1)) == Some(x.0)
  {
    var p := Varint(1, x.0);
    assert Key(1, VARINT) == [SEQ_TAG];
    assert Encoded(p, 1) + x.1 == Body(x.0, x.1);
    ParseOne(p, 1, x.1);
    assert Minimal(x.0) + [] == Minimal(x.0);
    ReadMinimal(x.0, []);
    NoNumber(Parse(x.1).value, Field(1, VARINT, Minimal(x.0)));
  }

  /** A frame written is the frame read. */
  lemma FrameBack(body: seq<byte>, rest: seq<byte>)
    requires |body| <= FRAME_MAX
    ensures NextFrame(FrameOf(body) + rest) == Whole(FrameOf(body), rest)
    ensures FrameOf(body)[4..] == body
  {
    var b, n := FrameOf(body) + rest, LittleEndian(|body|, 4);
    assert Power256(4) == U32;
    EndianBack(|body|, 4);
    assert b[..4] == n;
    assert b[..4 + |body|] == FrameOf(body) && b[4 + |body|..] == rest;
  }

  /** Short of its last byte a frame is not one. */
  lemma FrameCut(body: seq<byte>, k: nat)
    requires |body| <= FRAME_MAX && 0 < k < |FrameOf(body)|
    ensures NextFrame(FrameOf(body)[..k]) == Cut
  {
    var b := FrameOf(body)[..k];
    assert Power256(4) == U32;
    EndianBack(|body|, 4);
    if k >= 4 { assert b[..4] == LittleEndian(|body|, 4); }
  }

  /** Nor is one longer than the reader takes. */
  lemma FrameTooLong(body: seq<byte>, rest: seq<byte>)
    requires FRAME_MAX < |body| < U32
    ensures NextFrame(FrameOf(body) + rest) == NotAFrame
  {
    assert Power256(4) == U32;
    EndianBack(|body|, 4);
    assert (FrameOf(body) + rest)[..4] == LittleEndian(|body|, 4);
  }

  lemma StreamNext(records: seq<(nat, seq<byte>)>, cut: seq<byte>)
    requires forall x | x in records :: Sendable(x)
    ensures records == [] ==> Stream(records) + cut == cut
    ensures records != [] ==>
              var frame := FrameOf(Body(records[0].0, records[0].1));
              && NextFrame(Stream(records) + cut) == Whole(frame, Stream(records[1..]) + cut)
              && frame[4..] == Body(records[0].0, records[0].1)
  {
    if records != [] {
      assert Sendable(records[0]);
      var frame, rest := FrameOf(Body(records[0].0, records[0].1)), Stream(records[1..]);
      FrameBack(Body(records[0].0, records[0].1), rest + cut);
      hide FrameOf, Body, NextFrame;
      Associate(frame, rest, cut);
    }
  }

  lemma OneMoreNumber(records: seq<(nat, seq<byte>)>, k: nat)
    requires k < |records|
    ensures Numbers(records[..k + 1]) == Numbers(records[..k]) + [records[k].0]
    ensures Summarised(Numbers(records[..k + 1]))
            == Saw(Summarised(Numbers(records[..k])), LastOf(Numbers(records[..k])), records[k].0)
  {
    var seqs := Numbers(records[..k]);
    assert Numbers(records[..k + 1]) == seqs + [records[k].0];
    assert (seqs + [records[k].0])[..k] == seqs;
  }

  // ---- What the count means --------------------------------------------------

  ghost predicate Rising(seqs: seq<nat>) {
    && (forall i | 0 <= i < |seqs| :: seqs[i] >= 1)
    && (forall i, j | 0 <= i < j < |seqs| :: seqs[i] < seqs[j])
  }

  /** The numbers seen whose predecessor was not. */
  function Leaps(seqs: seq<nat>): set<nat> { set n | n in seqs && Leap(seqs, n) }

  predicate Leap(seqs: seq<nat>, n: nat) { n > 1 && n - 1 !in seqs }

  /** Of numbers that rise, none is out of order, every one is a frame, what is
      dropped is what is missing below the last, and the gaps are the runs of
      those. */
  lemma {:induction false} CountsMissing(seqs: seq<nat>)
    requires Rising(seqs)
    ensures var s := Summarised(seqs);
            && s.frames == |seqs| && s.disorder == 0 && s.dropped == LastOf(seqs) - |seqs|
            && s.gaps == |Leaps(seqs)| && (s.gaps == 0 <==> s.dropped == 0)
  {
    if seqs == [] {
      assert Leaps(seqs) == {};
    } else {
      hide Leaps;
      CountsMissing(seqs[..|seqs| - 1]);
      LeapsLast(seqs[..|seqs| - 1], seqs[|seqs| - 1], seqs);
    }
  }

  /** A number that does not rise is told as out of order, and only then. */
  lemma {:induction false} DisorderIsTold(seqs: seq<nat>)
    ensures Summarised(seqs).disorder == 0 <==> Rising(seqs)
  {
    if seqs != [] {
      var front, last := seqs[..|seqs| - 1], seqs[|seqs| - 1];
      DisorderIsTold(front);
      RisingLast(front, last, seqs);
    }
  }

  lemma RisingLast(front: seq<nat>, last: nat, seqs: seq<nat>)
    requires seqs == front + [last]
    ensures Rising(seqs) <==> Rising(front) && last > LastOf(front)
  {
    assert forall i | 0 <= i < |front| :: seqs[i] == front[i];
    assert seqs[|front|] == last;
    if Rising(front) && last > LastOf(front) {
      forall i | 0 <= i < |front| ensures seqs[i] < last { assert front[i] <= LastOf(front); }
    }
  }

  lemma LeapsLast(front: seq<nat>, last: nat, seqs: seq<nat>)
    requires seqs == front + [last] && Rising(seqs)
    ensures |Leaps(seqs)| == |Leaps(front)| + if last > LastOf(front) + 1 then 1 else 0
  {
    forall n | n in front ensures n < last && n <= LastOf(front) {
      var i :| 0 <= i < |front| && front[i] == n;
      assert seqs[i] == n && seqs[|front|] == last && seqs[|front| - 1] == LastOf(front);
    }
    assert front != [] ==> LastOf(front) in front;
    forall n ensures n in Leaps(seqs) <==> n in Leaps(front) || (n == last && last > LastOf(front) + 1) {
      assert n in seqs <==> n in front || n == last;
      assert n > 1 ==> (n - 1 in seqs <==> n - 1 in front || n - 1 == last);
    }
    assert last !in Leaps(front);
    hide Leap, Leaps;
    assert Leaps(seqs) == if last > LastOf(front) + 1 then Leaps(front) + {last} else Leaps(front);
  }

  // ---- From the rings to the closing line ------------------------------------

  lemma {:induction false} StreamGrows(records: seq<(nat, seq<byte>)>, x: (nat, seq<byte>))
    ensures Stream(records + [x]) == Stream(records) + FrameOf(Body(x.0, x.1))
  {
    if records == [] {
      assert records + [x] == [x] && [x][1..] == [];
    } else {
      StreamGrows(records[1..], x);
      assert (records + [x])[1..] == records[1..] + [x];
    }
  }

  /** The wire has gained the first `i` records' frames, and `k` bytes of the
      next. */
  ghost predicate Torn(records: seq<(nat, seq<byte>)>, i: nat, k: nat, was: seq<byte>, wire: seq<byte>) {
    i < |records| &&
    var frame := FrameOf(Body(records[i].0, records[i].1));
    k < |frame| && wire == (was + Stream(records[..i])) + frame[..k]
  }

  /** The connection's thread: one frame a record, as they are handed on. */
  method SendAll(sink: Sink, records: seq<(nat, seq<byte>)>) returns (r: Result<(), IoError>)
    requires forall x | x in records :: Sendable(x)
    modifies sink
    ensures r.Ok? ==> sink.wire == old(sink.wire) + Stream(records)
    ensures r.Err? ==> exists i, k :: Torn(records, i, k, old(sink.wire), sink.wire)
    ensures Takes(old(sink.script)) ==> r.Ok?
  {
    hide FrameOf, Body;
    for i := 0 to |records|
      invariant sink.wire == old(sink.wire) + Stream(records[..i])
      invariant Takes(old(sink.script)) ==> Takes(sink.script)
    {
      var x := records[i];
      assert Sendable(x);
      var sent := WriteFrame(sink, x.0, x.1);
      if sent.Err? {
        ghost var k: nat :| k < |FrameOf(Body(x.0, x.1))|
                      && sink.wire == (old(sink.wire) + Stream(records[..i])) + FrameOf(Body(x.0, x.1))[..k];
        assert Torn(records, i, k, old(sink.wire), sink.wire);
        return Err(sent.error);
      }
      StreamGrows(records[..i], x);
      assert records[..i + 1] == records[..i] + [x];
    }
    assert records[..|records|] == records;
    return Ok(());
  }

  /** The records a drain has handed on, each with its number. */
  function HandedOn(p: Merge.Path<seq<byte>>): (records: seq<(nat, seq<byte>)>)
    requires Merge.Inv(p)
    ensures Numbers(records) == p.handed
  {
    seq(|p.handed|, i requires 0 <= i < |p.handed| => (p.handed[i], p.log[p.handed[i] - 1].record))
  }

  /** Of a drained connection's numbers: each handed on is a frame, none is out
      of order, and what is counted dropped is what its rings dropped exactly
      when the last push of all was not itself turned away. */
  lemma GapReportIsExact<T>(p: Merge.Path<T>)
    requires Merge.Inv(p) && MergeResults.Drained(p)
    ensures var s := Summarised(p.handed);
            && s.frames == |p.handed| && s.disorder == 0 && s.dropped <= Merge.Drops(p)
            && (s.dropped == Merge.Drops(p) <==> |p.log| == 0 || !p.fate[|p.log| - 1].Lost?)
            && (p.refusals == 0 && !p.closed ==> s.dropped == Merge.Drops(p))
  {
    CountsMissing(p.handed);
    MergeResults.LastReaches(p);
    MergeResults.LastIsLogged(p);
  }

  /** End to end: a drained connection's records, written under any short
      writes and read under any short reads. What the reader is told at the
      end of the stream is what the rings dropped, when no push was refused;
      and in any case exactly when the last push of all was not turned away.
      Of a connection torn off meanwhile it is told as much as came whole, or
      that a frame did not. */
  method Tailed(p: Merge.Path<seq<byte>>, takes: seq<Taking>, gives: seq<Giving>) returns (sent: bool, r: Result<Summary, IoError>)
    requires Merge.Inv(p) && MergeResults.Drained(p) && forall x | x in HandedOn(p) :: Sendable(x)
    ensures sent && r.Ok? ==>
              && r.value.frames == |p.handed| && r.value.disorder == 0 && r.value.dropped <= Merge.Drops(p)
              && (p.refusals == 0 && !p.closed ==> r.value.dropped == Merge.Drops(p))
              && (r.value.dropped == Merge.Drops(p) <==> |p.log| == 0 || !p.fate[|p.log| - 1].Lost?)
    ensures !sent && r.Ok? ==> exists i :: 0 <= i < |p.handed| && r.value == Summarised(p.handed[..i])
    ensures Takes(takes) ==> sent
    ensures NeverBreaks(gives) ==> (sent ==> r.Ok?) && (r.Err? ==> r == Err(UnexpectedEof))
  {
    GapReportIsExact(p);
    hide Merge.Inv, MergeResults.Drained, Stream, Summarised, Numbers, Sendable, Torn, FrameOf, Body;
    var records := HandedOn(p);
    var sink := new Sink(takes);
    var answer := SendAll(sink, records);
    sent := answer.Ok?;
    var source := new Source(sink.wire, gives);
    ghost var whole, cut := records, [];
    if sent {
      assert [] + Stream(records) == Stream(records) + [];
    } else {
      ghost var i: nat, k: nat :| Torn(records, i, k, [], sink.wire);
      cut := TornIs(records, i, k, sink.wire);
      whole := records[..i];
      NumbersFirst(records, i);
    }
    r := Run(source, whole, cut);
  }

  lemma TornIs(records: seq<(nat, seq<byte>)>, i: nat, k: nat, wire: seq<byte>) returns (cut: seq<byte>)
    requires Torn(records, i, k, [], wire) && forall x | x in records :: Sendable(x)
    ensures i < |records| && wire == Stream(records[..i]) + cut && (cut == [] || NextFrame(cut) == Cut)
  {
    var body := Body(records[i].0, records[i].1);
    assert Sendable(records[i]);
    cut := FrameOf(body)[..k];
    if k > 0 { FrameCut(body, k); }
    assert [] + Stream(records[..i]) == Stream(records[..i]);
  }

  lemma NumbersFirst(records: seq<(nat, seq<byte>)>, i: nat)
    requires i <= |records|
    ensures Numbers(records[..i]) == Numbers(records)[..i]
  {
  }
}
