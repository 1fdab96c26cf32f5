/** Any sequence of calls on the encoder, and the tree of puts it draws. */
module EncoderCalls {
  import opened Basics
  import opened Wire
  import opened Encoding
  import opened Rendering
  import opened EncodeCode

  datatype Call =
    | CallBegin(topic: seq<byte>, stamp: Option<Stamp>)
    | CallInteger(number: nat, n: int)
    | CallDouble(number: nat, bits: nat)
    | CallString(number: nat, s: seq<byte>)
    | CallBoolean(number: nat, b: bool)
    | CallMessage(number: nat)
    | CallEndMessage
    | CallCommit

  /** What a call answers; `begin` answers only whether it abandoned a record. */
  datatype Outcome = Began(abandoned: bool) | Did(done: Result<(), Error>) | Committed(tail: Result<seq<byte>, Error>)

  predicate CanCall(c: Call) {
    match c
    case CallBegin(topic, stamp) =>
      |UrlOf(topic)| < U64 && (stamp.Some? ==> stamp.value.epoch < U64 && stamp.value.missionTime < U64)
    case CallInteger(_, n) => -0x8000_0000_0000_0000 <= n < 0x8000_0000_0000_0000
    case CallDouble(_, bits) => bits < U64
    case CallString(_, s) => |s| < U64
    case _ => true
  }

  // ---- The tree, from the calls ------------------------------------------------

  /** The record begun and not committed: its own fields, and behind them each
      nested message opened and not ended. */
  datatype Drawing = Drawing(topic: seq<byte>, stamp: Option<Stamp>, levels: seq<Frame>)

  /** What a call that puts a field says, as the decoder of that type reads it. */
  ghost predicate Means(c: Call, p: Put) {
    match c
    case CallInteger(number, n) => p.Varint? && p.number == number && p.value < U64 && SignedOf(p.value) == n
    case CallDouble(number, bits) => p == Fixed(number, bits)
    case CallString(number, s) => p == Text(number, s)
    case CallBoolean(number, b) => p.Varint? && p.number == number && p.value <= 1 && (p.value != 0 <==> b)
    case _ => false
  }

  function PutOf(c: Call): (p: Option<Put>)
    ensures p.Some? ==> Means(c, p.value)
    ensures CanCall(c) && (c.CallInteger? || c.CallDouble? || c.CallString? || c.CallBoolean?) ==> p.Some?
  {
    match c
    case CallInteger(number, n) =>
      if -0x8000_0000_0000_0000 <= n < 0x8000_0000_0000_0000 then Some(Varint(number, Unsigned(n))) else None
    case CallDouble(number, bits) => Some(Fixed(number, bits))
    case CallString(number, s) => Some(Text(number, s))
    case CallBoolean(number, b) => Some(Varint(number, if b then 1 else 0))
    case _ => None
  }

  function DrawOne(d: Option<Drawing>, c: Call): (r: Option<Drawing>)
    requires d.Some? ==> d.value.levels != []
    ensures r.Some? ==> r.value.levels != []
  {
    match c
    case CallBegin(topic, stamp) => Some(Drawing(topic, stamp, [Frame(ANY_VALUE, [])]))
    case CallCommit => None
    case CallMessage(number) =>
      if d.None? then d else Some(d.value.(levels := d.value.levels + [Frame(number, [])]))
    case CallEndMessage =>
      if d.None? || |d.value.levels| == 1 then d else Some(d.value.(levels := Closed(d.value.levels)))
    case _ =>
      if d.None? || PutOf(c).None? then d else Some(d.value.(levels := Extended(d.value.levels, PutOf(c).value)))
  }

  function Drawn(calls: seq<Call>): (r: Option<Drawing>)
    ensures r.Some? ==> r.value.levels != []
  {
    if calls == [] then None else DrawOne(Drawn(calls[..|calls| - 1]), calls[|calls| - 1])
  }

  /** The first failure since the record open was begun. */
  function FailOne(f: Option<Error>, d: Option<Drawing>, c: Call, o: Outcome): Option<Error> {
    if c.CallBegin? || c.CallCommit? then None
    else if f.Some? || d.None? then f
    else if o.Did? && o.done.Err? then Some(o.done.error)
    else None
  }

  function Failed(calls: seq<Call>, outcomes: seq<Outcome>): Option<Error>
    requires |outcomes| == |calls|
  {
    if calls == [] then None else
    var n := |calls| - 1;
    FailOne(Failed(calls[..n], outcomes[..n]), Drawn(calls[..n]), calls[n], outcomes[n])
  }

  // ---- What a commit answers -------------------------------------------------------

  /** With nothing begun it says so; after a failure it repeats the first; with a
      message open it refuses; and what it hands back is the encoding of exactly
      the tree the calls drew, which the reference decoder reads as that. */
  ghost predicate Answers(d: Option<Drawing>, f: Option<Error>, r: Result<seq<byte>, Error>, capacity: nat) {
    && (d.None? ==> r == Err(NotOpen))
    && (d.Some? && f.Some? ==> r == Err(f.value))
    && (d.Some? && |d.value.levels| > 1 ==> r.Err?)
    && (r.Ok? ==>
          && d.Some? && f.None? && |d.value.levels| == 1 && |r.value| <= capacity
          && var tail := Tail(d.value.topic, d.value.stamp, d.value.levels[0].puts);
             && r.value == EncodedAll(tail, VarintLen(capacity))
             && forall schema :: AllConform(schema, tail) ==> Decode(schema, r.value) == Some(tail))
  }

  function Begins(calls: seq<Call>): nat {
    if calls == [] then 0 else Begins(calls[..|calls| - 1]) + if calls[|calls| - 1].CallBegin? then 1 else 0
  }

  function Commits(outcomes: seq<Outcome>): nat {
    if outcomes == [] then 0 else
    Commits(outcomes[..|outcomes| - 1])
    + if outcomes[|outcomes| - 1].Committed? && outcomes[|outcomes| - 1].tail.Ok? then 1 else 0
  }

  // ---- The encoder in step with the drawing --------------------------------------------

  lemma ExtendedOver(outer: seq<Frame>, levels: seq<Frame>, p: Put)
    requires levels != []
    ensures Extended(outer + levels, p) == outer + Extended(levels, p)
  {
    var n := |levels| - 1;
    assert (outer + levels)[..|outer| + n] == outer + levels[..n];
  }

  lemma ClosedOver(outer: seq<Frame>, levels: seq<Frame>)
    requires |levels| > 1
    ensures Closed(outer + levels) == outer + Closed(levels)
  {
    var n := |levels| - 1;
    assert (outer + levels)[..|outer| + n] == outer + levels[..n];
    ExtendedOver(outer, levels[..n], Nested(levels[n].number, levels[n].puts));
  }

  /** While nothing has failed, what is open is what was drawn. */
  ghost predicate Matches(state: State, topic: seq<byte>, stamp: Option<Stamp>, frames: seq<Frame>, depth: nat,
                          d: Option<Drawing>, f: Option<Error>) {
    && (state.Idle? <==> d.None?)
    && (d.Some? ==> d.value.levels != [])
    && (d.Some? && f.Some? ==> state == Poisoned(f.value))
    && (state.Open? ==>
          && topic == d.value.topic && stamp == d.value.stamp && |d.value.levels| == depth + 1
          && frames == Begun(topic, stamp)[..2] + d.value.levels)
  }

  ghost predicate InStep(e: Encoder, d: Option<Drawing>, f: Option<Error>)
    reads e
  {
    e.Valid() && Matches(e.state, e.topic, e.stamp, e.frames, |e.open|, d, f)
  }

  /** What a call other than `begin` and `commit` answers where no record is
      open. */
  ghost predicate Usual(state: State, r: Result<(), Error>, state': State) {
    && (state.Idle? ==> r == Err(NotOpen))
    && (state.Poisoned? ==> r == Err(state.error))
    && state' == After(state, r)
  }

  lemma PutMatches(state: State, topic: seq<byte>, stamp: Option<Stamp>, frames: seq<Frame>, depth: nat,
                   d: Option<Drawing>, f: Option<Error>, c: Call, p: Put, r: Result<(), Error>, state': State, frames': seq<Frame>)
    requires Matches(state, topic, stamp, frames, depth, d, f) && PutOf(c) == Some(p) && Usual(state, r, state')
    requires r.Ok? ==> frames != [] && frames' == Extended(frames, p)
    ensures Matches(state', topic, stamp, frames', depth, DrawOne(d, c), FailOne(f, d, c, Did(r)))
  {
    if state.Open? && r.Ok? {
      var outer := Begun(topic, stamp)[..2];
      ExtendedOver(outer, d.value.levels, p);
      assert |Extended(d.value.levels, p)| == |d.value.levels|;
    }
    hide Begun, Extended;
  }

  lemma MessageMatches(state: State, topic: seq<byte>, stamp: Option<Stamp>, frames: seq<Frame>, depth: nat,
                       d: Option<Drawing>, f: Option<Error>, number: nat, r: Result<(), Error>, state': State,
                       frames': seq<Frame>, depth': nat)
    requires Matches(state, topic, stamp, frames, depth, d, f) && Usual(state, r, state')
    requires r.Ok? ==> frames' == frames + [Frame(number, [])] && depth' == depth + 1
    ensures var c := CallMessage(number); Matches(state', topic, stamp, frames', depth', DrawOne(d, c), FailOne(f, d, c, Did(r)))
  {
    if state.Open? {
      var outer := Begun(topic, stamp)[..2];
      assert outer + (d.value.levels + [Frame(number, [])]) == (outer + d.value.levels) + [Frame(number, [])];
    }
    hide Begun;
  }

  lemma EndMatches(state: State, topic: seq<byte>, stamp: Option<Stamp>, frames: seq<Frame>, depth: nat,
                   d: Option<Drawing>, f: Option<Error>, r: Result<(), Error>, state': State, frames': seq<Frame>, depth': int)
    requires Matches(state, topic, stamp, frames, depth, d, f) && Usual(state, r, state')
    requires r.Ok? ==> |frames| > 1 && frames' == Closed(frames) && depth' == depth - 1
    requires depth' >= 0
    ensures var c := CallEndMessage; Matches(state', topic, stamp, frames', depth', DrawOne(d, c), FailOne(f, d, c, Did(r)))
  {
    if state.Open? && r.Ok? {
      ClosedOver(Begun(topic, stamp)[..2], d.value.levels);
      assert |Closed(d.value.levels)| == |d.value.levels| - 1;
    }
    hide Begun, Closed;
  }

  lemma BegunOver(topic: seq<byte>, stamp: Option<Stamp>)
    ensures Begun(topic, stamp) == Begun(topic, stamp)[..2] + [Frame(ANY_VALUE, [])]
  {
  }

  /** A put, whichever it is. */
  method PutAny(e: Encoder, c: Call) returns (r: Result<(), Error>)
    requires CanCall(c) && PutOf(c).Some? && e.Valid()
    modifies e`buf, e`state, e`frames
    ensures e.Valid() && Usual(old(e.state), r, e.state)
    ensures r.Ok? ==> old(e.frames) != [] && e.frames == Extended(old(e.frames), PutOf(c).value)
  {
    OpenHasFrames(e);
    hide Encoder.Valid, Extended, VarintLen;
    match c {
      case CallInteger(number, n) => r := e.Integer(number, n);
      case CallDouble(number, bits) => r := e.Double(number, bits);
      case CallString(number, s) => r := e.String(number, s);
      case CallBoolean(number, b) => r := e.Boolean(number, b);
      case _ => assert false;
    }
  }

  lemma OpenHasFrames(e: Encoder)
    requires e.Valid()
    ensures e.state.Open? ==> e.frames != []
  {
  }

  method DoPut(e: Encoder, c: Call, ghost d: Option<Drawing>, ghost f: Option<Error>) returns (r: Result<(), Error>)
    requires CanCall(c) && PutOf(c).Some? && InStep(e, d, f)
    modifies e`buf, e`state, e`frames
    ensures InStep(e, DrawOne(d, c), FailOne(f, d, c, Did(r)))
  {
    hide Encoder.Valid, Matches, Extended, DrawOne, FailOne, Usual;
    ghost var state, frames := e.state, e.frames;
    r := PutAny(e, c);
    PutMatches(state, e.topic, e.stamp, frames, |e.open|, d, f, c, PutOf(c).value, r, e.state, e.frames);
  }

  method DoMessage(e: Encoder, number: nat, ghost d: Option<Drawing>, ghost f: Option<Error>) returns (r: Result<(), Error>)
    requires InStep(e, d, f)
    modifies e`buf, e`state, e`frames, e`open
    ensures InStep(e, DrawOne(d, CallMessage(number)), FailOne(f, d, CallMessage(number), Did(r)))
  {
    hide Encoder.Valid, Matches, DrawOne, FailOne;
    ghost var state, frames, depth := e.state, e.frames, |e.open|;
    r := e.Message(number);
    MessageMatches(state, e.topic, e.stamp, frames, depth, d, f, number, r, e.state, e.frames, |e.open|);
  }

  method DoEnd(e: Encoder, ghost d: Option<Drawing>, ghost f: Option<Error>) returns (r: Result<(), Error>)
    requires InStep(e, d, f)
    modifies e`buf, e`state, e`frames, e`open
    ensures InStep(e, DrawOne(d, CallEndMessage), FailOne(f, d, CallEndMessage, Did(r)))
  {
    hide Encoder.Valid, Matches, Closed, DrawOne, FailOne;
    ghost var state, frames, depth := e.state, e.frames, |e.open|;
    r := e.EndMessage();
    EndMatches(state, e.topic, e.stamp, frames, depth, d, f, r, e.state, e.frames, |e.open|);
  }

  method DoBegin(e: Encoder, topic: seq<byte>, stamp: Option<Stamp>, ghost d: Option<Drawing>, ghost f: Option<Error>)
      returns (abandoned: bool)
    requires CanCall(CallBegin(topic, stamp)) && InStep(e, d, f)
    modifies e
    ensures InStep(e, DrawOne(d, CallBegin(topic, stamp)), None)
    ensures e.begun == old(e.begun) + 1 && e.committed == old(e.committed)
  {
    BegunOver(topic, stamp);
    hide Encoder.Valid, Begun;
    abandoned := e.Begin(topic, stamp);
  }

  method DoCommit(e: Encoder, ghost d: Option<Drawing>, ghost f: Option<Error>) returns (r: Result<seq<byte>, Error>)
    requires InStep(e, d, f)
    modifies e
    ensures InStep(e, None, None) && Answers(d, f, r, e.capacity)
    ensures e.begun == old(e.begun) && e.committed == old(e.committed) + if r.Ok? then 1 else 0
  {
    WidthIs(e);
    hide Encoder.Valid, Encoder.InStep, Decode, AllConform, EncodedAll, Tail;
    r := e.Commit();
  }

  lemma WidthIs(e: Encoder)
    requires e.Valid()
    ensures e.lenWidth == VarintLen(e.capacity)
  {
  }

  method Do(e: Encoder, c: Call, ghost d: Option<Drawing>, ghost f: Option<Error>) returns (o: Outcome)
    requires CanCall(c) && InStep(e, d, f) && (d.Some? ==> d.value.levels != [])
    modifies e
    ensures InStep(e, DrawOne(d, c), FailOne(f, d, c, o))
    ensures c.CallCommit? ==> o.Committed? && Answers(d, f, o.tail, e.capacity)
    ensures e.begun == old(e.begun) + if c.CallBegin? then 1 else 0
    ensures e.committed == old(e.committed) + if o.Committed? && o.tail.Ok? then 1 else 0
  {
    hide InStep, Answers;
    match c {
      case CallBegin(topic, stamp) =>
        var abandoned := DoBegin(e, topic, stamp, d, f);
        o := Began(abandoned);
      case CallMessage(number) =>
        var r := DoMessage(e, number, d, f);
        o := Did(r);
      case CallEndMessage =>
        var r := DoEnd(e, d, f);
        o := Did(r);
      case CallCommit =>
        var r := DoCommit(e, d, f);
        o := Committed(r);
      case _ =>
        var r := DoPut(e, c, d, f);
        o := Did(r);
    }
  }

  lemma OneMoreCall(calls: seq<Call>, outcomes: seq<Outcome>, c: Call, o: Outcome)
    requires |outcomes| == |calls|
    ensures Drawn(calls + [c]) == DrawOne(Drawn(calls), c)
    ensures Failed(calls + [c], outcomes + [o]) == FailOne(Failed(calls, outcomes), Drawn(calls), c, o)
    ensures Begins(calls + [c]) == Begins(calls) + if c.CallBegin? then 1 else 0
    ensures Commits(outcomes + [o]) == Commits(outcomes) + if o.Committed? && o.tail.Ok? then 1 else 0
  {
    assert (calls + [c])[..|calls|] == calls && (outcomes + [o])[..|calls|] == outcomes;
  }

  /** Each commit among the first `n` calls answers as it should for the calls
      before it. */
  ghost predicate AllAnswer(calls: seq<Call>, outcomes: seq<Outcome>, n: nat, capacity: nat)
    requires n <= |calls| && n <= |outcomes|
  {
    forall i | 0 <= i < n && calls[i].CallCommit? ::
      outcomes[i].Committed? && Answers(Drawn(calls[..i]), Failed(calls[..i], outcomes[..i]), outcomes[i].tail, capacity)
  }

  lemma OneMoreAnswers(calls: seq<Call>, outcomes: seq<Outcome>, o: Outcome, i: nat, capacity: nat)
    requires |outcomes| == i < |calls| && AllAnswer(calls, outcomes, i, capacity)
    requires calls[i].CallCommit? ==>
               o.Committed? && Answers(Drawn(calls[..i]), Failed(calls[..i], outcomes), o.tail, capacity)
    ensures AllAnswer(calls, outcomes + [o], i + 1, capacity)
  {
    hide Answers, Drawn, Failed;
    assert (outcomes + [o])[..i] == outcomes;
    forall k | 0 <= k < i ensures (outcomes + [o])[..k] == outcomes[..k] {}
  }

  /** Over any sequence of calls on a new encoder: each commit answers as above
      for the calls before it, and the records begun are those committed, those
      discarded and the one that is open. */
  method Run(bytes: nat, calls: seq<Call>) returns (e: Encoder, outcomes: seq<Outcome>)
    requires bytes < U64 && forall i | 0 <= i < |calls| :: CanCall(calls[i])
    ensures fresh(e) && e.Valid() && e.capacity == bytes && |outcomes| == |calls|
    ensures AllAnswer(calls, outcomes, |calls|, bytes)
    ensures Begins(calls) == Commits(outcomes) + e.discarded + if e.state.Idle? then 0 else 1
  {
    e := new Encoder(bytes);
    outcomes := [];
    assert AllAnswer(calls, outcomes, 0, bytes) && Failed([], []) == None;
    hide Matches, Answers, DrawOne, FailOne, Drawn, Failed, Begins, Commits, AllAnswer, Encoder.InStep;
    for i := 0 to |calls|
      invariant fresh(e) && e.capacity == bytes && |outcomes| == i
      invariant InStep(e, Drawn(calls[..i]), Failed(calls[..i], outcomes))
      invariant e.begun == Begins(calls[..i]) && e.committed == Commits(outcomes)
      invariant AllAnswer(calls, outcomes, i, bytes)
    {
      var o := Do(e, calls[i], Drawn(calls[..i]), Failed(calls[..i], outcomes));
      assert calls[..i + 1] == calls[..i] + [calls[i]];
      OneMoreCall(calls[..i], outcomes, calls[i], o);
      OneMoreAnswers(calls, outcomes, o, i, bytes);
      outcomes := outcomes + [o];
    }
    assert calls[..|calls|] == calls;
  }

  // ---- What a record of plain fields says ----------------------------------------------

  predicate PutsField(c: Call) { c.CallInteger? || c.CallDouble? || c.CallString? || c.CallBoolean? }

  lemma {:induction false} FieldsDrawn(topic: seq<byte>, stamp: Option<Stamp>, cs: seq<Call>) returns (puts: seq<Put>)
    requires forall i | 0 <= i < |cs| :: CanCall(cs[i]) && PutsField(cs[i])
    ensures Drawn([CallBegin(topic, stamp)] + cs) == Some(Drawing(topic, stamp, [Frame(ANY_VALUE, puts)]))
    ensures |puts| == |cs| && forall i | 0 <= i < |cs| :: Means(cs[i], puts[i])
    decreases |cs|
  {
    var begin := [CallBegin(topic, stamp)];
    if cs == [] {
      puts := [];
      assert begin + cs == begin && begin[..0] == [];
    } else {
      hide Means, DrawOne, PutOf, CanCall, PutsField;
      var last := |cs| - 1;
      puts := FieldsDrawn(topic, stamp, cs[..last]);
      assert (begin + cs)[..last + 1] == begin + cs[..last] && (begin + cs)[last + 1] == cs[last];
      var p := FieldDrawn(topic, stamp, puts, cs[last]);
      puts := puts + [p];
    }
  }

  lemma FieldDrawn(topic: seq<byte>, stamp: Option<Stamp>, puts: seq<Put>, c: Call) returns (p: Put)
    requires CanCall(c) && PutsField(c)
    ensures Means(c, p)
    ensures DrawOne(Some(Drawing(topic, stamp, [Frame(ANY_VALUE, puts)])), c)
         == Some(Drawing(topic, stamp, [Frame(ANY_VALUE, puts + [p])]))
  {
    p := PutOf(c).value;
    ExtendLast([], ANY_VALUE, puts, p);
    hide Extended;
    assert forall x: Frame :: [] + [x] == [x];
  }

  /** Whatever fields were put since the record was begun, what a commit hands
      back decodes to them, in order, each reading as what was put. */
  lemma FieldsReadBack(topic: seq<byte>, stamp: Option<Stamp>, cs: seq<Call>, f: Option<Error>, r: Result<seq<byte>, Error>,
                       capacity: nat) returns (puts: seq<Put>)
    requires forall i | 0 <= i < |cs| :: CanCall(cs[i]) && PutsField(cs[i])
    requires Answers(Drawn([CallBegin(topic, stamp)] + cs), f, r, capacity)
    ensures |puts| == |cs| && forall i | 0 <= i < |cs| :: Means(cs[i], puts[i])
    ensures r.Ok? ==> forall schema | AllConform(schema, Tail(topic, stamp, puts)) :: Decode(schema, r.value) == Some(Tail(topic, stamp, puts))
  {
    hide Means, Drawn, Tail, AllConform, Decode;
    puts := FieldsDrawn(topic, stamp, cs);
  }
}
