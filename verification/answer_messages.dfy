/** The broker's answers, as the consumer they are for reads them. */
module AnswerMessages {
  import opened Basics
  import opened Wire
  import opened Encoding
  import opened Rendering
  import opened Framing
  import opened Answers
  import opened Messages

  /** Every field of a number, in order. */
  function Repeated(puts: seq<Put>, number: nat): seq<Put> {
    if puts == [] then [] else
    Repeated(puts[..|puts| - 1], number) + if puts[|puts| - 1].number == number then [puts[|puts| - 1]] else []
  }

  lemma RepeatedLast(puts: seq<Put>, p: Put, number: nat)
    ensures Repeated(puts + [p], number) == Repeated(puts, number) + if p.number == number then [p] else []
  {
    assert (puts + [p])[..|puts|] == puts;
  }

  lemma {:induction false} RepeatedIs(puts: seq<Put>, more: seq<Put>, number: nat)
    requires forall i | 0 <= i < |puts| :: puts[i].number != number
    requires forall i | 0 <= i < |more| :: more[i].number == number
    ensures Repeated(puts + more, number) == more
    decreases |more|, |puts|
  {
    if more != [] {
      var front, last := more[..|more| - 1], more[|more| - 1];
      assert puts + more == (puts + front) + [last] && more == front + [last];
      RepeatedIs(puts, front, number);
      RepeatedLast(puts + front, last, number);
    } else if puts != [] {
      var front, last := puts[..|puts| - 1], puts[|puts| - 1];
      assert puts + more == front + [last] && front + [] == front;
      RepeatedIs(front, [], number);
      RepeatedLast(front, last, number);
    }
  }

  /** On the wire, numbered as any frame is, an answer comes back as its own
      topic and its own fields. */
  lemma AnswerBack(tail: seq<byte>, name: string, puts: seq<Put>, capacity: nat, record: Schema, seqno: nat)
    requires IsAnswer(tail, name, puts, capacity) && capacity < U64 && seqno < U64 && AllConform(record, puts)
    ensures var e := ReadBody(record, Body(seqno, tail));
            && e.Some? && e.value.seqno == seqno && TopicOf(e.value) == Ascii(name) && e.value.value == puts
            && e.value.epoch == None && e.value.missionTime == None
  {
    LimitIsU64();
    WidthOfU64(capacity, 0);
    EnvelopeBack(record, seqno, Ascii(name), None, puts, VarintLen(capacity));
  }

  // ---- What each says ------------------------------------------------------------

  function ReadPong(puts: seq<Put>): Liveness { Liveness(Uint(puts, 2), Bool(puts, 1), Bool(puts, 3)) }

  lemma PongReads(l: Liveness)
    ensures ReadPong(PongPuts(l)) == l
  {
    var puts := PongPuts(l);
    FindAt(puts, 0);
    FindAt(puts, |puts| - 1);
    if l.lastHeardMs.Some? { FindAt(puts, 1); } else { FindNone(puts, 2); }
    hide Find;
  }

  /** A refusal's number, topic and reason. */
  function ReadRejected(puts: seq<Put>): (nat, seq<byte>, nat) { (Or(Uint(puts, 1), 0), Or(Bytes(puts, 2), []), Or(Uint(puts, 3), 0)) }

  lemma RejectedReads(seqno: nat, topic: seq<byte>, reason: nat)
    ensures ReadRejected([Varint(1, seqno), Text(2, topic), Varint(3, reason)]) == (seqno, topic, reason)
  {
    var puts := [Varint(1, seqno), Text(2, topic), Varint(3, reason)];
    FindAt(puts, 0);
    FindAt(puts, 1);
    FindAt(puts, 2);
    hide Find;
  }

  function DataOf(p: Put): seq<byte> { if p.Text? then p.data else [] }

  /** How many topics are admitted and which are unknown, or why not. */
  function ReadFilterResult(puts: seq<Put>): Result<(nat, seq<seq<byte>>), nat> {
    var unknown := Repeated(puts, 4);
    if !Bool(puts, 1) then Err(Or(Uint(puts, 2), 0))
    else Ok((Or(Uint(puts, 3), 0), seq(|unknown|, i requires 0 <= i < |unknown| => DataOf(unknown[i]))))
  }

  lemma FilterResultReads(result: Result<(nat, seq<seq<byte>>), nat>)
    ensures result.Ok? ==>
              ReadFilterResult([Varint(1, 1), Varint(3, result.value.0)] + NamePuts(result.value.1)) == result
    ensures result.Err? ==> ReadFilterResult([Varint(1, 0), Varint(2, result.error)]) == result
  {
    match result
    case Ok((admitted, names)) =>
      var front, more := [Varint(1, 1), Varint(3, admitted)], NamePuts(names);
      FindAt(front + more, 0);
      FindAt(front + more, 1);
      RepeatedIs(front, more, 4);
      assert seq(|more|, i requires 0 <= i < |more| => DataOf(more[i])) == names;
      hide Find;
    case Err(refusal) =>
      var puts := [Varint(1, 0), Varint(2, refusal)];
      FindAt(puts, 0);
      FindAt(puts, 1);
      hide Find;
  }

  function ReadEntry(puts: seq<Put>): TopicEntry { TopicEntry(Or(Bytes(puts, 1), []), Or(Uint(puts, 2), 0), Uint(puts, 3)) }

  lemma EntryReads(t: TopicEntry)
    ensures ReadEntry(EntryPuts(t)) == t
  {
    var puts := EntryPuts(t);
    FindAt(puts, 0);
    FindAt(puts, 1);
    if t.target.Some? { FindAt(puts, 2); } else { FindNone(puts, 3); }
    hide Find;
  }

  function InnerOf(p: Put): seq<Put> { if p.Nested? then p.puts else [] }

  /** The topics listed, or why none are. */
  function ReadTopics(puts: seq<Put>): Result<seq<TopicEntry>, seq<byte>> {
    var entries := Repeated(puts, 1);
    if Bytes(puts, 2).Some? then Err(Bytes(puts, 2).value)
    else Ok(seq(|entries|, i requires 0 <= i < |entries| => ReadEntry(InnerOf(entries[i]))))
  }

  lemma TopicsRead(entries: seq<TopicEntry>)
    ensures ReadTopics(TopicsPuts(entries)) == Ok(entries)
  {
    hide Find, Repeated, EntryPuts, ReadEntry;
    var puts := TopicsPuts(entries);
    assert [] + puts == puts;
    RepeatedIs([], puts, 1);
    FindNone(puts, 2);
    forall i | 0 <= i < |entries| ensures ReadEntry(InnerOf(puts[i])) == entries[i] { EntryReads(entries[i]); }
    hide TopicsPuts, InnerOf;
    assert Repeated(puts, 1) == puts && Bytes(puts, 2).None?;
    assert seq(|puts|, i requires 0 <= i < |puts| => ReadEntry(InnerOf(puts[i]))) == entries;
  }

  lemma NoTopicsReads(error: seq<byte>)
    ensures ReadTopics([Text(2, error)]) == Err(error)
  {
    FindAt([Text(2, error)], 0);
    hide Find, Repeated, ReadEntry;
  }

  /** The set, or why there is none. */
  function ReadSchema(puts: seq<Put>): Result<seq<byte>, seq<byte>> {
    if Bytes(puts, 1).Some? then Ok(Bytes(puts, 1).value) else Err(Or(Bytes(puts, 2), []))
  }

  lemma SchemaReads(held: seq<byte>, error: seq<byte>)
    ensures ReadSchema([Text(1, held)]) == Ok(held) && ReadSchema([Text(2, error)]) == Err(error)
  {
    FindAt([Text(1, held)], 0);
    FindNone([Text(2, error)], 1);
    FindAt([Text(2, error)], 0);
    hide Find;
  }

  /** Why an authentication failed, if it did. */
  function ReadAuthResult(puts: seq<Put>): Option<nat> { if Bool(puts, 1) then None else Some(Or(Uint(puts, 2), 0)) }

  lemma AuthResultReads(error: Option<nat>)
    ensures ReadAuthResult(if error.Some? then [Varint(1, 0), Varint(2, error.value)] else [Varint(1, 1)]) == error
  {
    if error.Some? {
      FindAt([Varint(1, 0), Varint(2, error.value)], 0);
      FindAt([Varint(1, 0), Varint(2, error.value)], 1);
    } else {
      FindAt([Varint(1, 1)], 0);
    }
    hide Find;
  }
}
