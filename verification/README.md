# The outbound path and the wire codec, proved

A Dafny model of the broker's outbound delivery path and of the wire codec at
its two ends, with proofs of what its comments and tests promise.

`dafny verify dfyconfig.toml` checks all of it.

## What is modelled

**The ring** (`ring_machine`, `ring_proofs`, `ring_refinement`, `ring_ledger`,
`ring_calls`, `ring_lap`, `ring`, `queue`). The lock-free ring is a machine
whose every step is one load, one compare-exchange, one store, or one move of a
record, of either end, in any order. `RingRefinement` shows it to be a bounded
queue that a push into a full one takes the oldest record out of, at any
capacity; `RingLedger` keeps the books of every record given to it. `RingCode`
is the code itself: `push`, `offer` and `pop` as loops over an array of stamped
slots, with any number of the other end's steps between any two of their own,
each action shown to be one step of the machine, and each call, from its first
step to its last, to be a run of it: `RingCalls` says what an answer means to
the queue. Indices are unbounded where the code packs them into 62 bits.

**One connection** (`merge`, `merge_proofs`, `merge_results`, `merge_queues`,
`drain`). Three rings, now queues, that each drop by their own rule, the
numbering of what goes into them, and the drain that merges them back. What has
become of every number is tracked, and the invariant says which fates are
possible. `MergeQueues` shows every step to be one step of one of the queues
`RingRefinement` is about.

**Sleeping and waking** (`wake`). The park flag over the rings themselves, at
the ring machine's own grain, with a pusher and any number of senders of control
messages.

**The writer thread** (`delivery`, `interleaving`, `retained`, `hall`,
`hall_proofs`, `streams`, `late_joiner`, `accounts`, `replay`, `ring_sizes`,
`writer`). `Hall` says what each control message and each committed record does;
`WriterCode` is the loops, shown to do that; `Streams` tells each connection's
numbered stream, and the retained set, from what happened and nothing else, and
shows the writer agrees. A push is one step here, which
`Interleaving.AnyInterleaving` shows loses nothing; what a connection's own
thread does may come between any two of the writer's events, and between any two
records of a replay.

**The encoder** (`wire`, `encoding`, `rendering`, `encode`, `encoder_calls`,
`answers`, `messages`, `answer_messages`). `Wire` is a reference decoder written
from the Protocol Buffers document "Encoding", sections "Base 128 Varints",
"Signed Integers", "Length-Delimited Records" and "Groups": padded varints are
accepted, group tags must match, and a sub-message is confined to its length. A
committed tail is shown to decode to exactly the tree of puts, over any sequence
of calls; `Messages` reads the messages of `broker.proto` by their field
numbers, and every frame and every answer reads back as what was sent.

**The inbound walk** (`walk`), the **tables** (`registry`, `config`, `bridge`,
`cap_fits`, `topic_answers`, `name_order`), **framing and the gap report**
(`framing`, `tail`, `unseen`), the **rate window** (`rate`) and the **civil
date** (`civil`) complete it.

## Where the code and its comments differ

- `configure` is documented to refuse a failed bind "with nothing in force". The
  cap on boundary topics that the refused table froze stays frozen
  (`BridgeCode.Bridge.First`), so a corrected table with another
  `max_lifecycle_topics` is applied with the refused one's: a run for any two
  numbers is `CapFits.FailedBindFreezes`.
- `check_invariants` keeps the boundary ring above the cap in a table, but the
  first table's cap gives way to one frozen before it. `CapFits.RingBelowCap`
  reaches a configuration in force with a ring of 20 under a cap of 64;
  `CapFits.FirstIsAbove` says exactly when that happens, and
  `CapFits.BelowIsStuck` that every later table is then refused.
- A refused push is the one loss a consumer cannot always see. The gap report is
  exact if and only if the last push of all was not turned away, and so always
  when none was (`TailCode.GapReportIsExact`, `TailCode.Tailed`).
  `Unseen.UnseenLoss` is a run that ends with one record dropped and no gap.
- `replayed` counts the push that closes the connection as well
  (`Streams.ReplayNumbers`).

## Model

| member | source | states |
|---|---|---|
| Queue.FirstOut | crates/broker/src/ring.rs:236-314 | whatever leaves the queue, popped or evicted, leaves in the order it was put in |
| Queue.StaysBounded | crates/broker/src/ring.rs:236-314 | no run takes the queue past its capacity |
| RingProofs.InitOk | crates/broker/src/ring.rs:144-174 | a new ring of any capacity meets the invariant |
| RingProofs.ProducerKeeps | crates/broker/src/ring.rs:236-344 | every atomic step of a push or an offer keeps the invariant on stamps, slots and indices, in any state the consumer has left |
| RingProofs.ConsumerKeeps | crates/broker/src/ring.rs:397-450 | every atomic step of a pop keeps it, the case of a producer a lap behind included |
| RingProofs.AtProducer | crates/broker/src/ring.rs:236-314 | the slot at the producer's cursor can only be empty for its index, full of the record one lap back, or that record held; so the `unreachable!` and the `debug_assert` never fire |
| RingProofs.AtConsumer | crates/broker/src/ring.rs:397-450 | what the slot at the consumer's cursor can hold, in every reachable state |
| RingRefinement.StepRefines | crates/broker/src/ring.rs:236-450 | each atomic step is one step of the queue or none: eviction at the producer's exchange, insertion at the `FULL` store, taking at the consumer's exchange, an empty answer only when the queue is empty and none is being taken, a refusal only while the oldest is being taken |
| RingRefinement.RingIsQueue | crates/broker/src/ring.rs:144-450 | every interleaving from a new ring, at any capacity, is a run of the drop-oldest queue |
| RingLap.ALapBehind | crates/broker/src/ring.rs:402-411 | the consumer does meet a stamp of an index below its own, held by the producer, and answers that there is nothing rather than step over the slot its next record goes in |
| RingLedger.LedgerKeeps | crates/broker/src/ring.rs:236-450 | every step keeps the books: each record moves between being given, in transfer, stored, popped and returned, and is never in two places |
| RingLedger.NothingLost | crates/broker/src/ring.rs:236-450 | over any run, the records given are exactly those popped, returned, in a slot or in transfer, counted with multiplicity; popped ones are a subsequence of those stored and those of the records given, in order; `dropped` is the number returned |
| RingLedger.OneOwner | crates/broker/src/ring.rs:117-129 | producer and consumer are never inside one slot together, and a slot is initialised exactly when its owner says so |
| RingLedger.NoneLeftBehind | crates/broker/src/ring.rs:402-411 | no full slot has an index below the consumer's |
| RingLedger.EveryLiveIsFull | crates/broker/src/ring.rs:76-81 | every record of the queue is in the slot of its index |
| RingLedger.ThreeLooks | crates/broker/src/ring.rs:241-312 | no call has looked at the stamp more than three times, nor reached the unreachable arm |
| RingLedger.LiveShows | crates/broker/src/ring.rs:189-195 | with no push under way, a record in the queue makes `len` positive |
| RingLedger.QuietLenIsExact | crates/broker/src/ring.rs:183-195 | with nothing in flight, `len` is the capped difference of the indices and is zero exactly when the queue is empty |
| RingLedger.ReadAhead | crates/broker/src/ring.rs:189-195 | `read` is never published more than one ahead of `write`, which is what the saturating difference is for |
| RingLedger.DropAll | crates/broker/src/ring.rs:198-218 | dropping the ring frees exactly the records still in the queue, once each |
| RingCode.Ring.constructor | crates/broker/src/ring.rs:144-174 | a new ring is the machine's first state |
| RingCode.Ring.Push | crates/broker/src/ring.rs:236-314 | under every schedule of the consumer: at most three looks, a refusal after two at least and an eviction after one; and from the queue's side the call is an insertion of the record, an eviction of what is handed back and then the insertion, or a refusal, and nothing else |
| RingCode.Ring.Offer | crates/broker/src/ring.rs:326-344 | one look, no eviction: from the queue's side one insertion, or one turning away of the record, which is counted |
| RingCode.Ring.Pop | crates/broker/src/ring.rs:397-450 | under every schedule of the producer: it ends; from the queue's side it takes the record it answers with and leaves the place, or finds the queue empty, and nothing else |
| RingCalls.PushAnswers | crates/broker/src/ring.rs:236-314 | whatever the consumer does meanwhile, a push refuses only where at some instant of it the ring is full and its oldest record is being taken, evicts what is at some instant the oldest of a full ring none of which is being taken, and merely stores where there is room |
| RingCalls.OfferAnswers | crates/broker/src/ring.rs:326-344 | an offer stores exactly where at its instant a place is free |
| RingCalls.PopAnswers | crates/broker/src/ring.rs:397-450 | a pop answers with what is the oldest record when it takes it, and with none only where at some instant nothing is queued |
| RingCalls.PushAlone | crates/broker/src/ring.rs:236-314 | with the consumer at rest a push stores where there is room, evicts the oldest of a full ring, and refuses only if the consumer rests inside a slot of one |
| RingCalls.PopAlone | crates/broker/src/ring.rs:397-450 | with the producer at rest a pop takes the oldest record there is, or none if there is none |
| RingCode.Ring.AdvanceProducer | crates/broker/src/ring.rs:370-377 | the next slot, round the end, and the index published after the record |
| RingCode.Ring.AdvanceConsumer | crates/broker/src/ring.rs:473-480 | the next slot, round the end, and the index published |
| MergeProofs.WriteKeeps | crates/broker/src/fanout.rs:257-294 | numbering, storing, evicting, refusing and turning away keep the invariant on fates, rings and counters |
| MergeProofs.TakeKeeps | crates/broker/src/fanout.rs:324-343 | a pop of one ring keeps it |
| MergeProofs.HandOnKeeps | crates/broker/src/fanout.rs:338-343 | handing on a record with nothing lower to come keeps it, and its number is above every one handed on before |
| MergeResults.SkippedIsLost | crates/broker/src/fanout.rs:296-304 | below the last number handed on, a number is either handed on or one its ring evicted or refused; and those handed on strictly rise |
| MergeResults.LostWithinItsClass | crates/broker/src/fanout.rs:262-267 | a record is lost to a push of its own class, its own or a later one |
| MergeResults.BoundariesInOrder | crates/broker/src/fanout.rs:1252-1257 | the boundary records handed on are a gap-free prefix of those numbered |
| MergeResults.ClosedWhenFull | crates/broker/src/fanout.rs:1258-1293 | a connection is closed exactly by a boundary record whose ring has no free place, counted once, and nothing is numbered for it after |
| MergeResults.LastReaches | crates/broker/src/fanout.rs:350-355 | once drained, what was not handed on is what the rings dropped, which is what the writer counted; and when a consumer that sees only numbers can tell |
| MergeQueues.PushIsQueueStep | crates/broker/src/fanout.rs:271-293 | each step of a push is a step of the one drop-oldest queue it is for, inserting, evicting the oldest, refusing or turning away, and no other queue moves |
| MergeQueues.TakeIsQueueStep | crates/broker/src/fanout.rs:326-336 | a pop begun is the taking of that queue's oldest |
| MergeQueues.LeaveIsQueueStep | crates/broker/src/fanout.rs:326-336 | and a pop ended frees its place |
| DrainCode.Drain.PopRing | crates/broker/src/fanout.rs:328-332 | one ring's turn: its oldest record held, or the ring empty at that instant |
| DrainCode.Drain.Pass | crates/broker/src/fanout.rs:326-336 | a pass that pops nothing leaves every ring it holds nothing from without any number as old as the pass |
| DrainCode.Drain.Pop | crates/broker/src/fanout.rs:324-343 | whatever the writer does meanwhile: at most four passes, numbers handed on in rising order with the record numbered so, and none only once every earlier push is handed on or lost |
| Wake.ActKeeps | crates/broker/src/fanout.rs:476-544 | every load, store, park, unpark and ring step keeps the wake invariant |
| Wake.NoLostWake | crates/broker/src/fanout.rs:476-544 | over any run and any interleaving: a sleeper parked with no token, and no pusher between publishing and its look at the flag, has empty rings and has taken every message whose sender is done |
| Wake.ParksWhenEmpty | crates/broker/src/fanout.rs:483-490 | left to itself, the sleeper comes to its park exactly when nothing is in its rings, and lowers the flag and goes round again when something is |
| Delivery.WithCovers | crates/broker/src/fanout.rs:101-119 | the mask is a set: adding a capability covers it and changes no other, and a number past 63 is neither added nor covered |
| Delivery.MaskCovers | crates/broker/src/fanout.rs:101-119 | a mask built from a list covers exactly the numbers under 64 in it |
| Delivery.PushNumbers | crates/broker/src/fanout.rs:1258-1293 | a push takes the next number whether or not the ring keeps the record, costs what the ring turned away, and closes the connection exactly when a boundary ring has no place |
| Delivery.PushKeeps | crates/broker/src/fanout.rs:271-293 | a push leaves the connection's path in its invariant and settled |
| Delivery.RestKeeps | crates/broker/src/fanout.rs:324-343 | what the connection's own thread does changes nothing the writer numbered or counted |
| Interleaving.NumberThenRest | crates/broker/src/fanout.rs:257-294 | between a record's number and its push, the connection's thread could as well have gone first |
| Interleaving.RestThenStore | crates/broker/src/fanout.rs:271-293 | between an eviction and the store it makes room for, it could as well have gone after |
| Interleaving.AnyInterleaving | crates/broker/src/fanout.rs:257-343 | a push with any steps of the connection's thread anywhere inside it ends where some steps, a push in one, and some steps end |
| Retain.KeepIsPut | crates/broker/src/fanout.rs:1190-1199 | a vector of slots and an order of them are one list, an entry a slot, a replaced entry at the back |
| Retain.Retained.constructor | crates/broker/src/fanout.rs:1180-1185 | a new set of that many slots is empty |
| Retain.Retained.Keep | crates/broker/src/fanout.rs:1190-1199 | the set after keeping a record is that list with the entry put at the back; a slot past the set is not kept |
| Retain.CoveredPut | crates/broker/src/fanout.rs:1206-1221 | keeping a record and then filtering by capabilities is filtering and then keeping it, where a slot's need does not change |
| HallProofs.NextIsEach | crates/broker/src/fanout.rs:1318-1384 | a message or a record acts on each connection by itself, and those it closed are forgotten |
| HallProofs.NextFine | crates/broker/src/fanout.rs:1030-1104 | everything the writer takes keeps its connections open, distinct and within their invariants |
| HallProofs.After | crates/broker/src/fanout.rs:1018-1124 | the writer after any run is in that invariant, and holds only connections that attached |
| Streams.KeptIsLatest | crates/broker/src/fanout.rs:1098-1101 | after any run the retained set is the fold of the log by slot |
| Streams.LatestIsLast | crates/broker/src/fanout.rs:1164-1176 | that fold has, for every slot emitted on and no other, its last record, in the order of those last emissions |
| Streams.ReplayNumbers | crates/broker/src/fanout.rs:1206-1221 | a replay numbers the covered entries in order and no others, counts each withheld and each pushed, the push that closes included, and stops only where it closed the connection |
| Streams.NumbersTheStream | crates/broker/src/fanout.rs:1018-1124 | after any run, what is numbered for a connection held is exactly its attach record, the answers to it, the records addressed to it, the replay at each authentication and the fanned-out records its capabilities cover and its filter then admitted, from 1 and without a gap |
| LateJoiner.LateJoinerAgrees | crates/broker/src/fanout.rs:1066-1101 | for a connection held that has authenticated once, the last record of each slot among those numbered for it, replay and then live, is the retained set as far as its capabilities cover it, in the same order |
| LateJoiner.KeepsUp | crates/broker/src/fanout.rs:1170-1222 | the same of the stream itself, at every point of any history |
| LateJoiner.NumbersOnce | crates/broker/src/fanout.rs:1206-1221 | if no two commits are of one record, a connection authenticated at most once is numbered none twice |
| Accounts.LossesBalance | crates/broker/src/fanout.rs:1258-1277 | after any run the writer's four loss counters are the sums of what each connection ever attached was charged |
| Accounts.LossAccounting | crates/broker/src/fanout.rs:1258-1292 | ring drops over every connection ever attached equal the four counters together, and every number of a connection held is handed on, in hand, queued or dropped |
| Accounts.LossesByLabel | crates/broker/src/fanout.rs:257-294 | and each counter is of what was lost: lossy, durable and broker answers apart, and the boundary records that closed a connection |
| Accounts.EveryRecordAnswersFor | crates/broker/src/fanout.rs:1328-1384 | an addressed record is numbered once or counted unaddressed; a fanned-out one is, for every connection, numbered, counted as filtered, or passed over as unauthenticated |
| Accounts.FilteredExactly | crates/broker/src/fanout.rs:1355-1378 | `filtered` rises by the number of authenticated connections not sent a fanned-out record, and `filtered_topic` by those of them whose capabilities cover it |
| Accounts.ServedOrClosed | crates/broker/src/fanout.rs:1030-1104 | a connection that attached and has not detached is still held, or was closed by its boundary ring |
| Replay.ReplayCloses | crates/broker/src/fanout.rs:1206-1221 | a replay with places enough never closes the connection, whatever its thread does; one with too few does unless the thread makes some |
| Replay.ReplayIntoEmpty | crates/broker/src/fanout.rs:1206-1221 | into an empty ring, undrained, a replay closes the connection exactly when what it covers is more than the ring holds |
| Replay.AuthenticatingKeeps | crates/broker/src/config.rs:459-462 | into an empty ring longer than the set, it never does |
| Replay.SetFits | crates/broker/src/fanout.rs:1190-1199 | the set has at most as many entries as slots |
| RingSizes.SizesStay | crates/broker/src/fanout.rs:391-402 | after any run, whatever was pushed, replayed and drained, each of a held connection's rings has the capacity its attach named for that class |
| RingSizes.FirstReplayFits | crates/broker/src/fanout.rs:1206-1221 | after any run, a connection told of no boundary yet, with a boundary ring longer than the retained set, is not closed as it authenticates |
| WriterCode.Writer.constructor | crates/broker/src/fanout.rs:907-949 | a new writer holds nobody and a set of that many slots |
| WriterCode.Writer.PushTo | crates/broker/src/fanout.rs:1258-1293 | one connection's push and the counter it moves |
| WriterCode.Writer.NextReceiving | crates/broker/src/fanout.rs:1361-1376 | the lazy filter: the next receiving connection, each one passed counted by why it was |
| WriterCode.Writer.PushPrevious | crates/broker/src/fanout.rs:1355-1384 | the receiving connection found before is pushed to once, and the state is that of the walk so far |
| WriterCode.Writer.Walk | crates/broker/src/fanout.rs:1360-1384 | the walk that pushes one behind reaches each receiving connection once, and counts each of the others exactly once |
| WriterCode.Writer.Deliver | crates/broker/src/fanout.rs:1329-1384 | addressed or fanned out, the connections and the counters after are those of `Hall.Delivered` |
| WriterCode.Writer.FanOut | crates/broker/src/fanout.rs:1318-1326 | and the closed are forgotten, once the walk is over |
| WriterCode.Writer.ReplayTo | crates/broker/src/fanout.rs:1206-1221 | the replay loop, with the connection's thread at work between any two pushes |
| WriterCode.Writer.Attach | crates/broker/src/fanout.rs:1031-1048 | a new connection, each of its rings of the size asked for that class, its first record numbered 1 |
| WriterCode.Writer.Detach | crates/broker/src/fanout.rs:1049 | the one of that id is dropped, and no other |
| WriterCode.Writer.Answer | crates/broker/src/fanout.rs:1050-1065 | a broker answer is a durable record for the one connection |
| WriterCode.Writer.Authenticated | crates/broker/src/fanout.rs:1066-1072 | the capabilities set, the set replayed, a connection that closed forgotten |
| WriterCode.Writer.TopicFilter | crates/broker/src/fanout.rs:1073-1079 | the filter replaced |
| WriterCode.Writer.Commit | crates/broker/src/fanout.rs:1093-1102 | a record with a slot is kept before it is fanned out |
| WriterCode.Writer.Run | crates/broker/src/fanout.rs:1018-1124 | over messages and records in any order, the writer ends where `HallProofs.After` says |
| Encoding.ReadMinimal | crates/broker/src/encode.rs:383-396 | a minimal varint of any 64-bit value reads back, whatever follows |
| Encoding.ReadPadded | crates/broker/src/encode.rs:416-425 | so does one padded to any width that holds it, up to ten bytes |
| Encoding.WidthOfU64 | crates/broker/src/encode.rs:372-380 | no 64-bit value takes more than ten bytes |
| Encoding.RoomForAny | crates/broker/src/encode.rs:149-160 | the width of the capacity holds the length of anything in the buffer |
| Encoding.DecodesBack | crates/broker/src/encode.rs:183-326 | the reference decoder reads an encoded tree, padded lengths at every depth, back as that tree, under every schema it conforms to |
| Rendering.ExtendAll | crates/broker/src/encode.rs:330-349 | appending a field to the buffer is adding it to the innermost open message, at any depth |
| Rendering.OpenAll | crates/broker/src/encode.rs:268-282 | a key and a gap open a message |
| Rendering.CloseAll | crates/broker/src/encode.rs:285-296 | filling the innermost gap with the distance from it makes the message a field of the one around it |
| Rendering.BegunRenders | crates/broker/src/encode.rs:183-232 | the wrapper's bytes are those of the payload and value messages, opened, and their size is known |
| EncodeCode.CountVarint | crates/broker/src/encode.rs:372-380 | the shift loop counts the bytes of the minimal form |
| EncodeCode.PutVarint | crates/broker/src/encode.rs:383-396 | the loop appends the minimal form |
| EncodeCode.WriteVarint | crates/broker/src/encode.rs:399-413 | the loop writes it in place and answers its length |
| EncodeCode.PutPadded | crates/broker/src/encode.rs:416-425 | the loop fills a gap with the padded form and touches nothing else |
| EncodeCode.Encoder.Put | crates/broker/src/encode.rs:330-349 | which of the four outcomes a put has, and that a failure changes only the state |
| EncodeCode.Encoder.Integer | crates/broker/src/encode.rs:235-239 | the field joins the innermost message with the bits that a decoder of signed integers reads as the number put |
| EncodeCode.Encoder.Double | crates/broker/src/encode.rs:242-246 | eight little-endian bytes do |
| EncodeCode.Encoder.String | crates/broker/src/encode.rs:250-256 | a length and the bytes do |
| EncodeCode.Encoder.Boolean | crates/broker/src/encode.rs:259-261 | one or zero does |
| EncodeCode.Encoder.Message | crates/broker/src/encode.rs:268-282 | a message opens, or the depth or the room refuses it whole |
| EncodeCode.Encoder.EndMessage | crates/broker/src/encode.rs:285-296 | the innermost message closes, its length in its gap, or there is none |
| EncodeCode.Encoder.Begin | crates/broker/src/encode.rs:183-232 | a record opens on its topic, an open one discarded and counted; a topic too long spoils it |
| EncodeCode.Encoder.Commit | crates/broker/src/encode.rs:302-326 | a commit answers the encoding of exactly the stamp, the URL and the fields put, within capacity, read back by the reference decoder; else the first put's error or the imbalance, the record discarded; and begins are commits, discards and the one open |
| EncodeCode.Encoder.Discard | crates/broker/src/encode.rs:364-368 | discarding is counted and leaves nothing open |
| EncoderCalls.Run | crates/broker/src/encode.rs:183-368 | over any sequence of calls: a commit answers the encoding of exactly the tree drawn by the calls since the last begin, or the first failure among them, or that a message or nothing is open; and the records begun are those committed, discarded and open |
| EncoderCalls.PutOf | crates/broker/src/encode.rs:235-261 | every integer, double, string and boolean put is a field that reads, by its type, as what was put |
| EncoderCalls.FieldsReadBack | crates/broker/src/encode.rs:183-326 | a record of any such puts, committed, decodes to one field for each, in order, each reading as what was put |
| Messages.EnvelopeBack | crates/broker/src/encode.rs:183-232 | a frame built on a topic and a stamp and numbered is read, by the envelope's own field numbers, as that number, epoch, mission time, topic and record |
| Answers.Pong | crates/broker/src/inbound.rs:504-514 | no put fails: the liveness comes out as its fields, within the buffer |
| Answers.Rejected | crates/broker/src/inbound.rs:622-630 | nor for a refusal with a topic of any length |
| Answers.TopicFilterResult | crates/broker/src/inbound.rs:732-750 | nor for a filter's answer, whatever names it echoes |
| Answers.Topics | crates/broker/src/inbound.rs:772-799 | nor for a list of topics, each a nested message, or the error in its place |
| Answers.SchemaAnswer | crates/broker/src/inbound.rs:803-811 | nor for a schema, to which the answer adds at most 66 bytes |
| Answers.AuthResult | crates/broker/src/inbound.rs:814-822 | nor for an authentication's answer |
| AnswerMessages.AnswerBack | crates/broker/src/inbound.rs:504-514 | any of these answers, numbered and framed, is read as an envelope on its own topic with its own fields |
| AnswerMessages.PongReads | crates/broker/src/inbound.rs:504-514 | which read as the liveness answered |
| AnswerMessages.RejectedReads | crates/broker/src/inbound.rs:622-630 | as the number, topic and reason refused |
| AnswerMessages.FilterResultReads | crates/broker/src/inbound.rs:732-750 | as the count admitted and the unknown names in order, or the reason |
| AnswerMessages.EntryReads | crates/broker/src/inbound.rs:772-799 | each entry as its topic, class and target |
| AnswerMessages.TopicsRead | crates/broker/src/inbound.rs:772-799 | and the list as its entries in order |
| AnswerMessages.SchemaReads | crates/broker/src/inbound.rs:803-811 | as the schema, or why there is none |
| AnswerMessages.AuthResultReads | crates/broker/src/inbound.rs:814-822 | as whether, and why not |
| Answers.SchemaFrameFits | crates/broker/src/state.rs:946-960 | a schema taken under a frame cap is answered within it, whatever the frame's number |
| Walk.GroupSteppedOver | crates/broker/src/inbound.rs:436-466 | counting depth steps over a well-formed group, however nested, to where a decoder that matches tags would come out |
| Walk.DecoderReadsNoMore | crates/broker/src/inbound.rs:381-394 | on any bytes, the decoder has read no field the walk does not yield first |
| Walk.WalkIsDecoder | crates/broker/src/inbound.rs:421-468 | on bytes the decoder accepts, the walk yields exactly its top-level fields |
| Walk.Fields.Varint | crates/broker/src/inbound.rs:470-484 | the shift loop reads what the decoder reads, ten bytes and 64 bits at most |
| Walk.Fields.TakeBytes | crates/broker/src/inbound.rs:486-491 | so many bytes, or nothing taken |
| Walk.Fields.Next | crates/broker/src/inbound.rs:430-468 | the next field outside any group, or the end |
| Walk.CheckTypeUrl | crates/broker/src/inbound.rs:395-419 | passing any bytes means no type URL the decoder comes to read is over the cap; on a frame it accepts, exactly those pass; and a refusal names the length of a URL that is there |
| Messages.CheckSent | crates/broker/src/inbound.rs:395-419 | of a frame as a sender builds it, on any topic, stamp, fields and number, it passes exactly those whose topic behind the prefix is within the cap, and is otherwise refused for that length |
| Registration.Fresh | crates/broker/src/registry.rs:231-254 | the rows new to the map, or the first row that disagrees with the map or an earlier row, told with the value held there |
| Registration.OneMerge | crates/broker/src/registry.rs:211-227 | a table that agrees merges one way, whatever the order of its rows |
| Registration.Registry.Bind | crates/broker/src/registry.rs:316-325 | in whatever order a map yields them, new boundary topics take the next slots, and no bound one moves |
| Registration.Registry.RegisterClasses | crates/broker/src/registry.rs:297-327 | applied whole or not at all; refused exactly for a conflict or too many boundary topics; slots stay a bijection onto 0 to n and within the cap |
| Registration.Registry.RegisterRoutes | crates/broker/src/registry.rs:330-335 | applied whole, or refused whole for a conflict |
| Registration.Registry.RegisterCaps | crates/broker/src/registry.rs:338-343 | applied whole, or refused whole for a conflict |
| Registration.Registry.RegisterReplies | crates/broker/src/registry.rs:350-355 | the union, and how many were new |
| Configuration.Merge | crates/broker/src/config.rs:381-431 | live keys as the table has them or their defaults, restart keys kept after the first table, the keys that wait exactly those that differ, the unknown ones in order; refused whole for the first bad value or the first rule broken by what would be in force; accepted if and only if every value fits its key and what would be in force spares the pool, reads alive, is on no public address but by leave, and has its boundary ring above the cap |
| Configuration.StoredHolds | crates/broker/src/config.rs:315-346 | a value that passes its key's check is stored within the key's range |
| Configuration.WholeFits | crates/broker/src/config.rs:319-335 | a number fits an integer key exactly when it is whole and in range, and is stored as itself |
| Configuration.RulesHold | crates/broker/src/config.rs:437-467 | no rule is broken exactly when an unauthenticated connection finds the pool not full, a beat comes before the sim reads dead and a load fits the loading threshold, a public address is there by leave, and a replay leaves a place free; and the rule named is the first that does not hold |
| Configuration.InForceComplete | crates/broker/src/config.rs:381-431 | what any table puts in force has every key, within its range |
| Configuration.LaterMoves | crates/broker/src/config.rs:197-236 | a later table leaves the address, the port, the pool, the rings and the boundary caps as they were started, and moves every other key to its value there or its default |
| BridgeCode.Bridge.LifecycleCap | crates/broker/src/state.rs:1529-1533 | the cap once frozen, or the default frozen now |
| BridgeCode.Bridge.RegisterClasses | crates/broker/src/state.rs:1496-1526 | only a table with a boundary row freezes the cap; what is bound stays within it and where it was; refused exactly for a conflict, or for more boundary topics than the cap has left |
| BridgeCode.Bridge.First | crates/broker/src/state.rs:681-735 | taken exactly when the table is accepted and the socket binds; in force with the frozen cap in place of its own, the inbound rings sized once, and everything started from it; a refusal leaves the configuration, a failed bind the frozen cap as well |
| BridgeCode.Bridge.UnderCap | crates/broker/src/state.rs:694-710 | the table's own cap gives way to the frozen one, and another number waits for a restart |
| BridgeCode.Bridge.Begin | crates/broker/src/state.rs:711-735 | with a bind everything is started and the table in force; without, the configuration and its counters stay |
| BridgeCode.Bridge.Later | crates/broker/src/state.rs:691-692 | taken exactly when what would then be in force is lawful; moves live keys only and starts nothing |
| BridgeCode.Bridge.Configure | crates/broker/src/state.rs:681-735 | which of the two, and exactly when it succeeds, under the one invariant: what was started with is what the configuration in force says, key by key |
| BridgeCode.Bridge.SetEnabled | crates/broker/src/state.rs:1196-1204 | the kill switch moves its key and no other |
| CapFits.AcceptedIsAbove | crates/broker/src/config.rs:459-466 | every configuration a table gives has its boundary ring above its own cap |
| CapFits.FirstIsAbove | crates/broker/src/state.rs:694-710 | what the first table puts in force does exactly when its ring is above the cap frozen by then |
| CapFits.RingBelowCap | crates/broker/src/state.rs:694-710 | a run after which it does not |
| CapFits.FailedBindFreezes | crates/broker/src/state.rs:694-735 | for any two tables, a run in which the first fails to bind and the second is in force with the first one's cap |
| CapFits.BelowIsStuck | crates/broker/src/config.rs:429-431 | from there every later table is refused |
| CapFits.AboveStays | crates/broker/src/config.rs:389-418 | and from above, no later table brings it below |
| CapFits.SlotsInside | crates/broker/src/state.rs:780-783 | every bound slot is inside the retained set, so keeping a record never discards it |
| CapFits.ReplayFits | crates/broker/src/config.rs:455-462 | with the ring above the cap, after any run of a writer so started, a connection attached with the sizes in force and told of no boundary yet is never closed by its replay |
| CapFits.Calls | crates/broker/src/state.rs:676-735 | over any order of registrations, tables and switches: bound slots never move, a frozen cap and what was started never change; and whatever is in force spares the pool, reads alive and is on no public address but by leave |
| TopicAnswers.CapabilitiesOf | crates/broker/src/inbound.rs:530-534 | the mask folded from a session's set covers exactly its members |
| TopicAnswers.GetTopics | crates/broker/src/state.rs:1114-1138 | exactly the topics an unfiltered connection is admitted to, in name order, each with the class registered and, for an inbound one, its target; nothing until a class is registered |
| TopicAnswers.SetTopicFilter | crates/broker/src/state.rs:1155-1191 | how many topics the filter admits, and in name order which named ones are not admissible |
| NameOrder.Sorted | crates/broker/src/state.rs:1136 | a set's names, each once, in ascending order |
| NameOrder.OneOrder | crates/broker/src/state.rs:1182-1188 | and a set has no other such list |
| TopicAnswers.AdmittedIsDelivered | crates/broker/src/registry.rs:403-420 | a topic other than the acknowledgement is admitted exactly when its entry passes the mask and the filter at fan-out |
| TopicAnswers.AnswersAgree | crates/broker/src/state.rs:1140-1191 | so the topics counted are those delivered, the acknowledgement apart |
| TopicAnswers.UnknownIsUndeliverable | crates/broker/src/state.rs:1146-1150 | a named topic is unknown exactly when no filter would have it delivered |
| TopicAnswers.AcknowledgementByName | crates/broker/src/registry.rs:404-414 | the acknowledgement passes as registered with nothing registered, and no answer counts it |
| TopicAnswers.AcknowledgementIsDurable | crates/broker/src/registry.rs:404-414 | and it goes as a durable topic of the command capability would |
| TopicAnswers.LostAsItsClass | crates/broker/src/registry.rs:95-101 | a lossy record's loss is counted lossy, a boundary record's closes the connection and no other's does, and the other classes' are counted durable or as the answer evicted |
| Rate.Window.Admit | crates/broker/src/inbound.rs:149-160 | one event against the cap of the window open at it, a clock gone back counted as no time |
| Rate.AnySecond | crates/broker/src/inbound.rs:131-161 | with a clock that does not go back and a fixed cap, any stretch of a run shorter than a second admits at most twice the cap |
| Rate.RefusedWhenFull | crates/broker/src/inbound.rs:131-161 | an event is refused only where the cap has been admitted within the second before it |
| Rate.TwiceIsReached | crates/broker/src/inbound.rs:131-161 | and twice the cap it can be |
| Framing.Header | crates/broker/src/transport.rs:329-332 | the length, the number's tag and the number, built in place |
| Framing.WriteAllVectored | crates/broker/src/transport.rs:343-360 | whatever short writes and interruptions come, all of both pieces in order, or an error and a proper prefix |
| Framing.WriteFrame | crates/broker/src/transport.rs:324-335 | exactly one frame, or an error and a proper prefix of one; a frame past 32 bits writes nothing |
| Framing.Fill | crates/cli/src/wire.rs:274-285 | whatever short reads come, as many bytes as asked for or all there are |
| Framing.ReadFrameBytes | crates/cli/src/wire.rs:192-221 | the frame the stream holds next, its clean end, a cut inside one, or a length that is not a frame's |
| TailCode.EncodedTailOk | crates/broker/src/encode.rs:302-326 | a committed tail is an envelope's fields but its number |
| TailCode.NumberBack | crates/broker/src/transport.rs:329-332 | the number written ahead of a tail is the one read |
| TailCode.FrameBack | crates/cli/src/wire.rs:192-221 | a frame written is the frame read |
| TailCode.FrameCut | crates/cli/src/wire.rs:192-221 | short of its last byte a frame is a cut one |
| TailCode.FrameTooLong | crates/cli/src/wire.rs:192-221 | and one over the reader's cap is refused as no frame |
| TailCode.StreamGrows | crates/broker/src/transport.rs:276-322 | one more record is its frame on the end of the stream |
| TailCode.SendAll | crates/broker/src/transport.rs:276-322 | whatever short writes come, the wire gains the records' frames in order, or the send ends in an error with some of those frames whole and a proper prefix of the next; with no failing call it does not |
| TailCode.Run | crates/cli/src/tail.rs:38-74 | over a stream of frames and whatever reads, the summary of their numbers; a stream cut inside a frame is never summed up, but told as cut |
| TailCode.CountsMissing | crates/cli/src/tail.rs:42-60 | of numbers that rise, nothing is out of order, what is counted dropped is what is missing below the last, and the gaps are as many as the numbers seen whose predecessor was not |
| TailCode.DisorderIsTold | crates/cli/src/tail.rs:42-60 | something is told as out of order exactly when the numbers do not rise |
| TailCode.GapReportIsExact | crates/cli/src/tail.rs:38-74 | of a drained connection's numbers, every one is a frame and none out of order, and the drops told are those of its rings if and only if the last push of all was not turned away |
| TailCode.Tailed | crates/cli/src/tail.rs:38-74 | end to end: the records handed on, written under any short writes and read under any short reads, give that summary, and a run whose calls never fail gives one; of a connection torn off, that of the frames that came whole, or that one was cut |
| Unseen.UnseenLoss | crates/cli/src/tail.rs:38-74 | a run, a ring of one and a push during a pop, that ends drained with one record dropped and no gap told |
| Civil.DateIsTheCalendars | crates/cli/src/dcslog.rs:117-136 | for every day count the formula gives a valid proleptic Gregorian date whose day number, counted by the leap-year rule, is that day |
| Civil.OneDate | crates/cli/src/dcslog.rs:120-129 | no two dates have one day number |
| Civil.AfterCounts | crates/cli/src/dcslog.rs:120-129 | the day after a date counts one more, across month and leap-year ends |
| Civil.YearOfEraOk | crates/cli/src/dcslog.rs:124-125 | the year of an era comes out right on each of its days, with no unsigned underflow |
| Civil.UtcCounts | crates/cli/src/dcslog.rs:117-136 | hours, minutes and seconds are in range and make the seconds again with the day |

## Left out

- Sockets, the listener, thread start and join, deadlines, unwinding: operating-system behaviour. A socket is whatever its reads and writes answer.
- Weak memory orders, uninitialised memory, the packing of a stamp into one word: everything that decides is sequentially consistent in the code, a slot's record is an option here, and an index is unbounded.
- RingLedger.NothingLost: the counter is moved together with the record's return, where the code moves it just before or just after publishing; nothing reads it in between to decide.
- Connections as heap objects: the writer owns them in a vector, so they are values here, and aliasing between them is not in question. The close callback and the waker each carries are not in `Hall`; `Wake` has the wakes.
- WriterCode.Writer.Run: how many records are taken between two looks at the messages, and how often the loop yields before it parks, are free.
- The commit ring's own losses: `HallProofs.After` starts from the records the writer popped. `RingRefinement` has the ring they came off.
- LateJoiner.LateJoinerAgrees: a record names its slot by a function of the record, as its topic does in its envelope, and each slot's need is fixed.
- Configuration.Merge: a double is a real, whose rounding shows only at the top of a 64-bit range; IP addresses arrive parsed and classed as near or public.
- `schema_sha256`, the hashes, token secrets and authentication itself.
- Rate.AnySecond: the two windows that share `admit`, for refusals, differ only in their caps.
- TailCode.Run: whether an authentication was refused, and the text of the lines.
- The Lua interface, the generator, and the CLI's other commands.
