# Atolla in Dafny

Atolla streams light patterns over UDP. A *source* borrows a *sink* exclusively and then puts
frames into it ahead of time; the sink queues them in a ring of 128 frames and shows one every
`frame_duration_ms` on a clock of its own that starts with the first frame shown. Datagrams may be
lost, duplicated and reordered, frames are numbered modulo 256, and time is a 32-bit counter of
milliseconds that wraps around.

This project models both endpoints, the ring and the wire format, and proves what they promise,
separately and together. `dafny verify dfyconfig.toml` checks everything.

## How it is built

What the source changes in place is a class here, and each of its methods is proved to compute a
function on values; theorems about whole runs are proved about those functions.

| file | contents |
|---|---|
| `memory.dfy`, `pattern.dfy`, `ring.dfy`, `ring_spec.dfy` | block of memory, filling with a pattern, byte ring, its refinement to a FIFO of frames |
| `wire.dfy`, `builder.dfy`, `iter.dfy` | wire format, printer, parser |
| `clock.dfy`, `arithmetic.dfy` | true instants behind 32-bit readings; division and remainders |
| `sink_spec.dfy`, `sink.dfy` | the sink as functions and as an object |
| `sink_steps.dfy`, `sink_runs.dfy`, `session.dfy` | gap filling, sequence numbers, playback, replies; borrowing over whole runs; the content of a session |
| `source_spec.dfy`, `source.dfy`, `source_runs.dfy` | the source as functions, as an object, and over whole runs |
| `system.dfy`, `handshake.dfy`, `keepalive.dfy`, `fifo_order.dfy` | both endpoints and the network; the terms they agree on; the connection that is not lost; the order of things on a FIFO network |
| `overflow.dfy`, `delivery.dfy`, `hang.dfy` | room in the ring and when it suffices, exactly |
| `end_to_end.dfy`, `timing.dfy` | what is put is what is shown, and when |

True time is an unbounded integer and a reading of the clock is its residue modulo 2^32 (`Stamp`).
Every reading is a parameter of the call that takes it, as are the datagram a call receives and
the outcome of sending. What is handed to the socket is appended to `sent`. Frame numbers are
unbounded in the theorems and travel modulo 256. A sink whose gap-filling loop can never end is
marked `hung`; the methods of the class demand that this does not happen, `GapLoopEndsIffRoom`
says exactly when it does, and `BudgetIsExact` for which settings it can in the composed system.

## Where the code does not keep what its documentation says

The model follows the code in each case.

- `mem_ring_is_empty` answers true when the ring is *not* empty (`src/mem/ring.c:19-22` against `src/mem/ring.h:28-30`): `Ring.MemRing.IsEmpty`.
- The loop that fills a gap goes on only while the ring accepts frames, so it never ends once the ring is full (`src/atolla/sink.cpp:348-351`): `SinkSteps.GapLoopEndsIffRoom`; two messages to a fresh sink suffice: `SinkSteps.HangIsReached`; and so do runs of a correct source just above the bound: `Hang.HangsAbove`.
- Not only the borrower can end a borrow: an enqueue message is checked for its length before its sender (`src/atolla/sink.cpp:330-338`): `SinkRuns.StrangerCanEndBorrow`, `SinkRuns.BorrowEndsExactlyWhen`.
- Not only the borrower can keep a borrow alive: a datagram of anybody counts as a sign of life (`src/atolla/sink.cpp:227`): `SinkRuns.StrangerKeepsBorrow`, `SinkRuns.LentExactlyWhile`.
- Neither granting nor ending a borrow empties the ring: a session may begin with frames of the one before: `Session.SessionContent`.
- "No time set" is a legal instant (`src/atolla/source.cpp:26-28`). Playback and pacing are proved for runs in which the two virtual clocks do not pass through it, and `Session.SentinelRestartsPlayback` and `SourceRuns.SentinelForgetsPuts` show what happens when they do, in states that `Session.SentinelIsReached` and `SourceRuns.SentinelIsReached` show to be reachable.
- The settings of a source are cut to bytes when it borrows (`src/atolla/source.cpp:263`): `SourceRuns.TermsFitIntoBytes`.
- A put looks at the connection once more after it has found it open, and then sends whatever it found (`src/atolla/source.cpp:229-236`); so one frame may follow the failure: `late` in `SourceRuns.Pacing`.
- The ready count is not capped at the buffer length (`src/atolla/source.cpp:182`): `SourceRuns.CountExceedsBuffer`, `SourceRuns.CountDoesExceedBuffer`.
- A frame has at most 65532 bytes, since index and length share the payload (`src/msg/builder.c:63`, against `src/msg/builder.h:76-77`).
- The sink repeats the whole pattern rather than the last colour (`src/atolla/sink.cpp:413-434`, against `doc/Atolla Protocol.md:143-146`).

## Model

| member | source | states |
|---|---|---|
| Overflow.NoOverflow | src/atolla/sink.cpp:340-351 | FIFO network with any losses, strangers that keep out of the ring, sink that alternates state and get at most `poll` ms apart, first frame shown at most `lag` ms after the first put, M + frames after a failure + floor((lag + poll) / d) <= 128: over every run from the first borrow on, the gap loop always ends, the ring never holds more than 128 frames, and the sink is lent to nobody else |
| Overflow.NeverOverflows | src/atolla/sink.cpp:340-351 | the same for every run of settings with one frame to spare, M + 1 + floor((lag + poll) / d) <= 128, whatever becomes of the connection |
| Overflow.NoOverflowInSpec | src/atolla/source.cpp:105-108 | `Overflow.NoOverflow` in the settings a caller gives: `frame_duration_ms` for d, and `max_buffered_frames`, or 16 if that is 0, for M |
| Hang.BudgetIsExact | src/atolla/sink.cpp:340-351 | that bound is exact: for all settings that the sink accepts and any positive disconnect timeout, all lag and polling intervals, and from any instant on, no such run (without a frame after a failure) hangs the sink if and only if M + floor((lag + poll) / d) <= 128 |
| Hang.HangsAbove | src/atolla/sink.cpp:348-351 | whenever the sum is 129 or more there is such a run, in which the way to the source duplicates a message and the way to the sink loses frames, that hangs the sink |
| FifoOrder.NeverAhead | src/atolla/sink.cpp:340-351 | over every run on a FIFO network, whatever the settings, the timing and the strangers: frames enqueued for the source <= frame numbers heard <= frames put, however many are lost in a row; the index of the sink is that of the last frame enqueued; and unless strangers fill it the ring holds the frames enqueued and not shown |
| EndToEnd.ShownIsFirstReceived | src/atolla/sink.cpp:160-198 | over every run on a FIFO network in which no 128 frames in a row are lost, whatever the settings, the timing and the strangers: whenever the sink is lent to the source and does not hang, frames taken out of the ring and frames in it together are what it held at the borrow (nothing, unless strangers left frames there) followed by the session, the last one taken is the current one, and position p of the session is the frame put under the first number from p on that was received, filled to size |
| EndToEnd.ShownIsPut | src/atolla/source.cpp:216-258 | the same without loss on the way to the sink: position p of the session is the p-th frame put, filled to size |
| EndToEnd.GoodRunsAreOrderly | src/atolla/sink.cpp:340-351 | the runs of `Overflow.NoOverflow` are such runs, in which a lent sink is lent to the source and does not hang |
| Timing.ShownOnTime | src/atolla/sink.cpp:160-198 | over every run, on any network: a call shows no frame before it is due, and unless it empties the queue it shows frame p of the session only from p to p + 1 durations after the first was shown, by true time |
| FifoOrder.RetriedBorrowComesFirst | src/atolla/source.cpp:292-312 | over every run on a FIFO network, whatever the settings, the timing and the strangers: while a borrow is in flight, no frame of the source has been heard or enqueued and only borrows are in front of it, and unless strangers filled it the ring is empty: a retried borrow cannot reset the index of a running session |
| Overflow.Budget | src/atolla/source.cpp:216-258 | pacing of puts and playback on schedule together leave at most 128 frames between the last put and the last shown |
| Overflow.FrameFits | src/atolla/sink.cpp:348-351 | in a reachable state of such a run the whole gap before an arriving frame fits into the ring |
| FifoOrder.GapWithinDistance | src/atolla/sink.cpp:340 | on a FIFO network the gap the sink computes never exceeds the true distance, however many frames were lost |
| Overflow.Plays | src/atolla/sink.cpp:181-191 | in the composed system playback moves the true start of the current frame by one duration per frame and ends at the present or with an empty queue |
| Overflow.ShowKeeps | src/atolla/sink.cpp:160-198 | asking for frames leaves the queue empty or playback on schedule |
| Overflow.TurnWithFrame | src/atolla/sink.cpp:318-359 | a frame that reaches the sink leaves it not hung, its ring not more than full, and playback as it was |
| FifoOrder.NumberingAfterSend | src/atolla/source.cpp:235-256 | a frame that is sent joins the channel under the next true number, with that number modulo 256 as index, and only behind lower ones |
| Keepalive.NeverLost | src/atolla/source.cpp:314-321 | no message to the source lost, delay <= e, sink updated every p ms, an update of the source takes <= q ms, 500 + p + e + q <= disconnect timeout, sink stays lent and sends no fail, whoever else talks to it: once open, the source is open ever after, although each update reads one datagram only |
| SinkSteps.KeepaliveIsDue | src/atolla/sink.cpp:373-389 | an update that leaves the sink lent once it has received sends its borrower one lent message if and only if more than 500 ms of true time have passed since the last one, takes the time of it, and does nothing else; a sink that is not lent sends none |
| Keepalive.TurnSendsLent | src/atolla/sink.cpp:373-389 | after every update of a lent sink the last lent message is at most 500 ms older than the start of the update, by true time, and a newer one is on its way |
| Keepalive.StrangerSendsLent | src/atolla/sink.cpp:373-389 | the same for an update that a stranger's datagram reaches |
| Keepalive.GrantLeadsToLent | src/atolla/sink.cpp:298-305 | granting a waiting source its borrow establishes the starting point of `NeverLost` |
| Delivery.FrameIsDelivered | src/atolla/source.cpp:216-258 | the conditions of `Overflow.NoOverflow` can be met: from any idle sink and any source that has just asked with acceptable settings there is such a run, in which the borrow is granted and heard of and a frame that fits into a datagram is put, queued and shown, filled to the size of the sink |
| Delivery.ConnectionIsKept | src/atolla/source.cpp:385-392 | the conditions of `Keepalive.NeverLost` can be met: after the grant the source hears of it and is open |
| Handshake.HandshakeAgreement | src/atolla/sink.cpp:284-305 | in every run of the composed system, with strangers, loss, duplication and reordering, and settings that fit into bytes: an open source was granted a borrow by the sink, at whose acceptance the sink's frame duration was the source's and the source's buffer fitted into the ring; while lent to the source the sink plays at the source's duration |
| Handshake.HandshakeInSpec | src/atolla/source.cpp:105-108 | the same in the settings a caller gives |
| Handshake.TurnForSource | src/atolla/sink.cpp:200-240 | an update tells the source that the sink is lent only if it was granted or held the borrow, and only a grant makes it borrower |
| SinkSteps.StrangersCannotBorrowFor | src/atolla/sink.cpp:278-359 | messages of others do not make an endpoint the borrower, nothing is said to it because of them, and if the sink is lent to it in the end its session is as it was |
| SinkSteps.StrangersUpdate | src/atolla/sink.cpp:200-240 | the same for a whole update: an endpoint hears of it only if it is the borrower and the keepalive is due |
| Handshake.OpensOnLent | src/atolla/source.cpp:385-392 | a waiting source opens on a lent message only |
| System.DatagramUnderstood | src/msg/iter.c:9-124 | any printed messages in one datagram of up to 1024 bytes are read by a sink as these messages in this order, and of up to 32 bytes by a source as lent messages or trouble |
| System.UnderstoodAsMeant | src/msg/iter.c:22-124 | what each endpoint makes of the bytes of one message: a sink reads a borrow with its terms, an enqueue of at most 1016 bytes of frame with index and frame, and anything else as unexpected, each under its id; a source reads a lent message as such and anything else as trouble |
| System.PacketsOfSource | src/atolla/source.cpp:235-265 | the packets of a source are the bytes of its messages, one each and in order, and the sink reads a borrow or an enqueue in each, with terms, or index and whole frame, under its id |
| System.PacketsOfSink | src/atolla/sink.cpp:384-400 | the packets of a sink are the bytes of its replies, one each and in order, each to the endpoint the reply is for |
| System.SourceIsUnderstood | src/atolla/source.cpp:235-265 | every packet that a step of the source hands to its socket is read by the sink as what the step adds to the channel |
| System.SinkIsUnderstood | src/atolla/sink.cpp:384-400 | every packet that an update of the sink hands to its socket is for the endpoint of its reply and is read by a source as what travels in the model |
| Session.SessionContent | src/atolla/sink.cpp:318-371 | over every session, within the window and whoever else talks to the sink: position p holds the filled frame of the first admitted number >= p, admitted numbers strictly increase, the session is as long as the highest number that arrived, frames shown and queued together are the stale frames followed by the session's, the last one shown is the current one; and if no frame is asked for while the virtual clock reads as "no time set", it stands at first show + (shown - 1) durations modulo 2^32 |
| Session.EveryCallAnswers | src/atolla/sink.cpp:160-198 | in every session whose clock is not asked when it reads as "no time set": once a frame was shown every call answers, with the last frame shown, whether or not the queue is empty; before that it answers if and only if a frame is queued |
| Session.ShownPattern | src/atolla/sink.cpp:194 | byte i of what a caller gets is byte (i mod F) mod length of an admitted frame, for any output length |
| Session.BorrowStartsSession | src/atolla/sink.cpp:298-305 | a granted borrow starts a session with nothing enqueued, the ring as it was, the sender as borrower, the duration asked for, and the clocks unset |
| Session.ArrivalKeepsInv | src/atolla/sink.cpp:340-351 | an arrival brings the session to position max(n, s + 1) and keeps its content, order and conservation of frames |
| Session.ArrivalStep | src/atolla/sink.cpp:340-371 | a number below n changes nothing, another appends s + 1 - n filled copies |
| Session.ShowKeepsInv | src/atolla/sink.cpp:160-198 | showing moves frames from the queue to the shown, in order, and makes the last of them the current one |
| Session.ShowKeepsClock | src/atolla/sink.cpp:181-191 | the virtual clock moves by one duration per frame shown, unless it reads as "no time set" |
| Session.AsideChangesNothing | src/atolla/sink.cpp:242-276 | keepalives, silence that is not too long, messages of strangers and unexpected messages leave queue, index, clock and borrower alone |
| Session.SessionRun | src/atolla/sink.cpp:318-371 | the session invariant over every run, and its length |
| SinkSteps.GapLoopEndsIffRoom | src/atolla/sink.cpp:340-351 | the loop reaches the index of the frame if and only if the whole gap fits into the ring, and has then enqueued exactly that many copies; a sink counts as hung in exactly the other case |
| SinkSteps.HangIsReached | src/atolla/sink.cpp:348-351 | a sink just lent, with an empty ring, hangs on the indices 127 and 128 from its borrower |
| SinkSteps.AfterRounds | src/atolla/sink.cpp:361-371 | after k rounds of the loop: min(k, room) copies enqueued and the gap closed by as many |
| SinkSteps.SequenceReconstruction | src/atolla/sink.cpp:340-351 | behind 8-bit indices, n becomes max(n, s + 1) if and only if s is at most 128 ahead, or behind and not mistaken for new; always within the window -127..128, including the start at -1; the index invariant is kept either way |
| SinkSteps.GapIsDistance | src/atolla/sink.cpp:436-446 | the difference the sink computes is the true distance modulo 256, and s mod 256 + 1 at the start |
| SinkSteps.FifoNeverRunsAhead | src/atolla/sink.cpp:340-351 | if numbers only grow, n stays <= s + 1 however many frames in a row are lost |
| SinkSteps.PlaybackClosedForm | src/atolla/sink.cpp:181-191 | the playback loop takes exactly min(n, 0 if e = 0 else (e - 1) / d) frames and ends within one duration of the present or with an empty queue |
| SinkSteps.PlaybackInTrueTime | src/atolla/sink.cpp:181-191 | the same in true time: every frame starts one duration after the one before it, and none before its time |
| Session.SentinelRestartsPlayback | src/atolla/sink.cpp:168-173 | in a session that has shown frames and whose virtual clock reads as "no time set", the next call shows a frame even if none is due and restarts the clock at the present, which is right if and only if a frame is due at just that instant |
| Session.SentinelIsReached | src/atolla/sink.cpp:171-173 | such a session, from a borrow on |
| SinkSteps.CatchUpKeeps | src/atolla/sink.cpp:181-191 | playback changes queue, current frame and virtual clock only |
| SinkSteps.RefusalCodes | src/atolla/sink.cpp:278-359 | for each error code, exactly which request in which state meets it; nothing else is refused |
| SinkRuns.SilenceIsATimeout | src/atolla/sink.cpp:231-236 | after any calls that left the borrow alone, an update that receives nothing ends it, and tells the borrower, if and only if the last datagram of anybody was received more than 1500 ms ago by true time; the frames stay |
| SinkRuns.LentExactlyWhile | src/atolla/sink.cpp:206-359 | over any calls in which the sink does not hang, it stays lent if and only if it receives something from anybody at least every 1500 ms of true time before it finds nothing, no enqueue message is shorter than one colour, and the borrower asks for no terms that cannot be met |
| SinkRuns.StrangerKeepsBorrow | src/atolla/sink.cpp:225-227 | a stranger whose every message is refused keeps a borrow alive for any length of time: borrower, queue and clock stay as they were |
| SinkSteps.RepliesNameTheirCause | src/atolla/sink.cpp:242-276 | the requests of a datagram are answered in order, each at most once, to its sender, under consecutive message ids modulo 2^16, and every refusal carries the id of the request it refuses |
| SinkSteps.IdsAreConsecutive | src/msg/builder.c:71 | all that an update of the sink says, keepalive and timeout included, goes out under consecutive message ids modulo 2^16 |
| SinkSteps.OthersChangeNothing | src/atolla/sink.cpp:278-359 | a request that is neither granted nor an enqueue of the borrower changes nothing but the message id, and at most ends the borrow |
| SinkSteps.AnswerToOne | src/atolla/sink.cpp:396-400 | one request, at most one reply, to the sender, naming the request |
| SinkRuns.ExclusiveBorrow | src/atolla/sink.cpp:206-240 | over any calls during which the sink stays lent: one borrower throughout; every frame that entered the ring is the filled frame of an enqueue message it sent; and what was in the ring followed by what entered it is what left it followed by what is there |
| SinkRuns.BorrowEndsExactlyWhen | src/atolla/sink.cpp:278-359 | a borrow ends if and only if nothing was received for more than 1500 ms of true time, the borrower asked for terms that cannot be met, or an enqueue message shorter than one colour came from anybody; the queue is kept |
| SinkRuns.StrangerCanEndBorrow | src/atolla/sink.cpp:330-338 | whatever the state of a lent sink, a stranger has a message that ends the borrow |
| SinkRuns.ErrorIsForever | src/atolla/sink.cpp:142-152 | no call enters or leaves the state of error, and in it no call changes anything |
| SinkRuns.CallsAreTheirSteps | src/atolla/sink.cpp:200-240 | calls are the sequence of single things they do, so that nothing within a datagram is missed |
| SinkSpec.AcceptableInFrames | src/atolla/sink.cpp:284-291 | a borrow is acceptable if and only if it asks for at most 128 frames of at least 10 ms |
| SinkSpec.GapCloses | src/atolla/sink.cpp:369 | enqueuing one frame closes the gap by exactly one, across the wrap-around and from the start at -1 |
| SinkObject.Sink.constructor | src/atolla/sink.cpp:87-125 | 3 bytes a light, a receive buffer of 1024 bytes, an empty ring for 128 frames, every other field zero, open or in error |
| SinkObject.Sink.SendFailTo | src/atolla/sink.cpp:396-400 | exactly one packet, the printed refusal, to the given endpoint |
| SinkObject.Sink.SendLent | src/atolla/sink.cpp:384-389 | exactly one packet, the printed lent message, to the borrower, and its time |
| SinkObject.Sink.HandleBorrow | src/atolla/sink.cpp:278-316 | grants, refuses or ignores as specified, with the bytes sent |
| SinkObject.Sink.Enqueue | src/atolla/sink.cpp:361-371 | one filled frame joins the queue held by the byte ring and the index advances, or neither when the ring is full |
| SinkObject.Sink.FillGap | src/atolla/sink.cpp:340-351 | the loop over the byte ring ends and has done in one step what the closed form says |
| SinkObject.Sink.HandleEnqueue | src/atolla/sink.cpp:318-359 | every branch, in the order of the code's checks, with the bytes sent |
| SinkObject.Sink.HandleMsg | src/atolla/sink.cpp:246-274 | dispatch on the bytes at the cursor is handling of the decoded request |
| SinkObject.Sink.IterateRecvBuf | src/atolla/sink.cpp:242-276 | the byte loop is the fold of abstract steps over the decoded messages: same state, same packets, and it ends |
| SinkObject.Sink.Receive | src/atolla/sink.cpp:206-240 | at most one datagram, or the timeout |
| SinkObject.Sink.Send | src/atolla/sink.cpp:373-382 | the keepalive, if due |
| SinkObject.Sink.State | src/atolla/sink.cpp:142-152 | a whole update refines its specification on state, ring and packets, and the state is told |
| SinkObject.Sink.PlayUntil | src/atolla/sink.cpp:181-191 | the playback loop over the byte ring ends and refines the abstract one |
| SinkObject.Sink.Get | src/atolla/sink.cpp:160-198 | the answer is true if and only if the sink is lent and has shown a frame since the borrow or holds one; then the caller's buffer is the due frame repeated over all of it, otherwise it is untouched; the queue moves as specified |
| RingSpec.RingRefinesFifo | src/mem/ring.c:24-72 | over any interleaving of fixed-size enqueue, dequeue, drop and peek, across wrap-around, an aligned ring answers as a FIFO of frames and stays aligned |
| RingSpec.NeverFaultsIffDivides | src/mem/block.c:35 | the slice bound holds in all runs of fixed-size operations on an empty ring if and only if the frame size divides the capacity, or exceeds it |
| RingSpec.EnqueueRefines | src/mem/ring.c:57-72 | enqueuing appends one frame, or refuses and changes nothing |
| RingSpec.DequeueRefines | src/mem/ring.c:24-55 | dequeue, drop and peek deliver the oldest frame, or refuse and change nothing |
| Ring.MemRing.constructor | src/mem/ring.c:5-10 | an empty ring of the given capacity |
| Ring.MemRing.IsEmpty | src/mem/ring.c:19-22 | true exactly when something is held, contrary to its name |
| Ring.MemRing.Peek | src/mem/ring.c:24-34 | the place of the oldest bytes; nothing changes |
| Ring.MemRing.Dequeue | src/mem/ring.c:36-47 | the oldest bytes are copied out and discarded, the rest of the output is untouched; on refusal everything is |
| Ring.MemRing.Drop | src/mem/ring.c:49-55 | the oldest bytes are discarded; refusal changes nothing |
| Ring.MemRing.Enqueue | src/mem/ring.c:57-72 | bytes are copied behind the youngest; refusal changes nothing |
| Memory.MemBlock.Resize | src/mem/block.c:45-56 | the bytes asked for are available and never exceed the allocation; memory is replaced only when too small |
| Pattern.FillWithPattern | src/atolla/sink.cpp:413-434 | target[i] = pattern[i mod length] for all of the target; ends; an empty pattern changes nothing |
| Pattern.RepeatedTwice | src/atolla/sink.cpp:361-371 | filling twice: the outer index modulo the frame length, then modulo the pattern length |
| Wire.StreamRoundTrip | src/msg/builder.c:56-129 | any list of messages, printed and concatenated, is parsed to exactly that list, every field and the whole frame, and the parser stops exactly at the end |
| Wire.SplitCoversBuffer | src/msg/iter.c:22-32 | conversely, printing what was parsed gives the buffer back, and each message takes at least 5 bytes |
| Wire.ReadIsHostIndependent | src/mem/uint16le.h:16-17 | both host byte orders read the same number from the same bytes |
| Wire.ViewOfPrinted | src/msg/builder.c:77-129 | the payload of each kind of message holds its fields, and the frame length that the parser ignores is right |
| Wire.PrintedBytes | src/msg/builder.c:56-129 | the literal bytes of each kind of message, low byte first, type bytes 0, 1, 2 and 255; a frame of up to 65532 bytes can be printed |
| Builder.MsgBuilder.Build | src/msg/builder.c:56-75 | the block holds exactly the framed message under the next id, which advances modulo 2^16 |
| Builder.MsgBuilder.Borrow | src/msg/builder.c:77-86 | the block holds exactly the printed borrow message |
| Builder.MsgBuilder.Lent | src/msg/builder.c:88-93 | the block holds exactly the printed lent message |
| Builder.MsgBuilder.Enqueue | src/msg/builder.c:95-114 | the block holds exactly the printed enqueue message with the whole frame |
| Builder.MsgBuilder.Fail | src/msg/builder.c:116-129 | the block holds exactly the printed fail message |
| Builder.MsgBuilder.SetUint16 | src/msg/builder.c:142-152 | two bytes, low one first, and no others |
| Builder.MsgBuilder.SetData | src/msg/builder.c:154-171 | length and bytes, and nothing else |
| Iter.MsgIter.constructor | src/msg/iter.c:9-20 | the cursor is at the first message of the buffer |
| Iter.MsgIter.Next | src/msg/iter.c:27-33 | the cursor moves by one whole message, at least 5 bytes; the messages left are the tail of the list |
| Iter.MsgIter.Type | src/msg/iter.c:35-42 | the type of the first message left |
| Iter.MsgIter.MsgId | src/msg/iter.c:44-52 | its id, on either host |
| Iter.MsgIter.PayloadLength | src/msg/iter.c:54-62 | its payload length, on either host |
| Iter.MsgIter.BorrowFrameLength | src/msg/iter.c:77-82 | the frame duration asked for |
| Iter.MsgIter.BorrowBufferLength | src/msg/iter.c:84-89 | the buffer length asked for |
| Iter.MsgIter.EnqueueFrameIdx | src/msg/iter.c:91-96 | the frame index |
| Iter.MsgIter.EnqueueFrame | src/msg/iter.c:98-103 | the slice of the buffer that holds the frame, within bounds |
| Iter.MsgIter.FailOffendingMsgId | src/msg/iter.c:105-115 | the id of the message that caused the failure, on either host |
| Iter.MsgIter.FailErrorCode | src/msg/iter.c:117-124 | the error code |
| Clock.ElapsedIsTrue | src/atolla/source.cpp:296-298 | a modular difference of readings is the true elapsed time if and only if that is below 2^32 |
| Clock.SignedDifference | src/atolla/source.cpp:211 | a modular difference read as signed is the true one within 2^31 either way |
| SourceRuns.Pacing | src/atolla/source.cpp:216-258 | over every run: puts <= M + floor((now - first put) / d), plus at most one frame that follows a failure; while open, the ready count is exactly M - puts + floor((t - first put) / d) and not negative |
| SourceRuns.PacingStep | src/atolla/source.cpp:216-258 | every update and every put keeps last_frame_time = first put + (puts - M) d modulo 2^32, not after now |
| SourceRuns.WakesInTime | src/atolla/source.cpp:227-233 | whoever sleeps as long as asked wakes at least one duration after the last frame |
| SourceRuns.SentinelForgetsPuts | src/atolla/source.cpp:245-254 | a pacer that reads as "no time set" offers all M frames again, which is too many if and only if fewer than `puts` durations have passed since the first put |
| SourceRuns.SentinelIsReached | src/atolla/source.cpp:245-247 | for any settings there is an instant at which the first put leads there |
| SourceRuns.CountPromisesTimeout | src/atolla/source.h:149-159 | while open, a non-zero ready count implies that every later timeout before the next put is 0 |
| SourceRuns.TimeoutPromisesCount | src/atolla/source.h:161-168 | while open, waiting out a timeout makes the ready count positive |
| SourceRuns.CountAt | src/atolla/source.cpp:182 | the ready count is positive if and only if a whole duration has passed since the last frame |
| SourceRuns.CountExceedsBuffer | src/atolla/source.cpp:182 | over every run, while open: the ready count exceeds M if and only if puts + 1 durations have passed since the first put |
| SourceRuns.CountDoesExceedBuffer | src/atolla/source.cpp:182 | it does so two durations after the only put of a run, for any settings with (M + 1) d below 2^31 ms |
| SourceRuns.TimeoutAt | src/atolla/source.cpp:206-212 | the timeout is what is left of one duration, or 0 |
| SourceRuns.SendOrder | src/atolla/source.cpp:235-243 | in every run all borrows precede all enqueues, and the i-th enqueue sent carries i mod 256 |
| SourceRuns.BoundedBorrowing | src/atolla/source.cpp:292-312 | in every run at most 1 + floor(disconnect timeout / (retry timeout + 1)) borrows are sent |
| SourceRuns.BoundedBorrowingInSpec | src/atolla/source.cpp:105-108 | the same in the settings a caller gives, 100 ms and 750 ms standing for zeros |
| SourceRuns.CreationOutcome | src/atolla/source.cpp:64-115 | after creation the settings are those of the spec, with 16 frames, 100 ms and 750 ms for zeros; if it succeeded the source waits and has sent one borrow with these terms, if not it is in error, has a message and has sent nothing |
| SourceRuns.NotOpenNotReady | src/atolla/source.cpp:157-198 | a source that is not open after the update has ready count 0 and timeout -1, so that a count above 0 means that it is open |
| SourceRuns.PutIsTakenIff | src/atolla/source.cpp:216-258 | a put answers true if and only if the source is open after its second update and the frame can be sent; then the frame is sent once and last, under the next index, and otherwise no frame is |
| SourceRuns.NotOpenTakesNothing | src/atolla/source.cpp:222-225 | a source that is not open and hears nothing takes no frame and sends none |
| SourceRuns.IdsAdvance | src/msg/builder.c:71 | all that a source sends goes out under the next message id modulo 2^16, which a message takes even when it cannot be sent |
| SourceRuns.SourceLifecycle | src/atolla/source.cpp:323-403 | in every run: error is never left, waiting never entered again, error has a message, open has a time at which it was last lent to and, until the first frame is put, "no time" for the last frame |
| SourceRuns.UpdateOutcome | src/atolla/source.cpp:267-321 | exactly when an update opens the source, leaves it waiting, makes it fail or asks to borrow again |
| SourceRuns.NewsOf | src/atolla/source.cpp:323-383 | a datagram fails the source if and only if anything in it is not a lent message; otherwise any message in it opens or refreshes it |
| SourceRuns.TermsFitIntoBytes | src/atolla/source.cpp:260-265 | a borrow carries the source's settings if and only if both fit into a byte |
| SourceRuns.PutIsItsEvents | src/atolla/source.cpp:216-258 | a put is two updates, and if they find the source open a third, a sleep and the sending |
| SourceSpec.HearAllFrame | src/atolla/source.cpp:385-403 | receiving touches the connection only and cannot lead back to waiting |
| SourceSpec.StillWaiting | src/atolla/source.cpp:294-305 | a source that still waits does so within the disconnect timeout, by true time |
| SourceObject.Source.constructor | src/atolla/source.cpp:64-115 | settings with their defaults, the first borrow sent, or failure |
| SourceObject.Source.SendBorrow | src/atolla/source.cpp:260-265 | exactly one packet, the printed borrow, and its time |
| SourceObject.Source.Lent | src/atolla/source.cpp:385-397 | opens a waiting source, refreshes an open one, leaves a failed one |
| SourceObject.Source.Fail | src/atolla/source.cpp:399-403 | the state of error, with a message |
| SourceObject.Source.HandleAndAdvance | src/atolla/source.cpp:327-381 | handling the message at the cursor and moving on preserves the fold over what is left |
| SourceObject.Source.IterateRecvBuf | src/atolla/source.cpp:323-383 | the byte loop is the fold over the decoded messages, and it ends |
| SourceObject.Source.Receive | src/atolla/source.cpp:274-290 | at most one datagram is consumed |
| SourceObject.Source.ManageBorrowPacketLoss | src/atolla/source.cpp:292-312 | times out, borrows again or does nothing as specified |
| SourceObject.Source.EnsureLentResent | src/atolla/source.cpp:314-321 | fails an open source that was not lent to for the disconnect timeout |
| SourceObject.Source.Update | src/atolla/source.cpp:267-272 | a whole update refines its specification on state and packets |
| SourceObject.Source.State | src/atolla/source.cpp:138-145 | an update, then the state |
| SourceObject.Source.HasErrorMsg | src/atolla/source.cpp:147-155 | there is a message exactly in the state of error |
| SourceObject.Source.AwaitMakeCompletion | src/atolla/source.cpp:117-127 | the blocking loop ends in open or error, after exactly the rounds up to the first that stops waiting, and after at most (disconnect timeout + longest round) / 5 + 1 rounds |
| SourceObject.Source.PutReadyCount | src/atolla/source.cpp:157-185 | an update, then the count, with the conversions of the code |
| SourceObject.Source.PutReadyTimeout | src/atolla/source.cpp:187-214 | an update, then the timeout, with the conversions of the code |
| SourceObject.Source.SendFrame | src/atolla/source.cpp:235-257 | one packet with the whole frame under the next index, and the pacer moved; nothing but the message id moves if sending fails |
| SourceObject.Source.Put | src/atolla/source.cpp:216-258 | a whole put refines its specification on state, packets and answer |

## Left out

- UDP sockets and addresses: an abstract network and endpoints with plain equality; the outcome of binding, resolving and sending is a parameter, except that replies of the sink and borrows are taken to be sent, since the code ignores whether they were.
- Clocks and sleeping: readings are parameters; a sleep lasts at least as long as asked. Repeated readings while one datagram is handled are one reading.
- Allocation failure, freeing and leaks: `mem_block_free`, `mem_ring_free` and the `free` functions of both endpoints; `mem_block_make` and `mem_block_slice` are ranges of arrays with the bound of `mem_block_slice` as `Fault`.
- Malformed datagrams: the byte loops demand whole messages of known types with the fields they are read for, which is what the code's assertions and reads demand.
- Texts of error messages: only whether there is one.
- Preconditions of creation that the code asserts (ports within 16 bits), and the value an uninitialised field has before it is first assigned: such a field is `Unset`.
- A `frame_duration_ms` of zero: dividing by it is left to the precondition `frameMs > 0` of the ready count and timeout, as is a frame too large for one message in a put. In the composed system frames also fit into the receive buffer of the sink.
- In the composed system calls of the two endpoints do not overlap, except that the sink may act while a put sleeps; a datagram there carries one message, as those of the two endpoints do; the sink's byte loop over several messages is proved for the sink alone.
- Overflow.NoOverflow: assumes that neither virtual clock passes through the instant that reads as "no time set", that strangers neither borrow the sink nor leave frames in its ring, and that the sink is not left alone for 2^32 ms.
- EndToEnd.ShownIsFirstReceived: assumes that no 128 frames in a row are lost, beyond which an 8-bit index does not determine the number (`SinkSteps.SequenceReconstruction`).
- Timing.ShownOnTime: assumes that no frame is asked for while the virtual clock reads as "no time set", nor a whole revolution of the clock after the last one was due.
- Session.SessionContent: assumes that every gap fits into the ring, which `Overflow.FrameFits` proves for the composed system; its clause on the virtual clock, that this does not read as "no time set".
- SourceRuns.Pacing: assumes that the pacer's clock does not read as "no time set"; `SourceRuns.SentinelForgetsPuts` shows why.
- SourceRuns.BoundedBorrowing: assumes that an update of a waiting source comes less than 2^32 ms after its first attempt to borrow.
- Rules of the protocol document that the code does not implement: a frame length of zero that shows at once, and repeating the last colour.
- Examples, their graphics and colours, tests, build scripts.
