# A verified model of pgr

pgr records the traffic of a PostgreSQL server from inside it (a C extension) and replays,
analyses and compares the recordings (a Rust tool).  This project models the parts of it whose
correctness is hardest to see and proves what they are for:

- **Recording.**  `Ring` is the shared-memory ring with any number of producers and one consumer,
  split into atomic steps; `Channel` is the protocol by which at most one worker consumes it, and
  the worker's file; `Capture`, `Cutover` and `Hooks` are the cut-over that splits all
  transactions at one synchronisation point; `CaptureFormat`, `CaptureBuffer` and `CaptureReader`
  are the file format with its writer and reader.  `Pipeline` puts ring, file and reader together.
- **Replay.**  `Frames` builds and cuts protocol frames and checks them against a reference reader
  of the frontend protocol (section 55.7, "Message Formats", of the PostgreSQL 16 manual);
  `Stream` is the byte queue and the outbound path; `Client` is a replaying connection;
  `Session` says what one client may see of a replay, and `Loop` is the scheduler that is shown
  to do nothing else.  `Replay` puts them together: what is sent to a server is the handshake
  and then the capture, and what a socket has taken is a prefix of that.
- **Analysis.**  `Storage` is the query store and the chunk table; `Analyzer` is the lazy join of
  capture and trace; `Compare` is the greedy alignment of capture and replay timings.

Protocols are state machines over explicit states, with an invariant kept by every step and
theorems over every run.  Objects and loops of the source are classes and methods whose contracts
tie the new state to a function of the old one; those functions carry the theorems.
`Bytes` and `Wrappers` hold the shared vocabulary.  `dafny verify dfyconfig.toml` checks everything.

Results that are not what one might expect:

- The lazy join loses rows when a client's traces come out of order: `Analyzer.OutOfOrderLoses` is
  such an input, and `Analyzer.LazyIsEager` says exactly when nothing is lost.
- The range of rows served for a range of chunks is contiguous even if the rows' times go back.
  `Storage.RangeIsExact` says which rows it is; `Storage.ExactIffInOrder` that every request is
  exact if and only if the rows' chunks never go back; `Storage.OutOfOrderIsMissed` is an input
  with a row that is missed.
- A frame whose length field is below four makes the replay client panic: `Client.ShortFramePanics`
  is such an input, `Client.FeedIs` and `Client.FeedAllIs` say from the bytes alone when it happens
  (also behind whole frames, unless one of these has killed the connection before), and
  `Loop.ReplayLoop.HandleEvent` carries the condition to the event loop.

## Model

| member | source | states |
|---|---|---|
| Bytes.LERoundTrip | src/capture.rs:108-118 | a little-endian integer that fits its width is read back |
| Bytes.BERoundTrip | src/proto.rs:81-91 | a big-endian integer that fits its width is read back |
| Ring.PoppedIsPrefix | extension/src/ring.c:16-80 | in every interleaving of any number of producers and the consumer, what was popped is byte for byte a prefix of what was reserved, in lock order |
| Ring.RefusedIffNoRoom | extension/src/ring.c:22-26 | a push is refused if and only if as many messages are unread as there are headers, as the producer saw the head, or the bytes of the kept messages and the new one do not fit the buffer, both measured on the log |
| Ring.RegionsApart | extension/src/ring.c:22-33 | reserved, unconsumed messages lie end to end within one buffer length, share no place in the ring, the unsigned free-space test cannot wrap, and the next header is not ready |
| Ring.ReadyMeansPublished | extension/src/ring.c:49-64 | the consumer finds a message exactly when the oldest reserved one is published; a buffer as large as every message never stalls it |
| Ring.CopyInTouchesOwn | extension/src/ring.c:37-42 | a byte copied by one producer changes no byte of any other kept message |
| Ring.CopyPosWraps | extension/src/ring.c:37-42 | the two-part copy is addition around the ring |
| Ring.WrapIsMod | extension/src/ring.c:28-37 | the wrap used in the model is the remainder |
| Ring.ReserveKeeps | extension/src/ring.c:22-35 | reserving under the lock keeps the ring invariant, although dtail is read later than htail |
| Ring.PublishKeeps | extension/src/ring.c:44-45 | publishing a fully copied message keeps it |
| Ring.PopClearKeeps | extension/src/ring.c:73 | clearing ready before the tails move keeps it |
| Ring.PopFreeKeeps | extension/src/ring.c:75 | moving dtail before htail keeps it: producers may already reuse the bytes |
| Ring.PopAdvanceKeeps | extension/src/ring.c:76 | moving htail keeps it: the header slot is free and not ready |
| Ring.StepKeeps | extension/src/ring.c:16-80 | every atomic step of anyone keeps the invariant |
| Ring.MpscRing.RingInit | extension/src/ring.c:3-14 | the initial ring |
| Ring.MpscRing.Reserve | extension/src/ring.c:22-35 | the in-place reservation is the model's step, and succeeds if and only if the log leaves room |
| Ring.MpscRing.CopyInAll | extension/src/ring.c:37-42 | a producer's copy, in place, leaves everything else as it was |
| Ring.MpscRing.RingPush | extension/src/ring.c:16-47 | a whole push: refused if and only if the log leaves no room, otherwise logged and published |
| Ring.MpscRing.Take | extension/src/ring.c:59-76 | the copy out gives exactly the oldest message and frees its place |
| Ring.MpscRing.RingPop | extension/src/ring.c:49-80 | which of the three results a pop has, and what it appends to the popped messages |
| Channel.OneConsumerNeverNone | extension/src/channel.c:75-229 | however starts, stops and exits race, at most one process consumes, and a running channel with no start under way has a worker that is not leaving |
| Channel.LeavesIfStopped | extension/src/channel.c:75-97 | a worker that looks while the channel runs goes on; one that looks after a stop is gone once cleaned up, and the slot is free |
| Channel.StartBringsWorker | extension/src/channel.c:148-199 | a start on a channel without a worker ends with that worker consuming |
| Channel.StepKeeps | extension/src/channel.c:85-229 | every step of the slot protocol keeps its invariant |
| Channel.RecordedSnoc | extension/src/channel.c:54-73 | what the file becomes depends only on the popped messages, one at a time |
| Channel.WorkerFile.Keep | extension/src/channel.c:60-67 | the file opens on the first message of the opening type while the channel runs, and every later message is appended |
| Channel.WorkerFile.WriteEvents | extension/src/channel.c:54-73 | draining pops until the oldest reserved message is unpublished or there is none, and writes exactly what was popped, opening rule included, even if the channel is stopped in between |
| Capture.CountersExact | extension/src/shmem.c:25-66 | over every run: open_xacts counts the open transactions, pending_xacts the earlier ones while a capture runs, no generation is granted its point twice, and the running one has it exactly when all earlier transactions have left |
| Capture.EnterCounted | extension/src/shmem.c:45-53 | entering keeps the counters exact |
| Capture.LeaveCounted | extension/src/shmem.c:55-66 | a leave grants exactly when it is the last earlier transaction |
| Capture.StartCounted | extension/src/shmem.c:25-35 | a start grants at once exactly when no transaction is open |
| Cutover.NoTransactionIsHalfCaptured | extension/src/hooks.c:101-177 | over every run of any backends, starts and stops: a client's part of the channel is nothing or its connect record and an unbroken run of its messages from the start of a transaction; every ended transaction is before the point and left nothing, or after it and whole; the point is written once, first, exactly when no earlier transaction is left; the connect record names the session exactly if the snapshot at the start of its first transaction succeeded and the backend did not join within its first statement after the point |
| Cutover.SnapshotIsNamed | extension/src/hooks.c:94-143 | which snapshot a connect record names, from the outcomes of the snapshots and the statement in which the backend joined, over every run |
| Cutover.MessageLocal | extension/src/hooks.c:101-152 | one message, gated and recorded or not, keeps its backend's history unbroken |
| Cutover.FinishLocal | extension/src/hooks.c:154-173 | a transaction's end puts it on one side of the point |
| Cutover.LiveLocal | extension/src/capture.c:84-98 | a live backend's message extends its run by itself |
| Cutover.BufferingLocal | extension/src/capture.c:84-98 | a message of a backend not yet live is buffered behind those of its transaction |
| Cutover.Reassembled | extension/src/capture.c:113-134 | the channel filtered by a client is what that client pushed, after a step of any backend |
| Cutover.StartKeeps | extension/src/shmem.c:20-39 | a new generation starts with an empty channel and nobody joined |
| Cutover.StepKeeps | extension/src/hooks.c:101-177 | every step keeps the system's invariant |
| Hooks.SharedMemory.XactEnterShared | extension/src/shmem.c:45-53 | the object's method is the model's enter |
| Hooks.SharedMemory.XactLeaveShared | extension/src/shmem.c:55-66 | the object's method is the model's leave |
| Hooks.SharedMemory.CaptureStart | extension/src/shmem.c:20-39 | the object's method is the model's start with its grant |
| Hooks.SharedMemory.CaptureSyncLsn | extension/src/capture.c:136-144 | the point is appended and wal_ready set |
| Hooks.BackendProcess.CaptureGate | extension/src/hooks.c:101-152 | the gate on the file-level variables is the model's gate, session snapshot included |
| Hooks.BackendProcess.GoLiveNow | extension/src/capture.c:113-134 | going live pushes the connect record and the buffer, in order, and empties it |
| Hooks.BackendProcess.HookMessage | extension/src/hooks.c:214-296 | gate and record together are the model's message step |
| Hooks.BackendProcess.TxFinishNow | extension/src/hooks.c:154-177 | the end of a transaction on the file-level variables is the model's |
| CaptureFormat.ReadPrefix | src/capture.rs:129-216 | from any byte prefix of any encoded list the reader returns exactly the messages wholly in it, then the end of the stream; from the whole encoding the whole list |
| CaptureFormat.ReadMessageAt | src/capture.rs:140-215 | every message type with its fields in range is read back wherever it stands |
| CaptureFormat.CutOffMessage | src/capture.rs:134-137 | a message cut anywhere reads as the end of the stream, never as another message |
| CaptureFormat.MessageSettled | src/capture.rs:140-215 | what has been read does not change when more bytes follow |
| CaptureFormat.WholeIsMost | src/capture.rs:129-138 | the messages counted as whole are as many as fit |
| CaptureFormat.SampleBind | extension/src/capture.c:171-203 | the bytes of a bind with a value and a NULL, and the byte order of every width |
| CaptureFormat.SampleParse | extension/src/capture.c:151-163 | the bytes of a parse with two types |
| CaptureFormat.SampleExecute | extension/src/capture.c:205-210 | the bytes of an execute with a negative limit |
| CaptureFormat.SampleClose | extension/src/capture.c:226-231 | the bytes of a close |
| CaptureFormat.SampleTxEnd | src/capture.rs:198-202 | the bytes of a transaction end |
| CaptureFormat.SampleShort | extension/src/capture.c:113-169 | the bytes of the records with no or one field |
| CaptureBuffer.CaptureBuffer.CapRaw | extension/src/capture.c:23-30 | the buffer takes all of an item or none of it and of what follows |
| CaptureBuffer.CaptureBuffer.CapEnd | extension/src/capture.c:84-98 | what is handed on, and that an overflowed message is dropped whole |
| CaptureBuffer.CaptureBuffer.CaptureConnect | extension/src/capture.c:113-117 | the connect record is the encoding, or dropped if too large |
| CaptureBuffer.CaptureBuffer.CaptureLsn | extension/src/capture.c:136-142 | the synchronisation record is the encoding |
| CaptureBuffer.CaptureBuffer.CaptureDisconnect | extension/src/capture.c:146-149 | likewise for a disconnect |
| CaptureBuffer.CaptureBuffer.CaptureParse | extension/src/capture.c:151-163 | likewise for a parse, absent names and types included |
| CaptureBuffer.CaptureBuffer.CaptureSimpleQuery | extension/src/capture.c:165-169 | likewise for a simple query |
| CaptureBuffer.CaptureBuffer.CaptureBind | extension/src/capture.c:171-203 | likewise for a bind with formats, parameters and NULLs |
| CaptureBuffer.CaptureBuffer.CaptureExecute | extension/src/capture.c:205-210 | likewise for an execute, negative row limits as 64-bit values |
| CaptureBuffer.CaptureBuffer.CaptureSync | extension/src/capture.c:212-215 | likewise for a sync |
| CaptureBuffer.CaptureBuffer.CaptureClose | extension/src/capture.c:226-231 | likewise for a close |
| CaptureBuffer.EmittedIsReadable | extension/src/capture.c:15-30 | a message that fits the 1 MiB buffer has exact length fields, no length taken for NULL, and is read back |
| CaptureBuffer.TxBuffer.Add | extension/src/capture.c:65-82 | the buffer holds the length-prefixed messages, or has overflowed for good |
| CaptureBuffer.TxBuffer.Reset | extension/src/capture.c:100-111 | empty and not overflowed |
| CaptureBuffer.TxBuffer.Flush | extension/src/capture.c:119-133 | the flush gives back exactly the buffered messages in order if with their lengths they fit 64 MiB, and none otherwise |
| CaptureReader.CaptureReader.Open | src/capture.rs:75-96 | a capture that does not start with a synchronisation record is refused |
| CaptureReader.CaptureReader.ParseEvent | src/capture.rs:152-165 | the cursor's loop over parameter types reads what the format's function reads |
| CaptureReader.CaptureReader.BindEvent | src/capture.rs:166-192 | likewise for a bind |
| CaptureReader.CaptureReader.ReadOne | src/capture.rs:129-138 | reading one event moves the cursor as the format says; a truncated body is the end, an unknown type an error |
| CaptureReader.CaptureReader.Drain | src/capture.rs:129-216 | reading to the end gives what the format's function gives |
| Pipeline.RecordedFrom | extension/src/channel.c:54-73 | the file is the encoding of the popped messages from the first synchronisation record popped while the capture ran |
| Pipeline.CaptureIsFaithful | extension/src/ring.c:16-80 | for every run of the ring, the capture stopped at any message: the reader of the worker's file, even cut off anywhere, gets a contiguous run of the captured messages, in lock order, from the first synchronisation record popped while it ran, each as captured |
| Pipeline.FileSplitsCleanly | extension/src/hooks.c:101-177 | for every run of backends, starts and stops, with the ring in any interleaving: the reader gets all that was popped, and for every client nothing, or a connect that names a session exactly if its snapshot counts, and then its messages without a gap from the start of a transaction |
| Frames.FrameSettled | src/proto.rs:81-91 | a frame recognised stays recognised as bytes arrive, and is within the buffer |
| Frames.End | src/manager.rs:69-73 | back-patching gives the tag, the length that counts itself, and the body |
| Frames.CutWire | src/proto.rs:81-91 | the concatenation of frames is cut into exactly those frames |
| Frames.EmitSelfDelimiting | src/manager.rs:62-84 | every emitted frame that fits a signed length delimits itself |
| Frames.EmitEvent | src/manager.rs:86-165 | the frames put together step by step, length last, are the model's |
| Frames.EmitMeansTheSame | src/manager.rs:86-165 | an independent reader of the frontend protocol gets from the emitted frame the message the client had sent, row limits clamped and values as text, or for a connect the query that restores its session |
| Frames.SampleParse | src/manager.rs:100-116 | the bytes of a parse frame |
| Frames.SampleBind | src/manager.rs:117-149 | the bytes of a bind frame with a value and a NULL |
| Frames.SampleOthers | src/manager.rs:99-164 | the bytes of the other frames, a negative row limit sent as no limit |
| Frames.RestoreNamesSession | src/manager.rs:90-97 | that query passes the session's name as a quoted literal that reads back as the name |
| Frames.LiteralRoundTrip | src/manager.rs:95 | the session name, quotes doubled, reads back as the literal it was |
| Stream.Stream.MarkRead | src/utils.rs:22-25 | drops that many bytes from the front of the queue, at most all |
| Stream.Stream.MarkReadAll | src/utils.rs:27-30 | empties the queue |
| Stream.Stream.Write | src/utils.rs:36-48 | appends to the queue |
| Stream.Stream.Compact | src/utils.rs:50-58 | changes nothing that can be seen, and bounds the bytes kept for nothing |
| Stream.Outbound.SendFrame | src/client.rs:113-117 | the frame is behind everything sent before |
| Stream.Outbound.WriteOut | src/loop.rs:540-555 | partial, refused, interrupted and failing writes lose and reorder nothing |
| Stream.Outbound.FlushConn | src/loop.rs:534-556 | bytes the socket took, the write stream and the outbox always make up what was sent; a willing socket gets everything |
| Client.HandleFrameIs | src/client.rs:127-173 | only a ready-for-query establishes a connection and sets the flag; only a failing authentication ends one not yet established; an established one answers nothing |
| Client.AuthBytes | src/proto.rs:111-150 | which bytes of the server are answered with which password frame, and which end the connection |
| Client.PasswordBytes | src/proto.rs:181-188 | the password frame: tag, a length that counts itself, the password, a zero |
| Client.StartupBytes | src/proto.rs:164-179 | the startup packet: a length that counts all of it, version 3.0, the parameters, a zero |
| Client.HandleFrameHonest | src/client.rs:127-173 | what has been sent stays the startup packet, one password frame per request before the first ready-for-query, and what was replayed |
| Client.FeedAllKeeps | src/client.rs:189-198 | the same for any reads, and the flag is set exactly if a ready-for-query is among the frames read |
| Client.FeedIs | src/client.rs:189-198 | from the bytes alone: killed exactly by a failing authentication before the first ready-for-query; otherwise alive, the frames in the bytes handled, and a panic exactly on a frame with a length field below four |
| Client.FeedAllIs | src/client.rs:189-198 | the same for any sequence of reads, with what was left over before |
| Client.ShortFramePanics | src/client.rs:191-192 | five bytes that panic any living client |
| Client.FeedLeavesPart | src/client.rs:191-197 | what is left after reading is no whole frame |
| Client.ChunkingIsInvisible | src/client.rs:189-198 | however the server's bytes are cut up by the network, the client ends in the same state having handled the same frames and sent the same answers, a panic included |
| Client.ReplayClient.Auth | src/client.rs:231-260 | the object's answers to authentication requests are the model's |
| Client.ReplayClient.Handle | src/client.rs:127-173 | handling one frame in place is the model's step |
| Client.ReplayClient.Replay | src/client.rs:179-187 | unless established nothing changes; an established connection sends just the bytes, and a terminate is remembered |
| Client.ReplayClient.OnRead | src/client.rs:189-198 | the loop over whole frames is the model's reading of the same bytes |
| Client.ParseErrorFields | src/proto.rs:93-109 | the shrinking loop is the recursive reading |
| Client.FieldsRoundTrip | src/proto.rs:93-109 | any well-formed list of error fields is read back, a repeated one by its last value |
| Client.FieldsAreLast | src/proto.rs:93-109 | severity, code, message, detail and hint are each the last field of that kind the server wrote |
| Client.ZeroAt | src/proto.rs:197-206 | the place of the first zero byte, or the end |
| Session.RunsInOrder | src/loop.rs:255-301 | in a legal log a client's executed commands are a prefix of those accepted, and the rest is its queue |
| Session.BarrierHolds | src/loop.rs:477-482 | between a connect, query or sync and the client's next command a ready-for-query frame of the server was handled or the client was dropped |
| Session.WaitingIsUnanswered | src/loop.rs:359-364 | a client waits exactly if it has connected or sent a query or a sync and no ready-for-query has come since |
| Session.BurstIsMidBatch | src/loop.rs:360-364 | a client is in a batch exactly if the last frame it sent is neither a query nor a sync |
| Session.PaceIsKept | src/loop.rs:326-333 | the first command after the event that brought a ready-for-query frame, unless in a batch, has had the clock moved so that its shifted time is not before that event, and no further than that |
| Session.ShiftIsNeeded | src/loop.rs:326-333 | over every legal log no command is shifted, and no rebase starts, by more than what some earlier command of some client came before its server's ready-for-query |
| Session.PeakIsReached | src/loop.rs:330-333 | the bound on the shift is the largest such wait so far, or zero |
| Session.HeardIsTold | src/loop.rs:471-482 | a session has heard the frames logged for it since its last connect |
| Session.PayloadIsCarried | src/loop.rs:352-377 | what a session has sent is what its executed commands carry since the last connect |
| Session.LegalMeans | src/loop.rs:315-350 | in a legal log every command was next in line, not blocked, within the horizon and, unless in a batch, not before its shifted time; the clock was moved only if it had to be, and then to exactly the ready time |
| Loop.PushAdds | src/loop.rs:279 | the heap keeps duplicates |
| Loop.PushSorted | src/loop.rs:279 | the smallest timer stays in front |
| Loop.EnqueuedKeeps | src/loop.rs:255-282 | a command arriving keeps the invariant: no client that could go on is without a timer that fires in time |
| Loop.CaughtUpKeeps | src/loop.rs:163-173 | the shift only falls and stays within the clock |
| Loop.CatchUpRate | src/loop.rs:163-173 | the shift falls by the catch-up factor times the time passed, less than a microsecond of it kept for later, to zero at most |
| Loop.ShiftMovedKeeps | src/loop.rs:326-333 | moving the clock for a head command makes its shifted time no earlier than the ready-for-query, and moves it only if needed and then exactly to it |
| Loop.ParkKeeps | src/loop.rs:335-338 | a command that is too early gets its timer back |
| Loop.ReplayedSends | src/client.rs:179-187 | an established client sends exactly the bytes the command carries, and nothing else about it changes |
| Loop.FlushIsWriting | src/loop.rs:534-556 | any progress a flush makes is one of the writings the scheduler allows for |
| Loop.RunKeeps | src/loop.rs:339-377 | executing the head command keeps the invariant, whatever connecting and writing come to |
| Loop.ServedKeeps | src/loop.rs:471-489 | reading and flushing a connection keeps the invariant: its log has the frames it handled, and only a ready-for-query among them lifts the barrier |
| Loop.ReadContinues | src/loop.rs:471-473 | what reading and flushing does to a retained connection, and when it panics |
| Loop.GoneKeeps | src/loop.rs:492-510 | a client dropped after losing its connection leaves the others as they were |
| Loop.LostKeeps | src/loop.rs:484-485 | likewise after a refused connect |
| Loop.LosesExactly | src/loop.rs:471-490 | an event loses a connection exactly if a frame kills it, it ends or fails, or writing fails |
| Loop.EventIsHeard | src/loop.rs:474-489 | what an event of a usable connection does, from the bytes read: the log has the frames in them and when, a ready-for-query among them lifts the barrier, the connection is kept exactly if nothing kills, ends or fails it, and everything sent is offered to the socket |
| Loop.EventIsUnheard | src/loop.rs:432-486 | an event of a connection that cannot be used ends it if it is refused and otherwise does nothing |
| Loop.RunIsOffered | src/loop.rs:355-375 | a command run over an open connection is offered to the socket at once |
| Loop.PopKeeps | src/loop.rs:306-311 | only the client whose timer was taken is without one until it is dispatched |
| Loop.NothingLeftBehind | src/loop.rs:303-313 | when no timer is due, no client has a command that could run, and none is stuck in a batch |
| Loop.ReadyClientSends | src/client.rs:179-187 | a retained connection that is not awaiting never drops a frame |
| Loop.ConnectionGetsCommands | src/loop.rs:352-377 | what a connection was given is the startup packet, its answers to the frames logged, and what the commands run carry; the socket has a prefix; the queue is the rest of the commands accepted |
| Loop.ReplayLoop.CatchUp | src/loop.rs:163-173 | the object's method is the model's |
| Loop.ReplayLoop.Enqueue | src/loop.rs:255-282 | the object's method is the model's; only a connect opens a slot |
| Loop.ReplayLoop.Take | src/loop.rs:232-241 | every command is taken once, in order, the one held back first |
| Loop.ReplayLoop.Admit | src/loop.rs:242-251 | a command is held back exactly if it is beyond the horizon, otherwise queued |
| Loop.ReplayLoop.Pull | src/loop.rs:230-253 | pulling keeps the invariant and loses no command; one held back afterwards is still beyond the horizon |
| Loop.ReplayLoop.Execute | src/loop.rs:352-392 | the object's method is the model's |
| Loop.ReplayLoop.Rebase | src/loop.rs:326-333 | the object's method is the model's; the shift rises only if the shifted time would be before the ready time, and then exactly to it |
| Loop.ReplayLoop.TryDispatch | src/loop.rs:315-350 | it ends; the client has run everything it may run now and has its timer back; no other client is touched, the shift is not lowered and no due timer added |
| Loop.ReplayLoop.DispatchReady | src/loop.rs:303-313 | it ends, and afterwards no timer is due and nothing that could run is left |
| Loop.ReplayLoop.Serve | src/loop.rs:471-489 | the object's handling of what was read is the model's, the dead connection dropped |
| Loop.ReplayLoop.HandleEvent | src/loop.rs:423-490 | what each kind of event does to the client, after which it runs everything it may; nothing else changes, the invariant is kept; it panics exactly if behind whole frames, in the bytes left over and read, stands one with a length field below four and no frame killed the connection first |
| Loop.ReplayLoop.FinishClients | src/loop.rs:284-301 | every remaining client is told to end, once, behind its queue |
| Loop.ReplayLoop.Run | src/loop.rs:191-220 | any number of rounds with any events keeps the invariant, hence a legal log; when the loop ends by itself every command was received and every client is closed |
| Replay.CommandsInOrder | src/manager.rs:207-216 | commands are handed over in the order of their times, each made from a captured message of its client |
| Replay.ClientAsks | src/manager.rs:86-223 | read by the protocol's rules, a client's commands are exactly what its captured messages mean, in order and with their times: each connect dials and asks for its session directly after, every other message that means something says just that, none is left out or added |
| Replay.LatestIs | src/manager.rs:207-213 | the time of a command is the largest scaled time of the messages so far |
| Replay.ScaledIs | src/manager.rs:212 | a scaled time is the time since the start divided by the speed, rounded down |
| Replay.Replay | src/manager.rs:207-223 | the loop sends the commands of all messages; Replay.ClientAsks says what those are |
| Replay.CarriedIsWire | src/loop.rs:352-377 | what executed commands carry is their frames one after the other, a terminate added only if none was sent |
| Replay.FramesAreSaid | src/loop.rs:352-377 | the frames sent since the last connect, read by the protocol's rules, are what was asked since dialling last, leaving with a terminate unless one was said |
| Replay.GivenAreLatest | src/loop.rs:255-270 | the commands accepted since a slot was created are the latest of the client's, none skipped |
| Replay.RecordedIsSendable | src/manager.rs:69-165 | the frame of any message that fits the recorder's 1 MiB buffer fits its signed length field |
| Replay.ServerSeesTheCapture | src/manager.rs:86-223 | in every state of the scheduler, a connection was given its startup packet, its answers to the server, and then exactly the frames of the commands run since its last connect; the socket took a prefix of it; the commands run are a stretch of what the client's captured messages ask for, and the server reads from the frames just what was said in it since dialling last |
| Replay.ComparedAsReplayed | src/compare.rs:163-177 | the comparison expects of each captured message exactly the commands its replay makes |
| Storage.QueriesRoundTrip | src/viewer.rs:95-125 | any list of offsets given out for texts reads back as the entries of those texts, in order |
| Storage.FetchEntry | src/viewer.rs:97-122 | one entry is read back whole, whatever follows |
| Storage.SampleEntry | src/analyzer.rs:77-83 | the bytes of a stored text with one parameter type |
| Storage.ReadQueries | src/viewer.rs:95-125 | the loop is the recursive reading, errors included |
| Storage.TableMore | src/analyzer.rs:143-148 | a row added keeps every chunk's start the first row at or beyond it and its duration the maximum |
| Storage.ChunkBounds | src/analyzer.rs:143 | chunk c has the rows of the c-th stretch of the chunk's width in seconds, and no others |
| Storage.FileReads | src/viewer.rs:27-35 | the counts and starts written by finish are read where the viewer looks |
| Storage.SampleChunkFile | src/analyzer.rs:153-167 | the bytes of a chunks file with one chunk |
| Storage.RangeIsExact | src/viewer.rs:26-45 | a row is served exactly if a row up to it has reached the first chunk and none up to it is beyond the last, requests clamped |
| Storage.RangeOfOrdered | src/viewer.rs:26-45 | for rows in time order exactly the rows of the chunks asked for |
| Storage.ExactIffInOrder | src/viewer.rs:26-45 | every range of existing chunks is served exactly if and only if the rows' chunks never go back |
| Storage.LaterRowIsMissed | src/viewer.rs:26-45 | a row after one of a later chunk is missed when just its chunk is asked for |
| Storage.OutOfOrderIsMissed | src/viewer.rs:26-45 | an input with a missed row |
| Storage.StorageWriter.MapQuery | src/analyzer.rs:68-87 | each text is stored once and keeps its place |
| Storage.StorageWriter.WriteParams | src/analyzer.rs:89-132 | the place moves on by the accounted size |
| Storage.StorageWriter.WriteTrace | src/analyzer.rs:134-151 | the row is appended and the chunk table stays exact |
| Storage.StorageWriter.Finish | src/analyzer.rs:153-167 | the chunks file |
| Analyzer.ViewOrdered | src/analyzer.rs:223-304 | a client's explained frames are in the order of their numbers |
| Analyzer.ViewGrows | src/analyzer.rs:223-304 | reading on adds only later frames |
| Analyzer.FramesAre | src/analyzer.rs:223-304 | a client's frame number is the number of its simple queries, parses, binds and executes so far |
| Analyzer.StatementIs | src/analyzer.rs:241-249 | a statement name stands for the query of the client's last parse of that name |
| Analyzer.PortalIs | src/analyzer.rs:263-279 | a portal stands for the client's last bind of that name to a parsed statement, and for that statement's text then |
| Analyzer.InfosAre | src/analyzer.rs:223-304 | an explained frame is a message of the client with its number, time and text: its own for a query or parse, for a bind that of the last parse of its statement, for an execute that of the last explained bind of its portal; there are no others |
| Analyzer.ResolveIs | src/analyzer.rs:199-221 | a trace finds an info exactly if a message of its client tells it |
| Analyzer.LateMeans | src/analyzer.rs:199-221 | a trace is late exactly if an earlier trace of its client asked for a later frame that the capture has |
| Analyzer.RowMeans | src/analyzer.rs:307-363 | a trace gets a row, and of which info, said of the capture and the traces alone |
| Analyzer.TypesAreFirst | src/analyzer.rs:68-87 | just the texts of the messages read are stored, each with the types of the first message that brought it |
| Analyzer.FrontDecides | src/analyzer.rs:199-221 | the front of the queue is the asked frame exactly if the whole capture explains it and nothing later was asked before |
| Analyzer.LazyIsEager | src/analyzer.rs:307-363 | the lazy rows are the eager ones exactly if no explained trace is late |
| Analyzer.InOrderIsEager | src/analyzer.rs:307-363 | traces in the order of their client's frames get every row |
| Analyzer.OutOfOrderLoses | src/analyzer.rs:199-207 | an input for which a row is lost |
| Analyzer.RowShowsText | src/viewer.rs:95-125 | a row's query offset reads back the text of its frame |
| Analyzer.Beyond | src/analyzer.rs:333-356 | a frame beyond the capture has no row and spoils nothing |
| Analyzer.Analyzer.OnText | src/analyzer.rs:231-262 | a query or parse is queued under its number, and a name now stands for its text |
| Analyzer.Analyzer.OnBind | src/analyzer.rs:263-287 | a bind uses the statement in force and its portal stands for it with its parameters |
| Analyzer.Analyzer.OnExecute | src/analyzer.rs:288-302 | an execute uses the portal in force |
| Analyzer.Analyzer.OnCapture | src/analyzer.rs:223-304 | one message keeps the client in step with the eager view, stores its text and types if the text is new, and the size of the parameters of a bind to a known statement |
| Analyzer.Analyzer.OnTrace | src/analyzer.rs:199-221 | a row is written exactly if the whole capture explains the frame and it is not late |
| Analyzer.Analyzer.Analyze | src/analyzer.rs:307-363 | the rows written, reading the capture only on demand, are exactly those of the lazy join over the whole capture; the store has the texts of the messages read, and the parameters of each bind begin where those before it end |
| Compare.GreedyIsBest | src/compare.rs:111-142 | the greedy alignment matches the longest prefix of the timings that can be embedded in the captured events at all |
| Compare.TallyMeans | src/compare.rs:117-139 | early and late count, sum up and bound the measured pairs whose gap from their anchor in the replay is shorter, or not, than in the capture; the anchor is the last connect or restore query, or else the first measured pair |
| Compare.PairsLater | src/compare.rs:158-160 | a timing that comes later changes no pair already found |
| Compare.StepHeld | src/compare.rs:112-141 | a drain step keeps the client's alignment greedy, its counts and its deviations exact |
| Compare.StepDated | src/compare.rs:124-128 | and its last connect dated from the origin, which is the first matched connect |
| Compare.SettledHeld | src/compare.rs:162-189 | a client all of whose timings are matched has what the whole capture would give |
| Compare.Drain | src/compare.rs:111-142 | one of the two queues is empty, draining again changes nothing, and the origin is set once |
| Compare.AllHeldMoved | src/compare.rs:144-182 | a client that moves on leaves every other aligned and dated from the origin |
| Compare.Comparer.TakeTiming | src/compare.rs:153-160 | a timing keeps every client aligned |
| Compare.Comparer.TakeEvent | src/compare.rs:163-181 | an event, with the query that restores a session, keeps every client aligned |
| Compare.Comparer.Compare | src/compare.rs:144-218 | every client ends with the best alignment of all its timings with all its events and the deviations of those pairs, however clients interleave, its last connect dated from one origin, the first matched connect of some client; leftovers mean the capture was read to its end |

## Left out

Assumptions of the protocol models:

- Memory is sequentially consistent, and the ring's 64-bit counters and the frame and client numbers do not wrap.
- The cut-over takes a commit with its callback as one step, and the writing of the synchronisation point with the leave or start that grants it; the code grants outside the spinlock. `Capture.CountersExact` does not need this.
- In the cut-over no buffer overflows and the channel is never full; what an overflow does is in `CaptureBuffer` and `Ring`. Its transaction buffer is a list of messages, its byte form is `CaptureBuffer.TxBuffer`.
- A second start between a grant and its synchronisation record, or while the worker drains the previous capture, is excluded: the code does not protect against it.
- The worker slot is a state machine and not a class; worker registration succeeds, and a worker does not crash or get a shutdown signal. The worker's file is modelled for one generation: closing it when the generation changes, the last drain after a stop, latches and sleeps are not part of this model.
- Pipeline.FileSplitsCleanly: for one generation whose channel is all the ring has carried, and a capture not stopped before its first message is popped.

Abstractions:

- Text is bytes: the lossy UTF-8 decoding of invalid text is not part of this model.
- Time in the scheduler is a clock of microseconds that never goes back; the sockets, the server, polling and connecting are arbitrary choices or parameters. Of writing it has what the socket took and whether it failed; the two-stage streams are in `Stream`.
- The catch-up factor and the speed are exact reals, results rounded down; the poll's timeout (`next_timeout`) and the lag statistic are not part of this model.
- The timer heap is a sorted list; the clients' maps are values, as Rust owns them.
- Trace times and durations are whole microseconds, and the width of a chunk is a positive real; only the width of the stored floats matters. The hash of a query text has no collisions.
- Analyzer.Analyzer.Analyze: an error reading the trace file is not part of this model; the trace and timing record readers are not either.
- Storage.StorageWriter.WriteParams: only the place of the parameters is modelled, because the writer emits four-byte type numbers but accounts for and reads two-byte ones, so that no round trip holds (src/analyzer.rs:102-108, src/viewer.rs:147-148).
- Compare.Comparer.Compare: the averages and the printed report are not part of this model.
- Replay.Replay: a read error or a scheduler that has gone away ends the loop early; what was sent by then is the same for the shorter capture.
- Replay.ClientAsks: for messages as the recorder makes them, with fields in range and no zero byte inside a string; the last part of `Replay.ServerSeesTheCapture` likewise.
- Replay.ServerSeesTheCapture: frames are assumed to fit a signed 32-bit length; Replay.RecordedIsSendable shows that what the recorder writes does.
- The MD5 exchange is an arbitrary function of password and salt.

Not modelled, because it is input and output or would add only easy members:

- Session dump and restore (extension/src/session.c), tracing and debug sessions, `reserve_id`, the statistics counters, and `capture_tx_end`, which returns at once.
- The exit hook's disconnect record and the psql and backend-type tests in front of the gate.
- The web server, the viewer's parameter reader, the command line, and the waking of the replay thread.
