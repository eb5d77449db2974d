# C-Two client, grid and tooling proofs

A Dafny 4.11 model of the parts of C-Two whose correctness spans many steps, with proofs over all
inputs, all schedules and all runs. `dafny verify dfyconfig.toml` checks the whole project.

**The generated TypeScript transport** (`typescript_transport.ts`).
`Frames`, `ControlCodec` and `Handshake` are its byte codecs, `Utf8`, `Utf16` and `HandshakeTexts`
the texts in a handshake, `RequestUpload` the chunked upload, `ChunkAssembly` the out-of-order
reassembly of chunked replies. `IpcReader`, `IpcCall` and `IpcSession` are the reader, a call, and
whole runs of calls over one connection with shared-memory loans (`Loans`); `IpcReplies` says which
replies must reach the caller. `WriteChain` is the serialized writer with its native batches and
prepared requests, `CallQueue` the call queue with deactivation, reconnects and close,
`RouteBinding` the route preparation, `RelayRetry` the relay-aware retry loop, `HttpBody` the
readers of HTTP bodies.

**The NestedGrid resource** (`nested_grid.py`): `GridIndex` and `GridBoxes` are the index arithmetic
and the cell boxes, `GridFrontier` and `NestedGrid` the table of cells under subdivision and
deletion.

**Artifacts** (`artifact.rs`, `publish.rs`): `ArtifactPaths` validates paths, `Artifacts` composes a
set, `Publication` stages and publishes it.

**Tools**: `GateRunner` (`source_validation.py`) and `SampleAudit` (`ipc_evidence.py`,
`ipc_paired.py`).

Asynchronous code is modelled as a state machine whose steps are the stretches between two
suspensions; what other parties do (the native context, the stream, servers, relays, allocators, the
file system) is a parameter of the step, so a lemma about all runs covers everything they can do.
Objects are classes whose methods are proved equal to those steps; the lemmas over whole runs are
about the steps.

Some promises are not kept by the code in every case. Each is proved as an exact condition, with a
concrete failing case beside it:

- `subdivide_grids` deactivates deepest cells that have no children, so a selection that mixes them
  with others loses part of the domain (`SubdivideKeepsFrontier`, `RunCoversDomain`,
  `MixedRunExample`).
- `_get_parent_global_id` multiplies by the wrong width (`LookupParentExact`, `LookupParentWrong`).
- The level table has no entry for the deepest level, so parent, coordinate and local-id lookups of
  deepest cells raise (`LookupParentExact`, `ChildBoxesTileParent`, `DeepestCellsCannotBeRead`).
- The handshake's text decoder drops a leading byte-order mark, so texts that start with one do not
  encode back to the payload (`HandshakeRewritesExactly`, `MarkIsLost`).
- `writeIpcFrame` leaks a prepared request when the native context answers its write without a batch
  (`RequestsAreDisposedOnce`, `UnbatchedRequestIsLeaked`).
- An observer that throws one of the retryable refusals makes an answered relay call be posted again
  (`ObserverReplaysExactly`).
- An allocated HTTP body is not released when only the reader's lock fails after a complete read
  (`ReadSuccessPayload`, `LockLeakHappens`).
- A body announced with Content-Length 0 is not read, so bytes it has are dropped without a length
  error (`ReadSuccessPayload`, `EmptyAnnouncementHidesBody`).
- An allocated HTTP body that arrives in full after its call timed out is neither returned nor
  released (`ReadWithTimeout`, `LateBodyIsKept`).

Three results rest on something outside the code they are about, and the model shows what each
assumption is worth. Binding stability rests on the queue, which lets no two preparations overlap:
`OverlapServersAgree`, `OverlapUidsAgree` and `OverlapRebinds` say what an overlap would do. Reply
isolation rests on a server that answers only ids already sent (`FutureFramePoisonsId`). That the
check after a call does not close a newer connection rests on how soon its wait ends
(`StaleConnectionsNeverSeal`, `LateCheckSeals`); the model lets other steps happen at every wait.

## Model

| member | source | states |
|---|---|---|
| `IpcSession.LoansAreConserved` | core/foundation/c2-codegen/assets/typescript_transport.ts:1497-1567 | Over every run of lookups and calls from any first id, and the drain at close, the descriptors submitted for admission are exactly those taken off the stream, in order, and every successful admission is consumed or discarded exactly once, never before it was admitted |
| `IpcSession.RunSettles` | core/foundation/c2-codegen/assets/typescript_transport.ts:612-789 | Every exchange, whether it succeeds or fails anywhere, keeps the ledger settled |
| `IpcSession.ReceiveSettles` | core/foundation/c2-codegen/assets/typescript_transport.ts:612-688 | A receive leaves at most the loan of the reply it returns open; every rejection settles what it admitted |
| `IpcSession.ConcludeSettles` | core/foundation/c2-codegen/assets/typescript_transport.ts:743-789 | Upload failure, allocation failure, consumption and hand-over each settle the loan of a received reply once |
| `IpcSession.ControlSettles` | core/foundation/c2-codegen/assets/typescript_transport.ts:429-460 | A route lookup settles the descriptor of any frame it is answered with |
| `IpcSession.RepliesAreIsolated` | core/foundation/c2-codegen/assets/typescript_transport.ts:1497-1551 | If the server answers only ids already sent, every successful reply of a run from any first id is built from frames of its own id, and from all of them, however earlier calls failed |
| `IpcSession.ReceiveIsolated` | core/foundation/c2-codegen/assets/typescript_transport.ts:612-688 | A successful receive used exactly the own frames taken during it |
| `IpcSession.FutureFramePoisonsId` | core/foundation/c2-codegen/assets/typescript_transport.ts:675-678 | Without that assumption a chunk for an id not yet issued puts the future id into the discard set |
| `IpcReader.ReadSettles` | core/foundation/c2-codegen/assets/typescript_transport.ts:1497-1551 | A read settles every descriptor it passes over; only the delivered frame is left to its caller |
| `IpcReader.DropSettles` | core/foundation/c2-codegen/assets/typescript_transport.ts:1553-1567 | Dropping a descriptor submits it once and settles it whatever admission and the release write do |
| `IpcReader.OwnFramesAreDelivered` | core/foundation/c2-codegen/assets/typescript_transport.ts:1497-1551 | For an id that is not being discarded no own frame is skipped |
| `IpcReader.ReadResynchronizes` | core/foundation/c2-codegen/assets/typescript_transport.ts:1525-1545 | Release notices and leftovers of earlier calls, whole or mid chunk sequence, are passed over and the next frame of the fresh id is delivered |
| `IpcReader.SwallowedExactlyWhenDiscarding` | core/foundation/c2-codegen/assets/typescript_transport.ts:1534-1545 | The next own frame is delivered exactly if its id is not being discarded; otherwise it is passed over, its last chunk ends the discarding, and a descriptor that cannot be dropped fails the read |
| `IpcReader.OpenConnection.ReadResponseFrame` | core/foundation/c2-codegen/assets/typescript_transport.ts:1497-1551 | The reading loop computes the read the run lemmas are about, including the ledger and the discard set |
| `IpcReader.OpenConnection.DiscardShmFrame` | core/foundation/c2-codegen/assets/typescript_transport.ts:1553-1567 | Admit, discard and flush in that order, with the same ledger and failure as the specification |
| `IpcCall.ChunksIsolated` | core/foundation/c2-codegen/assets/typescript_transport.ts:2026-2039 | A reassembled reply used exactly the own frames taken while it was read, in order |
| `IpcCall.ChunksSettle` | core/foundation/c2-codegen/assets/typescript_transport.ts:1957-2055 | A chunked read settles every descriptor it meets on every path |
| `IpcCall.AssembledIsComplete` | core/foundation/c2-codegen/assets/typescript_transport.ts:2026-2037 | The chunk loop ends only with a complete set of chunks, and returns their payload |
| `IpcCall.ReadChunkedSuccessPayload` | core/foundation/c2-codegen/assets/typescript_transport.ts:1957-2055 | The loop around the assembler: same payload, failure, connection and discard set as the specification |
| `Loans.NothingHeldMeansExactlyOnce` | core/foundation/c2-codegen/assets/typescript_transport.ts:93-105 | A balanced ledger with nothing held has one settlement for each admission and no other |
| `IpcReplies.ChunkedReplyIsReturned` | core/foundation/c2-codegen/assets/typescript_transport.ts:1957-2039 | A chunked reply of any regular layout, chunk 0 first and the rest in any order, with release notices and leftovers of earlier calls anywhere between its frames, is returned as the payload that was sent |
| `IpcReplies.InlineReplyIsReturned` | core/foundation/c2-codegen/assets/typescript_transport.ts:667-674 | An inline success reply behind any release notices and leftovers is returned with its data, and nothing behind it is touched |
| `IpcReplies.ShmReplyIsReturned` | core/foundation/c2-codegen/assets/typescript_transport.ts:623-672 | A shared-memory success reply is admitted once and returned with its loan |
| `IpcReplies.ServiceErrorIsRaised` | core/foundation/c2-codegen/assets/typescript_transport.ts:2085-2115 | A service error reaches the caller with the bytes that were sent |
| `IpcReplies.InlineCallReturns` | core/foundation/c2-codegen/assets/typescript_transport.ts:743-789 | A call whose request goes out and whose inline reply is stored and observed returns the data that was sent, touches nothing behind the reply and no loan; it can return nothing else |
| `IpcReplies.ShmCallSettles` | core/foundation/c2-codegen/assets/typescript_transport.ts:743-789 | A call answered in shared memory adds one admission and one settlement to the ledger: consumed exactly if the request went out and storage was obtained, else released; it returns exactly if all succeeded |
| `IpcReplies.ChunkedCallReturns` | core/foundation/c2-codegen/assets/typescript_transport.ts:743-789 | A call answered in chunks, in any order and between leftovers, returns the payload that was sent |
| `ChunkAssembly.AnyOrderReassembles` | core/foundation/c2-codegen/assets/typescript_transport.ts:1957-2039 | Every layout of equal chunks and a nonempty last one no larger is accepted with chunk 0 first and the rest in any order, and the result is the payload |
| `ChunkAssembly.DeliveredIsAccepted` | core/foundation/c2-codegen/assets/typescript_transport.ts:1960-1987 | Any prefix of such a delivery is accepted |
| `ChunkAssembly.Assembler.Feed` | core/foundation/c2-codegen/assets/typescript_transport.ts:1991-2029 | A frame is taken exactly if it extends the accepted sequence |
| `ChunkAssembly.Assembler.WriteChunk` | core/foundation/c2-codegen/assets/typescript_transport.ts:2019-2028 | A chunk is written at its own place, each of its bytes once, and every byte outside it is unchanged |
| `ChunkAssembly.ByteHasChunk` | core/foundation/c2-codegen/assets/typescript_transport.ts:1976-1987 | Every position of the reply lies in the span of exactly one chunk |
| `ChunkAssembly.Assembler.Result` | core/foundation/c2-codegen/assets/typescript_transport.ts:2036-2039 | When all chunks are in, the buffer is their data concatenated by index, every byte of it was written exactly once, and the final length check cannot fail |
| `ChunkAssembly.CompleteHasAll` | core/foundation/c2-codegen/assets/typescript_transport.ts:2032-2035 | As many distinct chunks as announced are all of them |
| `ChunkAssembly.AcceptedFits` | core/foundation/c2-codegen/assets/typescript_transport.ts:2057-2083 | Every accepted frame agrees with the announcement of chunk 0 |
| `ChunkAssembly.AcceptedDistinct` | core/foundation/c2-codegen/assets/typescript_transport.ts:1999-2001 | No index is accepted twice |
| `ChunkAssembly.CarriedChunk` | core/foundation/c2-codegen/assets/typescript_transport.ts:2057-2083 | Decoding the frame of a chunk gives back its size, count, index, data and last flag |
| `Frames.StreamRoundTrip` | core/foundation/c2-codegen/assets/typescript_transport.ts:1583-1648 | Reading any concatenation of encoded frames returns exactly those frames and leaves the rest untouched |
| `Frames.StreamSound` | core/foundation/c2-codegen/assets/typescript_transport.ts:1596-1648 | Whatever is read is the stream's own prefix, frame by frame |
| `Frames.ReadFrameExact` | core/foundation/c2-codegen/assets/typescript_transport.ts:1596-1648 | A frame is read exactly if the stream starts with its encoding and it is within the limits |
| `RequestUpload.UploadChunks` | core/foundation/c2-codegen/assets/typescript_transport.ts:703-731 | An upload writes the chunk frames in order and ends before the first one for which there is a refusal, or at the first whose write fails, which breaks it; everything sent is whole frames |
| `RequestUpload.UploadCarriesPayload` | core/foundation/c2-codegen/assets/typescript_transport.ts:719-731 | Stripped of headers and control, the chunks sent are a prefix of the payload, and all of it when not stopped |
| `RequestUpload.ChunkDataSize` | core/foundation/c2-codegen/assets/typescript_transport.ts:723-724 | Chunks are nonempty and bounded; only the last may be shorter |
| `RequestUpload.ChunkFlags` | core/foundation/c2-codegen/assets/typescript_transport.ts:725-726 | CHUNK_LAST marks exactly the last frame |
| `RequestUpload.ChunkHeader` | core/foundation/c2-codegen/assets/typescript_transport.ts:1569-1581 | Index and count survive the chunk header |
| `ControlCodec.CallControlSelfDelimiting` | core/foundation/c2-codegen/assets/typescript_transport.ts:1410-1438 | Equal request bodies have equal control records and equal payloads |
| `ControlCodec.BuddyRoundTrip` | core/foundation/c2-codegen/assets/typescript_transport.ts:1459-1465 | Descriptors with in-range fields survive the wire, whatever follows |
| `ControlCodec.BuddySound` | core/foundation/c2-codegen/assets/typescript_transport.ts:1911-1929 | A decoded descriptor is in range and is what its bytes encode, up to unused flag bits |
| `Handshake.ParseExact` | core/foundation/c2-codegen/assets/typescript_transport.ts:1650-1731 | For any checks on the bytes of texts: a payload is accepted exactly if it is the grammar's encoding of the record read, with nothing behind it |
| `Handshake.DecodeServerHandshake` | core/foundation/c2-codegen/assets/typescript_transport.ts:1650-1731 | The loops and bounds checks compute that parse of the raw record, stay in bounds and terminate |
| `HandshakeTexts.DecodeServerIpcHandshake` | core/foundation/c2-codegen/assets/typescript_transport.ts:1650-1731 | With strict UTF-8 decoding a payload is accepted exactly if it encodes some record whose texts decode and pass their checks, and the decoded texts are returned |
| `HandshakeTexts.HandshakeRewritesExactly` | core/foundation/c2-codegen/assets/typescript_transport.ts:1650-1731 | Encoding the decoded texts again gives the payload back if and only if no text starts with a byte-order mark |
| `HandshakeTexts.MarkIsLost` | core/foundation/c2-codegen/assets/typescript_transport.ts:1135 | For every server id, two different payloads, with and without the mark, yield the same handshake |
| `Utf8.DecodeEncoded` | core/foundation/c2-codegen/assets/typescript_transport.ts:2172-2182 | Every Unicode text (sequence of scalar values) survives encoding and strict decoding |
| `Utf8.EncodeDecoded` | core/foundation/c2-codegen/assets/typescript_transport.ts:2176-2182 | Bytes that decode are the encoding of what they decode to: no overlong, surrogate or truncated form is accepted |
| `Utf8.DecodeTextExact` | core/foundation/c2-codegen/assets/typescript_transport.ts:1135 | What the text decoder returns encodes to the bytes read if and only if they do not start with the mark |
| `Utf8.RoundTripExact` | core/foundation/c2-codegen/assets/typescript_transport.ts:1134-1135 | A Unicode text survives the text encoder and decoder if and only if it does not start with U+FEFF |
| `Utf16.StringRoundTripExact` | core/foundation/c2-codegen/assets/typescript_transport.ts:1134-1135 | A string of UTF-16 code units survives them if and only if it has no lone surrogate and does not start with U+FEFF |
| `Utf16.UnitsExact` | core/foundation/c2-codegen/assets/typescript_transport.ts:2172-2174 | A string is the code units of the scalar values the encoder sees if and only if it has no lone surrogate |
| `Utf16.LoneHalfIsReplaced` | core/foundation/c2-codegen/assets/typescript_transport.ts:2172-2182 | A lone surrogate comes back as U+FFFD |
| `WriteChain.RunIsSerial` | core/foundation/c2-codegen/assets/typescript_transport.ts:1468-1495 | Whatever the schedule, the log of native calls, offered bytes and settlements is that of running the queued writes one after the other |
| `WriteChain.OffersAreWholeUnitsInOrder` | core/foundation/c2-codegen/assets/typescript_transport.ts:1476-1484 | The stream is offered whole prefix+frame units in queueing order, each ended before any other event |
| `WriteChain.UnitsAscend` | core/foundation/c2-codegen/assets/typescript_transport.ts:1493-1494 | Units come from ascending writes, at most one each |
| `WriteChain.BatchesCloseOnce` | core/foundation/c2-codegen/assets/typescript_transport.ts:1474-1491 | Each batch gets exactly one of complete and discard, complete exactly if it was started, and each write settles once |
| `WriteChain.ResultTellsWhatHappened` | core/foundation/c2-codegen/assets/typescript_transport.ts:1479-1485 | Over every run: a refused write has no offered bytes in the log; a resolved frame was offered, after its prefix, and taken by the stream; an uncertain one was failed by the stream or its batch, and a write the stream failed settles as nothing else |
| `WriteChain.RequestsAreConserved` | core/foundation/c2-codegen/assets/typescript_transport.ts:1440-1452 | Every prepared request is, exactly once, owned by a batch, given back, still queued, or leaked by a write that went out without a batch |
| `WriteChain.RequestsAreDisposedOnce` | core/foundation/c2-codegen/assets/typescript_transport.ts:1486-1491 | Once every write has begun, all requests are disposed of exactly once if and only if no write that carried a request was answered without a batch |
| `WriteChain.UnbatchedRequestIsLeaked` | core/foundation/c2-codegen/assets/typescript_transport.ts:1475-1479 | The failing case: no batch for a request, the frame is written, and nobody owns the request |
| `WriteChain.FrameWriter.BeginWrite` | core/foundation/c2-codegen/assets/typescript_transport.ts:1470-1479 | The started and batch flags and the final clean-up compute the specified step |
| `WriteChain.FrameWriter.EndWrite` | core/foundation/c2-codegen/assets/typescript_transport.ts:1480-1485 | Completion after the stream write computes the specified step |
| `WriteChain.FrameWriter.WriteBuddyCallRequest` | core/foundation/c2-codegen/assets/typescript_transport.ts:1440-1452 | A request whose frame cannot be encoded is given back, any other is handed over |
| `CallQueue.EveryCallerSettlesOnce` | core/foundation/c2-codegen/assets/typescript_transport.ts:527-540 | In every state of every run, a caller whose turn is over has settled once, whatever the others do: with its body's outcome if and only if the body began, else by rejection |
| `CallQueue.NobodyIsRunAndRejected` | core/foundation/c2-codegen/assets/typescript_transport.ts:527-540 | At any moment nothing has happened twice to a caller, it is not both begun and rejected, and it ended only after it began |
| `CallQueue.DeactivationLeavesNobodyWaiting` | core/foundation/c2-codegen/assets/typescript_transport.ts:359-363 | After deactivation every admitted caller has begun or is already rejected |
| `CallQueue.BodiesRunOneAtATime` | core/foundation/c2-codegen/assets/typescript_transport.ts:532-538 | Over every schedule bodies run one at a time in the order of admission |
| `CallQueue.NothingBeginsAfterSeal` | core/foundation/c2-codegen/assets/typescript_transport.ts:532-536 | No body begins and no connection is opened after admission was sealed |
| `CallQueue.CloseWaitsForBodies` | core/foundation/c2-codegen/assets/typescript_transport.ts:542-548 | Close reaches the connection only after every body that ever begins has ended |
| `CallQueue.StaleConnectionsNeverSeal` | core/foundation/c2-codegen/assets/typescript_transport.ts:375-393 | Over every run a connection going down seals the transport only while it is the newest and has not been let go; the check after a call seals for the newest connection exactly if it was not let go while the check waited |
| `CallQueue.LateCheckSeals` | core/foundation/c2-codegen/assets/typescript_transport.ts:793-797 | At any time while a body runs on a connection: if it gives way to the next one while a check of it waits, the check seals the transport and the next one is closed |
| `CallQueue.Transport.FinishCheck` | core/foundation/c2-codegen/assets/typescript_transport.ts:795-797 | Closes if the awaited connection is down and admission is not sealed, without comparing it with the current one |
| `CallQueue.Transport.DeactivateAdmission` | core/foundation/c2-codegen/assets/typescript_transport.ts:359-363 | Sets the flag and rejects every waiting caller, in order |
| `CallQueue.Transport.Enqueue` | core/foundation/c2-codegen/assets/typescript_transport.ts:527-540 | Admits a caller behind all others, or refuses after deactivation |
| `CallQueue.Transport.TakeTurn` | core/foundation/c2-codegen/assets/typescript_transport.ts:532-536 | Leaves the waiting set first; runs the body only if not deactivated |
| `CallQueue.Transport.CloseTransport` | core/foundation/c2-codegen/assets/typescript_transport.ts:542-546 | The first close seals and waits; later ones change nothing |
| `CallQueue.Transport.OnDeactivated` | core/foundation/c2-codegen/assets/typescript_transport.ts:379-384 | Ignores an incarnation that is not current |
| `CallQueue.Transport.AcquireConnection` | core/foundation/c2-codegen/assets/typescript_transport.ts:375-393 | Opens at most one connection at a time, and none after deactivation |
| `CallQueue.Transport.FinishDiscard` | core/foundation/c2-codegen/assets/typescript_transport.ts:405-411 | Clears the promise if the awaited connection was the discarded one |
| `RouteBinding.DispatchesAgree` | core/foundation/c2-codegen/assets/typescript_transport.ts:462-525 | Over every run all dispatches go to one server identity, and all on one route name use one uid and one contract, the expected ones if any were given |
| `RouteBinding.BindingsNeverChange` | core/foundation/c2-codegen/assets/typescript_transport.ts:365-368 | No recorded binding is ever changed or dropped |
| `RouteBinding.Bindings.PrepareRoute` | core/foundation/c2-codegen/assets/typescript_transport.ts:462-525 | The checks in order and the two conditional writes compute the specified preparation and keep every binding |
| `RouteBinding.OverlapServersAgree` | core/foundation/c2-codegen/assets/typescript_transport.ts:466-524 | After any run, two overlapping preparations would go to one server for all answers if and only if a server is bound or expected |
| `RouteBinding.OverlapUidsAgree` | core/foundation/c2-codegen/assets/typescript_transport.ts:466-524 | After any run, two overlapping preparations of one name would use one uid for all answers if and only if the name is bound or a uid expected |
| `RouteBinding.OverlapRebinds` | core/foundation/c2-codegen/assets/typescript_transport.ts:518-523 | A concrete overlap in which one name is dispatched on two uids and its binding is replaced |
| `RelayRetry.CallIsSafe` | core/foundation/c2-codegen/assets/typescript_transport.ts:938-1096 | In one call: distinct probed relays, at most one POST per attempt, each after its own probe and within the route's limit, nothing after a POST unless a listed refusal, no HTTP contact with a route after its local preparation, nothing after a prepared local call |
| `RelayRetry.RelayClient.Call` | core/foundation/c2-codegen/assets/typescript_transport.ts:938-1096 | The attempt loop computes the specified result, events and preferred relay |
| `RelayRetry.SuccessMeansAnswered` | core/foundation/c2-codegen/assets/typescript_transport.ts:1060-1071 | The call succeeds exactly if the last thing that happened was an answer, from a relay or over local IPC |
| `RelayRetry.ContactIsSafe` | core/foundation/c2-codegen/assets/typescript_transport.ts:1039-1081 | Contacting a fitting route keeps the safety of the event log whatever probe, POST and observer do, and adds at most one POST |
| `RelayRetry.LocalIsSafe` | core/foundation/c2-codegen/assets/typescript_transport.ts:968-1017 | Local preparation keeps the safety of the event log whatever it does, adds no POST, and leaves a state the loop may continue from if it asks for another attempt |
| `RelayRetry.MakeAttempt` | core/foundation/c2-codegen/assets/typescript_transport.ts:951-1088 | One attempt: resolution, local preparation, exclusions and contact as specified |
| `RelayRetry.ContactRoutes` | core/foundation/c2-codegen/assets/typescript_transport.ts:1032-1082 | The first route that fits is contacted; if none fits the call fails as too large |
| `RelayRetry.OrderRoutes` | core/foundation/c2-codegen/assets/typescript_transport.ts:3126-3149 | The ordering loops compute the specified order |
| `RelayRetry.OrderedKeepsRoutes` | core/foundation/c2-codegen/assets/typescript_transport.ts:3126-3149 | Ordering keeps every route of a relay that is not excluded, as often as listed, and drops the others |
| `RelayRetry.OrderedPrefersCurrent` | core/foundation/c2-codegen/assets/typescript_transport.ts:3139-3148 | The relay that answered last comes first |
| `RelayRetry.ChosenRoute` | core/foundation/c2-codegen/assets/typescript_transport.ts:2928-2944 | The contacted route is on no excluded relay, has no excluded uid and fits the payload |
| `RelayRetry.AnsweredIsNeverReplayed` | core/foundation/c2-codegen/assets/typescript_transport.ts:1041-1081 | An answered call is never posted again if the observer throws none of the listed refusals |
| `RelayRetry.ObserverReplaysExactly` | core/foundation/c2-codegen/assets/typescript_transport.ts:3300-3319 | An observer that throws an error can make an answered call be posted again if and only if the error is a listed refusal |
| `RelayRetry.ObserverReplays` | core/foundation/c2-codegen/assets/typescript_transport.ts:1060-1081 | A concrete call in which that happens |
| `RelayRetry.MaxAttempts` | core/foundation/c2-codegen/assets/typescript_transport.ts:3005-3014 | 3 attempts by default, 1 for 0, the value itself from 1 to 32, and a refusal of anything else |
| `HttpBody.ReadSuccessPayload` | core/foundation/c2-codegen/assets/typescript_transport.ts:2244-2270 | Storage is obtained exactly if an acceptable length or body asks for it and the allocator gives an object; success is exactly a well-formed allocation, a body that arrives and a reader that unlocks, and hands over the body unreleased; a failure releases obtained storage exactly once, except when only the lock failed |
| `HttpBody.ReadAllocated` | core/foundation/c2-codegen/assets/typescript_transport.ts:2304-2334 | Success and obtained storage are decided exactly; the view is the chunks' concatenation; a failed read releases once unless only unlocking failed |
| `HttpBody.ReadUnknownLength` | core/foundation/c2-codegen/assets/typescript_transport.ts:2336-2379 | Succeeds exactly if the stream ends within the maximum, unlocks, and storage takes it; storage is obtained exactly after the first two, and every failure then releases it once |
| `HttpBody.FillStorage` | core/foundation/c2-codegen/assets/typescript_transport.ts:2307-2325 | The reading loop fills the view exactly if the stream delivers the announced length |
| `HttpBody.CollectChunks` | core/foundation/c2-codegen/assets/typescript_transport.ts:2341-2366 | The chunks are kept exactly while the stream stays well formed and within the maximum |
| `HttpBody.Allocate` | core/foundation/c2-codegen/assets/typescript_transport.ts:2381-2404 | An object is obtained exactly if the allocator returns one; a malformed one is given back once, a well-formed one has the asked length |
| `HttpBody.ReadWithTimeout` | core/foundation/c2-codegen/assets/typescript_transport.ts:3051-3085 | Within a call that may time out: success, obtained storage and releases are decided exactly; a body that arrives in full after the timeout is neither returned nor released |
| `HttpBody.LateBodyIsKept` | core/foundation/c2-codegen/assets/typescript_transport.ts:3073-3078 | A concrete call in which that happens |
| `HttpBody.LockLeakHappens` | core/foundation/c2-codegen/assets/typescript_transport.ts:2328-2333 | Reading such a body: the read fails although every byte arrived, and its storage is not released |
| `HttpBody.EmptyAnnouncementHidesBody` | core/foundation/c2-codegen/assets/typescript_transport.ts:2261-2263 | Reading a nonempty body announced as empty succeeds with an empty view |
| `GridFrontier.RunKeepsFrontier` | examples/python/grid/nested_grid.py:253-353 | A run of subdivisions and deletions ends on a frontier if and only if no subdivision in it mixed deepest cells with others |
| `GridFrontier.RunCoversDomain` | examples/python/grid/nested_grid.py:253-353 | After a run every finest cell has an active or deleted ancestor-or-self if and only if no subdivision mixed |
| `GridFrontier.SubdivideKeepsRooted` | examples/python/grid/nested_grid.py:281-328 | Whatever the selection, every row below the top hangs under a split row |
| `GridFrontier.LostIsUncovered` | examples/python/grid/nested_grid.py:285-328 | A deepest cell that was split has no active or deleted ancestor-or-self |
| `GridFrontier.RunKeepsInactive` | examples/python/grid/nested_grid.py:253-353 | A cell that is no longer active is never changed by any later run, so a lost cell stays lost |
| `GridFrontier.SubdivideKeepsFrontier` | examples/python/grid/nested_grid.py:281-328 | One subdivision keeps the frontier if and only if its selection is unmixed |
| `GridFrontier.FrontierPartitionsDomain` | examples/python/grid/nested_grid.py:71-91 | On a frontier every finest cell has exactly one active or deleted ancestor-or-self |
| `GridFrontier.ChildrenAreNew` | examples/python/grid/nested_grid.py:312-321 | On every table a run can reach, mixed or not, no child of a selected cell has a row yet, so the branch for existing children is unreachable |
| `GridFrontier.ChildrenAreDistinct` | examples/python/grid/nested_grid.py:281-298 | Children of distinct cells are distinct |
| `GridFrontier.InitialFrontier` | examples/python/grid/nested_grid.py:71-91 | The initial table is a frontier |
| `GridFrontier.DeleteKeepsFrontier` | examples/python/grid/nested_grid.py:332-353 | Deleting keeps the frontier |
| `GridFrontier.DeletionIsFinal` | examples/python/grid/nested_grid.py:253-353 | A deleted cell stays deleted through any later run, mixed or not |
| `GridFrontier.MixedRunLosesCell` | examples/python/grid/nested_grid.py:285-328 | On every two-rule grid, splitting a cell and then one of its children together with a neighbour leaves that child with no active or deleted ancestor-or-self |
| `GridFrontier.MixedRunExample` | examples/python/grid/nested_grid.py:285-328 | A concrete grid and two calls after which a finest cell has no active or deleted ancestor-or-self |
| `NestedGrids.NestedGrid.constructor` | examples/python/grid/nested_grid.py:54-91 | The level table and the initial cells |
| `NestedGrids.NestedGrid.SubdivideGrids` | examples/python/grid/nested_grid.py:253-330 | The table and the returned keys are those of the specified subdivision |
| `NestedGrids.NestedGrid.DeleteGrids` | examples/python/grid/nested_grid.py:332-353 | The table is that of the specified deletion |
| `NestedGrids.NestedGrid.GetGridChildrenGlobalIds` | examples/python/grid/nested_grid.py:150-171 | The loops list the children's ids in local order, or nothing outside the level table |
| `NestedGrids.NestedGrid.SelectCells` | examples/python/grid/nested_grid.py:265-276 | The requested cells that are active and not deleted, each once |
| `NestedGrids.LocalIdsOfChildren` | examples/python/grid/nested_grid.py:94-111 | Local ids recover each child's position, except that children on the deepest level have no level entry |
| `NestedGrids.NestedGrid.GetParentGlobalId` | examples/python/grid/nested_grid.py:113-126 | Reads the level table; the result is the parent if and only if the level has an entry and the parent is in row 0 or its level is as wide as the rule |
| `NestedGrids.NestedGrid.GetParentKeys` | examples/python/grid/nested_grid.py:186-205 | Top cells have no parent key, others the looked-up one; it fails exactly if some cell has no level entry |
| `NestedGrids.NestedGrid.GetCoordinates` | examples/python/grid/nested_grid.py:128-148 | The boxes of the cells, or a failure exactly outside the level table |
| `NestedGrids.DeepestCellsCannotBeRead` | examples/python/grid/nested_grid.py:54-148 | Deepest cells that a run makes selectable have no parent, coordinates or local ids by these lookups |
| `GridIndex.ChildDeterminesParentAndLocal` | examples/python/grid/nested_grid.py:150-171 | A child lies on the next level and determines its parent and local id |
| `GridIndex.ParentAndLocalDetermineChild` | examples/python/grid/nested_grid.py:94-126 | Every id of the next level is the child its parent and local id name |
| `GridIndex.ChildrenPartitionNextLevel` | examples/python/grid/nested_grid.py:54-60 | Siblings are disjoint and together cover the next level |
| `GridBoxes.ChildBoxesTileParent` | examples/python/grid/nested_grid.py:128-148 | Every point of a cell's box is in exactly one child's box and no other point is, for children above the deepest level; for those on it the lookup fails |
| `GridBoxes.LookupParentExact` | examples/python/grid/nested_grid.py:113-126 | The lookup answers with the parent if and only if the level is not the deepest and the parent is in row 0 or its level is as wide as the rule; it fails exactly on the deepest level |
| `GridBoxes.LookupParentWrong` | examples/python/grid/nested_grid.py:126 | A concrete cell whose looked-up parent is wrong |
| `Artifacts.ArtifactComposer.Finish` | core/foundation/c2-codegen/src/artifact.rs:156-245 | Succeeds exactly for the admissible sets, with the one ascending permutation of what was pushed and its size; any error names a real reason |
| `Artifacts.OrderDoesNotMatter` | core/foundation/c2-codegen/src/artifact.rs:156-245 | Admission and its outcome are the same for every push order |
| `Artifacts.AscendingIsUnique` | core/foundation/c2-codegen/src/artifact.rs:207-215 | A set of artifacts has only one ascending order |
| `Artifacts.CheckContents` | core/foundation/c2-codegen/src/artifact.rs:172-205 | The byte sum, with its overflow check, and the hashes |
| `Artifacts.CheckCase` | core/foundation/c2-codegen/src/artifact.rs:217-226 | A collision is found exactly if two paths agree after ASCII folding |
| `Artifacts.CheckPrefixes` | core/foundation/c2-codegen/src/artifact.rs:227-239 | A conflict is found exactly if a folded path is a proper directory prefix of another |
| `Artifacts.CheckLayout` | core/foundation/c2-codegen/src/artifact.rs:207-239 | Sorting keeps the artifacts; the checks on the sorted order decide about the pushed ones |
| `Artifacts.Get` | core/foundation/c2-codegen/src/artifact.rs:259-264 | Binary search finds an artifact exactly if one with that path is in the set |
| `Artifacts.ArtifactComposer.Extend` | core/foundation/c2-codegen/src/artifact.rs:152-154 | Appends all of them in order |
| `Artifacts.FromClaimedParts` | core/foundation/c2-codegen/src/artifact.rs:72-88 | An artifact comes to exist exactly with a valid path |
| `ArtifactPaths.ValidateArtifactPath` | core/foundation/c2-codegen/src/artifact.rs:291-347 | The checks in order accept exactly the paths of bounded, portable, unreserved segments |
| `ArtifactPaths.ValidComponents` | core/foundation/c2-codegen/src/artifact.rs:291-337 | The file-system components of a valid path are its segments |
| `ArtifactPaths.ComponentsDeterminePath` | core/foundation/c2-codegen/src/artifact.rs:291-337 | Valid paths with the same components are equal |
| `ArtifactPaths.DirectoriesAreSlashes` | core/foundation/c2-codegen/src/artifact.rs:227-239 | The directories on the way to a file are the prefixes before its slashes |
| `ArtifactPaths.DoubledSlashMerges` | core/foundation/c2-codegen/src/artifact.rs:310-313 | Without the check for empty segments different paths would name one file |
| `Publication.Publisher.PublishNewTree` | core/foundation/c2-codegen/src/publish.rs:14-76 | On success the destination, absent before, is exactly the set's tree; on failure it is untouched by this call; without faults an admitted set is always published |
| `Publication.StagingTree.Stage` | core/foundation/c2-codegen/src/publish.rs:48-70 | From an empty tree the staged tree is exactly that of the set; without faults staging never fails |
| `Publication.StagingTree.CreateParentDirectories` | core/foundation/c2-codegen/src/publish.rs:78-108 | Creates exactly the directories on the way, and fails without a fault only at a file |
| `Publication.StagingTree.WriteFile` | core/foundation/c2-codegen/src/publish.rs:51-69 | Creates the file only where nothing is, with exactly its bytes and hash |
| `Publication.NothingInTheWay` | core/foundation/c2-codegen/src/publish.rs:48-56 | Nothing staged before is in the way of the next artifact, on either kind of file system |
| `Publication.TreeHoldsExactly` | core/foundation/c2-codegen/src/publish.rs:48-70 | The tree holds each file with its bytes under a key of its own, no other file, and no key as file and directory |
| `Publication.AdmittedIsPortable` | core/foundation/c2-codegen/src/artifact.rs:207-245 | Every set the composer returns can be laid out |
| `GateRunner.RunGates` | tools/ci/source_validation.py:610-632 | The loop computes the specified records, starts and overall result |
| `GateRunner.EachGateRecordedOnce` | tools/ci/source_validation.py:614-631 | Each gate is recorded once at its place, and runs only behind dependencies that passed earlier |
| `GateRunner.NonPassingDependencyBlocks` | tools/ci/source_validation.py:615-618 | A gate with a dependency that did not pass, however far down, is not run |
| `GateRunner.StartsAtMostOnce` | tools/ci/source_validation.py:599-620 | A command starts exactly once if its dependencies passed and time is left, and else never |
| `GateRunner.OverallMeansAllPassed` | tools/ci/source_validation.py:632 | The run passes exactly if there is a gate and every gate passed |
| `GateRunner.RunGate` | tools/ci/source_validation.py:615-629 | The record of one gate, with the evidence check that can turn a pass into a failure |
| `SampleAudit.CheckWorker` | tools/benchmarks/ipc_paired.py:152-205 | The audit accepts exactly if the record and the log are in order and as expected, there are measured attempts, the summary equals the benchmark's own, and a row that should be normal is, unless complaints are collected; the complaints are exactly the corrupt payloads and the defects of a row that should be normal, and there are none when they are not collected |
| `SampleAudit.NormalRowsAreClean` | tools/benchmarks/ipc_paired.py:195-204 | A normal row without complaint holds only successes, no corrupt payload, and a positive median |
| `SampleAudit.AgreementIsEquality` | tools/benchmarks/ipc_paired.py:177-194 | The audit's field by field comparison with the raw samples holds for the benchmark's own summary and for no other |
| `SampleAudit.SampleOutcomes` | tools/benchmarks/ipc_paired.py:98-149 | Succeeds exactly on a sound log with one run line, the worker's own and as expected, with the counts, sorted latencies and elapsed time of the measured attempts and every corrupt payload |
| `SampleAudit.ReadLines` | tools/benchmarks/ipc_paired.py:107-136 | Reads exactly the sound logs and tallies them; a corrupt payload is tolerated and noted exactly while collecting |
| `SampleAudit.CountsAddUp` | tools/benchmarks/ipc_evidence.py:207-210 | Failures as a remainder are the attempts with status error |
| `SampleAudit.QuantileIsNearestRank` | tools/benchmarks/ipc_evidence.py:213-214 | At least ceil(p n) samples are at most the quantile and fewer are below it |
| `SampleAudit.QuantilesAscend` | tools/benchmarks/ipc_evidence.py:213-228 | p50 <= p95 <= p99 |
| `SampleAudit.ElapsedSpansAttempts` | tools/benchmarks/ipc_evidence.py:216-220 | The elapsed time is the shortest span that contains every attempt |
| `SampleAudit.RankIsCeiling` | tools/benchmarks/ipc_evidence.py:213-214 | The ranks are the ceilings of n/2, 19n/20 and 99n/100, and in range |
| `SampleAudit.SampleLog.Add` | tools/benchmarks/ipc_evidence.py:158-182 | Appends a record whose latency is its duration, or refuses one that ends before it starts |

## Left out

- The native memory context, OS streams, `fetch`, timers and abort signals, and when a wait ends: only the calls made on them and the outcomes they may have are modelled.
- JSON, URL parsing, header and regular-expression checks, and the option normalizers other than the attempt count: parsed values are given records.
- Route catalog decoding (`decodeIpcCatalogReply`): its result is a parameter of route preparation.
- The syntax of route names, contract texts and method names in a handshake: parameters of `HandshakeTexts`, whose texts are sequences of scalar values; `Utf16` relates those to strings of code units.
- The plain HTTP relay transport, the client handshake and connection timeouts: they would only add easier members.
- Calls in `IpcSession` run one after the other, as `CallQueue` proves; the concurrent upload and receive of a chunked call are modelled as the upload's outcome and the receive, not as interleaved steps.
- The reader, a call and a session are values and functions, with classes only around the reading methods and the chunk assembler; updating the connection in place is not modelled beyond its one state field.
- Request ids are unbounded naturals; their exhaustion at 2^64 and the discard it triggers are not modelled.
- A CTRL|BUDDY frame whose payload starts with 0x17 is a release notice for the native context, not a loan descriptor, and is counted as such.
- `CallQueue` lets discards and checks of a connection begin at any time and wait for any number of steps; the code begins them only inside a body or after a call, so the proofs cover more schedules than occur.
- HTTP bodies read without an allocator, and text bodies: one length comparison.
- The final rename of a published tree is one atomic no-replace step; platforms without it are the `supported` flag.
- Which error message a failure carries, beyond the kinds that later decisions depend on; the HTTP route cache.
- `NestedGrid`: cell type and elevation columns, the text form of keys, the schema and info queries; rules are positive and there are at least two.
- Floating-point rounding of coordinates, throughput and `ceil(p*n)`: reals and integers are used.
- SHA-256 is an arbitrary function; a disk that changes written bytes is not modelled, so the re-read hash can differ only if the recorded one was wrong.
- Validation of provenance text, and artifact kinds beyond being kept.
- Identity and provenance of a benchmark worker and its quantile definitions are flags, configurations and commits opaque texts.
- Gate commands, their output and their timeouts: an outcome per gate; gate names are unique, as the list is written.
