# A verified model of the WebSocket-to-DDS bridge and its Go client

The bridge lets WebSocket sessions subscribe to DDS topics and write to them. It shares one DDS reader among all
sessions that ask for the same topic, type and QoS, keeps writers per session, answers each request frame once, and
pushes samples into bounded per-session queues. The Go client correlates responses with requests by a 32-bit id, buffers
data per subscription, and rebuilds its writers and subscriptions on a new session after the connection is lost.

`dafny verify dfyconfig.toml` checks the whole project.

| file | contents |
|---|---|
| `Bytes.dfy`, `Wire.dfy`, `Protocol.dfy` | little-endian integers, strings, headers, all payloads: parsers and printers of the bridge |
| `Qos.dfy`, `QosEquality.dfy` | QoS sets on the wire; normalisation, its equality, reader sharing |
| `GoCodec.dfy` | the client's own codec and its agreement with the bridge's |
| `Writers.dfy`, `Readers.dfy` | the two registries, as functions and as objects |
| `Bridge.dfy`, `BridgeProofs.dfy`, `BridgeTheorems.dfy`, `BridgeRuns.dfy`, `BridgeObject.dfy` | every handler as a step; invariant; promises of a step and of whole runs; the object |
| `Answers.dfy` | the table of answers: which request succeeds when, with what effect, and with which error otherwise |
| `Conn.dfy`, `ClientCalls.dfy` | one connection; request/response correlation over whole runs of client, wire and bridge; a call as a whole |
| `Client.dfy`, `ClientRuns.dfy`, `ClientSubs.dfy`, `ClientSuccess.dfy`, `ClientObject.dfy` | the reconnecting client against a live bridge, requests travelling as bytes; when its calls and reconnects succeed |
| `Subsequences.dfy`, `Delivery.dfy`, `DataPath.dfy` | the drop-oldest buffers with consumers reading at any moment; a message's way from DDS to a subscription |
| `Md5.dfy`, `Keys.dfy` | MD5 against RFC 1321; key equality, hashes and keyhash |
| `Reassembly.dfy` | fragment and buffer reassembly |

Code that updates fields or runs a loop is a class or a method here, proved equal to a function; the theorems are about
those functions and about runs of them. A handler holds the bridge's one lock from start to end, so each handler is one
step. DDS create and write calls are a parameter (`Dds`) that succeeds or fails freely; the bridge's state logs every write
operation DDS was asked for, with its writer and bytes. The outcome of the network
(`Net`) is one too: what other sessions do before a request arrives, whether it arrives, whether the answer returns.

## Findings

- A type name holding a NUL byte passes the parser and reaches `CString::new(..).expect(..)` (src/dds/sertype.rs:747):
  the session task aborts and the request is never answered. `BridgeTheorems.AbortsIff` gives the exact set of such
  requests, `BridgeTheorems.NulTypeNameExists` one of them. Every other frame is answered exactly once.
- A SUBSCRIBE of a held (topic, type) under another reader key displaces the tracking entry and leaves the session in the
  old reader; no later UNSUBSCRIBE or session removal takes it out (`Readers.ResubscribeLeavesTrace`). What cleanup leaves
  behind is exactly these pairs (`Readers.RemoveSessionLeaves`).
- `normalized_eq` answers symmetrically against every other set exactly when the set repeats no policy, defaults aside
  (`QosEquality.SymmetricIff`). Parsed sets repeat none; `QosEquality.DuplicatesBreakSymmetry` shows a pair that does.
- Ending one of two client subscriptions on one topic and type sends an UNSUBSCRIBE that can end the other at the bridge,
  while it stays in the client's list (`ClientSubs.TwinLost`, for every endpoint). Which subscriptions an `Unsubscribe`
  leaves live is exact in `ClientSubs.UnsubscribeExact`; all others stay live between reconnects.
- The Go decoder compares a key length with `uint32(len(...))`; at 4 GiB and above it parts from the bridge
  (`GoCodec.WriterModeParts`, exact condition in `GoCodec.WriterModeAgrees`).
- Where a serdata with key bytes equals one without, transitivity breaks at a third that the constructors can make
  (`Keys.MixedPairBreaksTransitivity`); such a pair is any payload written with a key and received again
  (`Keys.MixedPairExists`). An empty payload without key bytes can equal a non-empty one under another keyhash
  (`Keys.EmptyPayloadParts`, exact condition in `Keys.EqKeySameKeyhash`).
- Reassembly does not check for gaps. A chain brings back the prefix of every payload it may be cut from exactly when no
  fragment it copies leaves a gap (`Reassembly.GapFreeIff`). A fragment that leaves one is read past its end exactly when
  the room left is more than it holds (`Reassembly.ReadsPastIff`, input in `Reassembly.GapReadsPast`); otherwise the byte
  at its start lands where the first missing one belongs (`Reassembly.GapByte`, input in `Reassembly.GapMisplaces`).
- docs/protocol.md:357-365 promises that a full session buffer drops its oldest message and reports BUFFER_OVERFLOW. The
  code drops the newest and reports nothing (src/bridge.rs:543-548); the model follows the code
  (`BridgeTheorems.PushesExact`, `BridgeTheorems.TrySendNEnqueues`).
- The RFC asks the MD5 padding to be injective below 2^61 bytes; it is so at every length (`Md5.PadInjective`).

## Model

| member | source | states |
|---|---|---|
| `Wire.StringRoundTrip` | src/protocol.rs:114-144 | a written string reads back with its suffix if and only if it is UTF-8 of at most 1 MiB |
| `Wire.StringCanonical` | src/protocol.rs:114-139 | an accepted string is the exact encoding of its value |
| `Qos.QosRoundTrip` | src/qos.rs:160-431 | serialized set plus any suffix parses to that set and suffix if and only if ids are distinct, values in range, strings encodable |
| `Qos.QosCanonical` | src/qos.rs:160-361 | an accepted prefix is the serialization of its value, which is well formed and has at most 13 policies |
| `Qos.DistinctAtMost13` | src/qos.rs:169-187 | pigeonhole bound behind the 13 policies |
| `Qos.SerializeInjective` | src/qos.rs:363-431 | different well-formed sets have different bytes |
| `Qos.ParseQosLoop` | src/qos.rs:160-361 | the cursor, bitmask and vector loop computes the parser, so the mask is exactly the set of ids seen |
| `Qos.SerializeQosLoop` | src/qos.rs:363-431 | the appending loop adds exactly the serialization |
| `QosEquality.NormalizedEqMeansSameEffect` | src/qos.rs:92-157 | on distinct ids the one-way inclusion test holds if and only if both sets give all 13 policies the same value |
| `QosEquality.NormalizedEqEquivalence` | src/qos.rs:132-157 | it is an equivalence, and normalising changes nothing |
| `QosEquality.SymmetricIff` | src/qos.rs:145-157 | it is symmetric against every other set if and only if the normalised set repeats no policy |
| `QosEquality.DuplicatesBreakSymmetry` | src/qos.rs:145-157 | a concrete pair that repeats one and is not symmetric |
| `QosEquality.NormalizedEqLoop` | src/qos.rs:145-157 | the loop computes the equality |
| `QosEquality.NormalizeIdempotent` | src/qos.rs:132-142 | normalising twice is normalising once |
| `QosEquality.SharingIsSound` | src/dds/reader.rs:142-162 | equal key bytes if and only if equal normalised sets; never for sets with different effect |
| `QosEquality.SharingIffSameOrder` | src/dds/reader.rs:142-162 | sets of the same effect share a key if and only if their non-default policies come in the same order |
| `Protocol.HeaderRoundTrip` | src/protocol.rs:68-102 | a printed header parses back and leaves the rest |
| `Protocol.HeaderCanonical` | src/protocol.rs:68-102 | accepted header bytes are the printed header |
| `Protocol.KeyDescriptorsRoundTrip` | src/protocol.rs:190-227 | key descriptors survive if and only if there are at most 255 |
| `Protocol.KeyDescriptorsCanonical` | src/protocol.rs:190-216 | accepted descriptors re-serialize to the bytes consumed |
| `Protocol.ParseKeyDescriptorsLoop` | src/protocol.rs:190-216 | the cursor loop computes the parser |
| `Protocol.PayloadRoundTrip` | src/protocol.rs:344-635 | every payload kind parses back if and only if the wire can carry the value |
| `Protocol.PayloadCanonical` | src/protocol.rs:344-526 | every accepted payload re-serializes to itself, but for a non-zero keyed flag, which becomes 1 |
| `GoCodec.EncodersAgree` | ddswsclient/protocol.go:539-642 | both encoders print the same bytes for every payload kind and value |
| `GoCodec.DecodersAgree` | ddswsclient/protocol.go:644-905 | what the bridge accepts, the client decodes to the corresponding value, if and only if no 32-bit cut hides a key; below 4 GiB none does |
| `GoCodec.QosAgrees` | ddswsclient/protocol.go:375-453 | QoS inside a longer buffer: same policies, same bytes consumed |
| `GoCodec.KeysAgree` | ddswsclient/protocol.go:343-364 | key descriptors likewise |
| `GoCodec.WriterModeAgrees` | ddswsclient/protocol.go:767-833 | in writer-id mode they agree if and only if the 32-bit comparison passes |
| `GoCodec.WriterModeParts` | ddswsclient/protocol.go:767-833 | a payload over 4 GiB that only the bridge accepts |
| `GoCodec.HeadersAgree` | ddswsclient/protocol.go:243-289 | both sides build the same message and read the same header from it |
| `GoCodec.PartitionDataSizeLoop` | ddswsclient/protocol.go:436-453 | the stepping loop computes the partition size |
| `GoCodec.DecodeQosLoop` | ddswsclient/protocol.go:375-401 | the `pos` loop computes the QoS decoder |
| `GoCodec.DecodeKeysLoop` | ddswsclient/protocol.go:343-364 | the `pos` loop computes the key decoder |
| `Writers.RegisterKeepsIff` | src/dds/writer.rs:115-123 | registering keeps the partition of writers by owner if and only if the id is fresh |
| `Writers.DeleteExact` | src/dds/writer.rs:131-159 | get and delete succeed exactly for the owner; delete removes that writer and touches no other session |
| `Writers.RemoveSessionExact` | src/dds/writer.rs:162-168 | removing a session removes exactly its writers |
| `Writers.FindSound` | src/dds/writer.rs:176-195 | a lookup returns a matching id of the list, and fails only if there is none |
| `Writers.FindAfterRegister` | src/dds/writer.rs:115-195 | a new writer is found at once and never hides an earlier match |
| `Writers.FindAfterRemoveSession` | src/dds/writer.rs:162-195 | another session's removal never changes a lookup |
| `Writers.FindSameEffect` | src/dds/writer.rs:176-195 | QoS of the same effect choose the same writer |
| `Writers.WriterRegistry.RegisterWriter` | src/dds/writer.rs:115-123 | the two maps after a registration |
| `Writers.WriterRegistry.DeleteWriter` | src/dds/writer.rs:145-159 | the two maps after a delete, and its error |
| `Writers.WriterRegistry.RemoveSessionWriters` | src/dds/writer.rs:162-168 | the loop removes the session's writers from both maps |
| `Writers.WriterRegistry.Find` | src/dds/writer.rs:176-195 | the search loop returns the first match |
| `Readers.ReachableInv` | src/dds/reader.rs:167-285 | in every reachable state keys and live readers are inverse maps, every reader has a subscriber, every entry points to a live reader of its names listing the session |
| `Readers.UntrackedAfterSubscribe` | src/dds/reader.rs:189-222 | the untracked pairs after a SUBSCRIBE, exactly |
| `Readers.UntrackedAfterUnsubscribe` | src/dds/reader.rs:227-251 | an UNSUBSCRIBE changes no untracked pair |
| `Readers.UntrackedAfterRemove` | src/dds/reader.rs:254-285 | nor does a session removal |
| `Readers.UntrackedGrowsOnlyByDisplaced` | src/dds/reader.rs:189-285 | on every run they grow only at a conflicting re-subscribe, by exactly the displaced pair |
| `Readers.Refinement` | src/dds/reader.rs:189-285 | on every run without such a re-subscribe the registry refines a plain set of subscriptions |
| `Readers.RefinesMeans` | src/dds/reader.rs:167-222 | what that says of the maps: live keys and their subscribers are read off the set |
| `Readers.RemoveSessionLeaves` | src/dds/reader.rs:254-285 | after removal the readers listing the session are exactly its untracked ones |
| `Readers.RemoveSessionFrame` | src/dds/reader.rs:254-285 | other sessions keep every reader, every entry and the reader it leads to |
| `Readers.RemoveSessionClean` | src/dds/reader.rs:254-285 | without conflicts removal leaves no trace |
| `Readers.ResubscribeLeavesTrace` | src/dds/reader.rs:215-218 | with one, it does, for any two different keys |
| `Readers.ReaderRegistry.SubscribeSession` | src/dds/reader.rs:189-222 | the three maps after a SUBSCRIBE, also when creation fails |
| `Readers.ReaderRegistry.UnsubscribeSession` | src/dds/reader.rs:227-251 | the three maps after an UNSUBSCRIBE |
| `Readers.ReaderRegistry.RemoveSessionReaders` | src/dds/reader.rs:254-285 | the two loops compute the removal |
| `BridgeProofs.TopicFound` | src/dds/participant.rs:50-97 | a topic is to be had exactly if cached, or without NUL in its names and DDS willing; it carries the requested names, is cached under them, and keeps the others; when the lookup aborts |
| `BridgeProofs.StepBase` | src/bridge.rs:57-111 | every event keeps the invariant of topics, readers, stored QoS and queues |
| `BridgeProofs.StepSenders` | src/bridge.rs:57-111 | the queues stay within capacity and hold id-0 notifications only, whatever the rest of the state is like |
| `BridgeProofs.StepInv` | src/bridge.rs:57-111 | it keeps the partition of the writers too if and only if a writer it registers gets a fresh id |
| `BridgeProofs.ReachableBase` | src/bridge.rs:57-111 | every state of every run has the former |
| `BridgeProofs.ReachableInv` | src/bridge.rs:57-111 | and the latter, if registered writers got fresh ids |
| `BridgeProofs.FreshUntilWrap` | src/dds/writer.rs:13-17 | ids are fresh until the 32-bit counter wraps |
| `BridgeProofs.FewFramesInv` | src/dds/writer.rs:13-17 | so runs of fewer than 2^32 - 2 frames need no assumption at all |
| `BridgeProofs.FrameWriters` | src/bridge.rs:78-111 | a frame registers at most one writer under the next id, or deletes the one it names, or changes none |
| `BridgeTheorems.FrameAnsweredOnce` | src/ws/session.rs:84-120 | every frame is answered by one message with its id, then only id-0 notifications |
| `BridgeTheorems.AbortsIff` | src/dds/sertype.rs:742-747 | the session task aborts if and only if a request needs a topic whose type name, but not topic name, holds NUL |
| `BridgeTheorems.NulTypeNameExists` | src/dds/sertype.rs:742-747 | such a request exists |
| `BridgeTheorems.TargetKnown` | src/bridge.rs:419-440 | after a successful operation the missing-writer exit is not reached, and the notices are for the names in the payload, or those the writer was registered with |
| `BridgeTheorems.DisposeFanOut` | src/bridge.rs:419-467 | response first, then the requester's notices; every other queue gains one notice under the operation's own topic per reader of its topic and type listing its session, as far as there is room |
| `BridgeTheorems.ListedOnce` | src/bridge.rs:419-467 | without untracked pairs that is exactly one reader for each subscriber |
| `BridgeTheorems.TrySendNEnqueues` | src/bridge.rs:449-460 | a queue takes as many copies as fit and loses none it had |
| `BridgeTheorems.HangupStops` | src/ws/session.rs:30-45 | once the writer task has ended, the queue takes nothing more |
| `BridgeTheorems.PushesExact` | src/bridge.rs:530-553 | the sends of a round append to each queue, in order, what is addressed to it, cut off at capacity, and change nothing else |
| `BridgeTheorems.SecondLookupSucceeds` | src/bridge.rs:251-313 | the second lookup always succeeds, so "writer disappeared" is never answered |
| `BridgeTheorems.AtMostOneAdded` | src/bridge.rs:251-313 | a topic-name operation adds at most one writer, only if none matched |
| `BridgeTheorems.ChosenWriterStable` | src/dds/writer.rs:176-195 | any event but its deletion or the session's end leaves the chosen writer chosen |
| `BridgeTheorems.ChosenWriterForRun` | src/dds/writer.rs:176-195 | over whole runs, for every QoS of the same effect |
| `BridgeTheorems.LaterWritesReuse` | src/bridge.rs:251-313 | once an operation has found or made a writer, even if DDS then failed, all later such operations add nothing and use that writer |
| `BridgeRuns.OneWriterForTopic` | src/bridge.rs:251-313 | over any run sparing the chosen writer, one session's topic-name operations of one effect, successful or failed, add at most one writer and all use the same one |
| `BridgeRuns.RunReaders` | src/bridge.rs:57-184 | the readers of every bridge run are those of a run of the reader registry alone |
| `BridgeRuns.UnregisterClean` | src/bridge.rs:67-73 | after a run without conflicting re-subscribes, unregistering leaves no trace in the whole state |
| `BridgeRuns.DisposeNoticeOnce` | src/bridge.rs:419-467 | after such a run, a successful dispose about a topic and type puts exactly one notice into the queue of each other subscriber to them with room, one after the requester's response if it subscribes, and none elsewhere |
| `BridgeTheorems.UnregisterExact` | src/bridge.rs:67-73 | unregistering removes exactly the session's writers, sender and entries; what still lists it is untracked |
| `BridgeTheorems.OtherWritersKept` | src/bridge.rs:78-111 | a frame never changes another session's writers |
| `Answers.DispatchedIff` | src/ws/session.rs:84-120 | a frame reaches a handler if and only if version, id and length are in order and it is all there; the handler gets its payload |
| `Answers.BadFrame` | src/ws/session.rs:84-120 | any other frame is answered INVALID_MESSAGE and changes nothing |
| `Answers.WrongDirection` | src/bridge.rs:78-111 | so is a message type only the bridge sends |
| `Answers.PingAnswered` | src/bridge.rs:78-111 | PING is answered PONG and changes nothing |
| `Answers.SubscribeAnswered` | src/bridge.rs:113-149 | exactly when SUBSCRIBE succeeds, with an entry to a live reader of its key; the errors otherwise |
| `Answers.UnsubscribeAnswered` | src/bridge.rs:151-184 | OK and the entry gone if there was one, else READER_NOT_FOUND and no change |
| `Answers.CreateAnswered` | src/bridge.rs:357-384 | exactly when CREATE_WRITER succeeds, with the id answered registered to the session for the names and QoS requested; the errors otherwise |
| `Answers.DeleteAnswered` | src/bridge.rs:386-417 | a listed id is unregistered and off the list, nothing else changes, OK; else WRITER_NOT_FOUND and no change |
| `Answers.WriteByIdAnswered` | src/bridge.rs:315-355 | DDS is asked exactly for this operation on this writer with the payload's data and key bytes, and OK or DDS_ERROR as it answers; not the owner: WRITER_NOT_FOUND, DDS not asked |
| `Answers.WriteByNameAnswered` | src/bridge.rs:251-355 | the same on the chosen writer, reused or created; exactly when there is none to be had DDS is not asked |
| `Answers.UnreadableWrite` | src/bridge.rs:186-249 | an unreadable write is INVALID_MESSAGE and does nothing |
| `Answers.OnlyWritesAsk` | src/bridge.rs:78-111 | no other request asks DDS for a write operation |
| `BridgeObject.Participant.GetOrCreate` | src/dds/participant.rs:50-97 | the topics field after a lookup or creation |
| `BridgeObject.BridgeInner.OnSubscribe` | src/bridge.rs:113-149 | the new state and reply of SUBSCRIBE |
| `BridgeObject.BridgeInner.OnUnsubscribe` | src/bridge.rs:151-184 | of UNSUBSCRIBE |
| `BridgeObject.BridgeInner.OnCreateWriter` | src/bridge.rs:357-384 | of CREATE_WRITER |
| `BridgeObject.BridgeInner.OnDeleteWriter` | src/bridge.rs:386-417 | of DELETE_WRITER |
| `BridgeObject.BridgeInner.WriteOp` | src/bridge.rs:251-340 | of a write operation in both modes |
| `BridgeObject.BridgeInner.RespWithDisposeNotification` | src/bridge.rs:419-467 | the nested loops over readers and subscribers produce the fan-out |
| `BridgeObject.BridgeInner.OnWriteOp` | src/bridge.rs:186-249 | of WRITE, DISPOSE and WRITE_DISPOSE |
| `BridgeObject.BridgeInner.ProcessBinaryFrame` | src/ws/session.rs:84-120 | from bytes to replies, for every input |
| `BridgeObject.BridgeInner.Unregister` | src/bridge.rs:67-73 | the whole state after a session is removed |
| `BridgeObject.BridgeInner.CollectRound` | src/bridge.rs:484-528 | under the lock: the sends collected bring each session with a sender every sample of every reader listing it, in order |
| `BridgeObject.BridgeInner.PushOne` | src/bridge.rs:540-549 | after the lock: one send, one event |
| `BridgeObject.BridgeInner.PollRound` | src/bridge.rs:479-553 | every queue after an undisturbed round |
| `Conn.IdsRepeatOnlyAfterAll` | ddswsclient/conn.go:85-92 | ids are never 0, differ within 2^32 - 1 consecutive calls, and repeat right after |
| `Conn.Dispatch` | ddswsclient/conn.go:268-340 | only a frame naming a pending non-zero id reaches a waiter, the one stored under that id |
| `Conn.PendingReached` | ddswsclient/conn.go:268-340 | every complete frame naming a pending non-zero id does, whatever its type |
| `Conn.DispatchTable` | ddswsclient/conn.go:268-340 | what becomes of every message the bridge can build |
| `Conn.Connection.NextRequestID` | ddswsclient/conn.go:85-92 | the wrapping loop skips exactly 0 |
| `Conn.Connection.StartCall` | ddswsclient/conn.go:105-120 | the tables once a call waits |
| `Conn.Connection.EndCall` | ddswsclient/conn.go:118-129 | the tables after any way out of `sendAndWait`: the entry under the call's id is gone |
| `Conn.Connection.ReceiveOne` | ddswsclient/conn.go:268-340 | the tables after one turn of the receive loop |
| `Correlation.OwnResponseOnly` | ddswsclient/conn.go:268-340 | the next frame reaches only its own waiter, whose channel is empty; id 0 reaches none |
| `Correlation.ResponseFills` | ddswsclient/conn.go:268-340 | a response whose caller waits ends up in that caller's channel |
| `Correlation.NextInv` | ddswsclient/conn.go:85-137 | every move of client, wire, bridge or other sessions keeps the correlation invariant |
| `Correlation.RunInv` | ddswsclient/conn.go:85-137 | so it holds at every point of every run |
| `Correlation.CorrelationHolds` | ddswsclient/conn.go:105-137 | while fewer ids than a cycle are issued during a call: each caller gets the bridge's answer to its own request, the loop never blocks, notifications reach no waiter |
| `ClientCalls.ReturnedIsRequest` | ddswsclient/conn.go:105-137 | in every run, what a returned caller got is what its request as a whole gives on the bridge as it was at the call |
| `ClientCalls.ServedRequest` | ddswsclient/conn.go:105-137 | the same for a handled call whose caller gave up; the bridge ends alike, and only others acted in between unless another call was handled |
| `ClientCalls.AnswerReachesWaiter` | ddswsclient/conn.go:268-340 | on every run, an answer received while its caller waits is put into its channel, and the caller returns it |
| `ClientCalls.CallCompletes` | ddswsclient/conn.go:105-137 | from every idle state a call can go all the way: its moves are enabled in turn and its caller gets the bridge's answer |
| `Client.IndexOf` | ddswsclient/client.go:516-525 | the first position of a writer |
| `ClientTheorems.ForeignStep` | src/bridge.rs:57-111 | events of others keep a session's writers and readers while it is registered |
| `ClientTheorems.FrameRead` | ddswsclient/conn.go:94-103 | what the client frames, the bridge reads back as the same type, id and payload |
| `ClientTheorems.EndpointNames` | ddswsclient/conn.go:139-176 | a payload the bridge accepts has the client's own topic and type names, however it was cut |
| `ClientTheorems.RequestKeeps` | ddswsclient/conn.go:105-137 | a request keeps the session's readers unless it unsubscribes and its writers except the one it deletes |
| `ClientTheorems.CreateRequest` | ddswsclient/conn.go:160-176 | a successful CREATE_WRITER names a writer of the session for that topic and type, not held before |
| `ClientTheorems.SubscribeRequest` | ddswsclient/conn.go:139-149 | after a successful SUBSCRIBE a live reader of that key lists the session |
| `ClientRuns.RestoredWriters` | ddswsclient/client.go:660-674 | the writer loop: same writers with new, distinct, owned ids; the session keeps what it had |
| `ClientRuns.RestoredSubs` | ddswsclient/client.go:676-681 | the subscription loop: every subscription has a live reader |
| `ClientRuns.AttemptRestoresAll` | ddswsclient/client.go:618-641 | the connection is published only with all writers and subscriptions in place |
| `ClientRuns.PublishedMeansAnswered` | ddswsclient/client.go:626-639 | one lost request or answer and the attempt is not published |
| `ClientRuns.ReconnectRestoresAll` | ddswsclient/client.go:596-647 | the same for the retry loop, after any number of failed attempts, within the limit |
| `ClientRuns.CreateKeepsInv` | ddswsclient/client.go:390-419 | CreateWriter keeps the invariant |
| `ClientRuns.CloseKeepsInv` | ddswsclient/client.go:189-209 | Close deletes no id but its own |
| `ClientRuns.ActKeepsInv` | ddswsclient/client.go:356-502 | every client call and every foreign event keeps it |
| `ClientRuns.WritersSurvive` | ddswsclient/client.go:558-684 | in every state of every run, with the connection set and its session registered, each open writer has its own id owned by that session for its topic and type |
| `ClientRuns.SubscriptionsSurvive` | ddswsclient/client.go:596-684 | after any run, a successful reconnect has every snapshotted subscription on a live reader listing the new session |
| `ClientSubs.UnsubscribeEnds` | src/dds/reader.rs:227-251 | an UNSUBSCRIBE ends a session's listing at a reader if and only if the entry it removes leads there |
| `ClientSubs.UnsubscribeExact` | ddswsclient/client.go:62-76 | exactly which subscriptions stay live after an `Unsubscribe` call |
| `ClientSubs.OtherNamesSpared` | ddswsclient/client.go:62-76 | never one of another topic or type |
| `ClientSubs.ActKeepsSubs` | ddswsclient/client.go:356-502 | every act keeps all listed subscriptions live, if and only if it is not an `Unsubscribe` that takes another one's reader away |
| `ClientSubs.SubsStayLive` | ddswsclient/client.go:558-684 | in every state of every run without such a call, with the connection set and its session registered, every listed subscription is live |
| `ClientSubs.AloneSubsStayLive` | ddswsclient/client.go:62-76 | the same for a client that never ends one of two listed subscriptions to one topic and type |
| `ClientSubs.SubscribeSucceeds` | ddswsclient/conn.go:139-149 | a SUBSCRIBE that gets through succeeds, for every endpoint the bridge takes |
| `ClientSubs.TwinLost` | ddswsclient/client.go:62-76 | of two subscriptions to one endpoint, ending the first ends the second |
| `ClientSuccess.CreateSucceeds` | ddswsclient/conn.go:160-176 | a CREATE_WRITER that gets through succeeds, and the session owns the id for the writer's names |
| `ClientSuccess.SubscribeGoesThrough` | ddswsclient/conn.go:139-149 | a SUBSCRIBE that gets through, among events of others, succeeds and is live |
| `ClientSuccess.AttemptSucceeds` | ddswsclient/client.go:618-645 | if the dial succeeds and every restore request gets through with DDS willing, the attempt ends connected on its own session |
| `ClientSuccess.ReconnectSucceeds` | ddswsclient/client.go:596-647 | with such an attempt within the limit, reconnecting ends connected; if all before it failed, on that one |
| `ClientSuccess.CreateWriterCompletes` | ddswsclient/client.go:390-419 | the call appends the writer with an id owned for its topic and type |
| `ClientSuccess.SubscribeCompletes` | ddswsclient/client.go:356-385 | the call appends the subscription, live |
| `ClientSuccess.CloseCompletes` | ddswsclient/client.go:189-209 | the call removes the writer, and the session holds its id no more |
| `ClientSuccess.WithoutSubExact` | ddswsclient/client.go:505-514 | exactly the first subscription with the token leaves the list |
| `ClientSuccess.PublishReachesDds` | ddswsclient/client.go:102-184 | publishing through an open writer asks DDS for exactly that operation with these bytes; a successful dispose sends the notices under the writer's own topic |
| `ClientObject.Client.CreateWriter` | ddswsclient/client.go:390-419 | the fields after the call |
| `ClientObject.Client.Subscribe` | ddswsclient/client.go:356-385 | the fields after the call |
| `ClientObject.Client.CloseWriter` | ddswsclient/client.go:189-209 | the search loop removes the writer, then its id is deleted |
| `ClientObject.Client.RemoveSub` | ddswsclient/client.go:505-514 | the loop removes the first match |
| `ClientObject.Client.Unsubscribe` | ddswsclient/client.go:62-76 | the fields after the call |
| `ClientObject.Client.RestoreState` | ddswsclient/client.go:649-684 | the two restore loops |
| `ClientObject.Client.Reconnect` | ddswsclient/client.go:596-647 | the retry loop; true exactly if the connection is set |
| `ClientObject.Client.ConnectionLost` | ddswsclient/client.go:558-594 | the watch loop once a connection ends |
| `ClientObject.Client.Close` | ddswsclient/client.go:467-501 | everything is dropped |
| `Delivery.MatchingExact` | ddswsclient/client.go:528-535 | exactly the subscriptions of the topic are targets, each once |
| `Delivery.OverflowTakes` | ddswsclient/client.go:543-552 | the second send cannot fail |
| `Delivery.DeliverEffect` | ddswsclient/client.go:527-555 | each target keeps the message as its newest and loses at most the oldest unread, only from a full queue; others lose nothing |
| `Delivery.RunSound` | ddswsclient/client.go:527-555 | over all runs and interleavings: queue at most 256, read plus queued an in-order subsequence of what arrived, at most one loss per arrival at a full queue |
| `Delivery.NewestKept` | ddswsclient/client.go:543-552 | the newest message is never the one dropped |
| `Delivery.LeavingStops` | ddswsclient/client.go:62-66 | a subscription that has left gets nothing more |
| `Delivery.ReadingGetsAll` | ddswsclient/client.go:41-45 | a consumer that reads on gets everything kept, in order |
| `Delivery.Mailboxes.DeliverData` | ddswsclient/client.go:527-555 | the two loops and three channel attempts compute the delivery |
| `DataPath.FrameNotices` | src/bridge.rs:419-467 | what a frame puts behind its answer and into every queue, for all message types |
| `DataPath.StepOffers` | src/bridge.rs:540-549 | every event appends to a session's queue what it offers as far as there is room; only the writer task takes from it |
| `DataPath.DeliveriesAreDecoded` | ddswsclient/conn.go:268-340 | the data handed on are those in the notifications received, in order; answers carry none |
| `DataPath.EndToEnd` | ddswsclient/client.go:527-555 | over every run of client, wire and bridge, what a subscription keeps is in order part of what was received, for its topic; that is two ways merged: pushed samples and others' notices in order, and the client's own notices in order |
| `DataPath.KeptCameFrom` | ddswsclient/client.go:527-555 | every kept message is the content of a sample pushed to the session or of a dispose notice for it |
| `DataPath.SampleArrives` | src/bridge.rs:555-583 | a sample arrives with its topic, time stamp, bytes and state |
| `DataPath.NoticeArrives` | src/bridge.rs:442-449 | a notice arrives as a disposed instance with the bytes of the dispose |
| `Md5.TablesAgree` | src/dds/sertype.rs:222-283 | shifts and index formulas are those of section 3.4 of RFC 1321 |
| `Md5.ShuffleIsOperation` | src/dds/sertype.rs:277-288 | one turn of the register shuffle is one rotating [abcd k s i] operation |
| `Md5.Compress` | src/dds/sertype.rs:274-288 | the 64-step loop computes the 64 operations, for every block |
| `Md5.RotateIsCircular` | src/dds/sertype.rs:284-288 | the rotation is circular for every shift amount of the RFC |
| `Md5.OutputReadsBack` | src/dds/sertype.rs:296-302 | the digest is the registers A to D, low-order byte first |
| `Md5.StartBytes` | src/dds/sertype.rs:257-262 | the initial registers are the bytes of section 3.3 |
| `Md5.PadInjective` | src/dds/sertype.rs:247-255 | padding is injective at every length |
| `Md5.PadLength` | src/dds/sertype.rs:247-255 | the padded length is a multiple of 64, by at most 72 bytes more |
| `Md5.PadLoop` | src/dds/sertype.rs:247-255 | the padding loop ends with the least gap and the wrapped bit count |
| `Md5.Md5Hash` | src/dds/sertype.rs:218-303 | the whole function computes the digest of RFC 1321 |
| `Keys.StringKey` | src/dds/sertype.rs:112-150 | a string's key is its length word, in the payload's byte order, and the bytes it counts, whatever follows |
| `Keys.CutStringKey` | src/dds/sertype.rs:129-150 | the key of a string cut off by the end of the payload |
| `Keys.FixedKey` | src/dds/sertype.rs:144-149 | any other key is the field's bytes at its offset, as far as the payload goes |
| `Keys.NoKey` | src/dds/sertype.rs:129-133 | a field beyond the payload has no key |
| `Keys.KeysEqualIff` | src/dds/sertype.rs:152-161 | payloads of one length and byte order have equal keys if and only if they agree at every position of a key |
| `Keys.SameInstanceIff` | src/dds/sertype.rs:316-347 | so two received samples are one instance exactly then |
| `Keys.HashOfJoined` | src/dds/sertype.rs:163-173 | the hash runs over every byte of every key field, in order |
| `Keys.KeyhashOfKey` | src/dds/sertype.rs:607-616 | a key that fits is its own keyhash, zero padded, unless a digest is forced |
| `Keys.KeysEqualLoop` | src/dds/sertype.rs:152-161 | the loop compares all key fields |
| `Keys.HashKeyBytesLoop` | src/dds/sertype.rs:163-173 | the nested loops hash the key fields in order |
| `Keys.EqKeyEquivalence` | src/dds/sertype.rs:316-347 | key equality is an equivalence among serdata that all have key bytes or all lack them |
| `Keys.MixedPairBreaksTransitivity` | src/dds/sertype.rs:329-335 | every equal mixed pair has a third sample, made by a constructor, that breaks transitivity |
| `Keys.UnmixedEquivalence` | src/dds/sertype.rs:316-347 | without an equal mixed pair it is transitive |
| `Keys.MixedPairExists` | src/dds/sertype.rs:329-335 | such pairs: a payload written with a key, and received |
| `Keys.EqKeySameHash` | src/dds/sertype.rs:475-513 | equal keys have equal base hashes if and only if alike, or the key hash happens to be the type hash |
| `Keys.EqKeySameKeyhash` | src/dds/sertype.rs:598-632 | equal keys have equal keyhashes, exactly except for empty against non-empty payloads without key bytes |
| `Keys.EmptyPayloadParts` | src/dds/sertype.rs:624-627 | two received samples that are equal and have different keyhashes |
| `Keys.ShortKeyhash` | src/dds/sertype.rs:608-616 | unforced keyhashes of short keys agree if and only if the keys differ in trailing zeros only |
| `Reassembly.EndIsHighest` | helper.c:5-22 | the reference end of a chain is its highest fragment end |
| `Reassembly.CopyFragchainToBuf` | helper.c:5-22 | on every chain read inside its fragments: returns min(size, highest end), writes that many bytes and no more; if no fragment it copies leaves a gap, they are the payload's prefix |
| `Reassembly.ImageIsPrefix` | helper.c:5-22 | gap-free slices of one payload are read inside and make up its prefix |
| `Reassembly.GapFreeIff` | helper.c:5-22 | a chain, cut from any payload that reaches its ends, is read inside and gives the payload's prefix, if and only if no copied fragment leaves a gap |
| `Reassembly.GapByte` | helper.c:12-16 | behind a gap the byte at the fragment's start lands at the offset |
| `Reassembly.ReadsPastIff` | helper.c:12-16 | exactly when a read runs past its fragment |
| `Reassembly.GapReadsPast` | helper.c:12-16 | a chain where it does |
| `Reassembly.GapMisplaces` | helper.c:12-16 | a chain with a gap where it does not, and a byte lands too early |
| `Reassembly.FromFragments` | src/dds/sertype.rs:364-378 | what was written, zero padded to size |
| `Reassembly.FromBuffers` | src/dds/sertype.rs:405-419 | the first `size` bytes of the buffers end to end, zero padded |

## Left out

- Cyclone DDS, raw pointers, memory ownership and reference counts, and the translation of QoS into library setters (src/dds/qos_handle.rs).
- `run_session`, the server, WebSocket framing, configuration, logging and the text of error messages; a message text is a parameter.
- Cleanup "after disconnect": the claims are about `unregister_session` itself, since `run_session` awaits the writer task first (src/ws/session.rs:75-80).
- BridgeObject.BridgeInner.PollRound: an undisturbed round; in runs each send is an event of its own (`Push`), after the lock, between any others. A send to a session removed in between goes nowhere.
- The reader id counter is 64 bits wide and is unbounded here; timestamps enter a message as their 64-bit pattern.
- ClientRuns.ActKeepsInv: each public call is one step, so `Publish` reading its writer id and the connection in two critical sections, and calls racing inside one reconnect attempt, are not modelled; a request whose caller gave up does not arrive later.
- ClientRuns.WritersSurvive: topic and type names are below 4 GiB, because the wire's length prefix has 32 bits, and writer ids are fresh where one is registered (see BridgeProofs.FreshUntilWrap).
- Delivery.RunSound: nobody unsubscribes between a target's check and its sends (ddswsclient/client.go:538-542).
- The initial connect loop, timers, backoff, contexts and user callbacks of the client.
- MurmurHash3 and the type name hash are uninterpreted functions of their inputs; the sine table of MD5 is taken as listed.
- Reassembly.CopyFragchainToBuf: chains on which a read runs past its fragment have no meaning in C and are excluded.
- The CDR and protobuf examples, the Python clients and the fixtures.
