# Proofs about the meeting client's core

This project models the deterministic protocol and accounting code of a C++20 meeting client
(`src/core/`) in Dafny and proves what it is meant to guarantee. Run `dafny verify dfyconfig.toml` to
check the project.

| Part of the program | Modules |
|---|---|
| Chunked media transfer, receiver: the tables of the strand, the ledger of the Qt thread and the two queues between them | `MediaKeys`, `MediaSlices`, `MediaTransfer`, `MediaSignals`, `MediaDelivery`, `MediaReceiver`, `InboundMedia`, `MediaProjection`, `MediaReceiverRuns` |
| Chunked media transfer, sender: send queue, replay queue and cache | `MediaSender`, `OutboundMedia`, `MediaSenderRuns`, `MediaSending` |
| Chunked media transfer, both ends together: what arrives, and that recovery ends in delivery | `MediaEndToEnd`, `MediaUptake`, `MediaPackets`, `MediaAsking`, `MediaGivingUp`, `MediaCancelling`, `MediaAnswers`, `MediaRecovery` |
| Data streams: UTF-8, chunking, writer, readers and their shared budget, end to end | `Utf8`, `StreamChunks`, `StreamWriter`, `StreamReader`, `ReaderSystem`, `ReaderCalls`, `StreamRoundTrip` |
| Assembler of inbound streams | `Assembler`, `AssemblerOutcomes`, `Sizes`, `Totals` |
| Executor callback gate | `ExecutorGate`, `GateDrain` |
| Publication catalog | `PublicationCatalog`, `CatalogEvents`, `CatalogReplica` |
| Meeting catalog controller | `MeetingCatalog`, `MeetingCatalogFlows`, `MeetingCatalogController` |
| Video planning | `Simulcast`, `SimulcastTable` |

Each component is a specification on values, classes whose methods update their fields in place and are
proved equal to it, and lemmas about the specification over all inputs and all runs. A locked section, a
posted callback or a handler up to a signal that may run a nested event loop is one atomic step; what is
left of a handler behind such a signal waits in a *frame*, and any other step may come before it resumes.
This allows every interleaving the program has, and some it has not.

The media receiver is proved in two stages. `MediaTransfer` is the machine of a single transfer, for
which the language of its signals, the count of its deliveries and their content are shown. `MediaProjection`
shows that the whole receiver, with any number of transfers in shared tables and queues, is for each of
them a run of that machine; this is where the injectivity of the two text keys is needed.

For the transfer as a whole safety is shown from any reachable states of the two ends: whatever is delivered is
the file that was submitted (`FileArrives`). Progress is shown by rounds. In a round a pass of the receiver
publishes a request, the sender answers it, and the receiver takes the answer. From any reachable states in which
nothing waits, as many undisturbed rounds as there are batches missing deliver the file (`RecoveryCompletes`). A
round is possible exactly if its pass asks for the transfer (it can be resumed, its sender's ticket is active, and
the times fit), the placeholder of the transfer has been reported, and the Qt thread may still publish the request
(`RoundIff`). A transfer whose placeholder was never reported is not asked for and is given up
(`UnannouncedIsNeverAsked`); from all others that may be asked for, ordinary passes every five seconds deliver the
file (`OrdinaryPassesDeliver`).

What an operation does is stated by laws of its own, on the state before and after and over its whole course: which
transfers a pass gives up, and what becomes of them (`LostIsGivenUp`), how a file goes out until it is in the cache
(`FileGoesOut`), what ends a stream (`ReceiveOutcome`, `CancelIsThrown`), what each event leaves of the catalog
(`DepartureMeaning`, `UpsertOutcome`, `TrackOutcome`), and what an answer puts on show (`ListAnswerMeaning`,
`DetailAnswerMeaning`).

Some laws hold only under a condition, which is then stated exactly. A rejected track event leaves the
catalog unchanged except before its first room (`RevisionIsSound`). An Upsert is idempotent unless it announces
one track twice in a particular way (`UpsertAgain`, `UpsertUnsettled`), which the room never does
(`RoomUpsertAgain`). A pending refresh has a write to wait for exactly if every change of account
without notice is harmless (`PendingIffHarmless`, `DriftForgets`), which it always is for the program's own
session manager (`RefreshIsNeverForgotten`). The layers of a video descend in bitrate exactly if AV1 or VP9
does not push the top layer below the next one (`LayersDescend`, `TopTooLow`). The signals of a transfer are
lawful as long as no packet opens it again after its terminal record was lost (`SignalsAreLawfulUnlessReopened`,
`ExpiredRecordRestarts`), and a drained gate needs callbacks created under tickets
(`UnticketedCreateBreaksDrain`).

## Model

| member | source | states |
|---|---|---|
| `MediaKeys.UiTransferIdInjective` | src/core/meeting_session_runtime.h:69-75 | Two transfers never share a presentation id: the lengths written into it make the concatenation injective. |
| `MediaKeys.CompletionIdInjective` | src/core/meeting_coordinator.cpp:47-61 | Two terminal records share an id only if sender, encryption revision and transfer id are the same, although sid, identity and transfer id may hold colons. |
| `MediaKeys.Utf16Meaning` | src/core/meeting_coordinator.cpp:5963-5966 | Lengths are in UTF-16 units: one for each character of the basic plane, two for each beyond it. |
| `MediaSlices.Pigeonhole` | src/core/meeting_coordinator.cpp:6024-6030 | As many chunks as there are indices, all in range, are all the indices: every `.at(index)` of the join succeeds. |
| `MediaSlices.FullSetJoins` | src/core/meeting_coordinator.cpp:6027-6030 | A full set of slices of a text, joined by index, is that text. |
| `MediaSlices.LargestFileFits` | src/core/meeting_coordinator.cpp:4729-4732 | The base64 text of any file of 1 byte to 15 MiB has 1 to 2048 slices, and exactly 2048 at 15 MiB. |
| `MediaSlices.MissingMeaning` | src/core/meeting_coordinator.cpp:5788-5790 | The scan for missing indices yields only missing ones, each once, at most the batch, and all of them if there are fewer. |
| `MediaSlices.RecoveryRound` | src/core/meeting_coordinator.cpp:5788-5793 | When the slices of one request arrive, the number of missing ones falls by exactly min(64, missing). |
| `MediaSignals.SignalsAreLawful` | src/core/meeting_coordinator.cpp:5970-6088 | One transfer, two threads, any interleaving of packets, callbacks, failures, refusals and nested event loops that keeps the terminal record: the signals are Started, Progress*, then at most one of Completed and Failed, and nothing after it. |
| `MediaSignals.StepKeeps` | src/core/meeting_coordinator.cpp:5644-5668 | Each step of either thread keeps the invariant behind this: cancellations from before the transfer, then what its assembly posted, then what was posted after its end; and what that says of ledger, frames and signals. |
| `MediaSignals.StepKeepsBut` | src/core/meeting_coordinator.cpp:5644-5668 | A lost record does no harm to this invariant by itself: each step keeps it, as it would be with the record, unless it opens the transfer again. |
| `MediaSignals.LostRecordRestarts` | src/core/meeting_coordinator.cpp:5970-5973 | The assumption is needed: in the machine of one transfer, a start that comes after the record is lost opens an ended transfer again (Started, Failed, Started). |
| `MediaDelivery.OneDeliveryAtATime` | src/core/meeting_coordinator.cpp:6024-6063 | At most one delivery is under way (on its way to Qt, waiting in a signal, or its outcome on the way back), and while data is accepted `completionQueued` is set exactly while one is. |
| `MediaDelivery.DeliversTheText` | src/core/meeting_coordinator.cpp:6013-6035 | Under any loss, repetition and order of packets cut from one text, the chunks held are slices of it and every completion delivers that text, decoded; even if terminal records are lost. |
| `MediaDelivery.AbsorbTrue` | src/core/meeting_coordinator.cpp:6013-6038 | A packet of such a text never makes the assembly fail for its size. |
| `MediaDelivery.RecoveryDelivers` | src/core/meeting_coordinator.cpp:5791-5793 | For a single transfer, however a run got there, refused deliveries included: once both threads are idle, the last missing chunk, or any chunk again when none is missing, delivers the text, ends the transfer and clears the ledger, if sender and session stay current. |
| `InboundMedia.OldestRecord` | src/core/meeting_coordinator.cpp:69-71 | The minimum search finds a record that expires no later than any other. |
| `InboundMedia.InboundMedia.RememberTerminal` | src/core/meeting_coordinator.cpp:62-72 | The record is set and the oldest ones are evicted, one by one, until 1024 are left. |
| `MediaProjection.EvictedShrinks` | src/core/meeting_coordinator.cpp:68-72 | Eviction leaves min(size, 1024) records and alters none of them. |
| `MediaProjection.EvictedAreOldest` | src/core/meeting_coordinator.cpp:69-71 | No evicted record expires later than one that stays. |
| `InboundMedia.InboundMedia.Fail` | src/core/meeting_coordinator.cpp:5644-5668 | Failing a transfer erases it, records it and posts one failure; an unknown key changes nothing. |
| `InboundMedia.InboundMedia.Receive` | src/core/meeting_coordinator.cpp:5954-5974 | A packet of a sender with an active ticket is checked against its form and the terminal records, an expired one being dropped, in that order; then it is taken as new. |
| `InboundMedia.InboundMedia.ReceiveNew` | src/core/meeting_coordinator.cpp:5974-6001 | A packet without a terminal record opens or meets its transfer, unless there are 64, and is ignored if the owner differs, the ticket of the transfer is no longer active, or the meta differs. |
| `InboundMedia.InboundMedia.AbsorbPacket` | src/core/meeting_coordinator.cpp:6002-6023 | The posts of a start and of a progress of at most 99, the chunk kept only the first time, and the completion of a full set, equal the specification of one assembly step. |
| `InboundMedia.InboundMedia.Complete` | src/core/meeting_coordinator.cpp:6024-6043 | A full set is joined and either delivered, once, or failed if its size is wrong. |
| `InboundMedia.JoinChunks` | src/core/meeting_coordinator.cpp:6027-6030 | The loop over all indices joins the chunks and never asks for a missing one. |
| `InboundMedia.MissingChunks` | src/core/meeting_coordinator.cpp:5788-5793 | The loop of a request collects the first missing indices, or the last index when none is missing. |
| `InboundMedia.InboundMedia.RecoverOne` | src/core/meeting_coordinator.cpp:5767-5811 | One transfer of a recovery pass: given up, left, touched, or asked for, with its two timestamps. |
| `InboundMedia.InboundMedia.Recover` | src/core/meeting_coordinator.cpp:5757-5796 | The pass drops exactly the expired records, decides about every transfer once, posts the requests in table order and collects those given up. |
| `InboundMedia.InboundMedia.ProcessRecovery` | src/core/meeting_coordinator.cpp:5748-5815 | Then exactly those given up are failed, one after the other, in the same order. |
| `InboundMedia.InboundMedia.PublishRequest` | src/core/meeting_coordinator.cpp:5796-5806 | The callback of a request publishes it to its sender exactly if the session and the meeting are current, the ticket is active, the ledger has an uncommitted entry of exactly this key, the participant is this sender and the transport takes it; else nothing changes. |
| `InboundMedia.InboundMedia.Cancel` | src/core/meeting_coordinator.cpp:5825-5845 | All transfers of a sender, and no others, are erased and recorded, and one cancellation is posted even if there were none. |
| `InboundMedia.InboundMedia.CancelEntries` | src/core/meeting_coordinator.cpp:5853-5864 | On the Qt side exactly the ledger entries of that sender and session go; each uncommitted one is due one failure signal. |
| `InboundMedia.InboundMedia.HandleTransferPost` | src/core/meeting_coordinator.cpp:6004-6062 | Each posted callback acts on the ledger entry of its own key only, if session and sender are current; a refused delivery posts a retry. |
| `InboundMedia.InboundMedia.HandleQtPost` | src/core/meeting_coordinator.cpp:5844-5875 | The head of the queue to Qt is handled, a cancellation only in a current session. |
| `InboundMedia.InboundMedia.Resume` | src/core/meeting_coordinator.cpp:6062-6086 | After the nested event loop a delivery is checked again and then committed and completed, or retried; a collected failure is reported. |
| `InboundMedia.InboundMedia.HandleStrandPost` | src/core/meeting_coordinator.cpp:6051-6080 | A retry only clears `completionQueued`; a commit erases the transfer, records it and posts the acknowledgement, while data is accepted. |
| `MediaProjection.CallbackSimulates` | src/core/meeting_coordinator.cpp:5644-6092 | Every callback of the whole receiver, with all its tables and both queues, is for each transfer one step of that transfer's own machine; keys found by text never mix transfers. |
| `MediaProjection.StepProjects` | src/core/meeting_coordinator.cpp:5644-6092 | So is the whole step, up to records that expire or are evicted; and every table keeps naming the owner of its transfers. |
| `MediaReceiverRuns.EverySignalIsLawful` | src/core/meeting_coordinator.cpp:5644-5668 | In every run of the receiver with any number of senders and transfers, the signals of each transfer whose record is kept are Started, Progress*, then at most one of Completed and Failed. |
| `MediaReceiverRuns.SignalsAreLawfulUnlessReopened` | src/core/meeting_coordinator.cpp:5970-5976 | Records may expire and be evicted: in every run in which no packet opens the transfer once a record of it was lost, its signals are that language. |
| `MediaReceiverRuns.ExpiredRecordRestarts` | src/core/meeting_coordinator.cpp:5970-5973 | The condition is needed: a run of the whole receiver in which the start of a failed transfer comes again when its record expires, ten minutes later, reports Started, Failed, Started. |
| `MediaReceiverRuns.EveryDeliveryIsTrue` | src/core/meeting_coordinator.cpp:6013-6035 | In every such run, a transfer whose packets come from one text delivers that text, decoded, whatever happens to other transfers. |
| `MediaReceiverRuns.RequestsArePaced` | src/core/meeting_coordinator.cpp:5779-5793 | While a transfer stays, two ordinary recovery passes that ask for it are at least five seconds apart, and one that has been idle for a minute is not asked for. |
| `MediaReceiverRuns.TablesBounded` | src/core/meeting_coordinator.cpp:5976 | At most 64 assemblies and 1024 terminal records exist in any reachable state. |
| `OutboundMedia.OutboundMedia.Submit` | src/core/meeting_coordinator.cpp:4701-4777 | A file is refused exactly while keys recover, without data, or out of a meeting; else its start is sent if the transport takes it, and it is queued from its first chunk. |
| `OutboundMedia.OutboundMedia.Tick` | src/core/meeting_coordinator.cpp:4780-4816 | One tick: nothing while reconnecting, failing all outside a meeting, nothing above 64 KiB of backlog, else a replay before the next chunk. |
| `OutboundMedia.OutboundMedia.ReplayNext` | src/core/meeting_coordinator.cpp:4818-4851 | The first replay is dropped if its recipient is not current or was not addressed or its file is gone, else its least index is sent to that recipient and removed on acceptance. |
| `OutboundMedia.OutboundMedia.SendNext` | src/core/meeting_coordinator.cpp:4853-4922 | The next chunk of the first file: kept for the next tick on rejection, failed on an exception, counted on acceptance; a finished file waits. |
| `OutboundMedia.OutboundMedia.ResumeFrame` | src/core/meeting_coordinator.cpp:4918-4938 | After the progress signal a finished file moves to the cache and succeeds only if it is still the first and its session alive. |
| `OutboundMedia.OutboundMedia.Prune` | src/core/meeting_coordinator.cpp:4941-4956 | Expired files go, then the oldest until the counted bytes are at most 128 MiB and the files at most 128; the minimum is never taken of an empty cache and the count equals the bytes held. |
| `OutboundMedia.OutboundMedia.EndSession` | src/core/meeting_coordinator.cpp:4268-4277 | When the session ends every queued file ends, once, and queue, cache and replays are empty. |
| `MediaSenderRuns.PrunedMeaning` | src/core/meeting_coordinator.cpp:4941-4956 | What stays in the cache is unaltered, unexpired and within both bounds. |
| `MediaSenderRuns.OldestLeave` | src/core/meeting_coordinator.cpp:4950-4955 | What is evicted expires no later than anything that stays. |
| `OutboundMedia.OutboundMedia.HandleRequest` | src/core/meeting_coordinator.cpp:4958-5002 | A request is refused as a whole for its form or one bad index, answered as unavailable without its file, and ignored from someone the file was not sent to. |
| `OutboundMedia.OutboundMedia.QueueReplay` | src/core/meeting_coordinator.cpp:4988-5000 | A replay of the same file and identity is extended (emptied first for a new incarnation), else added below 128. |
| `OutboundMedia.MergeChunks` | src/core/meeting_coordinator.cpp:4993-4996 | The insertion loop that stops at 64 gives the bounded merge. |
| `OutboundMedia.ReadIndices` | src/core/meeting_coordinator.cpp:4982-4987 | The loop over the indices accepts exactly requests whose every entry is a whole number in range. |
| `MediaSenderRuns.MergeMeaning` | src/core/meeting_coordinator.cpp:4993-4996 | A merge keeps what was there, adds only what was asked, the least first, never exceeds 64, and adds all of it if there is room. |
| `MediaSenderRuns.EveryFileEndsOnce` | src/core/meeting_coordinator.cpp:4853-4938 | In every run a submitted file is queued or has ended exactly once, and if it succeeded its chunks 0, 1, ..., n-1 were broadcast, each once, in that order. |
| `MediaSenderRuns.EveryPacketIsTrue` | src/core/meeting_coordinator.cpp:79-86 | Everything ever sent for a file is its start or the slice of its text at an index in range, and replays only go to identities it was sent to. |
| `MediaSenderRuns.SenderIsBounded` | src/core/meeting_coordinator.cpp:4950 | Cache bytes, cached files, replays and the chunks of each replay stay within 128 MiB, 128, 128 and 64 in every reachable state. |
| `MediaSending.TickMeaning` | src/core/meeting_coordinator.cpp:4853-4922 | A tick of the first file: an accepted chunk is the slice that was due, the next one is due then, and the last leaves the file to be committed; while the room reconnects, the channel is full or the transport rejects nothing changes; an exception ends the file once, in failure. |
| `MediaSending.TicksSend` | src/core/meeting_coordinator.cpp:4853-4922 | Any number of ticks, whichever of them wait: as many chunks go out to everyone, in order, as the transport takes. |
| `MediaSending.CommitMeaning` | src/core/meeting_coordinator.cpp:4918-4938 | Behind its last signal a finished file ends once, in success, and is in the cache for ten minutes if it fits and all others expire earlier; what else stays there is unaltered and unexpired. If its session has ended or another file is first by then, nothing happens. |
| `MediaSending.FileGoesOut` | src/core/meeting_coordinator.cpp:4853-4938 | As many ticks as it has chunks, among any that wait, and the last signal: chunks 0 to n-1 have been sent to everyone, once and in order, and the file has ended once, in success, and is in the cache under the same conditions. |
| `MediaSending.SubmittedGoesOut` | src/core/meeting_coordinator.cpp:4733-4938 | So it is from the submission to an idle sender on, with the start of the file first if the transport takes it. |
| `MediaSending.QueueFails` | src/core/meeting_coordinator.cpp:4789-4809 | Out of the meeting one tick, and what remains of its loop behind each signal, fails every queued file, once and in order, drops the replays and sends nothing; nothing remains behind the last. |
| `MediaSending.LeaveMeaning` | src/core/meeting_coordinator.cpp:4268-4277 | So does the end of the session, which also forgets the cache. |
| `MediaSending.ReplayMeaning` | src/core/meeting_coordinator.cpp:4818-4851 | The first replay is dropped if and only if its recipient is not current or was not addressed, it asks for nothing, or its file is neither cached and unexpired nor queued; otherwise it stays until the transport takes its least chunk, which then leaves it. |
| `MediaSending.RequestMeaning` | src/core/meeting_coordinator.cpp:4958-5000 | A request that may not be considered changes nothing. Any other prunes the cache; an unknown file is said to be unavailable, a request by somebody the file was not sent to or with one entry that is no index of it is ignored, and any other is taken up: the first replay of this file for this identity is extended, up to 64 chunks, or emptied first for a new incarnation, or else a new one comes last, below 128. |
| `MediaEndToEnd.FileArrives` | src/core/meeting_coordinator.cpp:4838-4848 | Any run of the sender and any run of the receiver that hears only what was sent, lost, repeated or reordered at will: every completion of the transfer delivers exactly the bytes submitted. |
| `MediaEndToEnd.SentIsWellFormed` | src/core/meeting_coordinator.cpp:5963-5966 | No packet of a file of 1 byte to 15 MiB under an id of at most 256 units is refused by the receiver's checks. |
| `MediaEndToEnd.WantedMeaning` | src/core/meeting_coordinator.cpp:5788-5793 | A request holds 1 to 64 indices in range, each once, all missing and all of the missing if fewer than 64; the last index when none is missing. |
| `MediaEndToEnd.RequestIsServed` | src/core/meeting_coordinator.cpp:4965-4987 | Such a request passes every check of the sender of that file and is read as the same set of indices. |
| `MediaUptake.ChunkTaken` | src/core/meeting_coordinator.cpp:5994-6092 | In the whole receiver, with any other transfers in its tables: when a chunk of the file comes and the threads run on until nothing waits, in whatever way they can, the chunk is in its place, or, if it was the last one, the file has been delivered and the transfer is over; all other transfers are as they were. Placeholder, progress and data are reported for it, in this order, and nothing else is. |
| `MediaUptake.PercentMeaning` | src/core/meeting_coordinator.cpp:6013-6022 | The progress reported of a chunk is the percentage received, rounded down, and 99 at most. |
| `MediaPackets.PacketRefused` | src/core/meeting_coordinator.cpp:5954-6001 | What comes of a packet that is not taken: nothing at all without data being accepted, a ticket, its form, or for a transfer that is over; else an expired record is dropped, and nothing more if it would open a 65th transfer, nor, but that it may open its own, if the transfer is not its sender's, its ticket is no longer active, or it announces something else. |
| `MediaPackets.WrongSizeFails` | src/core/meeting_coordinator.cpp:6024-6043 | A full set of chunks that does not decode to as many bytes as announced is never delivered: once nothing waits the transfer is out of the table and recorded, its placeholder is gone, and it has been reported as failed. |
| `MediaPackets.EveryDeliveryIsSized` | src/core/meeting_coordinator.cpp:5963-5966 | In every run, whatever comes in, everything ever delivered is a file of 1 byte to 15 MiB. |
| `MediaUptake.MissingTaken` | src/core/meeting_coordinator.cpp:6013-6092 | Missing chunks that come one after the other are all there afterwards; when none is left missing the file has been delivered. |
| `MediaAsking.DecisionMeaning` | src/core/meeting_coordinator.cpp:5767-5811 | A pass gives up a transfer if and only if it is lost: in a forced pass, if its sender is not in the room under its sid; in an ordinary one, if nothing has come for a minute. It asks for a transfer if and only if that can be resumed, its ticket is active, and either the pass is forced and finds its sender in the room, or the last new chunk is 5 to 60 seconds old and the last request at least 5; and then for what is missing. A forced pass touches the others whose ticket is active. |
| `MediaAsking.PassMeaning` | src/core/meeting_coordinator.cpp:5757-5812 | A whole pass, over all transfers, with the lost ones failed and everything posted run in any order until nothing waits: a request of this transfer is published if and only if it may be asked for, its placeholder has been reported and the Qt thread may still publish it; it is for what is missing. Unless lost, the transfer is as before but for its two times: a request sets the one, a forced pass that finds the ticket active the other. |
| `MediaAsking.RequestPublished` | src/core/meeting_coordinator.cpp:5799-5809 | The callback of a request publishes it, to the owner's identity, if and only if session, room, meeting, keys, ticket, participant and transport allow it and the ledger has an uncommitted entry of just this key; it does nothing else. |
| `MediaGivingUp.LostIsGivenUp` | src/core/meeting_coordinator.cpp:5757-5814 | After a whole pass every lost transfer is out of the table and recorded for ten minutes, unless there are 1024 records none of which expires earlier. If it had been announced and not completed, and the session is still current, its failure is reported once and its ledger entry goes; else nothing is reported. |
| `MediaGivingUp.RecoveryMeaning` | src/core/meeting_coordinator.cpp:5761-5796 | The pass on the strand, while data is accepted: exactly the expired records go, the times are set as said, and the requests of exactly those transfers that may be asked for are posted, once each; else nothing happens. |
| `MediaCancelling.SenderLeaves` | src/core/meeting_coordinator.cpp:5825-5875 | A sender leaves and everything posted runs, in any order, until nothing waits: its transfers, and no others, are out of the table and recorded; if the session is current its ledger entries are gone, each one not completed has been reported as failed, once, and nothing is reported of anybody else. |
| `MediaCancelling.WindsCanDown` | src/core/meeting_coordinator.cpp:5844-5875 | Everything posted can always run until nothing waits. |
| `MediaAsking.TimeToAsk` | src/core/meeting_coordinator.cpp:5774-5783 | There is a time at which an ordinary pass asks for a transfer if and only if it can be resumed and its last request came less than 55 seconds after its last new chunk. |
| `MediaAnswers.TicksServe` | src/core/meeting_coordinator.cpp:4818-4851 | One tick for each chunk of the first replay sends exactly these chunks to their recipient, in ascending order, and takes the replay out of the queue. |
| `MediaAnswers.RequestQueues` | src/core/meeting_coordinator.cpp:4958-5002 | The request of a transfer becomes the one replay of an idle sender that has the file, with exactly the indices asked for, although the cache is pruned first. |
| `MediaRecovery.SenderAnswers` | src/core/meeting_coordinator.cpp:4818-5002 | A request and as many ticks as it has indices send the requester exactly the chunks it asked for, and leave the sender idle. |
| `MediaRecovery.RoundAdvances` | src/core/meeting_coordinator.cpp:5748-5815 | One round, from the pass that asks to the chunks that are taken, brings 64 chunks more, or all that were missing and the delivery of the file; also when none was missing because a delivery had been refused. |
| `MediaRecovery.RoundIff` | src/core/meeting_coordinator.cpp:5748-5806 | With an idle sender that has the file, a round with a given pass is possible if and only if the pass may start, it asks for the transfer, the placeholder has been reported, and the Qt thread may publish the request. |
| `MediaRecovery.SettledIsAssembling` | src/core/meeting_coordinator.cpp:5994-6092 | In every run of the receiver that keeps its terminal record, a transfer that is there when nothing waits holds slices of its file only, has no delivery under way, and its ledger entry, if any, is its own and not committed. |
| `MediaRecovery.SendersTransfersResume` | src/core/meeting_coordinator.cpp:79-86 | Every transfer that hears only packets of this sender can be resumed, since its starts and its chunks all say so. |
| `MediaRecovery.RecoveryCompletes` | src/core/meeting_coordinator.cpp:5748-5815 | From any reachable states of the two ends, whatever has been lost, repeated, reordered or refused: once nothing waits, ceil(missing / 64) such rounds, and at least one, deliver exactly the bytes submitted. |
| `MediaRecovery.RecoveryIsPossible` | src/core/meeting_coordinator.cpp:5748-5815 | From any state at rest that may be asked for and whose placeholder has been reported, there are such rounds with ordinary passes every five seconds, if the sender has the file so long; they deliver it. |
| `MediaRecovery.OrdinaryPassesDeliver` | src/core/meeting_coordinator.cpp:5748-5815 | So it is from all such reachable states of the two ends. |
| `MediaRecovery.UnannouncedIsNeverAsked` | src/core/meeting_coordinator.cpp:5800-5802 | The placeholder is needed: after a start whose callback found its sender not current, nothing waits and the transfer is at rest, but no pass ever publishes a request for it, and any ordinary pass a minute later takes it out of the table. |
| `Utf8.GrammarIsEncoding` | src/core/data_stream.cpp:56-94 | The byte grammar of section 4 of RFC 3629 derives exactly the encodings of sequences of Unicode scalar values. |
| `Utf8.IsValidUtf8` | src/core/data_stream.cpp:56-94 | The one-pass validator accepts exactly those byte strings. |
| `Utf8.CutText` | src/core/data_stream.cpp:52-54 | Cutting a valid text at any position leaves two valid texts if and only if no continuation byte follows the cut. |
| `Utf8.BoundaryWithinFour` | src/core/data_stream.cpp:96-106 | A valid text never has four continuation bytes in a row, so a boundary is at most three bytes away. |
| `StreamChunks.Utf8AwareChunkSize` | src/core/data_stream.cpp:96-106 | The backwards scan gives the largest size up to 15000 that does not split a character, or 15000 if there is no such boundary. |
| `StreamChunks.TextChunksCover` | src/core/data_stream.cpp:814-820 | On arbitrary bytes the chunk loop ends, with non-empty chunks of at most 15000 bytes that spell the text. |
| `StreamChunks.TextChunksAreText` | src/core/data_stream.cpp:814-820 | Of a valid text every chunk is valid and all but the last have at least 14997 bytes. |
| `StreamChunks.TextChunkCount` | src/core/data_stream.cpp:814-820 | A valid text of 16 MiB or less needs at most 1119 chunks. |
| `StreamChunks.ByteChunksCover` | src/core/data_stream.cpp:854-865 | The byte loop gives ceil(size / 15000) non-empty chunks that spell the data. |
| `StreamWriter.WriterTrace` | src/core/data_stream.cpp:673-785 | Over any operations and any publisher the accepted packets are Header, Chunk 0, ..., Chunk n-1 and at most one Trailer, with contiguous indices, carrying a prefix of what was written, all of it without a failure. |
| `StreamWriter.TrailerMeaning` | src/core/data_stream.cpp:755-785 | The trailer carries the reason and the attributes of the first operation that was no write: those given to Close, the reason given to Cancel or else "cancelled", and none for a writer that was destroyed. |
| `StreamWriter.FailureMeaning` | src/core/data_stream.cpp:693-753 | The publisher is asked once for each accepted packet, in order; a writer that failed asked once more, and its first failure tells the answer and whether a header, a chunk or a trailer was being sent. Without a publisher nothing is sent. |
| `StreamWriter.EndedWriterIsInert` | src/core/data_stream.cpp:688-699 | After a trailer or a first failure nothing is published again; later operations on a failed writer throw that same first failure, on a closed one nothing. |
| `StreamWriter.ThrowsIffFailed` | src/core/data_stream.cpp:701-728 | An operation throws exactly when the writer has failed, and then the first failure; the destructor never throws. |
| `StreamWriter.StreamWriter.WriteTextChunks` | src/core/data_stream.cpp:809-821 | The text loop publishes exactly the chunks of the specification and stops at the first failure. |
| `StreamWriter.StreamWriter.WriteByteChunks` | src/core/data_stream.cpp:854-865 | So does the byte loop. |
| `StreamWriter.StreamWriter.PublishPacket` | src/core/data_stream.cpp:701-728 | A rejected or throwing publication fails the writer with the first failure; an accepted one is appended. |
| `StreamWriter.StreamWriter.EnsureHeaderSent` | src/core/data_stream.cpp:730-738 | The header goes out once, before anything else. |
| `StreamWriter.StreamWriter.SendOneChunk` | src/core/data_stream.cpp:740-753 | A chunk carries the next index, which only an accepted one uses up. |
| `StreamWriter.StreamWriter.CloseStream` | src/core/data_stream.cpp:771-777 | Close sends header and trailer of an open writer and does nothing on a closed one. |
| `StreamWriter.StreamWriter.CancelStream` | src/core/data_stream.cpp:779-785 | Cancel does the same with its reason. |
| `StreamWriter.StreamWriter.Finalize` | src/core/data_stream.cpp:673-686 | The destructor closes an open writer and swallows a failure. |
| `StreamReader.StreamReader.TryOnChunkUpdate` | src/core/data_stream.cpp:288-343 | A chunk is admitted by index, validity, limits and shared budget in that order, with the reason of the first check it fails. |
| `StreamReader.OfferOutcome` | src/core/data_stream.cpp:294-343 | An open reader accepts a chunk, whole, if and only if it is the next one, text where it must be, and empty or within the declared length and all limits; any other closes it with the reason of the first of these that fails and gives back its slot; a closed reader ignores every chunk. |
| `StreamReader.CloseOutcome` | src/core/data_stream.cpp:345-385 | The close of an open reader is clean if and only if it gives no reason and a declared length is met; otherwise it fails with the length mismatch, or else with the reason given. Either way the attributes are merged and the slot goes back. An error closes it with its reason; a closed reader ignores both. |
| `StreamReader.ReaderHistory` | src/core/data_stream.cpp:294-394 | A closed reader accepts nothing more, the first failure reason never changes, and a clean close with a declared length means that many bytes were received. |
| `StreamReader.ReaderContent` | src/core/data_stream.cpp:191-208 | For any calls: bytes delivered by ReadNext followed by bytes queued are the bytes accepted, in order. |
| `StreamReader.NextOutcome` | src/core/data_stream.cpp:191-208 | ReadNext hands out the front chunk and gives its bytes back, or tells that there is none. |
| `StreamReader.ReadsDeliver` | src/core/data_stream.cpp:191-208 | As many reads as there are chunks queued hand out every byte accepted, in order, whatever the shared budget. |
| `StreamReader.ReadAllMeaning` | src/core/data_stream.cpp:210-252 | ReadAll takes what is queued exactly when that stays within its limit; then it waits on an open reader, gives the bytes of a cleanly closed one, or throws the reason of a failed one. It returns just the bytes it took to the budget when it ends, and holds them while it waits. |
| `StreamReader.WaitingIsInvisible` | src/core/data_stream.cpp:213-221 | A ReadAll that waited, while chunks came, the stream closed and others used the budget, ends like one that finds everything queued at once. |
| `StreamReader.StreamReader.ReadAll` | src/core/data_stream.cpp:210-252 | ReadAll, from the start or woken after a wait, takes chunks until it ends or has to wait for more, with that outcome. |
| `StreamReader.StreamReader.Next` | src/core/data_stream.cpp:191-208 | ReadNext takes the front chunk and gives its bytes back, or reports the end. |
| `StreamReader.StreamReader.OnStreamClose` | src/core/data_stream.cpp:345-364 | A close ends the stream once, as failed if it has a reason or a declared length that was not met. |
| `StreamReader.StreamReader.Dispose` | src/core/data_stream.cpp:180-189 | The destructor gives back the queued bytes and the reader's slot, each once. |
| `StreamReader.ReaderBudget.TryReserve` | src/core/data_stream.cpp:132-140 | Bytes are reserved exactly if they fit. |
| `ReaderSystem.BudgetConservation` | src/core/data_stream.cpp:120-145 | In any interleaving of many readers and ReadAll calls the shared counters equal the bytes queued plus those held and the open readers, both limits hold, and no release is ever clamped. |
| `ReaderSystem.EventKeepsInv` | src/core/data_stream.cpp:180-252 | Each locked section of each reader keeps that equality. |
| `ReaderSystem.NothingLeaks` | src/core/data_stream.cpp:180-189 | When all readers are destroyed and all ReadAll calls have ended, both counters are zero. |
| `ReaderCalls.ReadersAreSeparate` | src/core/data_stream.cpp:180-394 | A locked section of one reader changes that reader and the shared budget as it would alone, and nothing else. |
| `ReaderCalls.SectionsAreReadAll` | src/core/data_stream.cpp:210-252 | The locked sections of one ReadAll call, when nobody comes between, make up ReadAll: the same outcome, the same reader and the same budget afterwards, or a wait with the same bytes taken. |
| `StreamRoundTrip.RoundTrip` | src/core/data_stream.cpp:210-252 | Writer to packets to reader to ReadAll, for text and byte streams, all inputs and every way to end a stream: exactly what was written comes back if and only if the stream ended without a reason, text writes are valid UTF-8, the limits hold, a declared length is met, and ReadAll's limit holds it. |
| `StreamRoundTrip.ReceiveOutcome` | src/core/data_stream.cpp:210-252 | What ReadAll comes to for every stream: it throws if a packet was refused, else for its own limit, else for the length mismatch or the reason of the trailer, and gives the bytes only in the end. |
| `StreamRoundTrip.CancelIsThrown` | src/core/data_stream.cpp:779-785 | A cancelled stream never passes for a whole one: whatever was written, ReadAll throws, and it throws the reason given, or "cancelled" without one, if the stream fits and a declared length happens to be met. |
| `StreamRoundTrip.StreamDelivered` | src/core/data_stream.cpp:294-364 | Every packet is accepted in order exactly under those conditions; then the chunks are queued, the budget is charged by their size, and the reader is closed with the trailer's attributes and, where it fails, with the length mismatch or else the reason of the trailer. |
| `StreamRoundTrip.DefaultTextArrives` | src/core/data_stream.h:86-94 | With the default limits every valid text of 16 MiB or less arrives at an idle receiver. |
| `Assembler.Accounting` | src/core/data_stream_assembler.cpp:14-86 | In every reachable state the global counter is the sum of the per-stream counters, each of those the sum of its chunk sizes, and all four limits hold. |
| `Assembler.StepKeepsInv` | src/core/data_stream_assembler.cpp:14-122 | Each operation keeps this, computing in wrapping size_t arithmetic. |
| `Assembler.NoUnderflow` | src/core/data_stream_assembler.cpp:68-71 | So the unsigned subtractions of the limit checks and of the releases give the true difference. |
| `Assembler.FinishOnlyDiscards` | src/core/data_stream_assembler.cpp:88-103 | No stored stream is complete, so Finish never returns a payload; it only removes the stream. |
| `Assembler.AtMostOnePayload` | src/core/data_stream_assembler.cpp:37-44 | A stream id yields no more payloads than it had successful Begins, over any run. |
| `Assembler.IdleBound` | src/core/data_stream_assembler.cpp:134-153 | With a clock that never falls, every stream kept after a step that cleans up has been idle less than stream_ttl + cleanup_interval. |
| `Assembler.OrderIndependence` | src/core/data_stream_assembler.cpp:47-86 | The chunks of a payload in any order, with repetitions and other traffic between, within limits and time: the payload comes exactly on the step that supplies the last missing chunk, and on no other. |
| `Assembler.WrittenDataAssembled` | src/core/data_stream_assembler.cpp:155-182 | With the chunks of the byte writer the payload is the data written. |
| `AssemblerOutcomes.BeginMeaning` | src/core/data_stream_assembler.cpp:14-45 | A Begin succeeds if and only if it names a stream, its length is positive and within the limit, and there is room once idle streams and one of the same id are gone; then the new stream is there, empty, beside the others. A Begin that is wrong in itself changes nothing; one that finds no room has still cleaned up. |
| `AssemblerOutcomes.AddMeaning` | src/core/data_stream_assembler.cpp:47-86 | In plain arithmetic, every case of a chunk: nothing for an unknown stream or a repeated chunk; the stream dropped if it was idle too long, or the chunk is one too many or exceeds the bytes announced or buffered; otherwise kept, or given back in order if it is whole. |
| `AssemblerOutcomes.PurgeMeaning` | src/core/data_stream_assembler.cpp:134-153 | A purge takes exactly the streams idle for their time to live, and alters no other; the implicit one runs the first time and then when it is due. |
| `AssemblerOutcomes.FinishMeaning` | src/core/data_stream_assembler.cpp:88-122 | Finish and Discard take away one stream with its bytes and nothing else, and never give a payload. |
| `Assembler.IncomingDataStreamAssembler.BeginOne` | src/core/data_stream_assembler.cpp:14-45 | Begin rejects on its arguments before it cleans up, replaces a stream of the same id, and refuses beyond the limit of streams. |
| `Assembler.IncomingDataStreamAssembler.AddOneChunk` | src/core/data_stream_assembler.cpp:47-86 | A chunk is dropped with its stream when expired or over a limit, ignored when repeated, and completes the stream when it is the last. |
| `Assembler.IncomingDataStreamAssembler.FinishOne` | src/core/data_stream_assembler.cpp:88-103 | Finish cleans up, then assembles or erases. |
| `Assembler.IncomingDataStreamAssembler.DiscardOne` | src/core/data_stream_assembler.cpp:116-122 | Discard erases a stream and tells whether there was one. |
| `Assembler.IncomingDataStreamAssembler.PurgeExpiredLocked` | src/core/data_stream_assembler.cpp:140-153 | The erase loop removes exactly the expired streams, counts them and gives their bytes back. |
| `Assembler.IncomingDataStreamAssembler.MaybePurgeExpiredLocked` | src/core/data_stream_assembler.cpp:134-138 | Cleaning runs the first time and then once per interval. |
| `Assembler.IncomingDataStreamAssembler.IsCompleteLocked` | src/core/data_stream_assembler.cpp:155-168 | The pass over the chunks recognises exactly the full, gapless streams. |
| `Assembler.IncomingDataStreamAssembler.AssembleAndEraseLocked` | src/core/data_stream_assembler.cpp:170-182 | The chunks are joined in index order and the stream erased. |
| `Assembler.IncomingDataStreamAssembler.EraseLocked` | src/core/data_stream_assembler.cpp:184-187 | Erasing gives the stream's bytes back. |
| `ExecutorGate.GateAccounting` | src/core/executor_lifetime.h:51-145 | In every interleaving of the locked sections `in_flight_` is the number of live tickets and no callback is posted twice. |
| `ExecutorGate.EventKeepsInv` | src/core/executor_lifetime.h:51-145 | Each locked section keeps that accounting, close against create, complete and cancel included. |
| `ExecutorGate.DrainSafety` | src/core/executor_lifetime.h:103-126 | If Create is called only under a ticket: once closed, cancellations finished and a count of zero hold together they hold forever, and every callback that still exists has been posted once. |
| `ExecutorGate.DrainedMeansCompleted` | src/core/executor_lifetime.h:103-126 | At that point no registered callback is left to run. |
| `ExecutorGate.UnticketedCreateBreaksDrain` | src/core/room.h:393-400 | The ticket is needed: without one a Create can post after the drain. |
| `GateDrain.EnterMeaning` | src/core/executor_lifetime.h:51-56 | An open gate admits whoever comes, with a ticket of their own; a closed one admits nobody and stays as it is. |
| `GateDrain.NoStaleCancellation` | src/core/executor_lifetime.h:84-101 | In every interleaving a registered cancellation belongs to a callback that exists and has not completed, or is just about to forget it. |
| `GateDrain.RegisterMeaning` | src/core/executor_lifetime.h:84-90 | An open gate registers a callback under an id that was never given before, a closed one gives the id 0 and registers nothing. |
| `GateDrain.DestroyMeaning` | src/core/executor_lifetime.h:92-95 | A destroyed callback is gone, and its own cancellation with it; its posts are not taken back. |
| `GateDrain.PlainMeaning` | src/core/executor_lifetime.h:84-101 | Other cancellations are registered under the next id while the gate is open, and forgotten by it. |
| `GateDrain.CloseCanDrain` | src/core/executor_lifetime.h:103-126 | A close can always be carried through: from every closed state, if what is under way just goes on and nobody new comes, the gate drains. |
| `GateDrain.ClosedRunsCanDrain` | src/core/executor_lifetime.h:103-126 | So it can in every run, whenever the gate has been closed. |
| `ExecutorGate.ExecutorCallbackGate.RegisterCancellation` | src/core/executor_lifetime.h:84-90 | A cancellation gets a fresh id exactly while open. |
| `ExecutorGate.ExecutorCallbackGate.TakeCancellations` | src/core/executor_lifetime.h:103-110 | The first close takes all cancellations; a second finds nothing to do. |
| `ExecutorGate.CancellableExecutorCallback.Complete` | src/core/executor_lifetime.h:177-186 | A callback is posted at most once, and then its cancellation is forgotten. |
| `PublicationCatalog.EveryCatalogIsValid` | src/core/publication_catalog.cpp:66-190 | In every run of well-formed events: sids and non-empty identities are distinct, participants and publications are of the catalog's room and each other's, media means no subscription error, rooms only get newer, and everybody was announced by a remote Upsert. Well-formed asks only that a remote Upsert comes under its key's generation, and that a track that becomes available, under an active ticket, is its participant's. |
| `PublicationCatalog.RoomEventsAreWellFormed` | src/core/room.cpp:1650-1688 | Every participant event, whose track key is default, and every track event that the room makes is well-formed. |
| `PublicationCatalog.EveryRoomCatalogIsValid` | src/core/room.cpp:1650-1688 | So all of this holds in every run of the room's own events. |
| `PublicationCatalog.NewcomerEnters` | src/core/publication_catalog.cpp:105-144 | In such a run the first remote Upsert under an active ticket does enter an empty catalog, as its first revision. |
| `PublicationCatalog.ApplyKeeps` | src/core/publication_catalog.cpp:66-190 | Each event keeps that structure, and none returns to an older room, well-formed or not. |
| `PublicationCatalog.RevisionIsSound` | src/core/publication_catalog.cpp:264-274 | Applied raises the revision by one (skipping zero at the wrap of 2^64), and only when more than tickets has changed; any other result leaves the snapshot the same up to tickets if and only if the event is not a track event that comes before the catalog knows its room. |
| `PublicationCatalog.SilentInstall` | src/core/publication_catalog.cpp:88-147 | The witness: an empty catalog rejects a track event as stale and yet takes over its generation. |
| `PublicationCatalog.UpsertAgain` | src/core/publication_catalog.cpp:105-144 | Re-applying an accepted Upsert is NoChange if and only if it is local or no track the catalog has media for is announced first with an error and later without. |
| `PublicationCatalog.RoomUpsertAgain` | src/core/room.cpp:1615-1640 | It is always NoChange for an Upsert that names no track twice, as the room makes them: each publication has an incarnation of its own. |
| `PublicationCatalog.UpsertUnsettled` | src/core/publication_catalog.cpp:106-123 | The condition is needed: an Upsert that announces one track with a fault and then without is Applied twice. |
| `PublicationCatalog.UpsertMeaning` | src/core/publication_catalog.cpp:105-144 | After a remote Upsert its participant is there exactly as described, and anybody else if and only if they were before and do not claim a newcomer's sid or identity. |
| `PublicationCatalog.OnlyRemotesEnter` | src/core/publication_catalog.cpp:91-97 | Nobody enters the catalog but by a remote Upsert of their own. |
| `PublicationCatalog.TrackMeaning` | src/core/publication_catalog.cpp:145-185 | A track event that is not rejected decides the media of its own track by its kind and error, and of no other track. |
| `PublicationCatalog.WithoutParticipantMeaning` | src/core/publication_catalog.cpp:99-104 | A departure removes exactly the participant's own entry. |
| `PublicationCatalog.RetireIsFinal` | src/core/publication_catalog.cpp:192-197 | A retired catalog is empty, refuses every event unchanged, and cannot be retired again. |
| `CatalogEvents.RefusalMeaning` | src/core/publication_catalog.cpp:8-88 | Exactly the remote events of this room are considered, and Upserts, under an active ticket, of this or a newer one, the room being the first of an event's three generations that is not zero; any other event changes nothing and is told why, the checks coming in the source's order. |
| `CatalogEvents.LocalMeaning` | src/core/publication_catalog.cpp:91-97 | A considered event of a local participant changes nobody, and is Applied exactly if it brings a new room. |
| `CatalogEvents.DepartureMeaning` | src/core/publication_catalog.cpp:98-104 | After a considered departure a participant is there if and only if it was and has another key, all who stay unaltered and in order; the answer is Applied if and only if the participant was there or the room is new, and else nothing has changed. |
| `CatalogEvents.UpsertOutcome` | src/core/publication_catalog.cpp:105-144 | After an accepted Upsert there is one entry of its key, field by field as announced; its publications are the active announcements of its own, in order, each available if the catalog had its media and it is announced without a fault. A known participant keeps its place, a new one comes last. |
| `CatalogEvents.TrackOutcome` | src/core/publication_catalog.cpp:155-181 | A track event about a publication that is there: unavailable takes its media and nothing else; any other event under an active ticket leaves the whole publication as announced, with media if it has no fault and is available now or was before. Nothing else changes; NoChange if and only if that differs in the ticket at most. Without an active ticket it is stale. |
| `CatalogEvents.TrackAppears` | src/core/publication_catalog.cpp:150-159 | A publication that is not there comes last of its participant's if its track becomes available under an active ticket; any other event about it is stale. |
| `CatalogEvents.TrackOfNobody` | src/core/publication_catalog.cpp:145-147 | A track event of nobody known is stale, and changes nothing but, at first, the room. |
| `CatalogReplica.PublicationCatalog.Apply` | src/core/publication_catalog.cpp:66-190 | The method, with its checks in order and its early returns, equals the specification on every event. |
| `CatalogReplica.PublicationCatalog.ApplyUpsert` | src/core/publication_catalog.cpp:105-144 | Inserting evicts conflicts and appends; replacing keeps the position and counts only differences other than tickets. |
| `CatalogReplica.PublicationCatalog.ApplyTrack` | src/core/publication_catalog.cpp:145-185 | A track event changes one publication in place, appends one, or is stale. |
| `CatalogReplica.PublicationCatalog.ProjectUpsert` | src/core/publication_catalog.cpp:106-123 | The loop keeps the active announcements of the participant itself, with the media the catalog already has. |
| `CatalogReplica.PublicationCatalog.PositionOf` | src/core/publication_catalog.cpp:208-222 | The search finds the first participant with the key, or none. |
| `CatalogReplica.PublicationCatalog.HasMedia` | src/core/publication_catalog.cpp:199-206 | The search of a publication goes through its owner. |
| `CatalogReplica.SameParticipantState` | src/core/publication_catalog.cpp:29-42 | The comparison loop is equality of everything but tickets. |
| `MeetingCatalog.EveryAnswerCountsOnce` | src/core/meeting_catalog_controller.cpp:177-204 | The answer to a query or a write takes effect at most once in any run, however often it arrives. |
| `MeetingCatalog.LateListAnswer` | src/core/meeting_catalog_controller.cpp:177-182 | A list answer changes nothing once anything has intervened since its request. |
| `MeetingCatalog.WhatIntervenes` | src/core/meeting_catalog_controller.cpp:266-274 | A later query, an invalidation, a counted answer, an entered or left meeting, an accepted write and a change of account all intervene. |
| `MeetingCatalog.ViewsAreConsistent` | src/core/meeting_catalog_controller.cpp:152-205 | In every reachable state a list has a snapshot exactly when it is Ready or Empty, Empty exactly when it has no meetings, and a detail exactly when it is Ready, and then of its own meeting. |
| `MeetingCatalog.PendingIffHarmless` | src/core/meeting_catalog_controller.cpp:295-377 | A pending refresh has, at every point of a run, a write in flight or a continuation that will start it, if and only if each change of account without notice in that run finds nothing pending, or a write in flight, or leaves such a continuation to the new account. |
| `MeetingCatalog.PendingHasAWrite` | src/core/meeting_catalog_controller.cpp:295-377 | Then, whenever no signal is being handled, a pending refresh means that a write is in flight. |
| `MeetingCatalog.RefreshIsNeverForgotten` | src/net/session_manager.cpp:361-396 | So it is always, with a session that changes without notice only while it is logged out, as every login does before it says so. |
| `MeetingCatalog.DriftForgets` | src/core/meeting_catalog_controller.cpp:295-300 | The condition is needed: a run from the start in which one account replaces another without notice, inside the signal that ends a booking, leaves the refresh pending with no write. It takes a session that does not go through `resetAuthentication`. |
| `MeetingCatalog.ProjectionIsIdempotent` | src/core/meeting_catalog_controller.cpp:97-126 | Projecting a projected list changes nothing. |
| `MeetingCatalog.ProjectionMeaning` | src/core/meeting_catalog_controller.cpp:97-126 | With a current active meeting the projection holds exactly the shown meetings, the active one with its room's fields and the server's settings, at no other place than the last; without one, exactly the shown meetings of the server. |
| `MeetingCatalogFlows.ListAnswerMeaning` | src/core/meeting_catalog_controller.cpp:177-204 | After a current successful answer the history is exactly the answered list, and a meeting is upcoming if and only if it is a shown one of the answered list, or the active one, with its room's fields and the server's settings; after a failure the old snapshot's meetings stay, or there is an error. Nothing else changes. |
| `MeetingCatalogFlows.DetailAnswerMeaning` | src/core/meeting_catalog_controller.cpp:231-257 | A current successful answer is shown, whole, if it is of the meeting asked for; otherwise the old detail stays, or there is an error. |
| `MeetingCatalogFlows.StaleAnswers` | src/core/meeting_catalog_controller.cpp:177-182 | Answers of lists, details, bookings and writes that are not current change nothing. |
| `MeetingCatalogFlows.OvertakenStops` | src/core/meeting_catalog_controller.cpp:170-172 | What is left of an operation behind its signal asks nothing, and does nothing else, once its account is gone or something has taken its place. |
| `MeetingCatalogFlows.UpdateOvertaken` | src/core/meeting_catalog_controller.cpp:370-373 | After an update the detail is not loaded again while another write to its meeting is under way. |
| `MeetingCatalogFlows.RefusalsMeaning` | src/core/meeting_catalog_controller.cpp:158-164 | What is refused asks nothing: a query or a detail without account or backend, or a detail without an id, becomes an error; a booking while one is under way, a write while one to the same meeting is, or either without an account changes nothing. |
| `MeetingCatalogFlows.RefreshShows` | src/core/meeting_catalog_controller.cpp:152-204 | A query from its call through its signal to its answer: the old snapshot stays on show or the list is loading, the backend is asked once, and the answer is taken as current. |
| `MeetingCatalogFlows.OpenShows` | src/core/meeting_catalog_controller.cpp:207-257 | So for a detail: another meeting's goes at once, the same one's stays on show, and the answer is taken as current. |
| `MeetingCatalogFlows.EnterMeaning` | src/core/meeting_catalog_controller.cpp:128-143 | A meeting in progress that is entered is projected into the list on show, and a query under way is forgotten; any other is refused. |
| `MeetingCatalogFlows.LeaveMeaning` | src/core/meeting_catalog_controller.cpp:145-150 | Leaving forgets the active meeting and a query under way; the list on show stays. |
| `MeetingCatalogFlows.BookingFlow` | src/core/meeting_catalog_controller.cpp:302-334 | A booking from its call through its signals to its answer: a query under way is forgotten, the backend is asked once, and after a success, and only then, the upcoming list is refreshed, at once if no other write is under way. |
| `MeetingCatalogFlows.WriteAsks` | src/core/meeting_catalog_controller.cpp:336-360 | An update or a cancellation up to where the backend is asked, once: the queries of the list and of its meeting's detail are forgotten, what is on show stays. |
| `MeetingCatalogFlows.CancelFlow` | src/core/meeting_catalog_controller.cpp:404-420 | The answer to a cancellation: the write is no longer under way; after a success the detail of that meeting is cleared, and the list is refreshed as soon as no write is under way. |
| `MeetingCatalogFlows.UpdateFlow` | src/core/meeting_catalog_controller.cpp:361-377 | The answer to an update: after a success the detail on show is loaded again and the refresh waits; after a failure neither happens. |
| `MeetingCatalogFlows.SettleMeaning` | src/core/meeting_catalog_controller.cpp:295-300 | A pending refresh starts when the last write has ended under the same account, and not before. |
| `MeetingCatalogFlows.AccountMeaning` | src/core/meeting_catalog_controller.cpp:424-448 | A change of account forgets lists, detail, active meeting and writes; logged in again, both lists are queried, the upcoming one first. |
| `MeetingCatalogController.MeetingCatalogController.ProjectUpcomingMeetings` | src/core/meeting_catalog_controller.cpp:97-126 | The merge and the two removal loops compute that projection. |
| `MeetingCatalogController.MeetingCatalogController.StartListQuery` | src/core/meeting_catalog_controller.cpp:152-169 | A query raises the generation and keeps a snapshot on show; without an account it resets the list to an error. |
| `MeetingCatalogController.MeetingCatalogController.ListAnswered` | src/core/meeting_catalog_controller.cpp:177-204 | A current answer replaces the list or keeps the old snapshot on failure, and raises the generation. |
| `MeetingCatalogController.MeetingCatalogController.LoadMeetingDetail` | src/core/meeting_catalog_controller.cpp:207-228 | Loading another meeting forgets the old detail; the same one keeps it on show. |
| `MeetingCatalogController.MeetingCatalogController.DetailAnswered` | src/core/meeting_catalog_controller.cpp:231-257 | An answer for another id never becomes the detail. |
| `MeetingCatalogController.MeetingCatalogController.BookingAnswered` | src/core/meeting_catalog_controller.cpp:322-334 | The booking's own answer ends it, and a success leaves a refresh pending. |
| `MeetingCatalogController.MeetingCatalogController.WriteAnswered` | src/core/meeting_catalog_controller.cpp:361-377 | A write's own answer ends it; a cancelled meeting's detail is cleared, an updated one's is loaded again. |
| `MeetingCatalogController.MeetingCatalogController.RefreshUpcomingWhenWritesSettle` | src/core/meeting_catalog_controller.cpp:295-300 | The pending refresh starts exactly when no write is in flight and the account is current. |
| `Simulcast.ComputeScreenBitrate` | src/core/local_video_track.cpp:156-171 | The loop over the anchors computes the interpolated bitrate, scaled by the frame rate and capped. |
| `Simulcast.ScreenBitrateMonotone` | src/core/local_video_track.cpp:156-171 | More pixels or more frames never get less; the bitrate lies within 150000 and 12000000, so the cap never changes it. |
| `Simulcast.AnchorsAreExact` | src/core/local_video_track.cpp:158-160 | At 15 frames a second every anchor gets exactly its bitrate. |
| `Simulcast.ComputeLayers` | src/core/local_video_track.cpp:136-213 | For cameras and screens, any codec and both modes, the layers are those of the presets, scaled to the picture, highest first; an invalid screen frame rate throws. |
| `Simulcast.LayersDescend` | src/core/local_video_track.cpp:136-213 | The first layer is the picture itself, and from one to the next no side and no frame rate grows. No bitrate grows either, except exactly where AV1 or VP9 lowers the top layer below the next: layered cameras below 640 pixels (with VP9 only at 16:9), and layered screens below 42319 pixels in AV1 at 15 frames, 7054 in AV1 at 20, or 17426 in VP9 at 15. A layer is empty if and only if it is half of a layered screen with a side of one pixel. |
| `Simulcast.ScreenThreshold` | src/core/local_video_track.cpp:156-193 | The lowered bitrate of a screen reaches the 150000 of its lower layer if and only if it has at least that many pixels, for every codec and frame rate. |
| `Simulcast.TopTooLow` | src/core/local_video_track.cpp:174-180 | A camera of 500 by 281 and a screen of 480 by 2, in AV1, get less than the layer below them. |
| `SimulcastTable.LayersAreNamed` | src/core/local_video_track.cpp:185-211 | There are one, two or three layers, by kind and size, named f, h and q from the highest; the last of them q. |
| `SimulcastTable.TopLayer` | src/core/local_video_track.cpp:136-180 | The picture gets the figures of the first preset wider than its longer side, or the last; a screen that asks for a frame rate gets the interpolated bitrate and that rate, 30 in VP8. AV1 gets by with 70 percent, VP9 with 85. |
| `SimulcastTable.LowerLayers` | src/core/local_video_track.cpp:185-198 | The lower layer of a screen has three frames and a 20th, 24th or 40th of the picture's bitrate, at least 150000; those of a camera have the figures of their presets. |
| `SimulcastTable.WideMeaning` | src/core/local_video_track.cpp:144-147 | A picture takes the 16:9 presets if and only if its sides are in a ratio of more than 14 to 9. |
| `SimulcastTable.PresetMeaning` | src/core/local_video_track.cpp:110-117 | The preset of a size is the first that is wider, or the last. |
| `Simulcast.ComputeSignalLayers` | src/core/local_video_track.cpp:256-277 | An SVC stream of one encoding is announced as its spatial layers; anything else as it is. |
| `Simulcast.SpatialLayersGrow` | src/core/local_video_track.cpp:256-277 | They grow up to the size of the source and never take more than its bitrate together. |
| `SimulcastTable.SpatialMeaning` | src/core/local_video_track.cpp:263-276 | Each spatial layer has half the sides of the next, at least one pixel, twice its scale, and an equal share of the bitrate, rounded down; the last is the source. |
| `Simulcast.ResolveCodec` | src/core/local_video_track.cpp:289-319 | The codec is in the intersection of both sides, the requested one if it is, else the first of the fallback order, and none exactly if there is none. |

## Left out

- MediaSignals.SignalsAreLawful: assumes that the transfer's terminal record is neither found expired nor evicted; `SignalsAreLawfulUnlessReopened` does without.
- MediaEndToEnd.FileArrives: takes base64 as a parameter with `decode(encode(data)) == data`, the text of a file as not empty, and transfer ids as distinct; the program makes them from the clock and a random number.
- MediaReceiverRuns.EverySignalIsLawful: assumes that an incarnation names one participant, as the room assigns them.
- ReaderSystem.BudgetConservation: condition variables appear as conditions under which a step may happen; a reader waits until it has a chunk or is closed.
- PublicationCatalog.UpsertAgain: audio levels are real numbers, so a level that is not a number, which never equals itself, is not modelled.
- Simulcast.LayersDescend: the choice between 16:9 and 4:3, the scales and the factors 0.7 and 0.85 of AV1 and VP9 are exact, not rounded as `float` and `double`; a lowered bitrate may be one bit per second off.
- MediaRecovery.RecoveryCompletes: a round is undisturbed: once the request is published no other callback comes and nothing is lost, and sender and session stay current while its packets are taken.
- MediaGivingUp.LostIsGivenUp: the pass starts when nothing waits, as does the cancellation of `SenderLeaves`; for callbacks that cross others on the way there is `EverySignalIsLawful`.
- MeetingCatalog.RefreshIsNeverForgotten: `resetAuthentication` is one step with its signal; a login from inside a handler of that signal, while `setServerBaseUrl` is still to go on, is not modelled.
- The revocation of tickets, which happens on another thread: whether a ticket is active at each test is an input of the step.
- `chatMessageSendProgress`, the sender's own progress signal.
- `chatMediaMessageReceived`, emitted after a completion that is still current, and all signals' display arguments (names, sequence numbers).
- The emptying of the receiver's transfers and of the ledger when a session ends; data is refused from then on.
- Rekeying of inbound transfers to a new room generation (`restoreInboundTransfersForParticipant`) and encryption key recovery: one participant incarnation and one encryption revision per key.
- Packets from the server itself, which carry no ticket; every media sender is taken to be a remote participant.
- Callbacks dropped because the Qt gate was revoked: only a callback that finds its session or sender no longer current.
- Protobuf and JSON parsing; a packet is its fields, and an entry of a request is a whole number or not.
- `TextStreamReader` and `ByteStreamReader` are one class with a flag, as are the two writers; their code differs only in the checks of text.
- Topics, destinations, compression, nonces and the attributes of the header of stream packets.
- The text of failure reasons, error messages and the result of the last write.
- `NormalizePublishedVideoLayers`, which is a parameter; `VideoDemandPolicy`, `Room`, the whiteboard and the shutdown service.
- The lower-casing of codec names, and backup codecs.
- Allocation failures and the wrap-around of 64-bit counters other than the catalog revision and the assembler's sizes.
- Telemetry, logging, timers, HTTP, WebRTC, ASIO scheduling and the Qt event loop itself.
