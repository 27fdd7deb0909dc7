# Paranoia: a model of its synchronisation protocols

Paranoia is an end-to-end encrypted messenger. Its server keeps, for each dialogue, a partial map from sequence
numbers to sealed packets; everything else (order, delivery, files, topics, deletion) is decided by the clients.
This project models the parts of it that are hardest to get right and proves what they promise.

## What is modelled

- **The packet server seen over an unreliable network** (`Server.dfy`). `/map`, `/pull`, `/push` and `/determinate`
  as loops over the database iterator. Before each request other parties may do anything to the dialogue; a request
  or its reply may be lost. Theorems about a seq assume at most that nobody else writes *that* seq, or, where the
  whole order of a `receive` is at stake, that nobody else writes above the cursor.
- **The local store** (`LocalStore.dfy`, `SeqAllocation.dfy`): counters, messages, legacy chunks and the journal of
  unfinished uploads, with one invariant that every operation keeps.
- **`receive`** (`Dialogue.dfy`, `ReceiveSpec.dfy`, `ReceiveTheorems.dfy`, `ReceiveRuns.dfy`, `Contents.dfy`): the
  paginated map, the batched forward pull that jumps over file bodies, and the tombstone sweep, proved against a fold
  over the packets handled, and what each kind of packet leaves in the store.
- **`send`** (`Send.dfy`, `MessageRun.dfy`), **resumable file transfer** (`ChunkSizes.dfy`, `TransferSpec.dfy`, `Transfer.dfy`,
  `StoreCalls.dfy`, `FileSend.dfy`, `Download.dfy`, `Walk.dfy`, `Arrival.dfy`, `TransferRun.dfy`, `LateHeader.dfy`),
  **topic deletion** (`TopicDelete.dfy`, `Bodies.dfy`) and **large files in the expiring blob store** (`Blob.dfy`).
- **Session keys by sequence number** (`Keyring.dfy`) and **runs of sequence numbers** (`Runs.dfy`).
- **The schema cover** (`Json.dfy`, `Shuffle.dfy`, `Cover.dfy`, `CoverTheorems.dfy`): sealed bytes spread over carrier
  fields of a JSON tree whose keys are shuffled.
- **Channel delivery by several sessions on one store** (`Channel.dfy`, `ChannelTheorems.dfy`).
- **Small concurrent protocols**: shutdown against long polls (`Shutdown.dfy`), waker registries (`Wakers.dfy`,
  `DialogueNotify.dfy`) and the bounded call-signal queues (`CallSignal.dfy`).

Code that changes state is a class or a method with a loop, proved against functions on values; the theorems are about
those functions and about methods that perform whole runs.

## Where the code falls short of what one might expect

- `MaskingProfile::validate` does not make carriers independent: `CoverTheorems.ValidateIsNotEnough` gives a valid
  profile whose packets never open, `CoverTheorems.ExtractIff` the exact condition.
- An empty large file announces one chunk and uploads none, and a chunk count beyond 32 bits wraps:
  `Blob.RoundTrip` says exactly when the download returns the source.
- `gc` of the call queues stops at the first live envelope: `CallSignal.GcExactIff` says exactly when that is enough,
  `CallSignal.GcLeavesExpired` shows a queue where it is not.
- Channel delivery relies on one session per topic and on a saved cursor: `ChannelTheorems.SharedTopicRepeats` says
  exactly when two sessions repeat a row, `ChannelTheorems.CrashLosesNothingIff` exactly when a crash loses none;
  `ChannelTheorems.SharedTopicShowsTwice` and `ChannelTheorems.FirstRowCanBeLost` show the shortest runs that do. A row
  stored late, at or below its topic's cursor, is never delivered: `ChannelTheorems.Run`.
- A file whose header is pushed late, below a seq its peer has already received, reaches the server whole and is
  reported Sent, and the peer never learns of it: `LateHeader.LateHeaderIsMissed` is such a run,
  `TransferRun.SendThenPeerDownloads` and `Arrival.HeaderReachesIff` have the exact condition.
- The pull loop never leaves a run that ends at seq 2^64-1: `Dialogue.LoopLeavesRunIff`.
- A deleted message removes whatever lies in the body range it claims: `TopicDelete.OtherMessageSpared` says exactly
  when another packet survives, `TopicDelete.BodyClaimErasesOther` how one does not.
- A failing `/map` uses up an attempt although it cannot itself end a transfer: nine of them and one failing push give
  it up. `Transfer.RowStaysIff` says exactly when a transfer is still pending, `Transfer.MapFailuresUseAttempts` when
  a failing push ends it.
- A process killed between two store calls can leave a message in Sending that no resume finds:
  `StoreCalls.CallKeepsJournalledIff` says after which calls, `StoreCalls.StuckAfterBegin` and
  `StoreCalls.StuckAfterCompleted` show both states.

## Model

| member | source | states |
|---|---|---|
| `Runs.SeqInRuns` | ParanoiaLibrary/src/dialogue.rs:2044-2055 | binary search over ascending runs answers exactly whether the seq lies in one of them |
| `Runs.ContiguousRuns` | ParanoiaLibrary/src/dialogue.rs:2080-2097 | a strictly increasing list folds into maximal runs that hold exactly its elements |
| `Runs.FoldThenSearch` | ParanoiaLibrary/src/dialogue.rs:2044-2097 | searching the folded list finds a seq if and only if it is in the list |
| `Runs.MaximalRunsUnique` | ParanoiaLibrary/src/dialogue.rs:2078-2097 | two lists of maximal runs over the same seqs are the same list, so folding sends as few ranges as possible |
| `Keyring.Normalize` | ParanoiaLibrary/src/types.rs:254-270 | accepts a keyring exactly when it is not empty, all starts are positive and no start repeats; the result is the same entries, strictly ordered |
| `Keyring.NormalFormUnique` | ParanoiaLibrary/src/types.rs:235-270 | two orders of the same entries normalise to one and the same keyring |
| `Keyring.KeyForSeqIsInForce` | ParanoiaLibrary/src/types.rs:244-252 | the key chosen is that of the entry with the greatest start at most the seq, and the lookup fails exactly if there is none |
| `Keyring.InForceUnique` | ParanoiaLibrary/src/types.rs:244-252 | at most one entry is in force for a seq |
| `Keyring.ProfileDialogueStore.MergeEntry` | ParanoiaEasyCli/src/dialogue_store.rs:138-155 | on any list, sorted or not: an entry is imported exactly if its start is new, skipped exactly if the first entry with its start is the same, a conflict otherwise; an import leaves the list sorted with that entry more, unique starts stay unique, and no other peer's list changes |
| `Keyring.MergeChangesOnlyItsWindow` | ParanoiaEasyCli/src/dialogue_store.rs:138-155 | after a merge the chosen key changes for a seq exactly if the new entry takes over there with a different key, and it takes over only between its start and the next start |
| `Keyring.OldPacketsStillOpen` | ParanoiaLibrary/src/dialogue.rs:1802-1806 | a packet sealed before a merge still opens afterwards exactly if the new entry does not take over its seq with another key |
| `Server.MapSeqs` | ParanoiaServer/src/store.rs:161-228 | `/map` answers with maximal runs strictly above `after` and within `to`, exact up to the end of the last run; a truncated answer is not empty; a reversed range is refused and nothing else is |
| `Server.Collapse` | ParanoiaServer/src/store.rs:183-222 | the collapsing loop covers exactly the keys it consumed, in at most 8192 maximal runs, and stops early only when that many are full |
| `Server.PullSeqs` | ParanoiaServer/src/store.rs:59-93 | `/pull` answers with exactly the live packets of `(after, to]`, ascending, each with its content |
| `Server.LastSeq` | ParanoiaServer/src/store.rs:231-248 | `last_seq` is the greatest live seq, or 0 if there is none |
| `Server.Network.PushRequest` | ParanoiaServer/src/routes/push.rs:45-118 | an occupied seq is refused and keeps its packet; an accepted packet is stored; a lost reply leaves it stored although the sender sees an error |
| `Server.Network.RemoveRequest` | ParanoiaServer/src/store.rs:252-279 | a range delete removes exactly the live seqs of the range, `from = 0` meaning from the beginning |
| `Server.Network.MapRequest` | ParanoiaServer/src/store.rs:161-228 | a map request over the network either fails or carries the answer for the live set of that moment, after whatever others did before |
| `Server.Network.PullRequest` | ParanoiaServer/src/store.rs:59-93 | a pull request over the network either fails or carries the answer for the live set of that moment |
| `Server.QuietKept` | ParanoiaLibrary/src/dialogue.rs:524-646 | when nobody else acts, requests that only read all see one and the same live set |
| `LocalStore.Store.NextSendSeq` | ParanoiaLibrary/src/store.rs:213-232 | hands out the counter and moves it by one |
| `LocalStore.Store.ReserveSendSeqRange` | ParanoiaLibrary/src/store.rs:236-266 | hands out a contiguous range exactly if it is not empty and fits 64 bits, and changes nothing otherwise |
| `LocalStore.Store.SetLastPulledSeq` | ParanoiaLibrary/src/store.rs:281-293 | the cursor never falls and pushes the send counter past itself |
| `LocalStore.Store.GetMessageBySeq` | ParanoiaLibrary/src/store.rs:687-701 | finds a message exactly if one carries the seq |
| `LocalStore.Store.GetDeliveredServerSeqs` | ParanoiaLibrary/src/store.rs:437-455 | lists exactly the seqs of messages in Delivered or Read |
| `LocalStore.Store.DeleteMessagesBySeqs` | ParanoiaLibrary/src/store.rs:459-494 | deletes exactly the messages that carry one of the seqs |
| `LocalStore.AssembleWhole` | ParanoiaLibrary/src/store.rs:973-1039 | for chunks that agree on their number, assembling succeeds exactly when every index is there, and yields the chunks' bytes joined in index order |
| `LocalStore.AssembleNames` | ParanoiaLibrary/src/store.rs:973-1039 | chunks that agree on their sender and their file's name give the assembled file both |
| `LocalStore.GrantedSaveKeepsInv` | ParanoiaLibrary/src/store.rs:297-327 | saving a message under the seq just granted keeps the store invariant: stored seqs distinct and below the counter, a Sending message has a journal row, journal ranges granted and disjoint |
| `LocalStore.BeginTransferKeepsInv` | ParanoiaLibrary/src/dialogue.rs:1326-1356 | reserving a range, saving the message as Sending and writing the journal row together keep the store invariant |
| `LocalStore.EndTransferKeepsInv` | ParanoiaLibrary/src/dialogue.rs:1519-1566 | removing the row and giving the message a final status together keep the store invariant |
| `LocalStore.BumpKeepsInv` | ParanoiaLibrary/src/store.rs:417-432 | counting an attempt keeps the store invariant |
| `SeqAllocation.EveryRunIsSafe` | ParanoiaLibrary/src/store.rs:213-327 | over every sequence of grants, cursor moves and saves: granted ranges are disjoint and increasing, each above the cursor of its time, the counter stays above the cursor, stored seqs stay distinct and below the counter |
| `SeqAllocation.RunsFromEmptyAreSafe` | ParanoiaLibrary/src/store.rs:213-327 | in particular for every sequence from the empty store |
| `SeqAllocation.Perform` | ParanoiaLibrary/src/store.rs:213-327 | the operations of those runs are what the store's own methods do |
| `SeqAllocation.BoundBetweenSaveAndCursor` | ParanoiaLibrary/src/store.rs:281-327 | between the two store calls that record a received packet the bound on stored seqs holds exactly if the seq was already below the counter |
| `Dialogue.Dialogue.FetchRuns` | ParanoiaLibrary/src/dialogue.rs:529-545 | the paginated map loop ends and rebuilds the live set: it contains nothing that was never live while it ran and everything that was live throughout, whatever others did meanwhile |
| `Dialogue.Dialogue.ProcessIncoming` | ParanoiaLibrary/src/dialogue.rs:1809-1971 | what one opened packet does to the tables, which `Contents.HandleIs` spells out kind by kind |
| `Dialogue.Dialogue.HandlePacket` | ParanoiaLibrary/src/dialogue.rs:575-620 | one iteration of the packet loop updates tables, counter and cursor as specified and fails exactly if a header's body would end above 64 bits, changing nothing then |
| `Dialogue.Dialogue.HandleBatch` | ParanoiaLibrary/src/dialogue.rs:568-621 | a batch handles every packet that is not in the body of a header before it, in order, and leaves the cursor past the last one handled |
| `Dialogue.Dialogue.PullRun` | ParanoiaLibrary/src/dialogue.rs:549-625 | pulling one run in batches covers every seq of it, by a handled packet or by its absence, and the loop ends |
| `Dialogue.LoopLeavesRunIff` | ParanoiaLibrary/src/dialogue.rs:549-625 | some batch of a run can take the pull loop past its end if and only if the run ends below 2^64-1 |
| `Dialogue.Dialogue.Sweep` | ParanoiaLibrary/src/dialogue.rs:633-643 | deletes exactly the confirmed messages whose seq is not in the map |
| `Dialogue.Dialogue.Receive` | ParanoiaLibrary/src/dialogue.rs:524-646 | a call does what its outcome record says, whether it ends early or not: packets handled in order and outside bodies, tables folded over them, cursor and counter moved, sweep at the end; it returns the answers and the decrypt errors of exactly those packets, which `Contents.OutputsAreAnswers`, `Contents.NewIsHandedOut` and `Contents.UnopenedCounts` describe |
| `Contents.HandleIs` | ParanoiaLibrary/src/dialogue.rs:575-620 | what a handled packet does and answers, without the functions that compute it: our own packet back makes its message Delivered, a known seq changes nothing, a receipt makes our messages up to its seq that were out Read, a chunk joins those that are there and the last one stores the file, any other message is stored exactly as it was sealed (an attachment without the sender's path), Delivered, and handed out |
| `Contents.FoldShows` | ParanoiaLibrary/src/dialogue.rs:1809-1971 | a packet to be shown, once handled where its seq is new, is in the store as its sender sealed it to the end of the call: id, sender, topic, text or attachment |
| `Contents.OutputsAreAnswers` | ParanoiaLibrary/src/dialogue.rs:575-620 | the messages handed out are answers to packets of the call and nothing else |
| `Contents.NewIsHandedOut` | ParanoiaLibrary/src/dialogue.rs:575-620 | every packet to be shown whose seq is new is handed out as it was sealed, Delivered |
| `Contents.UnopenedCounts` | ParanoiaLibrary/src/dialogue.rs:575-590 | the number of decrypt errors is the number of handled packets that do not open |
| `Contents.LegacyFileArrives` | ParanoiaLibrary/src/dialogue.rs:1874-1949 | a file sent chunk by chunk without a header: once every chunk has been handled, in whatever order, the whole file is stored, from its sender and under its name, and no chunk is kept beside |
| `ReceiveSpec.HandleKeepsInv` | ParanoiaLibrary/src/dialogue.rs:575-620 | handling any packet keeps the store invariant |
| `ReceiveSpec.SweepKeepsInv` | ParanoiaLibrary/src/dialogue.rs:633-643 | the sweep keeps the store invariant |
| `ReceiveTheorems.NoLoss` | ParanoiaLibrary/src/dialogue.rs:524-646 | every packet above the old cursor that stayed live during the call was either handled or lies in the body of a handled header, never both, and if it can be shown exactly one message has its seq (fresh message ids) |
| `ReceiveTheorems.NoRepeat` | ParanoiaLibrary/src/dialogue.rs:547-625 | however the call ends: handled seqs rise strictly above the old cursor, none lies in a body, and the cursor never falls and ends at or above them all |
| `ReceiveTheorems.FoldFaithful` | ParanoiaLibrary/src/dialogue.rs:575-620 | over any orderly list of packets every displayable one ends up under its own seq, old messages keep theirs, and no strange seq appears |
| `ReceiveTheorems.InterruptionIsHarmless` | ParanoiaLibrary/src/dialogue.rs:524-646 | a call cut short and a complete one after it cover every packet that stayed live exactly once between them |
| `ReceiveTheorems.SweepIsExact` | ParanoiaLibrary/src/dialogue.rs:633-643 | after the sweep every Delivered or Read message is in the map; removed were exactly those that were not, never one in Sending, Sent or Failed and never one handled in the same call |
| `ReceiveTheorems.DeletionConverges` | ParanoiaLibrary/src/dialogue.rs:633-643 | a seq that is gone from the server during a complete call is carried by no Delivered or Read message afterwards |
| `ReceiveTheorems.ReceiveSurvived` | ParanoiaLibrary/src/dialogue.rs:524-646 | a message stored before keeps all but its status through any call unless its packet was gone from the server at some request (its id used by no other packet) |
| `ReceiveTheorems.NextSeqAboveSnapshot` | ParanoiaLibrary/src/dialogue.rs:628-631 | after a complete call the next seq exceeds every seq live when the last map page was read |
| `ReceiveTheorems.SecondReceiveIsIdle` | ParanoiaLibrary/src/dialogue.rs:524-646 | on an unchanged server a second call handles nothing and changes nothing |
| `ReceiveRuns.ReceiveRepeatedly` | ParanoiaLibrary/src/dialogue.rs:524-646 | over any number of interrupted calls and a complete one: what is handled was on the server at the time, nothing is handled twice or inside a body, everything that stayed live is covered, the tables are those of one fold and one sweep by a map of that time, and what can be shown is stored exactly once |
| `ReceiveRuns.ReceiveTwice` | ParanoiaLibrary/src/dialogue.rs:524-646 | with nobody else acting, the second of two calls returns nothing and leaves the store as it was, and the first has pulled every live seq |
| `Send.PushPacket` | ParanoiaLibrary/src/dialogue.rs:1145-1179 | a push seals the packet under the key in force at its seq and is one request; without a key no request is made; below its seq nothing changes that others leave alone |
| `Send.Send` | ParanoiaLibrary/src/dialogue.rs:1088-1143 | the push requests the client makes are at most three, under strictly increasing seqs; success stores one message under the last of them, which the server accepted, and under an id drawn in this call, failure stores none of its own; every seq found taken after a resync, or after a notification, was written by somebody else; every message stored before is still there with all but its status unless its packet was gone at some request (its id used by no other packet) |
| `Send.QuietSend` | ParanoiaLibrary/src/dialogue.rs:1088-1143 | if nobody else writes, at most two push requests are made and the send never ends in a conflict |
| `MessageRun.SendThenReceive` | ParanoiaLibrary/src/dialogue.rs:524-1143 | a text or attachment that was sent and then received is in the peer's store as it was sent, with its id, sender and topic, and is handed out so (seq left alone by others, new, above the cursor and in no skipped body; fresh ids) |
| `MessageRun.SendTwice` | ParanoiaLibrary/src/dialogue.rs:1088-1143 | two successful sends in a row leave two messages under different ids and rising seqs, the first one unchanged but for its status |
| `Send.NextFreeAfterReceive` | ParanoiaLibrary/src/dialogue.rs:1117-1130 | after a complete resync every seq from the next one on is free, unless somebody else writes there |
| `ChunkSizes.RandomChunkSizes` | ParanoiaLibrary/src/dialogue.rs:1998-2012 | for every random stream the sizes are the drawn ones, sum to the file, each is between 1 and 196608, all but the last at least 1024 |
| `ChunkSizes.EverySplit` | ParanoiaLibrary/src/dialogue.rs:1998-2012 | and every split within these bounds is drawn for some stream |
| `ChunkSizes.SplitCount` | ParanoiaLibrary/src/dialogue.rs:1998-2012 | the number of chunks lies between the two ceilings |
| `TransferSpec.PlannedIdsDiffer` | ParanoiaLibrary/src/dialogue.rs:1410-1468 | the packets of a transfer carry different ids, only the header that of the transfer |
| `TransferSpec.UploadedNext` | ParanoiaLibrary/src/dialogue.rs:1410-1468 | pushing packet number n extends an uploaded prefix of n packets by one |
| `TransferSpec.UploadedSame` | ParanoiaLibrary/src/dialogue.rs:1410-1468 | an uploaded prefix survives anything that leaves the range alone |
| `TransferSpec.GrewTrans` | ParanoiaLibrary/src/dialogue.rs:1410-1468 | a prefix that only grew over one stretch of requests and over the next only grew over both |
| `TransferSpec.OtherTransferUntouched` | ParanoiaLibrary/src/dialogue.rs:1410-1468 | transfers with disjoint ranges leave each other's packets alone |
| `TransferSpec.GrewElsewhere` | ParanoiaLibrary/src/dialogue.rs:1410-1468 | pushes of another transfer leave the prefix as it is at every request |
| `Transfer.ExistingSeqs` | ParanoiaLibrary/src/dialogue.rs:1473-1497 | the paginated loop ends and returns, of the seqs others leave alone, exactly the live ones of the range, changing none of them at any of its requests |
| `Transfer.PushTransferPackets` | ParanoiaLibrary/src/dialogue.rs:1410-1468 | at every request of a round the server holds a prefix of the plan, which only grows, to the whole plan if the round succeeds, as it must when every packet has a key and every request arrives; nothing outside the range is touched at any of them |
| `Transfer.ResumeOne` | ParanoiaLibrary/src/dialogue.rs:1519-1566 | one round: the store changes exactly as the outcome says, by the store calls of `Transfer.RoundCalls` in their order, a row is removed only when the message becomes Sent or Failed, it becomes Failed exactly if the source is gone or a push fails from the tenth attempt on, a failing map keeps the row, at every request the server holds a prefix that only grows, and the round completes whenever every request arrives and every packet has a key |
| `Transfer.RoundKeepsInv` | ParanoiaLibrary/src/dialogue.rs:1519-1566 | every outcome of a round, with all its store calls made, keeps the store invariant; `StoreCalls.KilledInCompleted` says what holds between the calls |
| `Transfer.FewPushFailures` | ParanoiaLibrary/src/dialogue.rs:1519-1566 | over any history of one row at most ten rounds fail in the push phase |
| `Transfer.RowStaysIff` | ParanoiaLibrary/src/dialogue.rs:1519-1566 | while the source stays, a row is still there after any number of rounds if and only if none of them completed and every round from the tenth attempt on failed at the map |
| `Transfer.MapFailuresUseAttempts` | ParanoiaLibrary/src/dialogue.rs:1519-1566 | rounds that fail at the map count as attempts: after k of them a failing push gives the transfer up exactly if it is at least the tenth attempt |
| `Transfer.ResumeRepeatedly` | ParanoiaLibrary/src/dialogue.rs:1506-1566 | resuming again and again follows such a history; the row stays exactly as `Transfer.RowStaysIff` says, its counter then tells the rounds made, and afterwards the message is Sent or Failed |
| `StoreCalls.CallKeepsJournalledIff` | ParanoiaLibrary/src/store.rs:297-432 | call by call: a Sending message has its row after a store call exactly unless the call saves one that has no row yet, deletes the row of one, or sets one without a row back to Sending |
| `StoreCalls.CallsTogether` | ParanoiaLibrary/src/dialogue.rs:1356-1390 | all the calls of a beginning, a success and a failure together are what the operations do |
| `StoreCalls.RoundTogether` | ParanoiaLibrary/src/dialogue.rs:1519-1566 | the store calls of a whole round together are what the round does |
| `StoreCalls.KilledInBegin` | ParanoiaLibrary/src/dialogue.rs:1356-1372 | a process killed between saving a message and writing its row leaves it Sending without a row exactly if it had none before |
| `StoreCalls.KilledInCompleted` | ParanoiaLibrary/src/dialogue.rs:1386-1390 | a process killed between deleting the row and setting the status leaves it so exactly if the message was still Sending |
| `StoreCalls.KilledInFailed` | ParanoiaLibrary/src/dialogue.rs:1519-1527 | a failure sets the status first and is safe at every call |
| `StoreCalls.StuckAfterBegin` | ParanoiaLibrary/src/dialogue.rs:1506-1517 | a message left so by a killed beginning stays Sending through every later resume |
| `StoreCalls.StuckAfterCompleted` | ParanoiaLibrary/src/dialogue.rs:1506-1517 | and so does one left so by a killed end |
| `FileSend.BeginTransfer` | ParanoiaLibrary/src/dialogue.rs:1281-1372 | range, message and journal row are recorded, the message first, before anything is pushed; on failure the store is unchanged |
| `FileSend.SendPathChunked` | ParanoiaLibrary/src/dialogue.rs:1281-1399 | a first send either changes no journal row or leaves a message whose packets are, at every request, a growing prefix of the plan on the server, complete exactly when the row is gone and the message Sent, as it is whenever every request arrives and every packet has a key; every other message stored before stays unless its packet goes from the server |
| `FileSend.RangeStartsFree` | ParanoiaLibrary/src/dialogue.rs:1295-1330 | the range granted after a resync is empty on the server, unless somebody else writes there |
| `FileSend.ListOutbound` | ParanoiaLibrary/src/store.rs:371-405 | lists exactly the journal rows, each once, by header seq |
| `FileSend.ResumePending` | ParanoiaLibrary/src/dialogue.rs:1506-1517 | exactly one round is made for every journal row, and the store is what those rounds make of it; the answer has, in the order of the rounds, the messages of exactly the transfers they settled, Sent if the round completed and Failed otherwise; the prefix of a tracked transfer never shrinks at any request, and the transfer is done exactly once a round of its own completed |
| `Download.ChunkInIff` | ParanoiaLibrary/src/dialogue.rs:1757-1776 | a packet is taken for a chunk exactly if it opens to that chunk of the promised file with the announced count and size |
| `Download.CollectBatch` | ParanoiaLibrary/src/dialogue.rs:1757-1776 | a batch is accepted exactly if every packet opens to the expected chunk, and yields their bytes in order |
| `Download.Collect` | ParanoiaLibrary/src/dialogue.rs:1728-1783 | with the whole transfer on the server the download returns the source bytes, or reports the network; on any server whose chunks of this transfer, wherever they stand, are the sender's, a successful download is the source; it always has the announced size |
| `TransferRun.PerformAll` | ParanoiaLibrary/src/dialogue.rs:524-1566 | over any run of resumes, receives, sends and further file sends of the client and receives of its peer: each moment follows from the one before by its act, at every request the server holds a prefix of the plan which only grows, from one moment's length to the next one's, and the transfer is done exactly if a round of its own completed |
| `TransferRun.SendThenDownload` | ParanoiaLibrary/src/dialogue.rs:1281-1783 | for every file, split and run: at every request of the whole run the server holds a growing prefix; the transfer is done exactly if the first send or a logged round of its own completed, and then the whole plan is on the server and the download returns the source or reports the network (source unchanged, range written by nobody else) |
| `TransferRun.SendThenPeerDownloads` | ParanoiaLibrary/src/dialogue.rs:524-1783 | the same run seen from the peer, which may receive at any time in it: after its complete receive it has a message for the file, and downloads the source, if and only if it had one or its messages, its cursor and the server's packets before that call let it reach the header (fresh message ids, nobody else writing above its cursor; without the latter the condition is on the call's own record) |
| `Arrival.ArrivesIff` | ParanoiaLibrary/src/dialogue.rs:524-646 | a displayable packet that stays on the server is in the store after a complete receive if and only if its seq was there before or lay above the cursor and in no skipped body (fresh message ids) |
| `Arrival.ArrivesAsSealed` | ParanoiaLibrary/src/dialogue.rs:524-646 | such a packet, once it arrives, is stored and handed out as it was sealed |
| `Arrival.HeaderArrivesIff` | ParanoiaLibrary/src/dialogue.rs:524-646 | the same for a file header: exactly when a receiver learns of a file |
| `Arrival.HeaderReachesIff` | ParanoiaLibrary/src/dialogue.rs:524-646 | when nobody touches the packets above the cursor meanwhile, exactly when a receiver learns of a file, in terms of the server, its messages and its cursor before the call |
| `Arrival.ReceiveThenDownload` | ParanoiaLibrary/src/dialogue.rs:524-646 | a receive followed by the download of what the message at a seq names: with the whole transfer on the server the download happens exactly in those cases and returns the source or reports the network |
| `Walk.LogIsWalk` | ParanoiaLibrary/src/dialogue.rs:547-625 | packets handled in order that leave no live seq above the cursor uncovered are exactly those of the walk: the least live seq above the cursor, past its body, and so on |
| `Walk.CompleteCallWalks` | ParanoiaLibrary/src/dialogue.rs:524-646 | a complete receive of what nobody touches meanwhile handles exactly the packets of the walk: its record is a function of the server's packets and the cursor |
| `Bodies.BodyIsPassedOver` | ParanoiaLibrary/src/dialogue.rs:547-625 | of a whole transfer and the packet behind it a receiver handles the header and that packet, and no chunk |
| `Bodies.ChunksAloneGiveTheFile` | ParanoiaLibrary/src/dialogue.rs:1874-1949 | a receiver that missed the header but handles every chunk stores the whole file all the same |
| `Bodies.BodyIsChunks` | ParanoiaLibrary/src/dialogue.rs:1326-1356 | the body that the sender's and the receiver's message record is exactly the range of the chunk packets, and nothing if there are none |
| `Bodies.OwnMessageNames` | ParanoiaLibrary/src/dialogue.rs:1326-1356 | the sender's own message names the transfer, its file and its topic, with the file at hand |
| `LateHeader.LateHeaderIsMissed` | ParanoiaLibrary/src/dialogue.rs:524-1566 | a run in which a file is on the server whole and its message Sent while the peer never learns of it: recorded, killed before the first push, a text sent and received, resumed |
| `TopicDelete.ListTopicMessages` | ParanoiaLibrary/src/store.rs:498-547 | lists each local message of the topic once and nothing else |
| `TopicDelete.SeqsOf` | ParanoiaLibrary/src/dialogue.rs:872-886 | the server seqs are exactly the messages' seqs and their bodies, the local seqs exactly their own |
| `Bodies.SpanIsRange` | ParanoiaLibrary/src/dialogue.rs:872-886 | both sides' messages for a transfer span exactly the seqs of its range |
| `TopicDelete.EraseOnServer` | ParanoiaLibrary/src/dialogue.rs:887-892 | removes exactly the listed positive seqs, range by range, and touches nothing else even if it stops half way |
| `TopicDelete.DeleteTopic` | ParanoiaLibrary/src/dialogue.rs:864-895 | removes from the server exactly the topic's messages and bodies and then locally exactly its messages with a seq; nothing is forgotten locally before it is erased on the server |
| `Bodies.WholeTransferErased` | ParanoiaLibrary/src/dialogue.rs:864-895 | so deleting either of them erases the whole transfer from the server |
| `TopicDelete.TrimTopicKeepLast` | ParanoiaLibrary/src/dialogue.rs:901-943 | deletes exactly the oldest messages beyond `keep`, every kept seq being larger than every deleted one; a dry run changes nothing and reports the same number |
| `TopicDelete.OtherMessageSpared` | ParanoiaLibrary/src/dialogue.rs:864-943 | a message that was not to go stays locally, and its packet stays exactly if no deleted message claims its seq as part of a body |
| `TopicDelete.BodyClaimErasesOther` | ParanoiaLibrary/src/dialogue.rs:864-943 | how another message's packet is erased: a received header whose body claims its seq is deleted |
| `TopicDelete.DeleteTopicEverywhere` | ParanoiaLibrary/src/dialogue.rs:825-895 | after one side deleted a topic and the other side received, the call being the one its outcome record describes, the other side has no confirmed message left under any erased seq, and every message whose packet was not erased is still there (fresh message ids) |
| `Blob.BlobStore.Put` | ParanoiaServer/src/store.rs:391-414 | stores the chunk and renews the file's expiry, refuses files over the limit |
| `Blob.BlobStore.Get` | ParanoiaServer/src/store.rs:430-441 | returns a chunk exactly if it is there and the file has not expired |
| `Blob.OpenIff` | ParanoiaLibrary/src/dialogue.rs:420-473 | a chunk opens only under its key, file, index and total, and to what was sealed |
| `Blob.ReapIsInvisible` | ParanoiaServer/src/store.rs:417-489 | the reaper leaves no expired file and no chunk of one, and no download made after it could tell that it ran |
| `Blob.Upload` | ParanoiaLibrary/src/dialogue.rs:344-392 | the upload loop stores each piece under its index, sealed for that file, index and total |
| `Blob.Download` | ParanoiaLibrary/src/dialogue.rs:420-473 | with only genuine chunks stored a successful download is the source exactly if the chunk count fits 32 bits; if every request is in time it succeeds |
| `Blob.RoundTrip` | ParanoiaLibrary/src/dialogue.rs:317-473 | for any clock, reaper and network: a download that succeeds returns the source exactly if the chunk count fits 32 bits; with every request in time it succeeds with the source exactly if, besides, the file is not empty, and an empty file can never be downloaded |
| `Json.JoinOfSplit` | ParanoiaCover/src/engine.rs:157-171 | splitting a path cuts exactly at its dots |
| `Json.ParseWritten` | ParanoiaCover/src/engine.rs:157-171 | a written number that fits 64 bits is an index, with or without a plus sign, and any other segment is a key |
| `Json.WriteSucceedsIff` | ParanoiaCover/src/engine.rs:173-204 | a write succeeds exactly if every place its path names by index is there before it |
| `Json.ReadWritten` | ParanoiaCover/src/engine.rs:157-204 | after a successful write the path, and everything below it, reads from the leaf |
| `Json.ReadIndependent` | ParanoiaCover/src/engine.rs:157-204 | a write, even a failing one, changes no read at an independent path |
| `Json.ReadClashing` | ParanoiaCover/src/engine.rs:157-211 | a successful write that meets an index path with a key makes that path unreadable |
| `Json.ReadSurvives` | ParanoiaCover/src/engine.rs:157-211 | a read that the written path does not extend survives the write of a string exactly if the paths are independent |
| `Json.ReadableTogether` | ParanoiaCover/src/engine.rs:157-166 | two paths that both read strings from one value are equal or independent either way |
| `Json.SetKeepsWellFormed` | ParanoiaCover/src/engine.rs:173-211 | writing keeps keys unique at every depth |
| `Shuffle.FisherYates` | ParanoiaCover/src/engine.rs:237-242 | the shuffle puts the slice in the order its random numbers give, which is a permutation |
| `Shuffle.EveryOrder` | ParanoiaCover/src/engine.rs:237-242 | and every order of at most 2^32 items comes out for some random stream |
| `Shuffle.ShuffleObjectKeys` | ParanoiaCover/src/engine.rs:216-235 | at every depth the keys of objects are permuted, arrays keep their order and values stay with their keys; the order of the outermost keys is the one the last random numbers give |
| `Shuffle.ShuffledGet` | ParanoiaCover/src/engine.rs:157-235 | shuffling changes no lookup |
| `Cover.SplitBytes` | ParanoiaCover/src/engine.rs:138-153 | n chunks that concatenate to the data, lengths differing by at most one and never growing |
| `Cover.Seal` | ParanoiaCover/src/engine.rs:86-107 | what is sealed opens again |
| `Cover.BuildPacket` | ParanoiaCover/src/engine.rs:111-125 | a packet is the template with every carrier written in order, after them each optional field whose random number is even, and its keys shuffled |
| `Cover.Extract` | ParanoiaCover/src/engine.rs:127-134 | concatenates the carriers' bytes, or fails if one of them cannot be read |
| `Cover.Wrap` | ParanoiaCover/src/engine.rs:22-36 | the packet is made by the randomly chosen schema of the kind and carries bytes that open to the content |
| `Cover.Unwrap` | ParanoiaCover/src/engine.rs:47-61 | the first schema whose reading opens decides; it fails exactly if none opens or kind or key is missing |
| `CoverTheorems.ReadAfterWrites` | ParanoiaCover/src/engine.rs:111-125 | a written path still reads its leaf if all later writes are independent of it or repeat it |
| `CoverTheorems.ConsistentExtracts` | ParanoiaCover/src/engine.rs:111-134 | consistent carriers give the sealed bytes back |
| `CoverTheorems.ExtractsConsistent` | ParanoiaCover/src/engine.rs:111-134 | if the sealed bytes come back the carriers were consistent |
| `CoverTheorems.ExtractIff` | ParanoiaCover/src/engine.rs:111-134 | with harmless optional fields a packet gives the sealed bytes back exactly if its carriers are consistent: pairwise independent, or the same path with the same chunk |
| `CoverTheorems.WrapThenUnwrap` | ParanoiaCover/src/engine.rs:22-61 | for every random stream, kind and content: if wrapping succeeds and nothing forged opens, unwrapping returns the content exactly if some schema reads the sealed bytes, and always if the schema used is sound, whichever schemas are tried first |
| `Cover.Validate` | ParanoiaCover/src/profile.rs:113-141 | the loop over kinds and schemas accepts exactly the valid profiles |
| `Cover.ValidMeans` | ParanoiaCover/src/profile.rs:99-141 | valid means a name that is not blank, a key of 32 bytes, at least one kind, and for each kind a path and one to ten schemas with carriers |
| `CoverTheorems.ValidateIsNotEnough` | ParanoiaCover/src/profile.rs:113-141 | a profile that passes validation although one carrier lies inside another: its packets can always be built and never give anything back |
| `Channel.GreatestFromPeer` | ParanoiaEasyCli/src/mcp_server.rs:779-784 | the nudge looks at the greatest new seq that is not our own: no row from the peer is above it, and if positive one has it |
| `Channel.Deliver` | ParanoiaEasyCli/src/mcp_server.rs:797-832 | one batch: the cursor moves over every row read, and exactly the topic's rows from the peer go out, in order |
| `Channel.System.Enter` | ParanoiaEasyCli/src/mcp_server.rs:690-724 | the first half of a tick: the floor is set once, and a changed topic switches to its saved cursor or to the floor |
| `Channel.System.Finish` | ParanoiaEasyCli/src/mcp_server.rs:765-838 | the second half of a tick, with anything in between: delivery under the topic read in the first half, the cursor in hand and the saved cursor |
| `Channel.System.Crash` | ParanoiaEasyCli/src/mcp_server.rs:797-842 | a process that dies in a tick before saving has shown the beginning of a batch and starts over; one that dies outside has shown nothing |
| `ChannelTheorems.BatchIsWanted` | ParanoiaEasyCli/src/mcp_server.rs:797-832 | one batch delivers exactly what is wanted between the old cursor and the one it reaches |
| `ChannelTheorems.BatchAdvances` | ParanoiaLibrary/src/store.rs:778-842 | a reading tick consumes 256 rows or all there are, so what remains shrinks to nothing |
| `ChannelTheorems.StepKeepsInv` | ParanoiaEasyCli/src/mcp_server.rs:629-848 | every storing of a row, in any order of seqs, topic change, beginning and end of a tick, and crash keeps the delivery invariant of every topic |
| `ChannelTheorems.KeyServesAsked` | ParanoiaEasyCli/src/mcp_server.rs:514-593 | the key of a session's topic name stands for exactly the peer's rows of the normalised name, or those without a topic for the two names of the main branch; only an empty name has none |
| `ChannelTheorems.SameKeyIff` | ParanoiaEasyCli/src/mcp_server.rs:514-543 | two names share a key, and so a cursor, exactly if they ask for the same rows, as names with one normal form do |
| `ChannelTheorems.TickShowsAsked` | ParanoiaEasyCli/src/mcp_server.rs:690-838 | one tick shows exactly the stored rows its session's name asks for between the cursor read and the cursor saved, and nothing for an empty name |
| `ChannelTheorems.Run` | ParanoiaEasyCli/src/mcp_server.rs:629-848 | over every run of any number of sessions, rows being stored in any order: each topic's completed deliveries are, in order, exactly the peer's rows of that topic between its start and its saved cursor that were stored above the cursor of their time; the start is the cursor left behind, or what was stored when the session that took the topic began its first tick; without crashes that is what the agents saw, and each crash shows at most one batch more, of the topic's own rows |
| `ChannelTheorems.DeliveredIff` | ParanoiaEasyCli/src/mcp_server.rs:797-842 | a stored row of a topic is delivered if and only if it lies between the start and the cursor and was not stored late |
| `ChannelTheorems.DeliveredIffAsked` | ParanoiaEasyCli/src/mcp_server.rs:629-848 | over a whole run exactly the rows a name asks for between start and cursor that were not stored late are delivered under its key |
| `ChannelTheorems.LateIffCameLate` | ParanoiaEasyCli/src/mcp_server.rs:797-842 | the rows set apart as late are exactly those stored when the saved cursor of their topic was at or above them |
| `ChannelTheorems.StartIsFloor` | ParanoiaEasyCli/src/mcp_server.rs:690-724 | a topic without a saved cursor starts at the greatest seq stored when the session that took it began its first tick since it was last started |
| `ChannelTheorems.CrashRepeatsBatch` | ParanoiaEasyCli/src/mcp_server.rs:797-842 | after a crash with a saved cursor the next tick repeats the partial batch from its beginning, even if rows were added |
| `ChannelTheorems.UnsetIsSilent` | ParanoiaEasyCli/src/mcp_server.rs:774-794 | a session without a topic delivers nothing and moves no cursor |
| `ChannelTheorems.NudgesOnNewsOnly` | ParanoiaEasyCli/src/mcp_server.rs:774-794 | a session without a topic nudges its agent exactly if the peer has a new row above the last nudge, and never twice for one row |
| `ChannelTheorems.NudgesAgainAfterCrash` | ParanoiaEasyCli/src/mcp_server.rs:685-794 | a restarted process remembers no nudge: after its first tick has set the floor, the next tick that finds a row of the peer nudges |
| `ChannelTheorems.TopicChangeWaits` | ParanoiaEasyCli/src/mcp_server.rs:709-827 | a topic set while a tick is under way changes nothing about what that tick delivers |
| `ChannelTheorems.SharedTopicRepeats` | ParanoiaEasyCli/src/mcp_server.rs:518-543 | exactly when two sessions ticking on one topic both deliver a row: it is a row of the topic, beyond both cursors and within both batches; they repeat nothing if and only if there is no such row |
| `ChannelTheorems.SharedTopicShowsTwice` | ParanoiaEasyCli/src/mcp_server.rs:518-543 | two sessions on the main branch, started on an empty store, both show the first row |
| `ChannelTheorems.CrashSkips` | ParanoiaEasyCli/src/mcp_server.rs:690-724 | the rows of the topic a crash makes a session pass over are all that were pending if no cursor was saved, and none otherwise |
| `ChannelTheorems.UnsavedCursorLoses` | ParanoiaEasyCli/src/mcp_server.rs:690-724 | after a crash without a saved cursor, whatever happens while the session stays on the topic, a row stored before is delivered exactly if it already had been |
| `ChannelTheorems.CrashLosesNothingIff` | ParanoiaEasyCli/src/mcp_server.rs:629-848 | every pending row is delivered by every run that stays on the topic and catches up, if and only if the cursor had been saved before the crash or nothing was pending |
| `ChannelTheorems.FirstRowCanBeLost` | ParanoiaEasyCli/src/mcp_server.rs:690-724 | a process killed in its first tick, a row having been stored after the tick began: the row is never shown, however the run goes on |
| `Shutdown.NoLostWakeup` | ParanoiaLibrary/src/ffi.rs:81-110 | in every interleaving of any number of calls, once a shutdown call has returned every racer still waiting holds a delivered notification; nobody is cancelled without a shutdown |
| `Shutdown.NotifyWakes` | ParanoiaLibrary/src/ffi.rs:81-87 | the second step of a shutdown call wakes exactly those who are registered by then |
| `Shutdown.ReturnsIff` | ParanoiaLibrary/src/ffi.rs:93-110 | with which answer a step makes a racer return, phase by phase: the poll's result exactly if it has completed in the select and no notification goes before it, none exactly if a shutdown shows |
| `Shutdown.CompletedPollIsReturned` | ParanoiaLibrary/src/ffi.rs:93-110 | in a run without shutdown calls a racer whose fifth own step, or a later one, finds the poll completed has returned its result |
| `Shutdown.InitialUndisturbed` | ParanoiaLibrary/src/ffi.rs:93-110 | and nobody is ever cancelled in such a run |
| `Shutdown.EverybodyLeaves` | ParanoiaLibrary/src/ffi.rs:93-110 | after that every racer returns within five of its own steps, however they interleave |
| `Shutdown.LateRacersReturnAtOnce` | ParanoiaLibrary/src/ffi.rs:95-98 | a racer that starts after shutdown began returns with its first step |
| `Wakers.OneWakerPerId` | ParanoiaServer/src/dialogue_notify.rs:50-56 | two holders of a waker for one id hold the same object |
| `Wakers.PrunedRegistered` | ParanoiaServer/src/dialogue_notify.rs:60-63 | forgetting entries nobody holds keeps every held waker registered under its id |
| `DialogueNotify.DialogueNotifyStore.Notify` | ParanoiaServer/src/dialogue_notify.rs:37-45 | signals exactly those who hold a waker of the dialogue, and makes no entry |
| `DialogueNotify.DialogueNotifyStore.Waker` | ParanoiaServer/src/dialogue_notify.rs:50-56 | the caller holds the registered waker of the dialogue |
| `DialogueNotify.DialogueNotifyStore.Gc` | ParanoiaServer/src/dialogue_notify.rs:60-63 | exactly the entries whose waker somebody holds stay |
| `DialogueNotify.HeldWakerIsSignalled` | ParanoiaServer/src/dialogue_notify.rs:37-63 | in every run, while a waiter keeps its waker the registry keeps that same object, and it has been signalled exactly once per notification of the dialogue since the waiter came, on top of the signals it had |
| `CallSignal.GcExactIff` | ParanoiaServer/src/call_signal.rs:93-108 | a collection removes exactly the expired envelopes if and only if no live one stands before an expired one |
| `CallSignal.GcLeavesExpired` | ParanoiaServer/src/call_signal.rs:93-108 | two envelopes pushed in the other order than received: a collection leaves the expired one queued |
| `CallSignal.ReceivedInOrder` | ParanoiaServer/src/call_signal.rs:93-108 | so it is when envelopes were queued in the order they were received |
| `CallSignal.CallSignalStore.Push` | ParanoiaServer/src/call_signal.rs:62-74 | appends the envelope, evicting the oldest of a full queue, and signals exactly the holders of the receiver's waker |
| `CallSignal.CallSignalStore.Drain` | ParanoiaServer/src/call_signal.rs:77-83 | hands out everything queued, in order |
| `CallSignal.CallSignalStore.Gc` | ParanoiaServer/src/call_signal.rs:93-108 | drops what has expired at the front of each queue; exactly those queues stay that hold an envelope or whose waker is held |
| `CallSignal.Conservation` | ParanoiaServer/src/call_signal.rs:62-108 | pushed = drained + evicted + expired + queued |
| `CallSignal.Poll` | ParanoiaServer/src/call_signal.rs:62-108 | in every run each envelope pushed has exactly one fate or is queued, order is kept, at most 64 are queued, and a poller's waker stays the registered one and is signalled exactly once per push, on top of the signals it had |

## Left out

- Server.Network.PushRequest: refuses seq 2^64-1, where the server would store the packet; a client's counter stops short of it, and the pull loop would never leave a run that ends there (`Dialogue.LoopLeavesRunIff`).
- Assembling no chunks at all is an error of the database in the source and no file in the model; the caller always has one.
- Send.Send: says nothing about at-most-once, because the endpoint fallback below it may push an accepted packet again.
- The client also resynchronises on an answer of class `invalid_seq`, which this server never gives.
- Transfer.RoundKeepsInv: speaks of whole operations; between two store calls `StoreCalls.dfy` says what holds. A process killed elsewhere than between store calls is not modelled, because each store call is atomic.
- Transfer.ResumeOne: does not say that a status only moves forward, because a resume can set Sent over Delivered.
- TopicDelete.DeleteTopicEverywhere: speaks of Delivered and Read copies only; the sweep leaves Sending, Sent and Failed messages alone.
- TopicDelete.RemoveServerRange: a run that ends at seq 0 is refused by the client; seq 0 never carries a packet.
- ChannelTheorems.Run: rows are not deleted during the run, and a failing write of the cursor file is not modelled.
- Blob.RoundTrip: nobody but the uploader writes under the random file id.
- Real cryptography: a sealed payload or chunk opens exactly under its key and associated data; the cover's cipher and base64 are arbitrary functions with their round-trip laws, and authentication is a hypothesis about the bytes read from one packet. No secrecy is claimed.
- HTTP, cover traffic headers, endpoint fallback and long-poll timing: a request arrives or not, and its reply arrives or not.
- SQL, SQLCipher, transactions and file handles: each store method is one atomic step. Local seqs are unbounded numbers standing for values below 2^63; live seqs on the server are below 2^64-1.
- One dialogue per store and per network object; several dialogues only repeat it.
- Message timestamps, progress callbacks and the difference between text, replies, photo groups and reactions.
- File name, MIME type, attachment kind and photo group travel as one opaque token.
- Read-receipt settings, `last_seq` bookkeeping and `count_new_for_user` on the server; `/notify` returns an arbitrary number.
- Topic names are compared after normalisation, and the topic id, an injective digest of the name, is the name; `norm` in the channel model is an arbitrary function.
- `send_chunked`, `write_remote_attachment_chunks` and the attachment cache: twins of the modelled loops or thin wrappers around them.
- `delete_dialogue`, `delete_local_until`, `delete_local_range` and `refresh_arrived_status`: they reset or bypass the invariants and would only add side conditions.
- The JSON tree is a value updated through its owner, so aliasing between subtrees, which the owned tree of the source cannot have either, is not represented; numbers in it are integers.
- The pull lock, the database change counter and sleeping: ticks of any session may begin, end or fail at any time, which covers pullers and monitors alike. Delivery is not given a deadline.
- Between unlocking its map and notifying, a push holds one more reference to the waker; here both happen in one step.
- Instants are natural numbers of nanoseconds; the file size and chunk index of a blob wrap at 32 bits as in a release build.
- The C interface other than the shutdown pair, the user interfaces, installers, administration, export and QR exchange.
