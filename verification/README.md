# Yougle, verified

A Dafny model of the Yougle messenger: phones that keep their own database and talk to each other either
directly, through the recipient's mailbox node, or through the sender's own node, which goes on retrying.
The model covers the stateful core of that system (the delivery and sync engine of `pm-core` over
`pm-store`, the mailbox, retry queue, rate limiter and request handler of `pm-node`), backup and restore,
and the codecs.

How the model is built:

- Objects that the program updates in place (`RateLimiter`, `RetryQueue`, `MailboxStore`,
  `MailboxHandler`, `Store`) are classes. Each method is proved against a function from the old contents
  to the new, and the results over whole runs are lemmas about those functions.
- Time is a parameter. Runs are sequences of events; a theorem about runs is an invariant that every event
  keeps, and a reading of that invariant.
- The network loses, delays, duplicates and reorders, and may cut a call off at any point.
- A method that is one SQL statement is proved against the function for that statement. Such methods have no
  row below; the results about them do.
- Cryptography is ideal: derivation, hashing and signing are free constructors, a ciphertext names its real
  sender and only its recipient can open it, and opening may fail for reasons of session state.

| module | contents |
|---|---|
| `RateLimit` | the limiter, its burst bound, fairness and the invisibility of pruning |
| `RetryQueue`, `RetryRun`, `SweepLoop` | the queue, its timed runs, and a turn of the sweep loop |
| `Mailbox`, `NodeHandler`, `NodeRun` | slots, blobs and the backup cell; the request handler with owner gate and limiter; what the owner is told over any run |
| `Store` | contacts, messages, sessions, counters and the Lamport clock |
| `Client`, `Delivery` | sending and receiving on a device; runs of many devices and nodes over all three paths |
| `Handover`, `Progress` | what Sent means in those runs, and that chats and receipts get through |
| `Causality`, `Links` | how those runs are runs of the Lamport, slot, counter, node and retry models |
| `Sync` | draining a mailbox past a watermark |
| `Lamport` | happens-before and message order across devices |
| `Pairing`, `Slots` | the pair secret and the write slots derived from it |
| `Pointer`, `Counters` | signed address updates, and the counters that must survive restores |
| `Backup` | assembling and restoring a bundle |
| `EnvelopePadding`, `EnvelopeCodec`, `BackupPadding`, `Utf8Text` | the codecs |
| `Bytes`, `Crypto`, `Sorting`, `Wrappers` | shared vocabulary |

Where the code and its own comments disagree, the model follows the code:

- The comment at crates/pm-store/src/lamport.rs:1-4 says that the wall-clock time breaks ties in message
  order. The query orders by Lamport value alone; `Lamport.MessageValuesAreDistinct` shows that without
  restores there are no ties to break.
- The comment at crates/pm-node/src/handler.rs:128-130 counts `RegisterSlot` among the requests without an
  owner check. The handler does check the key for it.
- The comment at crates/pm-store/src/lib.rs:236-240 speaks of an outgoing message's status. The statement
  updates rows of either direction; that no incoming row ever gains a status is a property of whole runs
  (`Delivery.StatusesBelongToOutgoing`).

## Model

| member | source | states |
|---|---|---|
| Delivery.DeliveredIsTruthful | crates/pm-core/src/client.rs:532-692 | In every run of any number of honest devices and nodes, over all three paths, an outgoing message shown as Delivered is held by its recipient as an incoming message with the same id and text under the sender's contact |
| Delivery.StatusesBelongToOutgoing | crates/pm-store/src/lib.rs:236-272 | In every such run a message has a status exactly when it is outgoing, and no contact's message id is stored twice |
| Delivery.IncomingIsAuthentic | crates/pm-core/src/client.rs:832-942 | In every such run whatever a device shows as received was sent to it, by that contact, with that id and text |
| Delivery.StepKeepsInv | crates/pm-core/src/client.rs:532-942 | Every event of a run (a send on any path, a lost answer, a node's dial or report, a sync, a poll, an envelope or request that arrives late or twice) keeps the system's invariant on databases, envelopes, running calls, due receipts and nodes |
| Delivery.ReceiveKeepsInv | crates/pm-core/src/client.rs:1002-1020 | Handing any device any envelope ever sent, any number of times, keeps the invariant and takes nothing away; a positive acknowledgement of a chat means that its recipient now holds it |
| Delivery.AppliesReceipt | crates/pm-core/src/client.rs:905-910 | Applying a receipt keeps the invariant: the row it marks Delivered, if any, is an outgoing one whose message the sender of the receipt holds |
| Delivery.CallsEndAsDeliverSays | crates/pm-core/src/client.rs:564-628 | The staged call of the system model ends, on each route and for all answers of the network, with the status or the error that the `deliver` method returns |
| Handover.SentIsTruthful | crates/pm-core/src/client.rs:564-628 | In every such run an outgoing message shown as Sent is stored unaltered in some node's mailbox, or the sender's own node is still retrying exactly that envelope, or the recipient holds it, or the sender's own node has given up and tells the next poll or has told one; it is never simply dropped |
| Handover.StepKeepsHandover | crates/pm-core/src/client.rs:564-628 | Every event keeps that account of the claims made to calls and rows, and of acknowledgements: one for a chat comes only from a recipient who has stored it |
| Progress.DirectChatGetsThrough | crates/pm-core/src/client.rs:598-628 | Progress: from every state a run can reach, a chat that is dialled, opened and answered ends as exactly one new row on each device, Delivered on the sender's, with the sender's id, time and text and each device's own new clock value, and a receipt is due |
| Progress.ServerChatGetsThrough | crates/pm-core/src/client.rs:564-584 | The same over the recipient's Server through an open slot and a later sync, with Sent on the sender's row |
| Progress.RetriedChatGetsThrough | crates/pm-core/src/client.rs:604-622 | The same when the dial goes unanswered and the sender's own node takes over and gets through, with Sent on the sender's row |
| Progress.DirectReceiptGetsThrough | crates/pm-core/src/client.rs:689-692 | From every state a run can reach, a due receipt that is sent and answered directly turns the row it is about to Delivered and changes no other row |
| Progress.ServerReceiptGetsThrough | crates/pm-core/src/client.rs:689-692 | The same when the receipt goes over the addressee's Server through an open slot and the addressee then syncs |
| Progress.RetriedReceiptGetsThrough | crates/pm-core/src/client.rs:689-692 | The same when the dial goes unanswered and the device's own node takes over and gets through |
| Causality.RepliesAreShownAfter | crates/pm-core/src/client.rs:562-562 | In every run of devices and nodes with clocks below their maximum: if a device held a message when its reply was sent, both devices list both messages, the reply after what it answers |
| Causality.StoredValuesAreDistinct | crates/pm-core/src/client.rs:884-891 | In every such run no two messages stored on a device carry the same clock value |
| Causality.RunsAreLamportRuns | crates/pm-core/src/client.rs:562-562 | Every such run is a run of the Lamport model, with the same databases |
| Causality.ReceiveStoresTheSame | crates/pm-core/src/client.rs:883-895 | Receiving a chat in the Lamport model gives exactly the database that handling it on a device gives |
| Causality.KeepStoresTheSame | crates/pm-core/src/client.rs:669-684 | Keeping a sent chat in the Lamport model adds exactly the row that a returning send adds |
| Client.Prepare | crates/pm-core/src/client.rs:532-596 | An envelope that goes out is addressed, stamped with the new clock value and numbered as its route demands, and the contact's counter has moved by one exactly on the server path; the next rows say when it goes out and what else has changed, also on every error |
| Client.ReadyExactlyWhen | crates/pm-core/src/client.rs:541-596 | An envelope goes out if and only if contact, session or one-time key, encryption, encoding and a complete route are there |
| Client.RouteIsRight | crates/pm-core/src/client.rs:564-596 | On the server path the envelope carries the contact's next number, under the authorisation made from it, to that contact's Server, and the counter is then one higher; a direct one carries 0, goes to the contact's transport key and moves no counter |
| Client.NumberIsUsedUp | crates/pm-core/src/client.rs:541-570 | Column by column what preparing changes: this contact's counter by one exactly on a server path that gets as far as encoding, its one-time key cleared exactly when a session is made from it, the clock ticked exactly once encryption has succeeded, and no other contact |
| Client.WritesAreAuthorisedOnce | crates/pm-core/src/client.rs:569-571 | Two server-path writes to one contact never share an authorisation as long as the counter is not set back in between |
| Client.Deliver | crates/pm-core/src/client.rs:532-628 | The result for each combination of route and answers: accepted by the server gives Sent, a direct acknowledgement gives Delivered, a refused dial falls back to the own node if there is one, everything else is an error; the session is saved exactly on success |
| Client.OutcomeTable | crates/pm-core/src/client.rs:564-624 | A delivery fails if and only if no call on its route succeeds, and is Delivered if and only if a direct dial is answered |
| Client.Send | crates/pm-core/src/client.rs:669-684 | A send succeeds exactly when the delivery does and the id is new; it then adds one outgoing row with the new clock value and the status of the delivery, and otherwise none |
| Client.BroadcastPointerUpdate | crates/pm-core/src/client.rs:701-736 | One update, with the next sequence number and the current own address, properly signed, goes to every contact; each gets it if and only if that contact is deliverable by itself, whatever happens with the others |
| Client.HandleDecrypted | crates/pm-core/src/client.rs:876-942 | New database and attribution for each payload: chats are stored once with the merged clock and are the only ones answered with a receipt, receipts touch one contact's message, pointer updates apply only when valid, what does not parse changes nothing |
| Client.ChatIsStored | crates/pm-core/src/client.rs:883-903 | A received chat becomes, unless its id is there already, one incoming row with the sender's id, time and text, no status, and the new clock value, which exceeds the old one and the sender's; nothing else changes |
| Client.OtherPayloadsStoreNothing | crates/pm-core/src/client.rs:905-942 | No other payload moves the clock or adds a row, and exactly the unparsable ones go unattributed |
| Client.OpeningSaves | crates/pm-core/src/client.rs:834-861 | Opening saves this contact's session, and the account's pickle exactly when it made the session; no other session and no other account column changes |
| Client.AcknowledgedExactlyWhen | crates/pm-core/src/client.rs:1002-1020 | A direct delivery is acknowledged if and only if the envelope opens under a known contact, parses, and is not a chat already stored |
| Client.AttributeAndStore | crates/pm-core/src/client.rs:832-863 | The envelope is handled under the first contact whose session opens it, with the session saved, and the account too if the envelope started the session; nothing changes if none opens it |
| Client.ApplyFailures | crates/pm-core/src/client.rs:817-821 | All messages the node gave up on, and only those, are marked Failed |
| Client.AllFailedRows | crates/pm-core/src/client.rs:817-821 | Of all rows exactly those with a listed id become Failed, in their status only |
| Client.LastWriterWinsInDatabase | crates/pm-core/src/client.rs:911-939 | Whatever pointer updates a contact's envelopes carried, in any order, with repeats and forgeries, the database ends with that contact's row at the issued announcement of highest sequence number, and nothing else in it has changed |
| Client.PointerHandledIsApplied | crates/pm-core/src/client.rs:911-939 | Handling one update applies it to that contact's record and leaves every other record and table as it was |
| Sync.MailboxAndWatermarkAgree | crates/pm-core/src/client.rs:761-794 | After any run of deposits and syncs cut off anywhere, with acknowledgements lost or arriving at any later time, the completed syncs together examined the ids 1, 2, …, watermark, each once and in order, none skipped, and among these exactly the well-formed blobs are marked delivered on the node |
| Sync.WatermarkNeverMovesBack | crates/pm-store/src/lib.rs:545-556 | No event moves the watermark back |
| Sync.UndisturbedSyncDrains | crates/pm-core/src/client.rs:740-794 | From every reachable idle state one sync without failures, whatever the blobs turn out to be, brings the watermark to the newest blob, and then exactly the well-formed blobs are delivered |
| Sync.NewBlobsIsSuffix | crates/pm-core/src/client.rs:761-763 | Filtering a response by the watermark and sorting it yields the mailbox's suffix past the watermark, in whatever order the response came |
| Sync.Examine | crates/pm-core/src/client.rs:761-778 | Over the response, the watermark and the verdicts: the loop fails if and only if storing fails on a new well-formed blob; otherwise it returns the number of new well-formed blobs that are chats, the highest id, and the ids of all new well-formed blobs in ascending order |
| Sync.StepsAgreeWithLoop | crates/pm-core/src/client.rs:769-778 | Examining blob by blob in a run ends with the same progress as the loop, or gives up at the same blob |
| Lamport.ClockCondition | crates/pm-store/src/lamport.rs:12-29 | In every restore-free run of many devices, an event that happened before another, through any chain of local steps and chat messages, has the smaller clock value |
| Lamport.MessageValuesAreDistinct | crates/pm-core/src/client.rs:562-562 | No two message rows of one device, for whatever contacts, carry the same value |
| Lamport.RepliesSortAfter | crates/pm-store/src/lib.rs:275-307 | On both devices the conversation lists both messages, a reply after the message it answers |
| Lamport.EarlierIsShownBefore | crates/pm-store/src/lib.rs:275-281 | Of two rows of one contact the conversation query lists both, the one with the smaller value first |
| RetryRun.RetryCompletesInBoundedTime | crates/pm-node/src/retry_queue.rs:107-202 | With sweeps at most S apart and attempts reported within D < 12000 ms, a job is delivered or on the failed list 3S + 3D + 20000 ms after it was scheduled |
| RetryRun.AttemptsAreExclusiveAndSpaced | crates/pm-node/src/retry_queue.rs:19-40 | At most three attempts are made, no two are in flight at once, and each retry waits out its backoff after the previous failure |
| RetryRun.ExactlyOneFate | crates/pm-node/src/retry_queue.rs:79-230 | A scheduled message is in exactly one of pending, delivered, failed, reported, and reported at most once; delivered exactly when some attempt was acknowledged, failed exactly when three attempts were all refused |
| RetryRun.FailedIsTruthful | crates/pm-core/src/client.rs:804-821 | A row becomes Failed only if this device scheduled the message and all three attempts ended without an acknowledgement |
| RetryRun.FailedExactlyWhen | crates/pm-core/src/client.rs:804-821 | A row is shown as Failed if and only if at some moment the message had been refused three times and not yet reported, its row was already there, a poll was answered, and no receipt came later |
| RetryRun.FailureCanGoUnnoticed | crates/pm-core/src/client.rs:806-821 | Three refusals and a poll alone are not enough: some run loses the answer to the poll, and the row stays Sent |
| RetryRun.MarkingIsWhatTheDeviceDoes | crates/pm-core/src/client.rs:817-821 | The rows of the timed run change as the outgoing rows of a real database do under the same list |
| RetryRun.SlowAttemptsOverlap | crates/pm-node/src/retry_queue.rs:32-40 | The bound on attempts is needed: when an attempt may last as long as the grace, some run has two attempts in flight |
| RetryRun.StepKeepsInv | crates/pm-node/src/lib.rs:151-181 | Every event of a timed run keeps the account of each job: how often it failed, when it is next due, and by when at the latest |
| SweepLoop.Turn | crates/pm-node/src/lib.rs:156-160 | One turn takes each due entry once and starts exactly the attempts of the timed run; its pruning changes no later answer of the limiter |
| SweepLoop.ReportBack | crates/pm-node/src/lib.rs:174-177 | A dialling task's report changes the queue as the corresponding event of the timed run |
| SweepLoop.RetriesEndWithinAMinute | crates/pm-node/src/lib.rs:44-49 | With the node's own interval and timeout a job is over 56 seconds after scheduling |
| RetryQueue.RetryQueue.TakeDue | crates/pm-node/src/retry_queue.rs:107-143 | Lists every due job once, with its own recipient and envelope and nothing else, and puts exactly these out of reach for the grace period |
| RetryQueue.RetryQueue.MarkFailed | crates/pm-node/src/retry_queue.rs:161-202 | An unknown id changes nothing; the third failure moves the job to the failed list, an earlier one postpones it by its backoff |
| RateLimit.BurstBound | crates/pm-node/src/rate_limit.rs:74-109 | For every peer, start and length L, however requests and prunes interleave, at most max * (ceil(L / W) + 1) of the requests in the span are accepted |
| RateLimit.PolitePeerIsNeverRefused | crates/pm-node/src/rate_limit.rs:74-92 | A peer that makes at most max requests in every span of one window is never refused, whoever else asks |
| RateLimit.SharedLimiterRefinesSolo | crates/pm-node/src/rate_limit.rs:74-109 | The shared, pruned limiter answers each peer as a limiter of its own that is never pruned would |
| RateLimit.AnswersDependOnOwnRequestsOnly | crates/pm-node/src/rate_limit.rs:74-109 | Two runs in which a peer asks at the same times give it the same answers, whatever the other peers and prunes |
| RateLimit.PruningChangesNoAnswer | crates/pm-node/src/rate_limit.rs:102-109 | Removing all prunes from a run changes no answer |
| RateLimit.RateLimiter.Allow | crates/pm-node/src/rate_limit.rs:74-92 | The answer and the peer's new window; every other peer's window is untouched |
| RateLimit.RateLimiter.PruneExpired | crates/pm-node/src/rate_limit.rs:102-109 | Exactly the expired windows are forgotten |
| NodeHandler.RefusedCallsDoNotInterfere | crates/pm-node/src/handler.rs:42-116 | Striking every refused call out of a run leaves the same final state and the same answers to the rest |
| NodeHandler.RefusedExactlyWhenIllegitimate | crates/pm-node/src/handler.rs:42-116 | A request is refused if and only if it has the wrong key, or is a write without a registered slot, with the error for that case and no trace; otherwise it gets the kind of answer it asks for |
| NodeHandler.BlobsAreConserved | crates/pm-node/src/store.rs:56-119 | Over any run the blobs are the old ones followed by the accepted writes in order, none lost or altered, ids strictly growing, delivered flags never cleared |
| NodeHandler.WritesNeedRegistrations | crates/pm-node/src/store.rs:41-82 | Over any run an authorisation is accepted no more often than the owner registered its hash |
| NodeHandler.ServerBurstBound | crates/pm-node/src/lib.rs:57-58 | One peer gets at most 60 * (ceil(L / 60000) + 1) writes and registrations past the limiter in any span of length L |
| NodeHandler.PassedAsTheLimiterSaid | crates/pm-node/src/handler.rs:127-144 | Of the requests of one peer, those that pass the gate in front of the handler are those the limiter accepts; other request kinds do not count against it |
| NodeHandler.GateAnswers | crates/pm-node/src/handler.rs:127-144 | Registrations and writes only are turned away, exactly when the limiter says so, with the node as it was; every other request passes uncounted |
| NodeHandler.ServerIsHandlerBehindGate | crates/pm-node/src/handler.rs:127-144 | Over any run, the requests let through leave the same node and get the same answers as if the handler had been called with them alone |
| NodeHandler.MailboxHandler.Handle | crates/pm-node/src/handler.rs:42-116 | For each of the eight requests the handler gives the answer and reaches the state that the rows on runs of a node characterise, owner gate included |
| NodeRun.FetchListsEverything | crates/pm-node/src/handler.rs:61-76 | In any run of requests, sweeps and reports, the owner's fetch lists the blobs there were at first and then every accepted write in order, numbered from one, each with its data, and marked delivered if and only if it was at first or the owner has acked it since it exists |
| NodeRun.BackupComesBack | crates/pm-node/src/handler.rs:83-98 | The owner gets back the last backup put, whatever came in between |
| NodeRun.PollListsWhatWasGivenUp | crates/pm-node/src/handler.rs:109-116 | The owner's poll lists exactly the messages given up on since the last poll, each once |
| NodeRun.JobsAreAsScheduled | crates/pm-node/src/retry_queue.rs:79-202 | However often it has failed, a pending job has the recipient and envelope it was last scheduled with |
| Links.NodesRunAsNodeRun | crates/pm-node/src/handler.rs:42-116 | The nodes of a run of devices do nothing but what these runs allow, so that these results hold of them |
| Links.OwnerDrivesQueue | crates/pm-node/src/handler.rs:99-116 | The owner's scheduling and polling move the queue as in the timed runs, and a poll answers with what those report |
| Mailbox.MailboxStore.Write | crates/pm-node/src/store.rs:56-82 | Uses up the matching slot and stores the blob under an id larger than all before, both or neither |
| Mailbox.MailboxStore.Ack | crates/pm-node/src/store.rs:105-119 | Sets the delivered flag of exactly the listed ids; unknown ids are ignored |
| Slots.SlotAgreement | crates/pm-core/src/client.rs:493-584 | After one pairing the sender's server-path writes are numbered 0, 1, 2, …; in whatever order they reach the owner's node, however late or often, and whoever else talks to it, one is accepted exactly when it arrives for the first time and its number is below 8 |
| Links.ServerSendIsSlotSend | crates/pm-core/src/client.rs:569-584 | In a run of devices, beginning a server-path delivery draws the number, puts it into envelope and authorisation and moves the counter as the slot model says |
| Links.WriteIsArrival | crates/pm-node/src/store.rs:56-82 | The write reaching the node is an arrival of the slot model, with the same answer |
| Slots.RegisterSlots | crates/pm-core/src/client.rs:492-499 | The loop opens exactly the eight slots of this pairing |
| Pairing.PairSecretIsSymmetric | crates/pm-core/src/pairing.rs:37-51 | Both sides compute the same secret |
| Pairing.SmallerNonceGoesFirst | crates/pm-core/src/pairing.rs:37-48 | The nonce that is smaller at the first byte where they differ goes first into the derivation |
| Pairing.PairSecretIdentifiesPairing | crates/pm-core/src/pairing.rs:37-51 | Two pairings have the same secret if and only if they exchanged the same two nonces |
| Pointer.LastWriterWins | crates/pm-core/src/client.rs:911-939 | Any list of updates with repeats and forgeries, in any order, leaves address, timestamp and sequence number at the issued announcement of highest sequence number among those delivered, and no other column changed |
| Pointer.DeliveryOrderIsIrrelevant | crates/pm-core/src/client.rs:1118-1137 | Two lists with the same authentic announcements leave the same record |
| Pointer.NothingNewerChangesNothing | crates/pm-core/src/client.rs:1118-1137 | A list without a newer authentic announcement changes nothing |
| Pointer.DeliveredWasIssued | crates/pm-core/src/client.rs:1093-1116 | An authentic update says what the owner issued; parts of two updates cannot be combined |
| Pointer.SignedBytesInjective | crates/pm-core/src/client.rs:1062-1069 | Different announcements are signed over different bytes |
| Pointer.SignedLayout | crates/pm-core/src/client.rs:1062-1069 | Which bytes are signed: the tagged address with its length, then time and sequence number as eight little-endian bytes each |
| Counters.CountersSurviveRestores | crates/pm-core/src/backup.rs:50-129 | In any run where each restore uses some bundle, not necessarily the latest, made after the last broadcast and server-path send, broadcast numbers strictly increase and no write number repeats, across devices; the next of each is new |
| Counters.NextBroadcastIsAccepted | crates/pm-core/src/client.rs:714-728 | In such a run a contact who has heard any earlier broadcast accepts the next one |
| Counters.RestoreIsSafeExactlyWhenNothingHappenedSince | crates/pm-core/src/backup.rs:84-103 | After such a run restore any bundle ever made: the next broadcast is new if and only if there was none since that bundle was made, and a contact's next write number if and only if there was no server-path send to that contact since |
| Counters.NumbersRepeatExactlyWhen | crates/pm-core/src/backup.rs:84-103 | In any run whatever, with any bundles restored at any time, broadcast numbers are distinct if and only if each broadcast was made by a database that had been through all earlier ones, and likewise for the write numbers of each contact |
| Counters.StepKeepsInv | crates/pm-store/src/lib.rs:427-440 | Every event, restores of stale bundles included, keeps each counter at exactly the numbers used in the database's own past |
| Links.ServerSendIsCounted | crates/pm-core/src/client.rs:569-570 | In a run of devices, beginning a server-path delivery is a send of the counter model: the number in the envelope is recorded as used, and all counters agree afterwards |
| Backup.BackupRoundTrip | crates/pm-core/src/backup.rs:50-129 | For every consistent database, restoring its bundle into an empty store succeeds and assembling again gives the same bundle; contacts, sessions, conversations and account are those of the original, with clock, watermark and pointer marks back at their initial values |
| Backup.AssembleUndoesRestore | crates/pm-core/src/backup.rs:50-129 | Any bundle with messages in Lamport order is recovered exactly |
| Backup.RestoreIntoEmpty | crates/pm-core/src/backup.rs:84-129 | Restoring a bundle with distinct contacts and message ids into an empty store never fails, and produces the database given in closed form |
| Backup.AssembledIsWellFormed | crates/pm-core/src/backup.rs:50-81 | A bundle assembled from a consistent database has distinct contacts, distinct message ids and ordered messages |
| Backup.Assemble | crates/pm-core/src/backup.rs:50-81 | The loop collects every contact with its session and ordered messages; without an account it fails |
| Backup.RestoreInto | crates/pm-core/src/backup.rs:84-129 | The nested loops, with the write counter rebuilt by single increments, perform the restore statement by statement; if a message is refused they stop there, with the database as far as it got |
| Store.QueryIsCorrect | crates/pm-store/src/lib.rs:275-281 | The conversation query returns the contact's messages and no others, each as often as stored, in Lamport order |
| Store.Store.UpsertContact | crates/pm-store/src/lib.rs:166-190 | The contact at the returned id has the given keys and name; a known one keeps its id and every other column, a new one is appended with the next id and initial columns; every other contact and table is as before |
| Store.Store.IncrementAndGetNextWriteN | crates/pm-store/src/lib.rs:427-440 | Returns the number used for this write and moves the counter by one, for this contact only |
| Store.SettersTouchOneContact | crates/pm-store/src/lib.rs:347-451 | Each setter writes its own column of the contact it names and nothing else |
| Store.AccountColumnsAreSeparate | crates/pm-store/src/lib.rs:322-332 | Pickle, own address and broadcast number are written one at a time, the other columns and tables staying as they were |
| Store.Store.InsertMessage | crates/pm-store/src/lib.rs:219-234 | Appends the row, or fails and changes nothing when the contact already has that id |
| Store.Store.TickLamport | crates/pm-store/src/lamport.rs:12-18 | The clock moves to a larger value, which is returned |
| Store.Store.ObserveLamport | crates/pm-store/src/lamport.rs:23-29 | The clock moves past both its own and the remote value; remote values are read as signed 64-bit words |
| EnvelopeCodec.EnvelopeRoundTrip | crates/pm-proto/src/envelope.rs:64-74 | An envelope encodes exactly when ciphertext and attachment references take at most 4034 bytes, is then padded to the smallest bucket that fits, and decodes back to itself |
| EnvelopeCodec.DecodesExactly | crates/pm-proto/src/envelope.rs:64-74 | Deserializing yields an envelope if and only if the bytes start with that envelope's serialization, and leaves over exactly what follows |
| EnvelopeCodec.ReceivedExactly | crates/pm-proto/src/envelope.rs:71-74 | A received buffer yields an envelope if and only if its declared part starts with that envelope's serialization |
| EnvelopeCodec.EncodingLayout | crates/pm-proto/src/envelope.rs:64-68 | Where each field is in the bytes: bincode's order, eight-byte little-endian numbers, lengths before byte strings and lists |
| EnvelopePadding.PaddingRoundTrip | crates/pm-proto/src/padding.rs:17-50 | Data pads exactly up to 4092 bytes, to the smallest bucket that holds it with its prefix, and unpads to itself |
| EnvelopePadding.PaddedLayout | crates/pm-proto/src/padding.rs:17-34 | Every byte of the padded form: the length as four big-endian bytes, the data, zeros |
| EnvelopePadding.UnpaddingIsExact | crates/pm-proto/src/padding.rs:37-50 | Unpadding yields data if and only if the buffer starts with its length and the data; too short a buffer has its own error |
| BackupPadding.BucketIsLeast | crates/pm-crypto/src/backup.rs:43-46 | The padded length is the least power of two that is at least 4096 and holds data and prefix, and above 4096 is less than twice what is needed |
| BackupPadding.BucketIsMonotone | crates/pm-crypto/src/backup.rs:43-46 | Longer data never gets a shorter padded length |
| BackupPadding.BackupPaddingRoundTrip | crates/pm-crypto/src/backup.rs:43-69 | Unpadding undoes padding for every length that fits 64 bits |
| BackupPadding.PaddedLayout | crates/pm-crypto/src/backup.rs:43-52 | Every byte of the padded form: the length as eight big-endian bytes, the data, zeros |
| BackupPadding.UnpaddingIsExact | crates/pm-crypto/src/backup.rs:55-69 | Unpadding yields data if and only if the buffer starts with its length and the data |
| Utf8Text.BufferToText | app/example/src/lib/bytes.ts:33-64 | For every text, decoding its UTF-8 bytes (section 3 of RFC 3629) gives its UTF-16 code units (section 2.1 of RFC 2781), and the loop stops exactly at the end of the buffer |
| Utf8Text.DecodingIsExact | app/example/src/lib/bytes.ts:33-64 | At any position of any buffer, an encoded text is decoded to its UTF-16 code units and decoding goes on right behind its last byte |
| Utf8Text.OneScalar | app/example/src/lib/bytes.ts:37-62 | One turn of the loop reads back one scalar value, whichever of the four lengths it has, and consumes exactly its bytes |
| Utf8Text.MissingBytesAreZero | app/example/src/lib/bytes.ts:42-56 | A group cut off by the end of the buffer is decoded as if zeros followed |
| Utf8Text.StrayContinuation | app/example/src/lib/bytes.ts:41-43 | A continuation byte in lead position is taken for the lead of a two-byte group |
| Utf8Text.DecodeGroup | app/example/src/lib/bytes.ts:37-62 | The code units and the advance of one turn, also for bytes that are not UTF-8 |

## Left out

- Endpoints, QUIC streams, routers and tasks: they are input and output; runs contain their effects as events with free outcomes.
- The inside of Olm, Ed25519, HKDF, SHA-256, XChaCha20-Poly1305 and BIP39, including `encrypt_backup` and `decrypt_backup`: taken as ideal.
- Olm session state: saved sessions and accounts are bytes given by the run, and whether a session is usable and an envelope opens are free choices of it. Nothing is claimed about which session state survives when sending and receiving overlap, or about repeating a failed first send.
- Client.Prepare: a server address or transport key on file that does not parse is not modelled; the code then fails after the clock has ticked.
- Finality of a message status: status writes are unconditional, so Delivered and Failed may be overwritten.
- `Delivery` starts after pairing, with the address of each device's own Server fixed, and has no restores. The devices are honest: no stranger deposits blobs there, and an envelope is a value rather than bytes (`Sync` and `NodeHandler` cover arbitrary deposits and strangers). Saving the session and storing the row at the end of a send are one event.
- Slots registered after pairing: the code registers slots only in `add_contact`, so nothing is claimed for a Server added later. A failure halfway through the eight registrations is not modelled.
- Concurrent syncs, a node that loses its store, and a move to another Server, for which the watermark would not fit.
- Lamport order across a restore: the clock is not part of the bundle.
- Integer widths: clock values, own and remote, are kept below 2^63 - 1; blob ids, counters and retry times are unbounded.
- Backup padding of data whose next power of two does not fit a machine word, and overflow of `unpad` on a hostile prefix near 2^64.
- RateLimit.BurstBound: the clock is monotone and the window longer than zero; readings are not negative, so the saturating difference never saturates.
- Store.QueryIsCorrect: rows with equal clock values come in insertion order, which SQL leaves open.
- Utf8Text.DecodeGroup: bit masks and shifts are written as remainders and products.
- The pairing payload and its QR and JSON packing, base64 and hex helpers, `pm-ffi`, the generated bindings, the app's screens, migrations, error types and simple getters: they pass values along and promise nothing beyond that.
