# Verified model of the messenger's relay and desktop client

The messenger has a Go relay over PostgreSQL and a Tauri desktop client. This
project models the parts in which a mistake loses messages, locks people out or
lets a token live too long, and proves what they keep over whole runs.

* **Relay pipeline** (`Relay`, `RelayServer`, `RelaySync`, `RelayProtocol`,
  `RelayGaps`, `RelayReceipt`, `RelayWitnesses`, `RelayAdmission`,
  `RelayDelivery`, `RelayOutbox`, `Recipients`, `ClientDatabase`, `Coalescing`).
  A client queues messages in an outbox and sends them over a network that may
  lose, delay, repeat and reorder requests and responses. The relay removes
  duplicates by sender device and client message id, numbers messages with one
  global sequence, and answers sync queries from per-device cursors. `RelayServer` holds the imperative service
  calls, `Relay` their meaning as functions, `RelayProtocol` the transition
  system of clients, network and relay.
* **Account trust** (`Trust`, `TrustServices`, `TrustRuns`, `TrustSafety`,
  `TrustSignIn`, `TrustStepUp`, `TrustTwoFactor`, `TrustTokens`, `TrustAccess`,
  `TrustRecovery`, `TrustRestore`, `TrustCalls`, `TrustRefusals`,
  `TrustWitnesses`). Accounts, devices, approval requests, sessions,
  challenges, recovery flows and codes, and every call of the three services over
  them.
  `TrustServices` holds the calls as they are written, one row update after the
  other, `Trust` their meaning; a run is any sequence of
  calls with any arguments and any caller.
* **Message lists** (`MessageList`, `MessageAgreement`, `MessageStore`,
  `MessageOrder`, `OptimisticSend`). Upserts that must agree with removing
  duplicates from the whole stream and sorting it, and what a send shows until it
  is confirmed.
* **Bounded structures** (`RateLimiter`, `KeyRing`, `Reconnect`). The
  fixed-window limiter, the window of retired device keys, and the reconnect
  backoff.

A service call is one atomic step over its tables. Tables are sequences and
maps; tokens come from a counter, so they are new, and a stored hash wraps its
token, so hashing is injective. Clocks, random draws and new ids are parameters.

## What the proofs brought to light

The model follows the code. Where a promise does not hold, the project proves
exactly when it does, and a short run shows that the failing case is reached.

* The websocket announces a new message with that message's own sequence
  (`service/messaging/service.go:506-510`), the client polls with it
  (`runtime.ts:401-403`, `518-528`), and the query returns only what is strictly
  above. Such a poll skips the message for good:
  `PollWithPushedCursorSkipsTheMessage`; four steps reach a gap:
  `PushedCursorOpensAGap`. A query leaves no gap exactly when nothing addressed
  to the device lies between its stored and its requested cursor (`QuerySafety`),
  and a run stays safe exactly when that holds of all its queries and none asks
  beyond the sequences given out (`RunSafety`). Polling with the client's own
  cursor leaves no gap in what is returned (`PollingFromTheDatabaseLeavesNoGap`).
* The relay moves a device's cursor before the batch reaches it, and every later
  bootstrap or poll starts at or above that cursor: a batch that is lost on the
  way is not sent again by syncing (`PassedIsNotReturned`,
  `LostBatchIsNotSentAgain`). The client then applies the next batch without
  looking at where it starts (`runtime.ts:562-563`), and its cursor passes what
  it never received (`NextBatchJumpsOverTheLostOne`). A device has received
  everything up to its own cursor, and that cursor stays within the sequences
  given out, in every state of a run exactly when no batch it applies jumps over
  a message of it or ends beyond those sequences (`ReceiptFromTheStart`);
  comparing the batch's start with its cursor would be enough
  (`ApplyingInOrderMissesNothing`).
* A retry is answered with the stored message only while the account is still an
  active member, because membership is checked before the reference
  (`RetryReturnsTheStoredMessage`); otherwise the client drops an item that is
  stored (`StoredMessageIsDropped`).
* Completing a recovery trusts its device whatever happened to it since the flow
  was opened, even when it was rejected or revoked (`OnlyRecoveryRestoresTrust`,
  `RejectedDeviceIsRestored`). `WhenTrustCanBeRestored` says exactly when a
  revoked or blocked device can come back.
* A completed recovery flow refers to the code it used, so the codes of its
  account can no longer be replaced; confirming two-factor sign-in then turns it
  on and fails (`ConfirmingAfterARecovery`, `ConfirmingFailsAfterRecovery`).
* Starting the two-factor setup again on a protected account refuses every code
  (`RestartedSetupRefusesEveryCode`, `RestartIsReached`). This is the only state
  that refuses the right code (`OnlyARestartRefusesTheRightCode`), and only
  confirming with the right code ends it (`WhatChangesARestart`, `RestartLasts`).
* A key rotation refused for its device id has already stored the current key as
  retired and may have dropped the oldest (`RefusedRotationKeepsEveryKey`,
  `RefusedRotationDropsTheOldest`).
* The limiter admits up to 2 * limit - 1 requests within one window's length,
  and that many can be reached (`AtMostTwiceTheLimit`, `BoundIsReached`).
* An upsert that matches an entry by id alone replaces another identity. One
  upsert agrees with the one-shot form exactly when it does not
  (`UpsertAgreesWithOneShot`), and a stream does after each of its parts exactly
  when none of its upserts does (`StreamAgreement`).
* Loading a conversation while a send is under way replaces its list, and with it
  a text that only the optimistic entry had; the text survives exactly when every
  list loaded has it (`WhenTheTextSurvives`, `LoadingForgetsTheText`).
* A sync request without a hint that comes during a round starts nothing, then
  or later (`WhenARequestIsForgotten`, `ForgettingIsReached`).

## Model

| member | source | states |
|---|---|---|
| `RelayProtocol.SendsAreExactlyOnce` | apps/relay-server/internal/migrations/sql/002_messaging_core.sql:54 | in every run with lost, repeated and late requests and responses: a sender device and client message id is stored at most once and as queued; every queued item is in the outbox, stored, or was refused for good; all positive answers for one reference are the same message |
| `RelayProtocol.RunKeepsConsistent` | apps/client-desktop/src/services/messaging/runtime.ts:702-755 | the invariant behind exactly-once sending holds in every reachable state, and stored messages stay a prefix |
| `RelayProtocol.NextKeepsConsistent` | apps/client-desktop/src/services/messaging/runtime.ts:702-755 | every step of client, network and relay keeps that invariant |
| `RelayProtocol.StoredMessagesNeverChange` | apps/relay-server/internal/service/messaging/service.go:371-379 | whatever runs later, a stored message keeps its id, sequence and recipient rows |
| `RelayProtocol.RetryReturnsTheStoredMessage` | apps/relay-server/internal/service/messaging/service.go:354-379 | a retry never changes the tables, and is answered with the stored message if and only if the request is well formed, the conversation is found and the account is still an active member |
| `RelayProtocol.CursorsNeverGoBack` | apps/client-desktop/src-tauri/src/main.rs:560-580 | for every device and run, with batches applied late, twice or never: neither cursor decreases and the client's never exceeds the server's |
| `RelayProtocol.NextKeepsCursorsOrdered` | apps/relay-server/internal/repository/postgres/sync.go:35-58 | one step keeps the cursors ordered and moves neither back |
| `RelayProtocol.BootstrapAndPollAreQueries` | apps/relay-server/internal/service/messaging/service.go:581-615 | bootstrap and a poll equal one query from the stored cursor and from the larger of the stored and the requested one; creating the cursor row makes no difference |
| `RelayProtocol.StepsOnlyAppend` | apps/relay-server/internal/repository/postgres/messages.go:84-178 | no step changes stored messages or logged queries, and only a query moves a stored cursor |
| `RelayGaps.QueryCoversItsRange` | apps/relay-server/internal/repository/postgres/messages.go:303-388 | a message addressed to the device inside the range a query advanced over was returned by it or had expired by then |
| `RelayGaps.QuerySafety` | apps/relay-server/internal/service/messaging/service.go:810-866 | a query leaves no gap if and only if no message addressed to the device lies above the stored cursor and at or below the requested one; it also keeps the state safe for later messages if and only if moreover the request does not exceed the last sequence |
| `RelayGaps.RunSafety` | apps/relay-server/internal/service/messaging/service.go:581-615 | from any consistent and safe state, a run stays safe for a device if and only if each of its queries passes over nothing addressed to the device and does not exceed the last sequence given out |
| `RelayGaps.NoGapOverRuns` | apps/relay-server/internal/service/messaging/service.go:581-615 | if every query of a device starts at or below its stored cursor, then after the run every message to it up to the cursor was returned to it, or had expired when its range was queried |
| `RelayGaps.NoGapFromTheStart` | apps/relay-server/internal/service/messaging/service.go:581-615 | from the empty system, a device is safe in every state of a run if and only if its queries pass over nothing addressed to it and stay within the sequences given out; in particular there is no gap when they start at or below the stored cursor |
| `RelayGaps.PollingFromTheDatabaseLeavesNoGap` | apps/client-desktop/src/services/messaging/runtime.ts:518-523 | a device whose queries ask for no more than its own durable cursor or the relay's never has a gap, whatever batches are late, repeated or lost |
| `RelayGaps.PassedIsNotReturned` | apps/relay-server/internal/repository/postgres/messages.go:332-345 | in a run whose queries start at or above the stored cursor, nothing at or below that cursor is ever returned again |
| `RelayGaps.PolledPastIsNotReturned` | apps/relay-server/internal/service/messaging/service.go:589-615 | a poll that starts at or above a sequence, and all later such queries, do not return it |
| `RelayGaps.PollWithPushedCursorSkipsTheMessage` | apps/relay-server/internal/service/messaging/service.go:499-511 | the cursor pushed with a new message is that message's sequence, and polling with it means no query of the device ever returns the message |
| `RelayReceipt.ReceiptFromTheStart` | apps/client-desktop/src/services/messaging/runtime.ts:530-565 | in every run from the empty system a device has, in every state, received each message up to its own durable cursor (or it had expired when its range was queried) and the cursor stays within the sequences given out, if and only if each batch it applies jumps over no message of the device and ends within those sequences |
| `RelayReceipt.RunReceipt` | apps/client-desktop/src/services/messaging/runtime.ts:530-565 | the same equivalence from any state of a run in which the device is caught up |
| `RelayReceipt.ApplyingABatch` | apps/client-desktop/src/services/messaging/runtime.ts:562-563 | one applied batch leaves the device complete if and only if no message addressed to it lies above its cursor and at or below the start of the batch |
| `RelayReceipt.StepKeepsBatchesWhole` | apps/relay-server/internal/service/messaging/service.go:810-866 | every batch ever returned keeps bringing every addressed message of its range that had not expired, and messages stored later lie above it |
| `RelayReceipt.ApplyingInOrderMissesNothing` | apps/client-desktop/src/services/messaging/runtime.ts:562-563 | a device that applies only batches starting at or below its own cursor, which it could check, misses nothing in any state of any run |
| `RelayReceipt.EveryLaterBatchJumps` | apps/relay-server/internal/service/messaging/service.go:850-857 | while a message lies above the device's cursor and at or below the relay's, every batch queried from then on jumps over it |
| `RelayWitnesses.PushedCursorOpensAGap` | apps/client-desktop/src/services/messaging/runtime.ts:401-403 | four steps from the empty system (queue, send, store, poll with the pushed cursor) end in a gap |
| `RelayWitnesses.LostBatchIsNotSentAgain` | apps/relay-server/internal/service/messaging/service.go:850-857 | a run in which the only batch with a message is lost, the client's cursor is still 0, and no later query from the stored cursor or above returns the message |
| `RelayWitnesses.NextBatchJumpsOverTheLostOne` | apps/client-desktop/src/services/messaging/runtime.ts:562-563 | a run in which one batch is lost and the next one applied: the client's cursor stands at a message it never received |
| `RelayWitnesses.StoredMessageIsDropped` | apps/relay-server/internal/service/messaging/service.go:366-379 | a run in which the first answer is lost, the account leaves, and the retry drops an item whose message is stored |
| `Relay.SendKeepsSound` | apps/relay-server/internal/service/messaging/service.go:323-520 | a send, refused or not, keeps increasing sequences, unique ids, unique references and the sender's own delivered row |
| `Relay.SyncFromKeepsSound` | apps/relay-server/internal/service/messaging/service.go:810-866 | a query keeps the same table invariant |
| `Relay.SyncKeepsSound` | apps/relay-server/internal/service/messaging/service.go:581-615 | bootstrap and poll keep it too |
| `Relay.HighestBounds` | apps/relay-server/internal/service/messaging/service.go:826-849 | the batch cursor is the least value at or above the start and every returned sequence |
| `RelayServer.Service.ListConversationMessagesForDevice` | apps/relay-server/internal/repository/postgres/messages.go:180-301 | the in-place reversal of the newest rows is the page |
| `RelayServer.Service.SendMessage` | apps/relay-server/internal/service/messaging/service.go:323-520 | refines the send specification: checks in the code's order, idempotency before recipients, sender's row delivered, pushed cursors |
| `RelayServer.Service.SyncFromCursor` | apps/relay-server/internal/service/messaging/service.go:810-866 | refines one query: the batch, the delivered marks and the raised cursor |
| `RelayServer.Service.MarkBatch` | apps/relay-server/internal/service/messaging/service.go:826-849 | the loop over a batch marks its rows and yields the highest sequence at or above the start |
| `RelayServer.Service.SyncBootstrap` | apps/relay-server/internal/service/messaging/service.go:581-587 | refines the bootstrap specification |
| `RelayServer.Service.SyncPoll` | apps/relay-server/internal/service/messaging/service.go:589-615 | the loop that waits for messages or the deadline comes to the poll specification at its first instant, as long as no other call intervenes |
| `RelayServer.Service.ListConversationMessages` | apps/relay-server/internal/service/messaging/service.go:522-548 | membership checks, the page, and marking the caller's rows delivered |
| `RelayServer.CollectAllowed` | apps/relay-server/internal/service/messaging/service.go:381-393 | the nested loop yields every device of an active member with its account |
| `RelayServer.CollectRecipients` | apps/relay-server/internal/service/messaging/service.go:395-433 | the loop stops at the first refused recipient with the error of that place, and otherwise yields one row per device |
| `RelayServer.ReverseInPlace` | apps/relay-server/internal/repository/postgres/messages.go:296-298 | two indices swapping in place reverse the array |
| `RelayServer.ReversedAt` | apps/relay-server/internal/repository/postgres/messages.go:296-298 | position k of the reversal is position n-1-k |
| `RelaySync.SelectChoosesDeliverable` | apps/relay-server/internal/repository/postgres/messages.go:332-345 | the selection holds exactly the deliverable messages, in sequence |
| `RelaySync.BatchIsExactUpToItsCursor` | apps/relay-server/internal/repository/postgres/messages.go:303-388 | a batch is exactly the deliverable messages up to the cursor it moves to, within the limit; without more to come it is all of them |
| `RelaySync.SelectAfter` | apps/relay-server/internal/repository/postgres/messages.go:332-345 | what is deliverable after the k-th selected message is the rest of the selection |
| `RelaySync.BootstrapStep` | apps/relay-server/internal/service/messaging/service.go:581-587 | a bootstrap takes a prefix of what was deliverable and leaves the rest; reporting more implies progress, reporting none implies completeness |
| `RelaySync.SentIsDeliverable` | apps/relay-server/internal/service/messaging/service.go:440-459 | a newly stored message is selected for a device if and only if the device is a recipient, its cursor is below, and the sender's lifetime (where allowed; 0 is for ever) or else the default is not over |
| `RelaySync.EmptyQueryRepeats` | apps/relay-server/internal/service/messaging/service.go:601-614 | a poll that found nothing and asks again later, with no call between, finds nothing and changes nothing |
| `RelaySync.DrainIsComplete` | apps/relay-server/internal/service/messaging/service.go:581-587 | repeating the bootstrap until nothing more is reported terminates for any limit, and the concatenated batches are exactly the unexpired messages above the starting cursor, each once, in increasing sequence |
| `RelaySync.HistoryChoosesUnexpired` | apps/relay-server/internal/repository/postgres/messages.go:196-230 | the history holds exactly the unexpired messages of the conversation below the bound, in sequence |
| `RelaySync.PageIsTheNewestPart` | apps/relay-server/internal/repository/postgres/messages.go:180-301 | a page is the last `limit` messages of the history below its bound, oldest first |
| `RelaySync.HistoryBelow` | apps/relay-server/internal/repository/postgres/messages.go:180-301 | the history below its own i-th message is its first i messages |
| `RelaySync.PagesPartitionTheHistory` | apps/relay-server/internal/repository/postgres/messages.go:180-301 | chaining pages by their first sequence until one is empty yields the whole history, without gap or repetition |
| `RelayAdmission.WhenASendIsStored` | apps/relay-server/internal/service/messaging/service.go:323-459 | a new request is stored if and only if its parts are valid, its account is an active member, every recipient has an id and is a repetition or an allowed device with a valid key, the sending device is among them, and the lifetime asked for is allowed |
| `RelayAdmission.WhomAStoredMessageIsFor` | apps/relay-server/internal/service/messaging/service.go:381-438 | a stored message has a row for exactly the named devices, each with the account that lists it and the key of its first mention, and each is a device of an active member |
| `RelayAdmission.WhyASendIsRefused` | apps/relay-server/internal/service/messaging/service.go:323-459 | a refused request changes nothing and is told the first of: its parts, the conversation, the membership, the first recipient out of order, the missing sender or the lifetime |
| `RelayAdmission.WhomASendTells` | apps/relay-server/internal/service/messaging/service.go:499-511 | a send that stores a new message pushes its sequence to a device if and only if the device has a row in it; a refused send or a retry pushes nothing |
| `RelayAdmission.ClientSendTellsWhoQualifies` | apps/relay-server/internal/service/messaging/service.go:499-511 | for a request the client resolved the devices told are exactly the trusted devices of active members |
| `RelayAdmission.RecipientsAreAsNamed` | apps/relay-server/internal/service/messaging/service.go:395-433 | the recipients become exactly one row per named device, or the first one out of order says why there are none |
| `RelayAdmission.AllowedAreAddressable` | apps/relay-server/internal/service/messaging/service.go:381-393 | a device may be addressed if and only if an active member lists it |
| `RelayAdmission.TrimRemovesTheEnds` | apps/relay-server/internal/service/messaging/service.go:396 | trimming takes white space off both ends, nothing else, and leaves none there |
| `RelayDelivery.WhatIsDelivered` | apps/relay-server/internal/service/messaging/service.go:826-842 | in every run from the empty system the row of a message and a device is delivered if and only if the device sent the message, or a query or a history page returned it to that device |
| `RelayDelivery.RunMarks` | apps/relay-server/internal/service/messaging/service.go:826-842 | the same from any state, for rows that were delivered before as well |
| `RelayDelivery.WhatSyncingMarks` | apps/relay-server/internal/service/messaging/service.go:581-615 | a bootstrap or a poll marks a pair of message and device if and only if the device is the one asking and the batch holds the message |
| `RelayDelivery.WhatReadingMarks` | apps/relay-server/internal/service/messaging/service.go:522-548 | a page is shown to active members and nobody else, and marks exactly the messages on it that have a row for the reading device |
| `RelayDelivery.WhatASendMarks` | apps/relay-server/internal/repository/postgres/messages.go:84-178 | a stored message is delivered to its sender's device at once, and to no other |
| `RelayDelivery.WhatABatchHolds` | apps/relay-server/internal/repository/postgres/messages.go:303-388 | a batch holds the lowest unexpired messages with a row for the device above its start, in increasing sequence, as many as the limit allows or 100, and says that there may be more if and only if it is full |
| `RelayDelivery.WhatAPageHolds` | apps/relay-server/internal/repository/postgres/messages.go:180-301 | a page holds the highest unexpired messages of its conversation below the bound, in increasing sequence, as many as the limit allows or 50 |
| `RelayOutbox.WhatAnAnswerDoes` | apps/client-desktop/src/services/messaging/runtime.ts:719-749 | an answer concerns the row of its reference only: it leaves the outbox when stored, costs one more retry on an internal error, and is dropped on any other refusal |
| `RelayOutbox.DroppedWasRefused` | apps/client-desktop/src/services/messaging/runtime.ts:719-749 | in every run, what was dropped had been refused by an answer other than an internal error, or had failed in a way that is not retryable |
| `Recipients.ResolveRecipients` | apps/client-desktop/src/services/messaging/runtime.ts:645-669 | the nested loop lists the trusted devices of active members in order of first appearance |
| `Recipients.ResolvedListsEachQualifyingDeviceOnce` | apps/client-desktop/src/services/messaging/runtime.ts:645-669 | the list has no repeats and holds a device if and only if it is trusted and of an active member |
| `Recipients.ResolvedRows` | apps/relay-server/internal/service/messaging/service.go:381-433 | the relay accepts every device the client resolved, and records exactly those with the owner it found |
| `Recipients.ClientAndServerAgree` | apps/relay-server/internal/service/messaging/service.go:381-438 | a new, otherwise valid request for the resolved devices is accepted if and only if the account is an active member, the sending device qualifies and at most 256 devices do; the rows stored are then exactly the qualifying devices, and only the sender's is delivered |
| `ClientDatabase.Database.FlushPass` | apps/client-desktop/src/services/messaging/runtime.ts:719-749 | the loop settles the listed rows one by one while others are queued |
| `ClientDatabase.PassSettlesEveryRow` | apps/client-desktop/src/services/messaging/runtime.ts:719-749 | whatever the order, a pass keeps exactly the listed rows whose send failed retryably, each with one more retry, and leaves what was queued meanwhile as it is |
| `Coalescing.SyncRequester.RequestSync` | apps/client-desktop/src/services/messaging/runtime.ts:496-516 | negative hints count as 0, the higher hint is remembered, and a round starts exactly when none is under way |
| `Coalescing.SyncRequester.SyncEnded` | apps/client-desktop/src/services/messaging/runtime.ts:506-516 | the next round starts exactly when this one did not fail and a hint is remembered; a failure ends the job and keeps the hint |
| `Coalescing.OutboxFlusher.FlushOutbox` | apps/client-desktop/src/services/messaging/runtime.ts:702-711 | a flush is the same job, every request of which is remembered |
| `Coalescing.OutboxFlusher.PassEnded` | apps/client-desktop/src/services/messaging/runtime.ts:710-755 | another pass starts exactly when one was requested meanwhile |
| `Coalescing.NoHintIsLost` | apps/client-desktop/src/services/messaging/runtime.ts:496-516 | every hint is taken along by a round that starts with the request or later, or is still remembered |
| `Coalescing.IdleHasServedEveryHint` | apps/client-desktop/src/services/messaging/runtime.ts:496-516 | if no round failed and the job is idle again, every hint given was served by a round at least as high |
| `Coalescing.WhenARequestIsForgotten` | apps/client-desktop/src/services/messaging/runtime.ts:496-504 | a request leaves no trace if and only if a round is under way and it brings no hint above the remembered one |
| `Coalescing.NeverTwoRoundsAtOnce` | apps/client-desktop/src/services/messaging/runtime.ts:502-516 | in every run, rounds started equal rounds ended plus the one that may be open |
| `Coalescing.NoRoundWithoutARequest` | apps/client-desktop/src/services/messaging/runtime.ts:496-516 | in every run from the idle job there are never more rounds than requests, and a round takes along no hint but one that was asked for |
| `Coalescing.AFailureEndsTheJob` | apps/client-desktop/src/services/messaging/runtime.ts:506-516 | a failed round starts nothing by itself, and the round of the next request takes along the hint that was remembered |
| `MessageList.DedupeAndSortMessages` | apps/client-desktop/src/state/messagingStore.ts:237-269 | the loop over an insertion-ordered map, then sorted, is the normal form |
| `MessageList.NormalFormIsWellFormed` | apps/client-desktop/src/state/messagingStore.ts:237-269 | every normal form is sorted, free of repeated identities, complete, and lists exactly the merged entries |
| `MessageList.CompareIsAntisymmetric` | apps/client-desktop/src/state/messagingStore.ts:250-268 | the comparator is antisymmetric and vanishes only for equal sequence, time and id |
| `MessageList.CompareIsTransitive` | apps/client-desktop/src/state/messagingStore.ts:250-268 | the comparator is transitive |
| `MessageList.CollapseOfDistinct` | apps/client-desktop/src/state/messagingStore.ts:237-248 | a list of distinct complete entries collapses to itself |
| `MessageList.ListIsDeterminedByTable` | apps/client-desktop/src/state/messagingStore.ts:250-268 | with distinct ids, two well-formed lists of the same entries are equal |
| `MessageList.UpsertRecordsUnderItsKey` | apps/client-desktop/src/state/messagingStore.ts:116-137 | an upsert merges the message into the entry of its identity and leaves every other entry alone |
| `MessageList.UpsertingKeepsTheTable` | apps/client-desktop/src/state/messagingStore.ts:116-137 | folding upserts keeps the list the same table as collapsing the stream at once |
| `MessageList.IncrementalEqualsOneShot` | apps/client-desktop/src/state/messagingStore.ts:116-137 | folding single upserts over any stream in which an id determines its identity gives exactly the one-shot normal form of the stream |
| `MessageList.EntryMergesItsKey` | apps/client-desktop/src/state/messagingStore.ts:237-248 | an entry is the left-to-right merge of the messages of its identity, and of nothing else |
| `MessageList.FeedsAreConfluent` | apps/client-desktop/src/state/messagingStore.ts:116-137 | two interleavings that keep the order within every identity end in the same list |
| `MessageAgreement.UpsertKeepsEveryIdentity` | apps/client-desktop/src/state/messagingStore.ts:309-312 | an upsert loses no identity if and only if it matched nothing or an entry of the message's own identity |
| `MessageAgreement.UpsertAgreesWithOneShot` | apps/client-desktop/src/state/messagingStore.ts:116-137 | one upsert into a well-formed list equals the one-shot form of the list and the message if and only if it matched nothing or an entry of the message's own identity |
| `MessageAgreement.StreamAgreement` | apps/client-desktop/src/state/messagingStore.ts:116-137 | the folded list and the one-shot form hold the same entries after every part of a stream if and only if no upsert of the stream matches by id alone |
| `MessageAgreement.MatchingStreamIsOneShot` | apps/client-desktop/src/state/messagingStore.ts:116-137 | then the lists are equal as soon as no two entries share an id at the end, even if an id changed its identity on the way |
| `MessageAgreement.SharedIdBreaksTheAgreement` | apps/client-desktop/src/state/messagingStore.ts:309-312 | for any two complete messages of one id and two identities the upserts leave one entry and the normal form two |
| `MessageAgreement.SharedIdsExist` | apps/client-desktop/src/state/messagingStore.ts:300-307 | such pairs of messages exist for any two sender devices whose ids are equally long |
| `OptimisticSend.OptimisticIsReplaced` | apps/client-desktop/src/services/messaging/runtime.ts:171-271 | an optimistic entry, any upserts, lifecycle updates and loads of the conversation after it, and the confirmed message leave exactly one entry of the identity, with the confirmed envelope and the text it brings or else exactly the text known by then; if everything in between concerns this message, every other entry stays |
| `OptimisticSend.WhenTheTextSurvives` | apps/client-desktop/src/services/messaging/runtime.ts:153-168 | the text sent stays known throughout if and only if no upsert of the message brings another one and every list loaded meanwhile has it |
| `OptimisticSend.LoadedText` | apps/client-desktop/src/services/messaging/runtime.ts:153-168 | a loaded list shows for an identity the last text its messages bring |
| `OptimisticSend.UpsertShows` | apps/client-desktop/src/state/messagingStore.ts:318-329 | an upsert brings its envelope and text, keeps the known text when it brings none, and leaves other identities alone |
| `MessageStore.MessagingStore.SetMessages` | apps/client-desktop/src/state/messagingStore.ts:109-115 | the list becomes the normal form of the given one; other conversations keep theirs |
| `MessageStore.MessagingStore.UpsertMessage` | apps/client-desktop/src/state/messagingStore.ts:116-137 | the list becomes the upsert of the message |
| `MessageStore.MessagingStore.UpdateMessageLifecycle` | apps/client-desktop/src/state/messagingStore.ts:138-159 | the first entry of the client reference takes the patch and a new time; nothing changes without one |
| `MessageStore.MessagingStore.RemoveMessageByClientReference` | apps/client-desktop/src/state/messagingStore.ts:160-166 | the list loses the entries of the client reference |
| `MessageStore.ActionKeepsListsWellFormed` | apps/client-desktop/src/state/messagingStore.ts:109-166 | every action keeps every list well formed |
| `MessageStore.EveryListStaysWellFormed` | apps/client-desktop/src/state/messagingStore.ts:109-166 | after any run of actions every list is sorted by sequence, time and id and holds each identity once |
| `MessageStore.RemoveKeepsWellFormed` | apps/client-desktop/src/state/messagingStore.ts:160-166 | removing keeps the order and removes exactly the entries of the reference |
| `MessageStore.ReferenceNamesOneEntry` | apps/client-desktop/src/state/messagingStore.ts:314-316 | a client reference names at most one entry of a well-formed list |
| `MessageOrder.EveryListAscends` | apps/client-desktop/src/state/messagingStore.ts:250-268 | after any run of actions and for any two places of a list, the earlier entry has the lower sequence, or the same and the earlier time, or both the same and an id that is not greater; no identity is repeated |
| `MessageOrder.TextLessIsEarlier` | apps/client-desktop/src/state/messagingStore.ts:255-267 | a text comes before another if and only if at the first place where they differ it has the smaller character, or has ended |
| `MessageOrder.CompareIsAscending` | apps/client-desktop/src/state/messagingStore.ts:250-268 | the comparator is at most 0 if and only if the left message is not after the right one on sequence, time and id |
| `MessageOrder.MergedFields` | apps/client-desktop/src/state/messagingStore.ts:318-329 | the merge of a run of messages is the last one, with the texts, errors and flags it lacks taken from the latest that had them |
| `MessageOrder.EntryFields` | apps/client-desktop/src/state/messagingStore.ts:237-248 | every entry of a normal form is that merge of the messages of its identity |
| `MessageOrder.MergingKeepsWhatIsKnown` | apps/client-desktop/src/state/messagingStore.ts:318-329 | merging two messages loses no text, error, flag or lifecycle that one of them has |
| `MessageOrder.WhoSharesAnIdentity` | apps/client-desktop/src/state/messagingStore.ts:300-307 | two messages share an entry if and only if they have one client reference, or neither has one and the ids are equal, when no device id has a colon |
| `MessageOrder.WhatAnActionWrites` | apps/client-desktop/src/state/messagingStore.ts:109-166 | an action rewrites the list of its conversation from what is there; an update opens no list, a removal leaves exactly the entries without the reference |
| `MessageOrder.UpdateReachesItsEntry` | apps/client-desktop/src/state/messagingStore.ts:138-159 | a lifecycle update sets lifecycle, failure and time of the entry of its reference, and no other entry changes |
| `TrustSafety.EveryOpKeepsSafe` | apps/relay-server/internal/migrations/sql/001_identity_auth_device.sql:53-64 | each of the seventeen operations, by any caller, keeps the invariant: rows agree on owners, no trusted device has a waiting request, active sessions sit on trusted devices, every account has a trusted device |
| `TrustSafety.RejectKeepsSafe` | apps/relay-server/internal/service/devices/service.go:92-128 | rejecting, which looks at no device status, keeps it because a waiting request is never of a trusted device |
| `TrustSafety.RevokingKeepsSafe` | apps/relay-server/internal/service/devices/service.go:150-161 | revoking keeps it because another trusted device is left |
| `TrustSafety.CompleteRecoveryKeepsSafe` | apps/relay-server/internal/service/recovery/service.go:132-147 | completing a recovery keeps it because it resolves the device's request |
| `TrustSafety.EveryRunIsSafe` | apps/relay-server/internal/migrations/sql/001_identity_auth_device.sql:53-64 | the invariant holds after every run |
| `TrustSafety.NoLockout` | apps/relay-server/internal/service/devices/service.go:92-166 | in every reachable state each registered account has a trusted device |
| `TrustSafety.SessionsAgreeWithTrust` | apps/relay-server/internal/service/auth/service.go:460-538 | in every reachable state an active session's device is trusted and of its account; so a refresh signs in on a trusted device only, and authentication never refuses an active session for its device |
| `TrustSafety.SessionsOnlyEnd` | apps/relay-server/internal/repository/postgres/sessions.go:184-239 | no operation activates a session again or moves it to another account or device |
| `TrustSafety.RevokedIsTerminal` | apps/relay-server/internal/repository/postgres/sessions.go:203-239 | a session that is not active stays so over every run |
| `TrustSafety.WhatGrantsTrust` | apps/relay-server/internal/repository/postgres/devices.go:284-297 | a device that is not trusted becomes trusted if and only if a request of it was approved while it was pending, or a recovery flow for it was completed |
| `TrustSafety.OnlyRecoveryRestoresTrust` | apps/relay-server/internal/service/recovery/service.go:132-139 | a revoked or blocked device becomes trusted again if and only if a recovery flow for it is completed |
| `TrustTwoFactor.WhatChangesARestart` | apps/relay-server/internal/service/auth/service.go:594-659 | an operation puts an account into the restarted state if and only if it starts the setup of an account that demands the second factor, and takes it out if and only if it confirms with the right code |
| `TrustTwoFactor.RestartLasts` | apps/relay-server/internal/service/auth/service.go:594-659 | the state lasts through a whole run if and only if nothing in the run confirms with the right code |
| `TrustTwoFactor.OnlyARestartRefusesTheRightCode` | apps/relay-server/internal/service/auth/service.go:717-744 | in every reachable state the right code is refused by the step-up, by an open two-factor login and by an open recovery flow if and only if the setup was restarted |
| `TrustTwoFactor.RestartedSetupRefusesEveryCode` | apps/relay-server/internal/service/auth/service.go:717-744 | and then every other code is refused as well, and nothing changes |
| `TrustRestore.WhenTrustCanBeRestored` | apps/relay-server/internal/service/recovery/service.go:98-149 | in every reachable state some operation of an instant trusts a revoked or blocked device if and only if a recovery flow for it is open, its account has an unused code, and its two-factor setup was not restarted |
| `TrustWitnesses.RejectedDeviceIsRestored` | apps/relay-server/internal/service/recovery/service.go:132-139 | a run of five calls after which a rejected device is trusted |
| `TrustWitnesses.ConfirmingFailsAfterRecovery` | apps/relay-server/internal/service/auth/service.go:622-659 | a run after which confirming two-factor sign-in turns it on, fails and hands out no codes |
| `TrustWitnesses.RestartIsReached` | apps/relay-server/internal/service/auth/service.go:594-620 | a run that restarts the two-factor setup |
| `TrustSignIn.WhatOpensASession` | apps/relay-server/internal/service/auth/service.go:746-779 | a session is opened only by registering, by the right password on a trusted device of an account without a second factor, or by an open, unexpired challenge with the right code; it is active and on a trusted device of its account |
| `TrustSignIn.ChallengeSignsInOnce` | apps/relay-server/internal/service/auth/service.go:394-458 | once a challenge has signed in, every later presentation of it is refused and changes nothing, whatever happens between |
| `TrustSignIn.RequestsAreDecidedOnce` | apps/relay-server/internal/service/devices/service.go:49-128 | after an approval or rejection every further decision on the request is refused and changes nothing, whatever operations of whomever come between |
| `TrustSignIn.WhatReopensARequest` | apps/relay-server/internal/repository/postgres/devices.go:145-188 | a request that is not waiting waits again if and only if a login asks for the approval it belongs to, and then it had expired and its device is pending |
| `TrustSignIn.DecisionsAreTheAccountsOwn` | apps/relay-server/internal/service/devices/service.go:49-128 | with a principal that an access token gave at that time or earlier, a decision is made only from a trusted device of the request's own account and with the step-up it demands |
| `TrustStepUp.WhateverSucceedsHadTheCode` | apps/relay-server/internal/service/auth/service.go:717-744 | on an account that demands the second factor, an approval, rejection, revocation, key rotation, recovery completion or disabling that succeeds or changes anything was called with the right code and an enabled secret |
| `TrustStepUp.OnlyTheRightCodePasses` | apps/relay-server/internal/service/auth/service.go:739-741 | with any other code, or without an enabled secret, each of them is refused and the tables stay as they were |
| `TrustStepUp.WhyACodeIsRefused` | apps/relay-server/internal/service/auth/service.go:717-744 | a wrong code for an enabled secret is unauthorized; a missing code or a secret that is not enabled asks for the second factor |
| `TrustStepUp.WhatDisablingDoes` | apps/relay-server/internal/service/auth/service.go:661-683 | disabling with the right code leaves an account that asks for no code and has no enabled secret, and nothing else changes |
| `TrustAccess.WhichAccessTokensAuthenticate` | apps/relay-server/internal/service/auth/service.go:685-715 | in every reachable state an access token authenticates if and only if it is the latest issued to an active session and its lifetime since that issue is not over, as that session's account and device; presented later it is refused and ends exactly that session |
| `TrustAccess.WhichRefreshTokensSignIn` | apps/relay-server/internal/service/auth/service.go:460-538 | in every reachable state a refresh token signs in if and only if it is the latest issued to an active session and its lifetime since that issue is not over |
| `TrustAccess.EveryRunIsKept` | apps/relay-server/internal/service/auth/service.go:746-779 | after every run each session holds its latest access token and the two lifetimes counted from its latest issue, and no access token was issued twice |
| `TrustAccess.WhatLoggingOutEnds` | apps/relay-server/internal/service/auth/service.go:540-562 | a logout ends exactly the session it names, or the one whose latest refresh token it presents; with neither nothing changes |
| `TrustAccess.WhatLoggingOutEverywhereEnds` | apps/relay-server/internal/service/auth/service.go:564-569 | logging out everywhere leaves the account no active session and the others theirs |
| `TrustCalls.NamesAreUnique` | apps/relay-server/internal/migrations/sql/001_identity_auth_device.sql:8 | in every reachable state no two accounts share an e-mail address and no two devices an id |
| `TrustCalls.WhoCannotRegister` | apps/relay-server/internal/service/auth/service.go:99-217 | a taken address, an invalid input or a fingerprint that does not match is refused with its error and changes nothing |
| `TrustCalls.WhoCanRegister` | apps/relay-server/internal/service/auth/service.go:99-217 | in every reachable state any other registration signs in, and its device has the id it presents or, when that is taken or missing, a generated one; a generated id that is taken is the only error |
| `TrustCalls.WhatRegisteringAdds` | apps/relay-server/internal/service/auth/service.go:99-217 | a registration adds one account without second factor, its trusted device and ten different unused codes |
| `TrustCalls.WhoCannotLogIn` | apps/relay-server/internal/service/auth/service.go:219-392 | an invalid input, an implausible device, and an unknown address and a wrong password alike are refused with their errors, and nothing changes |
| `TrustCalls.HowAKnownDeviceLogsIn` | apps/relay-server/internal/service/auth/service.go:219-392 | a known device is signed in when trusted, or challenged where the second factor is demanded; asks for approval when pending; and is refused otherwise |
| `TrustCalls.HowANewDeviceLogsIn` | apps/relay-server/internal/service/auth/service.go:219-392 | a device with a new key is added as pending and asks for approval, unless some device has its id already |
| `TrustCalls.HowAChallengeIsAnswered` | apps/relay-server/internal/service/auth/service.go:394-458 | the challenge of a login signs in if and only if its token and the right code are presented within its lifetime and the secret is enabled |
| `TrustCalls.HowARequestIsPolled` | apps/relay-server/internal/service/devices/service.go:223-245 | the request of a login answers to its token only: waiting for one day, expired after it |
| `TrustCalls.WhatADecisionDoes` | apps/relay-server/internal/service/devices/service.go:49-128 | a decision changes one request and its device, trusted or blocked, and polling reports it |
| `TrustCalls.WhenADecisionSucceeds` | apps/relay-server/internal/service/devices/service.go:49-128 | a decision succeeds if and only if the step-up passes, the deciding device is trusted, the request is the account's and waits, and for an approval its device is pending; otherwise nothing changes |
| `TrustCalls.EveryRunNamesApprovers` | apps/relay-server/internal/service/devices/service.go:49-128 | in every reachable state a request that names an approver is approved, so one that waits again names nobody |
| `TrustCalls.WhenRevokingSucceeds` | apps/relay-server/internal/service/devices/service.go:130-166 | a device is revoked if and only if it is the account's, the step-up passes, and it is pending, or trusted with another trusted one beside it; then exactly its sessions end |
| `TrustCalls.WhenRotatingSucceeds` | apps/relay-server/internal/service/devices/service.go:168-221 | a key is rotated if and only if the device is trusted and the principal's, the step-up passes and the new key is plausible; the device then has that key, and a higher version exactly when it changed |
| `TrustCalls.RotationTakesTheNextVersion` | apps/relay-server/internal/service/devices/service.go:168-221 | a changed key takes exactly the next version |
| `TrustCalls.WhenARecoveryStarts` | apps/relay-server/internal/service/recovery/service.go:47-96 | a flow is opened if and only if it is asked for a waiting request of the account whose device is pending |
| `TrustCalls.HowARecoveryCompletes` | apps/relay-server/internal/service/recovery/service.go:98-149 | the flow completes if and only if its token, an unused code and the step-up are given within fifteen minutes; then its device is trusted and its request approved |
| `TrustTokens.TokenEffect` | apps/relay-server/internal/repository/postgres/sessions.go:184-201 | how each operation touches the token columns: a refresh shifts the current hash to previous, a sign-in adds a row, nothing else touches them |
| `TrustTokens.EveryRunIsTracked` | apps/relay-server/internal/repository/postgres/sessions.go:184-201 | after every run a session's columns hold the last two of the tokens issued to it, and no token was issued twice |
| `TrustTokens.AcceptedAtMostOnce` | apps/relay-server/internal/service/auth/service.go:465-511 | in every run each refresh token is accepted at most once, and an accepted one is never current again |
| `TrustTokens.RefreshTrichotomy` | apps/relay-server/internal/service/auth/service.go:465-511 | every refresh token issued is current, previous or forgotten for its session; a current one signs in if and only if the session is active and unexpired and otherwise ends exactly that session, a previous one is refused and ends exactly the sessions of the account, a forgotten one is refused and changes nothing |
| `TrustTokens.WhereATokenIs` | apps/relay-server/internal/repository/postgres/sessions.go:122-182 | an issued token is found in exactly the column its age says, of its own session only |
| `TrustTokens.UnknownTokenChangesNothing` | apps/relay-server/internal/service/auth/service.go:465-486 | a token never issued is refused and changes nothing |
| `TrustRecovery.EveryOpKeepsOrderly` | apps/relay-server/internal/repository/postgres/recovery_twofa.go:182-288 | each operation keeps: used codes and completed flows correspond one to one, within the account |
| `TrustRecovery.CompletionsStayOnRecord` | apps/relay-server/internal/repository/postgres/recovery_twofa.go:277-288 | the log of completions of a run agrees with the tables it ends in |
| `TrustRecovery.RecoveryIsOneTime` | apps/relay-server/internal/service/recovery/service.go:98-149 | in every run each flow completes at most once and each code is consumed at most once; a code is marked used if and only if a completed flow used it, and no two flows used the same one |
| `TrustRecovery.ConfirmingAfterARecovery` | apps/relay-server/internal/service/auth/service.go:622-659 | in every reachable state confirming turns two-factor sign-in on, and hands out new codes if and only if no recovery flow of the account was ever completed |
| `TrustRecovery.CompletedFlowHoldsItsCodes` | apps/relay-server/internal/migrations/sql/001_identity_auth_device.sql:124 | the codes of an account with a completed flow cannot be deleted |
| `TrustRefusals.WhenAChallengeSignsIn` | apps/relay-server/internal/service/auth/service.go:394-458 | a challenge signs in if and only if it is open, unexpired and presented with its token and the right code for an enabled secret on a device that is trusted still; a device that is not has its own error, anything else is unauthorized |
| `TrustRefusals.OnlyATrustedDeviceAuthenticates` | apps/relay-server/internal/service/auth/service.go:685-715 | on any tables, a live access token of one session authenticates if and only if the device of that session is trusted; a device that is not has its own error |
| `TrustRefusals.WhyADecisionIsRefused` | apps/relay-server/internal/service/devices/service.go:49-128 | with the step-up passed, the exact condition of each error of an approval and of a rejection |
| `TrustRefusals.WhyARevocationIsRefused` | apps/relay-server/internal/service/devices/service.go:130-166 | with the step-up passed, the exact condition of each error of a revocation; the last trusted device is refused if and only if no other is trusted |
| `TrustRefusals.WhyARotationIsRefused` | apps/relay-server/internal/service/devices/service.go:168-221 | with the step-up passed, the exact condition of each error of a key rotation |
| `TrustRefusals.WhyARecoveryIsNotStarted` | apps/relay-server/internal/service/recovery/service.go:47-96 | the exact condition of each error of opening a flow |
| `TrustRefusals.WhyARecoveryIsNotCompleted` | apps/relay-server/internal/service/recovery/service.go:98-149 | the exact condition of each error of completing a flow; a bad token and a bad code have the same one, and the token is looked at before the step-up |
| `RateLimiter.IPRateLimiter.Allow` | apps/relay-server/internal/transport/middleware/middleware.go:203-230 | refines one admission with collection |
| `RateLimiter.IPRateLimiter.Gc` | apps/relay-server/internal/transport/middleware/middleware.go:232-238 | deleting while iterating drops exactly the expired entries |
| `RateLimiter.CollectionIsInvisible` | apps/relay-server/internal/transport/middleware/middleware.go:232-238 | for every limit, window and clock that does not go back, the limiter with collection answers every run as the one without |
| `RateLimiter.AdmittedWithinBudget` | apps/relay-server/internal/transport/middleware/middleware.go:203-230 | from any entries, no run admits more in an interval than the budget the entries leave |
| `RateLimiter.AtMostTwiceTheLimit` | apps/relay-server/internal/transport/middleware/middleware.go:203-230 | any closed interval as long as the window admits at most 2 * limit - 1 requests of a key |
| `RateLimiter.BoundIsReached` | apps/relay-server/internal/transport/middleware/middleware.go:203-230 | for every limit and window a run reaches that bound |
| `RateLimiter.OpeningAWindowCollects` | apps/relay-server/internal/transport/middleware/middleware.go:203-238 | opening a window drops exactly the entries that have expired |
| `RateLimiter.DisabledLimiterAdmitsAll` | apps/relay-server/internal/transport/middleware/middleware.go:203-206 | without a positive limit and window every request of every run is admitted |
| `KeyRing.DeviceIdentityStore.LoadAllDeviceKeyMaterials` | apps/client-desktop/src/services/identity.ts:76-97 | the decryption candidates are the current pair followed by the well-formed stored ones |
| `KeyRing.DeviceIdentityStore.CommitDeviceIdentityRotation` | apps/client-desktop/src/services/identity.ts:122-141 | refines one rotation, including that a refusal for the device id comes after the list was stored |
| `KeyRing.DedupeLegacy` | apps/client-desktop/src/services/identity.ts:173-185 | the loop with a set keeps the first pair of each identity |
| `KeyRing.DedupeKeepsEachOnce` | apps/client-desktop/src/services/identity.ts:173-185 | the result holds each identity once and exactly the identities given |
| `KeyRing.NewestOccurrencePosition` | apps/client-desktop/src/services/identity.ts:173-185 | a first occurrence ends up behind as many pairs as distinct identities came before it |
| `KeyRing.TruncatingEachStepLosesNothing` | apps/client-desktop/src/services/identity.ts:128-132 | cutting the stored list to five before adding a key gives the same five as cutting the whole history |
| `KeyRing.LegacyIsTheRecentWindow` | apps/client-desktop/src/services/identity.ts:122-141 | after any run of successful rotations, keys repeating or not, the stored list is the five most recently retired distinct pairs, newest first, and decryption tries the current pair and then that list |
| `KeyRing.WindowMembership` | apps/client-desktop/src/services/identity.ts:128-132 | a retired pair is in the window if and only if fewer than five distinct ones were retired after it, and then at the position of that number |
| `KeyRing.ParsingUndoesSerializing` | apps/client-desktop/src/services/identity.ts:159-171 | reading back a stored list gives the list |
| `KeyRing.RefusedRotationKeepsEveryKey` | apps/client-desktop/src/services/identity.ts:122-136 | a rotation refused for its device id keeps every decryption key if and only if the list had room or held the current pair already |
| `KeyRing.RefusedRotationDropsTheOldest` | apps/client-desktop/src/services/identity.ts:122-136 | after any five rotations to new keys, a refused sixth loses the oldest retired key |
| `KeyRing.IdentityTellsPairsApart` | apps/client-desktop/src/services/identity.ts:176-177 | pairs whose public part has no colon share an identity only when equal |
| `KeyRing.WhenARotationSucceeds` | apps/client-desktop/src/services/identity.ts:122-141 | a rotation succeeds if and only if the identity has a device id and both halves of its key, and the candidate is for that id; it then stores key and name, and otherwise leaves them |
| `KeyRing.ParsedAreComplete` | apps/client-desktop/src/services/identity.ts:144-171 | a pair is read back if and only if the stored list holds it with both halves; text that is no list counts as an empty one |
| `Reconnect.ReconnectScheduler.ApplyTransportConfig` | apps/client-desktop/src/services/messaging/runtime.ts:333-356 | sets the bounds, starts again at the minimum and stores the distinct endpoints |
| `Reconnect.ReconnectScheduler.ScheduleReconnect` | apps/client-desktop/src/services/messaging/runtime.ts:415-435 | no timer without endpoints; otherwise a delay in [base, base + max(10, base / 4)), a doubled backoff up to the maximum and the next endpoint |
| `Reconnect.DedupeEndpoints` | apps/client-desktop/src/services/messaging/runtime.ts:869-881 | the loop with a set keeps the first of each trimmed endpoint that is not blank |
| `Reconnect.EndpointsAreDistinct` | apps/client-desktop/src/services/messaging/runtime.ts:869-881 | the list holds no endpoint twice and exactly the trimmed ones that are not blank |
| `Reconnect.BackoffDoublesUpToTheMaximum` | apps/client-desktop/src/services/messaging/runtime.ts:428 | after k schedules since the last connect the backoff is min(min * 2^k, max) |
| `Reconnect.EveryEndpointOncePerRound` | apps/client-desktop/src/services/messaging/runtime.ts:429 | any n consecutive schedules over n endpoints select each exactly once, wherever the index stood |
| `Reconnect.JitterIsBelowTheSpread` | apps/client-desktop/src/services/messaging/runtime.ts:424-426 | the random part is at least 0 and below the spread |
| `Reconnect.TrimRemovesTheEnds` | apps/client-desktop/src/services/messaging/runtime.ts:869-881 | trimming takes white space off both ends, nothing else, and leaves none there |

## Refinements

These methods are written as the code is, one check and one row update after the
other, and each is proved equal to the function of the tables that the theorems
above are about.

- `TrustServices.Services`: `RegisterAccount`, `LoginAccount`, `VerifyTwoFactorLogin`, `RefreshSession`, `LogoutSession`, `LogoutEverywhere`, `AuthenticateAccessToken`, `StartTwoFactorSetup`, `ConfirmTwoFactorSetup`, `DisableTwoFactorCheck`, `RequireStepUp` (apps/relay-server/internal/service/auth/service.go:99-744).
- `TrustServices.Services`: `ApproveDevice`, `RejectDevice`, `RevokeDevice`, `RotateCurrentDeviceKey`, `ApprovalStatusOf` (apps/relay-server/internal/service/devices/service.go:49-245).
- `TrustServices.Services`: `StartRecoveryFlow`, `CompleteRecoveryFlow` (apps/relay-server/internal/service/recovery/service.go:47-149), with `ReplaceRecoveryCodes`, `ConsumeRecoveryCode` and `CreateApprovalRequest` for the repository calls.
- `RelayServer.Service`: `InsertMessageWithRecipients`, `MarkMessageDelivered`, `UpsertDeviceSyncCursor`, `GetOrCreateCursor` (apps/relay-server/internal/repository/postgres/messages.go:84-403, sync.go:13-58).
- `ClientDatabase.Database`: `EnqueueOutbox`, `DeleteOutbox`, `IncrementOutboxRetry`, `ReadSyncCursor`, `WriteSyncCursor` (apps/client-desktop/src-tauri/src/main.rs:452-580).
- `Reconnect.ReconnectScheduler.Connected` (apps/client-desktop/src/services/messaging/runtime.ts:378-379).

## Left out

- Encryption, hashing, passwords, one-time codes, base64 and field validation: library calls; they enter as flags (`contentValid`, `keyValid`, `valid`, `passwordMatches`, `codeRight`) or opaque values.
- SQL errors, partial transaction failures and the connection pool: each repository call has its error-free atomic outcome. The one exception is the foreign key of used recovery codes, which always fails.
- Races between concurrent service calls, and BIGSERIAL values that commit out of order or leave gaps: every call is one step, and sequences are given out one by one.
- RelayServer.Service.SyncPoll: takes the instants of its queries as given and no other call between them; queries of the loop after other calls are further steps of the transition system, at or below the stored cursor.
- RelayServer.Service.SyncFromCursor: does not model a delivered mark that fails to be written, which the code logs and skips; the cursor id is not modelled.
- RelayServer.Service.SendMessage: does not model attachments, replies and the security event; the answer carries the stored message without receipts.
- RelayGaps.NoGapFromTheStart: says what the relay returned; what reached the client is `RelayReceipt.ReceiptFromTheStart`.
- RelayReceipt.ReceiptFromTheStart: a batch counts as received when its cursor is written; messages saved from a batch whose application failed half-way, and messages seen in history pages, are not counted.
- RelayProtocol.SendsAreExactlyOnce: takes client message ids as new for their device, since they are drawn at random.
- ClientDatabase.Database.FlushPass: takes the listing as given, in any order, and the answers as a map from message to answer.
- Coalescing.SyncRequester.RequestSync: does not model non-finite hints or the endpoint argument, and takes a finished round as given; what a round does is a query and a batch of the transition system.
- Recipients.ClientAndServerAgree: device ids are taken as free of surrounding white space, and each as owned by one account, as the relay issues them.
- MessageList.IncrementalEqualsOneShot: asks for messages that carry their update time, since the code fills in the current time otherwise and the two results would differ in it alone.
- MessageAgreement.SharedIdsExist: gives pairs of equally long sender ids only; it is there to show that such pairs exist.
- MessageList.Merge: an `expired` member that is present with no value counts as absent.
- RateLimiter.IPRateLimiter.Allow: does not model a missing limiter, the mutex and the extraction of the key from the request.
- KeyRing.DeviceIdentityStore.CommitDeviceIdentityRotation: does not model secure storage that fails between two writes.
- Reconnect.ReconnectScheduler.ApplyTransportConfig: takes the websocket endpoints as filtered already, and does not model the long-poll endpoints.
- Reconnect.ReconnectScheduler.ScheduleReconnect: does not model the stopped client or the replaced timer.
- TrustSignIn.DecisionsAreTheAccountsOwn: the calls themselves take any principal, so every other result about them holds for callers that never signed in.
- TrustServices.Services.LoginAccount: which of several devices with one fingerprint the query returns is a parameter.
- TrustServices.Services.StartRecoveryFlow: the lookup of a flow by its id is modelled as meant; as written, the query (`recovery_twofa.go:250-256`) passes no argument for its placeholder.
- TrustServices.Services.ReplaceRecoveryCodes: a code's id and its secret share one number.
- Updates of "last seen" columns, user agents, addresses and security events: no effect on what is modelled.
- Receipts, attachments, conversations' own administration, HTTP handlers, user interface, plugins and deployment: outside the protocols proved here.
