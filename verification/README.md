# Verification of the offline-first sync core

A Dafny model of how the app keeps anime edits and season ratings in a durable outbox, reconciles them with the desktop
bridge, merges the bridge's changes back, and shows unsaved gestures on the way. Two runtimes share the outbox: the
JavaScript one, modelled here statement by statement, and the native one, assumed to take the same transactions under its
own claims (a native settlement that also stages remote changes reads as a `SettleReconcile` with no changes followed by a
`StageThenAdvance`). `dafny verify dfyconfig.toml` checks the whole project.

## How the model is built

- **State.** `Protocol.Db` is the local database: `operation_log` (`OutboxTable`), `animes` (`AnimeTable`), the staging
  table, the pairing with its changelog cursor, and the time of the last transaction. Clocks do not run back.
- **Steps.** Every write transaction either runtime makes is one `Protocol.Step`; a run is any finite sequence of them.
  The safety results (`OutboxSafety`, `OutboxHistory`, `CursorSafety`, `MergeOutcome`, `Redelivery`) are about all runs.
- **Code.** `LocalStore.Store` holds the same tables as fields and performs the statements of each transaction; every
  method is proved to be one step of the protocol. `ReconcileCycle` is the cycle above it: claim, rounds, isolation of a
  rejected batch, ratings, fetch-first, chain and release. The bridge may answer anything at all (no answer, any status, a
  body that does not parse, any parsed answer), and at every wait the other runtime and the screens take any of their own
  steps. `Store.others` is their future, so "nobody else acted" is the statement that it did not get shorter.
- **Transcript.** What a cycle did is a sequence of messages (`Transcript.Message`): a request, a rating or a release, with
  the moments of the run before and after its own transaction. `IsConcluded` says, field by field and without the functions
  the code is built from, what each does to the database; `Tells` that the messages are all this runtime did between two
  moments. `TranscriptFacts` and `CycleTranscript` hold the proofs.
- **Unsent edits.** `PassSafety` says what a merge pass and a heal owe an anime with an edit still to be sent.
- **Overlay.** `Projection` is the optimistic overlay, `Gestures` the five patch builders, `WriteDoor` the queue of write
  transactions. `ChapterSession` is one anime's run of presses, commits, failures, expired deadlines and reads, and
  `ChapterDoor` drives it from the door, among everybody else's writes.
- **Dispatch.** `SyncFlush` is the single-flight dispatcher, `ConnectionStore` the attempt generations.
- **Covers.** `CoverNames`, `CoverSweep` and `CoverStore` are the cover pipeline, cut off after any file operation;
  `Lanes` is the bounded concurrency under it.

Hypotheses that a theorem needs are in its `requires`: the bridge carries every entry between the sent and the answered
cursor (losslessness), each anime's changes are delivered in time (deferral), etags and fallbacks hold no dash (cover names),
nobody else acts (the backlog report).

## Where the code does less than its documentation says

The model follows the code. In each case a lemma gives a failing input, and another says exactly when the promise holds.

- A claim holder should send the oldest row of a key (requirement R-14 of `docs/adr/009-convergent-sync.md`), but an edit
  is dated before it waits for the write door, so it can be queued ahead of a row already being sent:
  `AnEditDatedBeforeTheDoorJumpsTheQueue`, `HeldRowsStayOldest`.
- Applying the same change twice is called a no-op (`src/features/sync/merge/merge-decision.helpers.ts:9-10`,
  `src/features/sync/remote-change-drain.helpers.ts:94-108`); a redelivered delete is not:
  `RedeliveredDeleteDropsTheRow`, `RedeliveryIsANoOpExactlyWhen`.
- The card should never show what the write would not store (`src/features/animes/use-mutate-anime.ts:58-60`). Three
  things break it: a read that catches the row at the pair its pending writes lead back to
  (`ACancelledPairBreaksAPromise`), a deadline that expires on a write that is still made
  (`AnExpiredDeadlineBreaksAPromise`), and a write that fails ahead of another (`AFailedWriteBreaksThePromiseBehindIt`).
  Exactly when: `WritesStoreWhatWasShownExactlyWhen`, and for reads alone `NextPromiseIsKeptWheneverItComesExactlyWhen`.
- Manifest writes are called atomic (`src/infrastructure/cover-files/cover-files.helpers.ts:144-147`), but a second crash,
  after a first one left the manifest only in the temp file, loses it: `TwoCrashesLoseTheManifest`,
  `WritesAreAtomicExactlyWhen`.
- Rejections are matched on `anime:operation` text, so a colon can mix two animes up: `ColonsMixKeysUp`,
  `KeyIsExactlyWhen`, `EntryIsMisreadExactlyWhen`.
- A half step held at the total is not undone by a half step back: `AHeldHalfStepIsNotUndone`,
  `StepBackUndoesStepForward`.
- `hasMorePending` is false when every key is claimed by somebody else, since the backlog is then not counted:
  `ReportOverAHeldKey`; the contract of `SyncPendingOperations` says exactly when the report is honest.
- `online` stands over a request that begins no attempt: `OnlineOverAnUnregisteredRequest`, `OnlineOverAThrownRequest` and,
  with two databases, `OnlineOverAJoinedRequest`; the contract of `RequestFlush` says that these are all the cases, and
  `OnlineIsHonest` that over its own database only the first two remain.

## Model

| member | source | states |
|---|---|---|
| OutboxSafety.ClaimsStayExclusive | src/features/sync/outbox-claim.helpers.ts:25-187 | in every state any run of both runtimes reaches (claims, expiry, takeover, chaining, late settlements, keep-local, keep-bridge), at most one row of an anime is under a live claim, and only a `processing` row carries a claim |
| OutboxSafety.NextKeepsExclusive | src/features/sync/outbox-claim.helpers.ts:38-82 | whoever takes it, no single transaction breaks claim exclusivity |
| OutboxSafety.ConfirmedKeyIsFree | src/features/sync/outbox-claim.helpers.ts:128-187 | while the 20 s chain budget lasts, no live claim is left on the key of a row just confirmed: the claim that confirmed it was the live one (the budget is under the 60 s TTL) |
| OutboxSafety.ChainClaimsOldest | src/features/sync/outbox-claim.helpers.ts:136-187 | a chain claims only rows that are the oldest of their anime, and only of keys nobody holds |
| OutboxSafety.BatchClaimsOldest | src/features/sync/outbox-claim.helpers.ts:41-82 | a batch claims only rows that are the oldest of their anime, and only of keys nobody holds |
| OutboxTable.InQueueOrder | src/features/sync/operation-log-retention.helpers.ts:32-56 | the queue order lists each row of a set exactly once, by `created_at` then id |
| OutboxTable.Backlog | src/features/sync/operation-log-retention.helpers.ts:32-56 | a batch is a prefix of the first rows of unclaimed keys: distinct rows, as many as the limit lets through |
| OutboxSafety.NothingClaimableExactlyWhen | src/features/sync/operation-log-retention.helpers.ts:32-56 | a batch comes back empty if and only if every queued row belongs to a key somebody has claimed |
| OutboxSafety.HeldRowsStayOldest | src/features/sync/outbox-claim.helpers.ts:136-187 | over a run, every row under a live claim is the oldest queued row of its anime (edits and ratings together) in every state, if and only if no row is queued with an earlier time than a row of its anime held at that moment |
| OutboxSafety.NextKeepsOrder | src/features/sync/operation-log-retention.helpers.ts:32-56 | one transaction keeps queue order if and only if it does not queue a row dated before a live holder of the same anime |
| OutboxSafety.DatedInsideTheDoorKeepsOrder | src/features/sync/season-rating-intent.helpers.ts:26-34 | a row dated inside its own transaction, as a rating is, never breaks queue order |
| OutboxSafety.AnEditDatedBeforeTheDoorJumpsTheQueue | src/features/animes/anime-mutation.helpers.ts:259-287 | a concrete run in which an edit, dated before it waits for the write door, is queued ahead of a row already being sent |
| OutboxHistory.StepConserves | src/features/sync/outbox-claim.helpers.ts:111-126 | no transaction rewrites what a row says or touches a synced row; a row becomes synced exactly by being confirmed; and only a later row of its key (or the user) removes one |
| OutboxHistory.IntentsAreConserved | src/features/sync/unresolved-supersede.helpers.ts:25-100 | with no unpairing and no chosen keep-bridge, a queued intent is there for ever, unchanged, or a later row of the same key was confirmed and stays synced |
| OutboxHistory.SyncedRowsAreFinal | src/features/sync/outbox-claim.helpers.ts:111-126 | a synced row is never written again, not even by a holder that settles after its claim expired |
| OutboxHistory.EachRowIsConfirmedOnce | src/features/sync/reconcile-round.helpers.ts:378-425 | the confirmations both runtimes count add up to exactly the rows that became synced |
| OutboxHistory.ConflictsAreBounded | src/features/sync/reconcile-conflict.helpers.ts:56-82 | a row sees at most 3(k+1) conflict answers, k being its answers with a new token plus its keep-local resets, and strictly fewer while it is still queued |
| OutboxHistory.NextKeepsBelowCap | src/features/sync/reconcile-conflict.helpers.ts:56-82 | a queued row has always spent fewer attempts than the cap of 3 |
| ReconcileAnswer.EachEditEndsAsAnswered | src/features/sync/reconcile-conflict.helpers.ts:126-191 | each held edit of a round ends in exactly one of four states, decided by the evidence and the rejection the answer holds for it, released in each; an edit the claim lost is not written |
| ReconcileAnswer.GetConfirmedOperationIds | src/features/sync/reconcile-confirmation.helpers.ts:9-31 | the confirmed ids are exactly those of the edits with evidence: an applied entry, or a pulled change showing every field sent |
| ReconcileAnswer.ClassifyRejectedOperation | src/features/sync/reconcile-conflict.helpers.ts:56-82 | a conflict is exhausted exactly when its token is the stored one and the count reaches the cap; a new token resets the count |
| ReconcileAnswer.ClassifyUnconfirmedOperations | src/features/sync/reconcile-conflict.helpers.ts:126-191 | every unconfirmed edit lands in exactly one bucket, the one its rejection calls for |
| ReconcileAnswer.FatesOfAt | src/features/sync/reconcile-round.helpers.ts:348-425 | a round gives exactly its own rows a fate, each the fate of its own edit |
| ReconcileAnswer.FateWritesItsRejection | src/features/sync/reconcile-round.helpers.ts:110-121 | the status and count written for a conflict are those its rejection was classified with |
| ReconcileAnswer.RejectionIsTheLastNamingIt | src/features/sync/reconcile-conflict.helpers.ts:134-150 | with plain operations, the entry that decides the fate of an unconfirmed edit is the last one that names and rejects it, and none is found only if no entry does |
| ReconcileAnswer.EntriesAnswerOneEdit | src/features/sync/reconcile-conflict.helpers.ts:134-150 | in a round with one row per anime, an entry of the answer whose operation has no colon is read as the answer to at most one edit, the one it names, whatever the ids hold |
| ReconcileAnswer.KeysMatchNames | src/features/sync/reconcile-conflict.helpers.ts:134-150 | with a colon in neither operation, rejection keys are equal if and only if anime and operation are |
| ReconcileAnswer.KeyIsExactlyWhen | src/features/sync/reconcile-conflict.helpers.ts:134-150 | a rejection key names one anime and operation only, if and only if neither holds a colon |
| ReconcileAnswer.EntryIsMisreadExactlyWhen | src/features/sync/reconcile-conflict.helpers.ts:134-150 | an entry of an answer can be read as the answer to an edit it does not name if and only if its own operation holds a colon |
| ReconcileAnswer.ColonsMixKeysUp | src/features/sync/reconcile-conflict.helpers.ts:134-150 | the concrete answer that is misread: "y:update" of anime "x" is taken as the rejection of "x:y" |
| ReconcileAnswer.FirstEntryNamesIt | src/features/sync/reconcile-confirmation.helpers.ts:33-68 | the entry that decides a confirmation is the first that names the anime and operation, and there is none only if no entry does |
| ReconcileAnswer.CollectConfirmedAnimeTokens | src/features/sync/applied-operation-token.helpers.ts:18-35 | the token kept for an anime is that of its last applied entry that carries one, and every such anime is kept |
| ReconcileAnswer.NormalizeLegacyAnimeUpdatePayloadAliases | src/features/sync/reconcile-request.helpers.ts:81-106 | the loop sends each field under its English name, the payload's own value winning over a legacy one, and no legacy name |
| ReconcileAnswer.TranslationIsIdempotent | src/features/sync/reconcile-request.helpers.ts:42-106 | no legacy name reaches the bridge, and translating a translated payload changes nothing |
| LocalStore.Store.ClaimOperationLogBatch | src/features/sync/outbox-claim.helpers.ts:25-82 | the claim transaction takes the first rows that can be taken, in queue order and up to the limit: each the first queued row of an anime with no claim younger than 60 s; they become processing under the claim, no other row is written, and they come back as stored |
| LocalStore.Store.CollectHeld | src/features/sync/outbox-claim.helpers.ts:91-109 | the rows handed back are exactly the candidates the claim holds, in their order |
| LocalStore.Store.ClaimChainSuccessors | src/features/sync/outbox-claim.helpers.ts:136-187 | claims, and returns in queue order, the next row of every key just confirmed |
| LocalStore.Store.WriteConflictOutcomes | src/features/sync/reconcile-round.helpers.ts:110-121 | each conflict re-bases its anime on the bridge's token and releases its row with the new count, under the claim's compare-and-set |
| LocalStore.Store.WriteStatuses | src/features/sync/reconcile-round.helpers.ts:122-142 | the bucket-by-bucket status writes together are one settlement: every held row takes its own fate, nothing else moves |
| LocalStore.Store.ApplyReconcileResponseWrites | src/features/sync/reconcile-round.helpers.ts:80-149 | the merge pass, the tokens, the fates and the forward-only cursor of one answer, in one transaction |
| LocalStore.Store.SettleAnswer | src/features/sync/reconcile-round.helpers.ts:368-425 | the whole transaction of an answer, statement by statement, is one protocol step; it counts what it confirmed and hands on exactly the chain it claimed |
| LocalStore.Store.ResolveSupersededOperations | src/features/sync/unresolved-supersede.helpers.ts:25-60 | deletes exactly the given-up edits the confirmed edits carry their keys past |
| LocalStore.Store.ResolveSupersededRatings | src/features/sync/unresolved-supersede.helpers.ts:69-100 | deletes exactly the given-up ratings of the same season a delivered rating carries its key past |
| LocalStore.Store.ApplyMissingTokenOutcome | src/features/sync/missing-token.helpers.ts:67-131 | a token is stored only for an anime with none and only while the claim holds a row of it, and touches no other column or anime; a failed fetch puts every row it held back in the queue as it was; after a key is given up no edit of it is left to send but what somebody else holds, whatever left the queue carries the reason, and its other ratings stay |
| LocalStore.Store.WriteTokenOutcomes | src/features/sync/missing-token.helpers.ts:140-183 | the fetch-first transaction is one protocol step, whatever order its animes come in |
| LocalStore.Store.SettleSeasonRating | src/features/sync/season-rating-round.helpers.ts:36-66 | a rating answer is one protocol step under the claim, and nothing at all when the claim lost the row |
| LocalStore.Store.ReleaseHeld | src/features/sync/reconcile-round.helpers.ts:165-198 | a release moves only rows still held, all of them, and touches nothing else |
| LocalStore.Store.KeepLocalForAnime | src/features/sync/unresolved-resolution.helpers.ts:59-97 | refused exactly while the key is claimed; otherwise exactly its given-up edits are queued again with no reason and a fresh count, and its token is cleared |
| LocalStore.Store.KeepBridgeForAnime | src/features/sync/unresolved-resolution.helpers.ts:144-166 | refused exactly while the key is claimed; otherwise exactly its unsynced edits go and the row reads as the bridge lists it, or is gone |
| LocalStore.Store.ReadRatingKeyRowIds | src/features/sync/unresolved-resolution.helpers.ts:169-188 | finds exactly the rating rows of the key, matched on the season of their payload |
| LocalStore.Store.KeepLocalForRating | src/features/sync/unresolved-resolution.helpers.ts:191-207 | refused exactly while the anime is claimed; otherwise exactly the key's given-up ratings are queued again with no reason and a fresh count |
| LocalStore.Store.KeepBridgeForRating | src/features/sync/unresolved-resolution.helpers.ts:210-216 | refused exactly while the anime is claimed; otherwise exactly the unsynced ratings of the key are dropped |
| LocalStore.Store.ApplyAnimeMutationPatch | src/features/animes/anime-mutation.helpers.ts:252-294 | the row and its outbox row are written together, from the row found inside the door, or neither when the anime is gone: every column the builder returned reads its new value, every other column, the guard, the token and every other anime are as before, and the one new outbox row is a pending, unclaimed edit with count 0, the payload and the date the edit was asked for, which is before the door |
| LocalStore.Store.EnqueueSeasonRatingIntent | src/features/sync/season-rating-intent.helpers.ts:19-38 | a rating is queued in one transaction that dates it: one new row, pending and unclaimed, and no anime is written |
| StoreFacts.BatchTakes | src/features/sync/outbox-claim.helpers.ts:41-82 | the claim statement takes exactly the first rows of the backlog in queue order and writes no other row |
| StoreFacts.KeepingLocalMeans | src/features/sync/unresolved-resolution.helpers.ts:80-97 | the rows a keep-local queues again, and the token it clears |
| StoreFacts.KeepingBridgeMeans | src/features/sync/unresolved-resolution.helpers.ts:144-150 | the rows a keep-bridge drops: every edit, or rating of the season, that is not synced |
| Protocol.UnpairingForgets | src/infrastructure/db/client/client.helpers.ts:408-415 | unpairing empties the queue, the staging table and the pairing, and leaves no anime a token or a season and every other column as it was |
| CycleRelations.ForeignStepHands | src/features/sync/outbox-claim.helpers.ts:111-126 | whatever the other runtime and the screens do, a row held under a claim afterwards was held before and says the same |
| CycleRelations.SettlementHands | src/features/sync/reconcile-round.helpers.ts:378-425 | after a settlement its holder has only what it did not answer and the successors it claimed |
| CycleRelations.SettlementShrinksQueue | src/features/sync/reconcile-round.helpers.ts:378-425 | a settlement queues nothing, and what it confirms leaves the queue |
| CycleRelations.RoundThen | src/features/sync/reconcile-round.helpers.ts:200-269 | two rounds over different animes are one round over both, and still hand on one row per anime at most |
| StoreFacts.BatchIsWon | src/features/sync/outbox-claim.helpers.ts:41-82 | the claim statement wins every row its query ranked first, one per anime |
| StoreFacts.ChainIsWon | src/features/sync/outbox-claim.helpers.ts:136-187 | the chain statement wins the next row of every key, one per anime |
| StoreFacts.AnswerBuckets | src/features/sync/reconcile-round.helpers.ts:348-377 | the buckets an answer is sorted into cover every held row, each with the fate its bucket writes |
| StoreFacts.SettlementKeeps | src/features/sync/reconcile-round.helpers.ts:378-444 | what a settlement leaves under its claim: nothing it answered, one fresh row per confirmed key at most |
| ReconcileCycle.SyncPendingOperations | src/features/sync/reconcile.helpers.ts:41-134 | for every bridge behaviour and every interleaving the cycle ends, and no row is held under its claim that was not before (none at all once its claim is newer than the last transaction). Its messages tell the whole run: a claim on the first rows that can be taken, then each request, rating and release with what it did to the rows, tokens, staged changes and cursor, and nothing else of this runtime's. The first request sends every edit of the batch still held, from the stored cursor; it succeeds only if a request was accepted and every other was accepted or rejected for its content, and fails with the failure of one that was not, so when every answer is accepted it succeeds. It counts every row it synced exactly once; with nobody else acting it reports more pending exactly when something sent is not done with or more was queued than sent, and a report of nothing more leaves the queue empty if and only if the queue was empty or some row of it was claimable |
| ReconcileCycle.RunChain | src/features/sync/reconcile.helpers.ts:101-127 | the chain of rounds ends: each round that hands a row on leaves strictly fewer rows queued, unless somebody else acted; what it said is a transcript that starts with the edits claimed, a success exactly when every round was one; after a failure everything claimed and still held is released |
| ReconcileCycle.SendSplitRound | src/features/sync/reconcile.helpers.ts:145-169 | edits go in one reconcile, then ratings one by one, each answered by its own message and nothing released unanswered in a round that succeeds; every successor claimed is known to the release; a failed reconcile leaves no new row held |
| ReconcileCycle.SendReconcileRound | src/features/sync/reconcile-round.helpers.ts:280-445 | one request for the round's rows still held, in order. If it is accepted the outcome is a success and the whole transaction follows the answer: each row still held ends synced by its evidence, or a dead letter, exhausted or pending by its last rejection, its token and the cursor follow, given-up rows passed are deleted and the next rows of confirmed keys handed on. No answer, a malformed one, a 401 or a 5xx puts every row still held back to pending with its count and reason as they were; any other 4xx makes a row sent alone a dead letter and sends several one by one. With nobody else acting every row that has a base, stored or fetched, is sent. None of the round's rows is held afterwards, nor anything else under the claim but the successors of a success |
| ReconcileCycle.AskBridge | src/features/sync/reconcile-round.helpers.ts:290-318 | what is sent is what the claim still holds and has a base for, in order, on the round's cursor; until its answer this runtime does nothing but write what it fetched |
| ReconcileCycle.FailRound | src/features/sync/reconcile-round.helpers.ts:190-198 | a failed round puts its held rows back to pending, or makes the one row it sent a dead letter |
| TranscriptFacts.RequestMeans | src/features/sync/reconcile-request.helpers.ts:15-106 | a request holds exactly one operation per row sent, in order, with its anime, operation and date, on its own base; an edit carries every value it stores, legacy names as English ones, and nothing else, and any other operation is sent as stored |
| TranscriptFacts.TranslationMeans | src/features/sync/reconcile-request.helpers.ts:81-106 | the four legacy names are sent under their English ones, whose own value wins, and every other key is sent as stored |
| TranscriptFacts.EvidenceMeans | src/features/sync/reconcile-confirmation.helpers.ts:9-68 | an edit is confirmed if and only if the first entry that names it was applied or, with none, a pulled change of its anime shows every field it sent |
| TranscriptFacts.FateMeans | src/features/sync/reconcile-conflict.helpers.ts:56-191 | where an answer takes a row: synced by evidence; a dead letter if unsupported; pending with a fresh count on a new token; one more attempt on the same token, exhausted at the third; pending as it was otherwise |
| TranscriptFacts.OthersMean | src/features/sync/reconcile-round.helpers.ts:412-425 | of the rows an answer does not name, exactly the given-up ones a confirmed row passes are deleted and, within 20 s of the claim, exactly the first queued row of each confirmed anime is claimed if it is pending and nobody's |
| TranscriptFacts.SuccessorsMean | src/features/sync/outbox-claim.helpers.ts:136-187 | the rows handed on are exactly those newly under the claim, as stored, in queue order |
| TranscriptFacts.TokensMean | src/features/sync/reconcile-round.helpers.ts:103-121 | after the merge an answer writes tokens only, of animes whose row it still holds: a conflict's token, else that of the last applied entry that carries one, else none |
| TranscriptFacts.ChangesMean | src/features/sync/reconcile-round.helpers.ts:98-121 | the pulled changes go through one pass with the staged ones, unsent edits safe, and the tokens are written over what it leaves |
| TranscriptFacts.AnswerMeans | src/features/sync/reconcile-round.helpers.ts:340-434 | the one transaction of an accepted answer: rows, other rows, merge, tokens and forward-only cursor, each as the answer says |
| TranscriptFacts.RatingMeans | src/features/sync/season-rating-round.helpers.ts:36-66 | a posted rating ends as its status says, and a delivery passes the given-up ratings of its season |
| TranscriptFacts.TellsTwice | src/features/sync/reconcile.helpers.ts:101-127 | two transcripts, one after the other, are one: between messages this runtime does nothing |
| ReconcileCycle.SendOneMessagePerRequest | src/features/sync/reconcile-round.helpers.ts:221-269 | a rejected round sent one row per request at most, each answer doing what it does to a round; it succeeds exactly when one was accepted and no other failed but by its content; otherwise what was not sent and what was handed on is released |
| ReconcileCycle.ResolveMissingTokens | src/features/sync/missing-token.helpers.ts:140-183 | exactly the animes with no stored token are fetched; a row comes back to be sent on the stored token or the one fetched, in order, and every row still held comes back |
| ReconcileCycle.MissingAnimes | src/features/sync/missing-token.helpers.ts:150-160 | each anime with no stored token is fetched once |
| ReconcileCycle.FetchOutcome | src/features/sync/missing-token.helpers.ts:30-58 | a token comes only from a 2xx answer that carries one; a key is given up exactly on a 404 or an answer without a token, each with its own reason |
| ReconcileCycle.RequestIsWellFormed | src/features/sync/reconcile-request.helpers.ts:15-34 | every edit of a request carries a base token, and no anime is in it twice; the store keeps this of every request ever sent |
| ReconcileCycle.ApplyAnswer | src/features/sync/reconcile-round.helpers.ts:340-445 | one answer settled is one round; with every row held and evidenced, exactly its rows left the queue |
| ReconcileCycle.ReleaseOperations | src/features/sync/reconcile-round.helpers.ts:165-198 | rows are released even if others act while the release waits for the write door |
| ReconcileCycle.ClassifySeasonRatingAnswer | src/features/sync/season-rating-event.helpers.ts:49-68 | a rating is delivered exactly on a 204, given up exactly on a 4xx, retried otherwise |
| ReconcileCycle.PostMeans | src/features/sync/season-rating-event.helpers.ts:49-68 | each 4xx gives a rating up with its own reason: 401, 404, 409 or any other |
| ReconcileCycle.BuildSeasonRatingRequest | src/features/sync/season-rating-event.helpers.ts:33-42 | the body of a rating carries its anime and exactly the grade, time and season its payload holds |
| ReconcileCycle.SendSeasonRatingRound | src/features/sync/season-rating-round.helpers.ts:107-144 | no answer fails the attempt and no rating of the round stays held; the ratings posted are those still held at their turn, in order, each ending as its status says, and a delivery is reported exactly when the bridge accepted one |
| ReconcileCycle.ReleaseHeldRows | src/features/sync/season-rating-round.helpers.ts:154-170 | releases whatever of the ids the claim still holds, back to pending with count and reason as they were |
| ReconcileCycle.GetLastChangelogId | src/features/sync/last-changelog.helpers.ts:18-26 | a request never starts past the stored cursor, and starts at it unless it is out of range |
| ReconcileCycle.BatchIsEmptyExactlyWhen | src/features/sync/reconcile.helpers.ts:65-70 | the batch is empty, and the backlog not counted, if and only if no queued row is claimable |
| ReconcileCycle.HeldElsewhereHidesTheBacklog | src/features/sync/reconcile.helpers.ts:65-70 | one edit the native runtime is sending: the queue is not empty and nothing of it is claimable |
| ReconcileCycle.ReportOverAHeldKey | src/features/sync/reconcile.helpers.ts:130-133 | the whole cycle at that input: it reports nothing pending over a queued row |
| ReconcileCycle.EmptyBatchMeansEmptyQueue | src/features/sync/reconcile.helpers.ts:65-70 | with no live claim at all, an empty batch means an empty queue |
| MergeOutcome.DeferralKeepsTheOutcome | src/features/sync/remote-change-drain.helpers.ts:38-92 | for changes delivered in time (each delivery newer than those before, ties within one only between changes that are no deletes) above the starting guard, any run of passes under any un-acked sets that leaves nothing of an anime staged leaves the row, guard and every column the edits of that run do not write that applying every change directly in order would |
| MergeTies.ATiedDeleteDropsTheDeferredChange | src/features/sync/remote-change-drain.helpers.ts:22-36 | the concrete tie with a delete: applied directly the anime is there, deferred it is gone |
| MergeTies.ATieAcrossAnswersIsStale | src/features/sync/merge/field-merge.helpers.ts:148-154 | the concrete tie across two answers: in one answer the later change is applied, in the next it reads as stale |
| MergeOutcome.OpenPassLeavesNothingStaged | src/features/sync/remote-change-drain.helpers.ts:45-92 | a pass that finds no un-acked edit of an anime leaves none of its changes staged |
| MergeOutcome.PassIsDeferredDirect | src/features/sync/remote-change-drain.helpers.ts:52-92 | one pass: what it leaves staged, replayed over the row it leaves, is every staged and incoming change applied directly |
| MergeOutcome.OpenPassIsDirect | src/features/sync/merge/apply-remote-changes.helpers.ts:76-117 | with no un-acked edit and no stale change a pass applies each change of the record in order, whatever other records it carries |
| MergeOutcome.BlockedPassDeletes | src/features/sync/merge/merge-decision.helpers.ts:12-28 | with an un-acked edit a pass applies the deletes of the record and nothing else |
| MergeOutcome.PassStages | src/features/sync/remote-change-drain.helpers.ts:27-36 | what a pass leaves staged is exactly what it defers and no delete of the pass dominates |
| MergeOrder.ByTimestampSorts | src/features/sync/remote-change-drain.helpers.ts:57-60 | a pass is ordered by timestamp |
| MergeOrder.ByTimestampWhere | src/features/sync/remote-change-drain.helpers.ts:57-60 | the order is stable: ordering commutes with looking at any part of the entries |
| MergeOrder.SortTwice | src/features/sync/pending-remote-changes.helpers.ts:42-62 | reading the staging table by time and sorting again with the incoming changes is one sort of both |
| MergeBoundary.TallyAccountsForEveryChange | src/features/sync/merge/apply-remote-changes.helpers.ts:76-117 | the counters of a pass miss only changes with no snapshot to write, and a pass that counts nothing applied writes nothing |
| MergeBoundary.OneChangeWrites | src/features/sync/merge/apply-remote-changes.helpers.ts:22-62 | what one change leaves of its row: nothing for a delete; the row as it was when its anime has an unsent edit, when it is no newer than the row, or says nothing; else every column of the snapshot for a create or an unknown anime, the named ones otherwise, its time as the guard and the token as it was |
| PassSafety.PassIsSafe | src/features/sync/merge/merge-context.helpers.ts:34-43 | the edits a pass protects are exactly the `update` rows pending or processing: their animes are written by no change but a delete, and what no delete of the pass covers stays staged |
| PassSafety.HealAllIsSafe | src/features/sync/full-resync.helpers.ts:104-130 | a heal protects exactly the same animes |
| LocalStore.Store.ApplyRemoteChanges | src/features/sync/merge/apply-remote-changes.helpers.ts:76-117 | the loop applies the changes in order under one preloaded context and counts them |
| LocalStore.Store.ApplyStagedAndIncomingRemoteChanges | src/features/sync/remote-change-drain.helpers.ts:52-92 | one merge pass with its staging deletes and inserts; while an `update` row of an anime is pending or processing, its row is only ever deleted, every change that is no delete and that no delete covers is staged, and nothing is staged for any other anime |
| LocalStore.Store.DrainPendingRemoteChanges | src/features/sync/remote-change-drain.helpers.ts:109-119 | opens no transaction when nothing is staged; otherwise it is one pass over the table as its own transaction finds it, with unsent edits safe as in any pass |
| LocalStore.SplitEntries | src/features/sync/remote-change-drain.helpers.ts:71-83 | the loop consumes exactly the staged rows a pass does not keep and stages exactly the incoming ones it does |
| CursorSafety.NothingIsLostBehindTheCursor | src/features/sync/reconcile-round.helpers.ts:80-149 | if every answer carries all entries after its sent cursor, then in every reachable state of both runtimes each entry behind the stored cursor was decided by some pass or is still staged |
| CursorSafety.CursorOnlyAdvances | src/features/sync/last-changelog.helpers.ts:10-37 | the cursor of a pairing never decreases |
| CursorSafety.StepDecidesOrStages | src/features/sync/remote-change-drain.helpers.ts:52-92 | whatever a transaction finds staged or incoming it decides or leaves staged |
| Redelivery.RedeliveryIsANoOpExactlyWhen | src/features/sync/remote-change-drain.helpers.ts:94-108 | a second pass over any of the same changes, in any order and multiplicity, leaves every row alone if and only if, anime by anime, no delete comes again for a row that is there and nothing past the last delete brings back an open row that is not |
| Redelivery.DeleteFreeRedeliveryIsANoOp | src/features/sync/merge/field-merge.helpers.ts:148-154 | without deletes redelivery never writes a row |
| Redelivery.RedeliveredDeleteDropsTheRow | src/features/sync/merge/merge-decision.helpers.ts:12-28 | [delete at 5, update at 10] delivered twice drops the row |
| Redelivery.GuardsOnlyGrow | src/features/sync/merge/apply-remote-changes.helpers.ts:22-62 | within a pass a row that stays keeps its guard or moves it forward |
| FieldMerge.BuildPartialUpdate | src/features/sync/merge/field-merge.helpers.ts:82-105 | the loop writes exactly the columns the named fields map to and reports exactly the names it does not know |
| FieldMerge.DeriveChangedFields | src/features/sync/merge/field-merge.helpers.ts:113-140 | the loop names exactly the fields whose own or coupled column differs |
| FieldMerge.PartialColumnsAre | src/features/sync/merge/field-merge.helpers.ts:12-105 | a partial update writes a named column with the full-row value, `folderRelative` with `carpeta`, and nothing else |
| FieldMerge.FieldListMatchesUpsert | src/features/sync/merge/field-merge.helpers.ts:12-66 | the fields of the diff are those the field map knows, each mapped to the value the full-row writer stores (which `UpsertStoresTheSnapshot` reads back) |
| FieldMerge.DiffThenPatchRefinesUpsert | src/features/sync/merge/field-merge.helpers.ts:68-140 | deriving the changed fields and writing them leaves the columns the full-row writer would |
| FieldMerge.UpsertStoresTheSnapshot | src/infrastructure/db/anime-repository/anime-repository.ts:14-57 | a full-row write stores every column of the snapshot: a list or record as text it is read back from, NULL exactly when it is absent, null or, for episode lengths, empty |
| FieldMerge.PartialStoresTheNamedFields | src/infrastructure/db/anime-repository/anime-repository.ts:66-76 | a partial write stores the named columns alike, leaves every other one, and moves the guard |
| FieldMerge.DifferentValuesAreStoredApart | src/features/sync/merge/field-merge.helpers.ts:12-66 | two snapshots with different lists leave different columns |
| SnapshotHeal.HealAnimeRefinesUpsert | src/features/sync/full-resync.helpers.ts:43-67 | a healed row holds every column of the snapshot, lists as text they are read back from, as a full upsert would leave it, with the listed token; its guard moves from none to 0 at most |
| SnapshotHeal.HealAllHealsEachRow | src/features/sync/full-resync.helpers.ts:87-133 | a heal of a list with unique ids heals every listed row and leaves un-acked and unlisted ones alone |
| SnapshotHeal.SecondHealWritesNothing | src/features/sync/full-resync.helpers.ts:111-130 | a second heal from the same list writes no row and counts none |
| SnapshotHeal.HealWritesExactlyWhen | src/features/sync/full-resync.helpers.ts:43-67 | a heal counts a row as written if and only if it was missing or some column did not hold what the snapshot says |
| LocalStore.Store.HealAnimeFromSnapshot | src/features/sync/full-resync.helpers.ts:43-67 | the statements of one heal are the diff and patch proved to refine the upsert |
| LocalStore.Store.ResyncFromBridgeSnapshot | src/features/sync/full-resync.helpers.ts:87-133 | the loop is one heal of the list; an empty list opens no transaction; an anime with a pending or processing `update` row is left alone, and every other one listed once is healed |
| Gestures.GesturesReadOnlyWhatIsDrawn | src/features/animes/anime-mutation.helpers.ts:66-161 | the pair a gesture leads to depends only on the pair drawn and the total: what is shown from drawn values is what is stored from a row that draws alike |
| Gestures.GesturesWriteTheirColumns | src/features/animes/anime-mutation.helpers.ts:66-161 | what each gesture leaves in every column it may write: the count, the status, when it was last watched, when it premiered and whether this is its first cycle |
| Gestures.GesturesStayInRange | src/features/animes/anime-mutation.helpers.ts:66-161 | chapters never go below zero; a half step is held at the total; a full step finishes exactly at it |
| Gestures.StepBackUndoesStepForward | src/features/animes/anime-mutation.helpers.ts:66-161 | from every status and row: stepping back undoes a step forward exactly when the count was not negative and the step did not finish an anime that was anything but watched; a half step held at the total must besides have reached it exactly, or started at zero |
| Gestures.AHeldHalfStepIsNotUndone | src/features/animes/anime-mutation.helpers.ts:120-161 | the concrete half step that is not undone: at 12 of 12 it stays at 12, and a half step back leaves 11.5 |
| Projection.FoldAnimeMutationProjection | src/features/animes/anime-mutation-projection.helpers.ts:37-57 | the replay loop applies exactly the entries that continue the value reached so far |
| Projection.FoldIsSuffix | src/features/animes/anime-mutation-projection.helpers.ts:28-57 | from any durable value, a chain applies exactly its part from the first entry that starts there |
| Projection.OnlyTwoValuesAreShown | src/features/animes/anime-mutation-projection.helpers.ts:37-57 | for any durable value, foreign ones included, the card shows that value or the last accepted one, and which of the two is decided |
| Projection.ObservationEmptiesExactlyWhen | src/features/animes/anime-mutation-projection.helpers.ts:226-246 | a read empties the list if and only if the row carries the value the chain leads to, or one no gesture started from |
| Projection.ProjectionStore.Accept | src/features/animes/anime-mutation-projection.helpers.ts:151-195 | an accepted gesture moves what is drawn to its projected pair at once; a gesture that moves nothing is no entry; other animes are untouched |
| Projection.ProjectionStore.Drop | src/features/animes/anime-mutation-projection.helpers.ts:203-219 | a rejected gesture goes with every later one of its anime, and no other |
| Projection.ProjectionStore.Observe | src/features/animes/anime-mutation-projection.helpers.ts:226-267 | every record keeps a chain that applies fully from its own durable row; consumers are told once, and only if an intent was retired |
| ChapterSession.EventAlignsExactlyWhen | src/features/animes/use-mutate-anime.ts:58-100 | a press, commit, read, failed write or expired deadline keeps card and pending writes in agreement if and only if it finds what `Harmless` asks of it |
| ChapterSession.PromisesAreKeptExactlyWhen | src/features/animes/use-mutate-anime.ts:58-80 | the pending writes and the next press, whatever it is, all store the pairs they were shown with if and only if the card draws where the pending writes lead and each of them promises what it leads to |
| ChapterSession.WritesStoreWhatWasShownExactlyWhen | src/features/animes/use-mutate-anime.ts:58-100 | over any run of presses, commits, reads, failed writes and expired deadlines, every promise holds at every moment if and only if every event is harmless where it happens |
| ChapterSession.WritesStoreWhatWasShown | src/features/animes/use-mutate-anime.ts:58-100 | in a harmless run the card draws where the pending writes lead, and every write that commits leaves the pair its gesture was shown with |
| ChapterSession.NextPromiseIsKeptWheneverItComesExactlyWhen | src/features/animes/use-mutate-anime.ts:58-80 | whatever order the pending writes and the reads come in, the pair shown for the next press is the pair its write stores, for every gesture, if and only if the pending writes do not pass through the pair they lead to before their last move |
| ChapterSession.AnExpiredDeadlineBreaksAPromise | src/features/animes/use-mutate-anime.ts:90-100 | the concrete session with a deadline that expires: the card falls back to 5, the next +1 is shown as 6 and stored as 7 |
| ChapterSession.AFailedWriteBreaksThePromiseBehindIt | src/features/animes/use-mutate-anime.ts:90-100 | the concrete session with a write that fails: the +1 behind it was shown as 7 and stores 6 |
| ChapterDoor.OnlyTheFirstIsReached | src/infrastructure/db/client/client.helpers.ts:421-463 | of a session's pending writes the door can only begin or end the first |
| ChapterDoor.Screen.QueueOther | src/infrastructure/db/client/client.helpers.ts:421-463 | somebody else's write joins the queue of any file and is none of the card's |
| ChapterDoor.Screen.Press | src/features/animes/use-mutate-anime.ts:58-80 | a press is shown and queued behind every write of the file |
| ChapterDoor.Screen.Begin | src/infrastructure/db/client/client.helpers.ts:465-494 | a write whose transaction cannot begin is the session's first pending one, and fails |
| ChapterDoor.Screen.Finish | src/infrastructure/db/client/client.helpers.ts:465-494 | the card's writes commit in the order they were pressed, whatever else is queued and whatever deadlines expire, and in a harmless run each leaves the row at the pair it was shown with |
| ChapterDoor.Screen.Expire | src/infrastructure/db/client/client.helpers.ts:433-454 | an expired deadline drops the gesture from the card and leaves its write in its place in the queue |
| ChapterSession.CardStaysOnTargetExactlyWhen | src/features/animes/anime-mutation-projection.helpers.ts:87-95 | whatever order the pending writes and the reads come in, the card draws only where the writes lead, if and only if they do not pass through that pair before their last move |
| ChapterSession.ACancelledPairBreaksAPromise | src/features/animes/anime-mutation-projection.helpers.ts:226-246 | the concrete session that fails: +1, -1, a read, a write, a read, +1 shown as 7 and stored as 6 |
| WriteDoor.StartedAfterAllBefore | src/infrastructure/db/client/client.helpers.ts:421-463 | a write that has started comes after every earlier write of its file has settled |
| WriteDoor.NeverTwoTransactions | src/infrastructure/db/client/client.helpers.ts:421-494 | two transactions of one file never run at once |
| WriteDoor.Door.Enqueue | src/infrastructure/db/client/client.helpers.ts:421-463 | a write chains on the last one queued for its file |
| WriteDoor.Door.Begin | src/infrastructure/db/client/client.helpers.ts:465-494 | a transaction begins only on a connection with none open, and only once its predecessor settled |
| WriteDoor.Door.Finish | src/infrastructure/db/client/client.helpers.ts:465-494 | commits happen in queue order; a failed body or commit rolls back; a failed rollback leaves the transaction open; a caller whose deadline already expired is told nothing more |
| WriteDoor.Door.Expire | src/infrastructure/db/client/client.helpers.ts:421-463 | a deadline that expires changes what the caller is told and nothing else |
| SyncFlush.SingleFlight | src/features/sync/sync-flush.helpers.ts:51-76 | per database at most one run is active |
| SyncFlush.MergedDemandIsTheStrongest | src/features/sync/sync-flush.helpers.ts:112-119 | a run serves at least the heal demand of each of its reasons, and no more than one of them asks |
| SyncFlush.DemandsAre | src/features/sync/sync-flush.constants.ts:28-38 | starting up and coming to the front always heal, a regained socket only a stale list, nothing else heals |
| SyncFlush.Dispatcher.RequestFlush | src/features/sync/sync-flush.helpers.ts:51-76 | a request starts a run, joins the one follow-up, or is settled with nothing sent when no dispatcher is registered; none is lost; made under `online` it leaves it standing if and only if nobody is registered, its run throws at once, or it joins a follow-up already queued |
| SyncFlush.Dispatcher.StartFlush | src/features/sync/sync-flush.helpers.ts:121-144 | the dispatcher begins its connection attempt before anyone else acts |
| SyncFlush.Dispatcher.SettleFlush | src/features/sync/sync-flush.helpers.ts:146-165 | a settled run settles exactly its own requests; its follow-up starts with whoever is registered then. Every request is settled by a run of its database started when it was made or later, with at least its heal demand |
| SyncFlush.OnlineIsHonest | src/features/sync/sync-flush.helpers.ts:40-76 | for as long as `online` stands, its run active or long over: no newer attempt or notice of work has come, nothing waits behind the run, and every request of its database made after it started was taken by no dispatcher or by a run that threw before it began an attempt |
| SyncFlush.OnlineOverAnUnregisteredRequest | src/features/sync/sync-flush.helpers.ts:47-57 | the first case: a request while nobody is registered is settled with nothing sent under `online` |
| SyncFlush.OnlineOverAThrownRequest | src/features/sync/sync-flush.helpers.ts:120-143 | the second: a dispatcher that throws at once leaves `online` standing over the request |
| SyncFlush.OnlineOverAJoinedRequest | src/features/sync/sync-flush.helpers.ts:64-73 | of another database than the one that published: a request that joins a follow-up already queued leaves `online` standing |
| SyncFlush.Dispatcher.NoticeWork | src/features/sync/sync-connection-store/sync-connection-store.helpers.ts:92-117 | new work, or a lost pairing, makes every run begun so far stale |
| SyncFlush.Dispatcher.Publish | src/features/sync/sync-connection-store/sync-connection-store.helpers.ts:36-90 | only the newest attempt can publish |
| ConnectionStore.Connection.Begin | src/features/sync/sync-connection-store/sync-connection-store.helpers.ts:24-34 | a newer attempt ends online truth |
| ConnectionStore.Connection.Mark | src/features/sync/sync-connection-store/sync-connection-store.helpers.ts:36-90 | a verdict is published only by the newest attempt, each with its own kind, sync time and contact |
| ConnectionStore.Connection.Invalidate | src/features/sync/sync-connection-store/sync-connection-store.helpers.ts:92-117 | new work, or a lost pairing, ends online truth |
| ConnectionStore.Connection.Submit | src/features/sync/sync-connection-store/sync-connection-store.helpers.ts:120-146 | publications queue behind one another |
| ConnectionStore.Connection.StartNext | src/features/sync/sync-connection-store/sync-connection-store.helpers.ts:120-146 | telemetry is persisted one publication at a time, in order, and never for a stale attempt |
| ConnectionStore.Connection.FinishPersisting | src/features/sync/sync-connection-store/sync-connection-store.helpers.ts:120-146 | a verdict shows if and only if its telemetry was persisted and nothing newer came meanwhile |
| CoverNames.SanitizeAnimeIdForFileName | src/infrastructure/cover-files/cover-files.helpers.ts:19-32 | the loop escapes each code unit but letters, digits and dashes |
| CoverNames.SanitizingCanBeUndone | src/infrastructure/cover-files/cover-files.helpers.ts:10-32 | sanitizing has a left inverse, for every id |
| CoverNames.NamesCollideExactlyWhen | src/infrastructure/cover-files/cover-files.helpers.ts:19-62 | two different animes can share a file name under two tokens if and only if one token is the other behind an escaped name and a dash |
| CoverNames.DashFreeNamesDiffer | src/infrastructure/cover-files/cover-files.helpers.ts:40-62 | with dash-free tokens two animes never share a file name |
| CoverNames.TheTokenIsTheEtags | src/infrastructure/cover-files/cover-files.helpers.ts:34-46 | an etag is split into quotes, spaces, a core and the same behind it; the token is the first 16 units of the core, or the fallback when the core is empty or there is no etag |
| CoverNames.TokensOfDashFreeEtags | src/infrastructure/cover-files/cover-files.helpers.ts:34-51 | the token of a dash-free etag and fallback is dash-free |
| CoverSweep.CoverOutlivesItsAnswers | src/features/sync/cover-sweep/cover-sweep-entry.helpers.ts:28-197 | over any run of answers about one source a cover once there is never missing, if and only if the first does not say there is none while the cover was resolved against another source; it is the last image written, or still the first file |
| CoverSweep.AnswersAreRecorded | src/features/sync/cover-sweep/cover-sweep-entry.helpers.ts:28-197 | what each answer leaves in every field of an entry: a settled one is due a day later, one in doubt keeps what was known and backs off |
| CoverSweep.BackoffDoublesUpToTheMaximum | src/features/sync/cover-sweep/cover-sweep-entry.helpers.ts:16-26 | retries wait 15 minutes, then twice as long each time, up to 6 hours, unless the bridge names its own delay |
| CoverSweep.SelectCoverSweepTargets | src/features/sync/cover-sweep/cover-sweep.helpers.ts:39-58 | a pass asks exactly about the active animes that are due, changed source, or forced |
| CoverSweep.PruneInactiveCoverEntries | src/features/sync/cover-sweep/cover-sweep.helpers.ts:60-80 | the loop keeps exactly the active entries and reports exactly the files of the others |
| CoverSweep.PrunedNamesAreUnreferenced | src/features/sync/cover-sweep/cover-sweep.helpers.ts:393-435 | no file of a dropped entry is one the kept entries reference, in every manifest whose files carry their own animes' names |
| CoverSweep.WritesAreAtomicExactlyWhen | src/infrastructure/cover-files/cover-files.helpers.ts:144-166 | cut off anywhere, a manifest write leaves the old manifest readable or the new one, if and only if the old one was not in the temp file alone (or one of them is empty) |
| CoverSweep.TwoCrashesLoseTheManifest | src/infrastructure/cover-files/cover-files.helpers.ts:125-166 | the concrete run: killed between delete and move, then right after the next write begins, neither manifest can be read |
| CoverSweep.PlanCoverInboxAdoption | src/features/sync/cover-sweep/cover-inbox.helpers.ts:14-45 | an inbox cover is adopted exactly when its anime has no file, as an image checked when it was fetched and due a day later; every other is discarded |
| CoverSweep.AdoptionsAreOwned | src/features/sync/cover-sweep/cover-inbox.helpers.ts:24-41 | an adopted file is named for its own anime |
| CoverStore.Covers.WriteCoverManifest | src/infrastructure/cover-files/cover-files.helpers.ts:144-166 | the file operations of a manifest write, cut off after any of them |
| CoverStore.Covers.HydrateCoverUris | src/features/sync/cover-sweep/cover-sweep.helpers.ts:120-208 | afterwards every file the manifest names is on disk; entries whose file is there are kept, those whose file vanished are due at once |
| CoverStore.Covers.SweepCovers | src/features/sync/cover-sweep/cover-sweep.helpers.ts:228-374 | whatever order the answers come in, each is folded into the entry its anime began the pass with; files stay named for their own animes; nothing is deleted |
| CoverStore.Covers.SettleCoverSweep | src/features/sync/cover-sweep/cover-sweep.helpers.ts:393-435 | wherever it is cut off, every file the readable manifest references is still on disk if it was; a pass not answered whole deletes nothing; a whole one leaves exactly the referenced files |
| CoverStore.Covers.ExecuteCoverSweep | src/features/sync/cover-sweep/cover-sweep.helpers.ts:327-374 | the same for the whole pipeline of one pass, killed anywhere |
| CoverStore.Covers.DeleteCoverFiles | src/features/sync/cover-sweep/cover-sweep.helpers.ts:262-277 | deletion removes no file but the ones it was given |
| Lanes.LanesStayBounded | src/infrastructure/async/run-with-concurrency.helpers.ts:23-82 | at most `limit` items in flight at any moment, started in index order and at most once each, none after a stop or a throw |
| Lanes.RunWithConcurrency | src/infrastructure/async/run-with-concurrency.helpers.ts:23-82 | under every interleaving nothing is in flight at return, every item ran exactly once unless stopped, and the error rethrown is that of the lowest lane that caught one |

## Left out

- The native runtime's own code: only its transactions are modelled, under the contract the comments state for it.
- The season-mode write to `animes` and every other screen write that queues nothing: no outbox row, no guard, no token.
- Re-pairing: unpairing empties the tables and the pairing; a new pairing is a new start of the model.
- The sync-diagnostics flush inside a cycle: it never rejects and writes no table of the model.
- Failing local SQL: every local statement is assumed to succeed; only the bridge fails. A read that throws between two
  isolated messages could leave chained rows held until their claim expires.
- JSON text, Zod schemas and the wire mapping: payloads and answers are the values they parse to, and a
  request has no device id.
- Column types and SQL text: a statement is its effect on rows; `claim_owner` and `claimed_at` are one optional claim.
- Staging ids: a staged row is its position in the table, which is the order `created_at, id` reads it in.
- The text match of a rating's season: a key's season is the set of payload values that read as it.
- Snapshots of another record: a pulled change is assumed to describe its own record (`Coherent`).
- DeferralKeepsTheOutcome: asks that no delete shares its time with another change of its anime and that no two answers
  share a time; `ATiedDeleteDropsTheDeferredChange` and `ATieAcrossAnswersIsStale` show what each tie does.
- EntriesAnswerOneEdit: asks for operations without a colon; `EntryIsMisreadExactlyWhen` shows that it must.
- Other writers of the same row in `ChapterSession`, and presses before its first read: foreign durable values are
  covered by `Projection`.
- A failed commit whose rollback fails too is read as a write that stored nothing; the transaction it leaves open is the
  door's to show.
- The dispatcher is assumed not to call `requestFlush` before it returns its promise.
- Message texts, retry timers, telemetry contents and the deadlines' lengths in the write door: a deadline may expire at
  any moment.
- Image bytes, directories and every file but the manifest, its temp file and the covers; the lock that keeps two sweeps
  apart; the lanes under a sweep, which is modelled as any order of at most two answers in flight; the summary counters of
  a sweep other than "answered".
- Unresolved-key lists, visible status copy and other branch tables a reading settles.
- Reconnect timers, WebSocket handling, React hooks, migrations and column repair.
