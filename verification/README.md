# Sports Pulse: a verified model of the result pipeline

Sports Pulse carries football results from data providers onto a blockchain. Four programs share one
database and one contract, and none of them waits for another: the **provider** syncs finished matches day by
day and retries the difficult ones from a queue, the **signer** signs what is finished, the **relayer** submits
what is signed, and the **oracle** contracts check and store. This project models the four programs, the tables
and the contracts in Dafny and proves what they keep together, through failed writes, crashes, re-syncs, any
interleaving of any number of runs, and any outside caller of the contracts.

`dafny verify dfyconfig.toml` verifies the project.

## Layout

| file | what it models |
|---|---|
| `Bytes.dfy`, `Entity.dfy`, `Eip712.dfy` | the encodings on which the programs must agree: packed match key, date codes, hex text, the EIP-712 digest as signer and contract compute it; the ideal hash and signatures |
| `Oracle.dfy`, `Contracts.dfy` | the contracts as values and as objects changed in place, and what any sequence of calls does |
| `Tables.dfy` | the three tables and every repository statement on them |
| `Sync.dfy`, `Reconcile.dfy`, `Signer.dfy`, `Relayer.dfy` | the four programs as imperative methods on the tables and the node, each proved against a specification, and what whole runs do |
| `Pipeline.dfy` | all of it as one state machine of single statements and transactions |
| `Invariants.dfy`, `Safety.dfy`, `Guarantees.dfy` | the machine's invariant, its preservation by each of the 22 actions, and the promises drawn from it |
| `Overlap.dfy`, `Tries.dfy` | several sync runs, and several reconcilers, at once: which promises survive, and the exact bound on tries |
| `Serial.dfy`, `Round.dfy` | runs that do not overlap; a fault-free round delivers new matches and what earlier failures left behind |
| `Paths.dfy`, `Faults.dfy` | the programs' specifications, with their faults, are runs of the machine |
| `Limits.dfy`, `Waiting.dfy` | runs of the machine that show what is not promised, and exactly when it is; how long a Signed row stays as it is |
| `Witness.dfy` | a hash, signatures and initial states that meet the assumptions |

The program methods do their work on objects with a log: the database logs every statement with the outcome its
caller was told, the node every question with its answer. A method's contract states the new tables and the
exact statements and questions, so that leaving one out, reordering two or taking a wrong branch breaks it.

## Assumptions

- **Hash.** `keccak` is any function without collisions on the strings that are really hashed (packed keys,
  struct pre-images of match identifiers, final digests), and no packed key hashes to zero (`Crypto.IdealHash`).
- **Signatures.** A raw signature is 65 bytes that end in 0 or 1 and, with 27 added to the last, recovers to the key
  that made it; one that recovers to a service key was issued by that key for that digest (`Crypto.IdealSign`,
  `Pipeline.Unforged`). Rotations authorise only keys of the service.
- **Database.** Unique keys, atomic statements and transactions. A write is done, lost, or applied although its
  caller is told it failed. Ids of the queue are fresh: one that was removed is not drawn again.
- **Node.** Receipts and revert data are honest; no other error of the contract has the four-byte selector of MatchAlreadySubmitted.
- **APIs.** A fetch returns anything or fails. Returned matches were built by `NewMatch` for the provider asked, and
  the by-id API returns the match it was asked for.
- **Deadlines and clocks** are arbitrary inputs, clocks may run backwards. The reconciler's deadline passes after some
  number of lost writes; a broadcast's deadline passes after some number of polls.
- The three contracts have one owner.

They can be met together: `Witness.IdealExists` gives a hash and signatures that satisfy `Ideal` on every domain and keep
the selectors distinct, and `Witness.InitExists` makes every deployment that does not revert an initial state.

## What the code does not do

Each item names a lemma with a case and one with the exact condition under which the promise holds.

- The oracle's documentation says previous signers cannot be reused. The constructor does not record the deployment's
  signer, which can return once: `Oracle.DeploymentSignerReturns`; exactly when: `Oracle.SignerReuse`.
- A stale match whose insert into the queue is lost, or a finished one whose save and the insert in its stead are lost,
  is dropped while its day is passed: `Sync.LostInsertDropsMatch`, `Sync.LostSaveDropsMatch`; exactly when:
  `Sync.AccountedIff`. No later run queries the day again (`Sync.NeverQueriedAgain`), and the match stays dropped unless
  some run is returned it anew (`Sync.DroppedStays`).
- Two first sync runs that overlap across midnight leave days behind that nobody passed, from any initial state without
  the cursor and for any two start days: `Overlap.OverlappingFirstRunsSkip`. Exactly when: given the days on which runs
  that find no cursor may begin, no run leaves a gap above the first cursor if and only if there is at most one such day,
  `Overlap.SkipsIff`. From the last such day, or from where a cursor stood, no overlap leaves a gap:
  `Overlap.NoSkippedDayOverlapping`.
- Several reconcilers at once push an entry past five tries: `Tries.TwoReconcilersExceed`. With n of them the bound is
  exactly 4 + n: `Tries.TriesNeverExceed`, attained for every n by `Tries.TriesAttained`.
- A processed entry need not bring the reconciler nearer to its end. It does exactly when its write took:
  `Reconcile.LowersIffTook`. A reconciled save that the database refuses counts no try, so that only the deadline or a
  failed query ends the loop: `Reconcile.RefusedSaveIsRetried`, `Reconcile.NothingTakenNothingEnds`. The queue takes
  match ids longer than the matches table does; such an entry, once finished, stays for ever: `Reconcile.LongIdNeverSaved`.
- The signer stores by id without looking at the scores again, so that a row corrected in between ends Signed with a
  signature of its old scores: `Limits.OldScoresStaySigned`. In every reachable state a Signed row's signature is of
  scores the row was once saved with, and fits its calldata exactly when the narrowed scores are still those:
  `Limits.SignedUnderOverlap`. Such a row stays as it is until it is saved again or its identifier comes on chain:
  `Waiting.CorrectedRowWaits`.
- A match that is on chain already is recognised when the node rejects its transaction, but not when that is mined and
  reverted; its row then stays Signed: `Limits.DuplicateStaysSigned`; exactly when: `Relayer.RecognisedOnlyWhenRejected`,
  and for the program `Relayer.Broadcast`. It stays so over any run without a save of its match or such a rejection:
  `Waiting.DuplicateWaits`.

## Model

| member | source | states |
|---|---|---|
| Guarantees.EndToEndProvenance | oracle/src/MatchRegistry.sol:86-121 | in every state reached by any interleaving, failures and outside callers included, every stored entry is of at most 80 each and has a row with its identifier that at some point of the run stood finished with exactly the entry's scores |
| Guarantees.SavedOnce | provider/internal/repository/match_repository.go:29-116 | a recorded result stood, finished, in its row in some state of the run |
| Guarantees.BroadcastedIsOnChain | relayer/internal/service/broadcaster.go:52-78 | a row is Broadcasted only while the contract returns a stored entry for the row's own four fields, although saves can reset rows while the relayer holds old copies; a status is only ever Finished, Signed or Broadcasted |
| Guarantees.NoLostMatch | provider/internal/service/sync.go:92-117 | once a run has passed a day with every insert and every save-or-insert taken, each match it was returned is in the matches table or the queue then and in every later state, whatever any process does |
| Guarantees.PassedStays | provider/internal/service/sync.go:115-117 | a day once passed stays passed through any further actions |
| Safety.NextKeeps | relayer/internal/repository/match_repository.go:82-98 | every action of every process keeps the whole invariant |
| Safety.Reachable | signer/cmd/signer/main.go:73-88 | the invariant holds in every state of every run |
| Safety.SyncKeeps | provider/internal/service/sync.go:92-117 | each statement of a sync run keeps it: rows traced to saves, matches accounted for, removed queue entries staying removed |
| Safety.RecKeeps | provider/internal/service/reconcile.go:51-110 | each statement of a reconciler keeps it, with entries possibly gone or taken by another reconciler meanwhile |
| Safety.SignKeeps | signer/internal/repository/match_repository.go:54-66 | signing from a snapshot that may be out of date keeps it: every issued digest is of a row's identifier and scores it was once saved with |
| Safety.RelayKeeps | relayer/internal/service/broadcaster.go:41-81 | each step of a relay run keeps it: only what is on chain is confirmed, and only that is marked |
| Safety.ChainKeeps | oracle/src/MatchRegistry.sol:61-124 | mined transactions and any outside call keep it |
| Invariants.AcceptedTraced | oracle/src/MatchRegistry.sol:86-121 | an accepted submission carries a result its match was once saved with |
| Invariants.DigestPinsResult | oracle/src/MatchRegistry.sol:138-154 | a digest of a submission for a real key is a row's digest only if identifier and both scores are the row's |
| Invariants.RowHashIsKeyHash | relayer/internal/service/broadcaster.go:88-97 | the identifier the relayer sends for a row is the hash the contract computes from the integers the relayer sends |
| Invariants.UpsertKeepsRows | provider/internal/repository/match_repository.go:36-40 | a save keeps every row's identity and the trace of its scores |
| Invariants.DequeueKeeps | provider/internal/service/reconcile.go:134-167 | removing an entry with the save of its own match loses no match, even when the entry had gone already |
| Invariants.DoneAccounts | provider/internal/service/sync.go:148-183 | a run through with both loops, nothing missed and nothing in progress, has every returned match saved or queued |
| Overlap.NoSkippedDayOverlapping | provider/internal/service/sync.go:73-142 | with any number of overlapping sync runs of the same cursor, every day from the last on which a run found no cursor, or from where a cursor stood, up to the cursor was passed: queried by a run before its today, whose cursor write took and whose matches left after its own stale partition were all finished |
| Overlap.OverlappingFirstRunsSkip | provider/internal/service/sync.go:122-142 | from any initial state without the cursor, two runs that begin at any two times before either writes it bring it to the day of the first and then to that of the second, and no day is passed |
| Overlap.SkipsIff | provider/internal/service/sync.go:73-142 | from any initial state without the cursor and for any set of days on which runs that find no cursor may begin: no run of the machine leaves a day unpassed between the first cursor and the last if and only if the set has at most one day |
| Tries.TriesNeverExceed | provider/internal/service/reconcile.go:37-110 | with at most n reconcilers at a time no entry has more than 4 + n tries in any reachable state, five for a single one, whatever the fetches return, whichever writes fail and whatever sync runs insert meanwhile |
| Tries.TriesAttained | provider/internal/service/reconcile.go:37-110 | the bound is sharp: for every n from one on, a run with n reconcilers brings an entry to exactly 4 + n tries |
| Tries.TwoReconcilersExceed | provider/internal/repository/reconciliation_repository.go:101-113 | two reconcilers holding one page push an entry to six tries |
| Sync.NoSkippedDay | provider/internal/service/sync.go:73-142 | over any sequence of runs, failures and clocks, every day from the first synced one up to the cursor was passed by a completed run that queried it |
| Sync.NoSkippedDayFrom | provider/internal/service/sync.go:73-142 | the same from where a cursor already stands |
| Sync.CursorStep | provider/internal/service/sync.go:100-142 | a run moves only its own cursor, never past its today, by at most one day, and by one exactly when the day queried is past and nothing is in progress |
| Sync.CursorIsOwed | provider/internal/service/sync.go:100-142 | a run's cursor goes to the day queried, or beyond it if and only if that day is before today and every unfinished match started more than 21600 seconds before: one recent unfinished match keeps the day |
| Sync.InProgressIff | provider/internal/service/sync.go:148-194 | something is in progress after the stale partition exactly when some unfinished match started at most 21600 seconds ago |
| Sync.StaleAreQueued | provider/internal/service/sync.go:158-177 | inserts are attempted for all unfinished matches that started more than 21600 seconds ago and for no others |
| Sync.FinishedAreSaved | provider/internal/save/save.go:25-47 | the save loop's statements: every match of status 3 and no other is saved, and queued exactly after a save not reported done |
| Sync.CatchUp | provider/internal/service/sync.go:100-113 | a cursor k days behind a fixed today is at today after exactly k successful runs whose matches are all over six hours old, and stays |
| Sync.OldDayAdvances | provider/internal/service/sync.go:148-194 | a successful run on a past day whose matches all started over six hours ago advances by exactly one day |
| Sync.StaleQueuedIff | provider/internal/service/sync.go:158-177 | after the stale loop a match is queued exactly when it was before or one of its own inserts took |
| Sync.AccountedIff | provider/internal/service/sync.go:92-98 | after a run a match is in the matches table or the queue exactly when it was before, or an insert of it as stale took, or its save as finished or the insert in its stead did |
| Sync.LostInsertDropsMatch | provider/internal/service/sync.go:161-169 | a lost insert leaves a stale match nowhere while the cursor passes its day |
| Sync.LostSaveDropsMatch | provider/internal/save/save.go:32-39 | a save lost together with the insert in its stead leaves a finished match nowhere while the cursor passes its day |
| Sync.NeverQueriedAgain | provider/internal/service/sync.go:122-142 | once the cursor is past a day, no run whose clock is past it too queries it again |
| Sync.DroppedStays | provider/internal/service/sync.go:86-98 | a dropped match stays dropped unless some later run is returned it anew |
| Sync.Sync | provider/internal/service/sync.go:41-120 | the whole run: day queried, new tables and exact statements, the last of them the cursor owed; ok exactly when read, fetch and cursor write were |
| Sync.SyncDay | provider/internal/service/sync.go:92-119 | the run after the fetch, with the cursor written last |
| Sync.FilterStaleMatches | provider/internal/service/sync.go:148-183 | kept, in order, is exactly what is finished (status 3) or started at most 21600 seconds ago; an insert under the run's provider is attempted for every other match and for nothing else |
| Sync.HasInProgressMatches | provider/internal/service/sync.go:186-194 | finds whether some match has another status than 3 |
| Sync.GetQueryDate | provider/internal/service/sync.go:122-142 | the UTC day the stored cursor lies in, or today when there is none or it lies ahead; never later than today |
| Sync.SaveFinished | provider/internal/save/save.go:25-47 | exactly the matches of status 3 are saved, and a save is followed by an insert of its match exactly when it was not reported done |
| Tables.UpsertFold | provider/internal/repository/match_repository.go:29-116 | after any sequence of saves a match's one row carries identity, teams and start of its first taken save and status and scores of its last |
| Tables.UpsertMeans | provider/internal/repository/match_repository.go:29-71 | a save is refused exactly on a value that does not fit its column or an id in use; else a new match gets a row of its columns without a signature, a known one new status and scores and nothing else, and no other row changes |
| Tables.UntouchedBySaves | provider/internal/repository/match_repository.go:36-40 | saves of other matches, or refused ones, leave a row alone |
| Tables.UpsertKeepsIds | postgres/init/01-create-matches-table.sql:2-21 | the primary key stays unique and a save adds at most the row of its own match |
| Tables.Database.Save | provider/internal/repository/match_repository.go:29-71 | lost: nothing changes; taken: the new row, or status and scores of the known one, and nothing else |
| Tables.Database.SaveToReconciliationQueue | provider/internal/repository/reconciliation_repository.go:38-50 | a queued match stays as it is with its tries; any other is inserted with no tries |
| Tables.Database.GetPendingReconciliations | provider/internal/repository/reconciliation_repository.go:53-88 | returns the pending entries with the smallest ids, in order, as many as the limit allows |
| Tables.Database.AddTry | provider/internal/repository/reconciliation_repository.go:101-113 | counts a try of the entry with that id |
| Tables.Database.SaveAndRemove | provider/internal/service/reconcile.go:134-167 | save and removal are committed together or not at all |
| Tables.Database.GetLastSyncedDate | provider/internal/repository/sync_state_repository.go:26-42 | the stored cursor, or none |
| Tables.Database.UpdateLastSyncedDate | provider/internal/repository/sync_state_repository.go:44-62 | sets the cursor of that competition and provider only |
| Tables.Database.FindByStatus | signer/internal/repository/match_repository.go:23-52 | lists every row of the status once, and no other |
| Tables.Database.SetSignature | signer/internal/repository/match_repository.go:54-66 | signature and status 4 of the row with that id, whatever its scores or status are now; nothing else |
| Tables.Database.SetBroadcasted | relayer/internal/repository/match_repository.go:82-98 | status 5 of the row with that id and nothing else; refused when there is none |
| Reconcile.Reconcile | provider/internal/service/reconcile.go:33-112 | terminates; the pages of at most ten read, the entries processed in their order and the exact statements; whatever left the queue left its row finished in the same commit, with the scores the API had answered as final; on normal return every entry has at least five tries; when all writes take, entries processed are at most the sum of tries left; tries stay within five |
| Reconcile.ProcessPage | provider/internal/service/reconcile.go:51-110 | one batch, in order, stopped only by the deadline; each entry with a taken write lowers the sum of tries left |
| Reconcile.ProcessEntry | provider/internal/service/reconcile.go:68-109 | saved and removed in one transaction exactly when the provider is 1 or 2 and the answer has status 3, with that very answer; otherwise one try counted and nothing saved |
| Reconcile.EventLowers | provider/internal/repository/reconciliation_repository.go:101-113 | a counted try takes exactly one from the sum of tries left, a removal what the entry had left |
| Reconcile.RemovedOnlyWithSave | provider/internal/service/reconcile.go:134-167 | an entry leaves the queue only in the commit that leaves its fetched result in the matches table |
| Reconcile.RemovedOnlyAsFinished | provider/internal/service/reconcile.go:88-105 | over a whole run, with any answers and failures, an entry leaves the queue only in a commit that leaves its match's row with status 3 and the scores of the API's finished answer |
| Reconcile.BatchedExtends | provider/internal/service/reconcile.go:37-51 | a page is read when every entry of the earlier pages is through |
| Reconcile.LowersIffTook | provider/internal/service/reconcile.go:68-109 | processing a pending entry lowers the sum of tries left exactly when its write took, and changes nothing at all otherwise |
| Reconcile.NothingTakenNothingEnds | provider/internal/service/reconcile.go:37-51 | while no write takes, the tables stay as they are and something stays pending, so that no number of entries ends the loop |
| Reconcile.LongIdNeverSaved | postgres/init/04-create_match_reconciliation_table.sql:6 | an entry whose match id the matches table refuses stays pending through any number of finished answers |
| Reconcile.RefusedSaveIsRetried | provider/internal/service/reconcile.go:99-105 | one refused save changes nothing, not even the tries |
| Signer.Run | signer/cmd/signer/main.go:40-91 | the snapshot is exactly the rows of status 3; each is signed in order and stored under its id; exact statements |
| Signer.SignMatch | signer/internal/service/sign_match.go:24-76 | 130 lower-case hex digits of the raw signature of the typed data's hash, its first 64 bytes unchanged and 27 added to its recovery id; refused exactly on an unsignable item, another length than 65 or a recovery id above 1 |
| Signer.SignedIsAdjusted | signer/internal/service/sign_match.go:69-75 | the same for what the specification stores, whatever the signature scheme |
| Crypto.AdjustAdds27 | signer/internal/service/sign_match.go:69-73 | the adjustment adds 27 to the last of 65 bytes, keeps the others and refuses any last byte but 0 and 1 |
| Signer.SignedVerifies | signer/internal/service/sign_match.go:24-76 | signing succeeds exactly on 32-byte identifiers and uint8 scores, and the text recovers to the key under the contract's digest |
| Signer.RunIsolation | signer/cmd/signer/main.go:73-88 | a row gets its own signature and status Signed exactly when listed, signable and its store took; no other row changes |
| Relayer.Run | relayer/cmd/relayer/main.go:54-83 | the signed matches are broadcast; ok exactly when none failed |
| Relayer.BroadcastMatches | relayer/internal/service/broadcaster.go:41-81 | returns the number of failed broadcasts; questions to the node and status updates are exactly those owed; what was not a failure is on chain, and what was sent is there with its own scores |
| Relayer.BroadcastOne | relayer/internal/service/broadcaster.go:52-75 | one match: nonce, tip, price, gas and signing asked in this order, sent only if none but the gas estimate failed, then polled; sent exactly on a successful receipt; its row gets status 5 exactly when sent or already submitted and the update took, and nothing else changes |
| Relayer.Broadcast | relayer/internal/service/broadcaster.go:101-165 | the order of questions and the outcome owed to the answers; sent only if this submission is the entry stored; for an identifier already stored, already-submitted exactly when the transaction is rejected with that revert, and a failure otherwise |
| Relayer.RecognisedOnlyWhenRejected | relayer/internal/service/broadcaster.go:146-161 | for all answers without a successful receipt a broadcast is no failure exactly when the send was reached and rejected with the already-submitted revert |
| Relayer.OutcomeIsOwed | relayer/internal/service/broadcaster.go:101-165 | sent exactly when nothing before the send failed, the node accepted and the last poll found a successful receipt; already submitted exactly on a rejection with that revert; a failed gas estimate decides nothing |
| Relayer.QueriesInOrder | relayer/internal/service/broadcaster.go:103-155 | which question stands at which place of a broadcast's log, and how many there are |
| Relayer.RecognisedOnlyBySelector | relayer/internal/service/match_already_submitted.go:12-41 | recognised is exactly text data that decodes, after an optional 0x, to at least four bytes of which the first four start the hash of MatchAlreadySubmitted(bytes32) |
| Relayer.DuplicateReverts | oracle/src/MatchRegistry.sol:115-117 | a submission of an identifier stored when it was sent is reverted on any chain it is mined on |
| Limits.DuplicateStaysSigned | relayer/internal/service/broadcaster.go:146-161 | from any initial state, two rows of one identifier are synced, signed and relayed: the second is marked if its transaction is rejected and stays Signed if that is mined and reverted, its identifier being on chain in both cases |
| Relayer.WaitForReceipt | relayer/internal/service/broadcaster.go:171-190 | polls until the first answer or the deadline, no more and no less |
| Relayer.BatchIsolation | relayer/internal/service/broadcaster.go:41-81 | a row becomes Broadcasted exactly when its own broadcast did not fail and its update took; no other column or row changes |
| Relayer.FailuresCount | relayer/internal/service/broadcaster.go:45-47 | the count is the number of failed broadcasts |
| Relayer.FindSignedMatches | relayer/internal/repository/match_repository.go:24-80 | every row of status 4 whose signature decodes, and no other, with its columns, its date as the number YYYYMMDD in 32 bits and its signature's bytes |
| Relayer.SignedAreRead | relayer/internal/repository/match_repository.go:41-73 | read from the rows listed are exactly those with a signature that decodes, column by column |
| Relayer.RecognisedIff | relayer/internal/service/match_already_submitted.go:12-41 | revert data that is an error's selector and its arguments, with or without 0x, is recognised exactly when the contract said already submitted; assumes that no other error has that selector |
| Relayer.ChainClient.SendTransaction | relayer/internal/service/broadcaster.go:146-152 | an accepted transaction may be mined later even if reported as failed; a rejection that reads as already submitted means the identifier is stored |
| Relayer.ChainClient.TransactionReceipt | relayer/internal/service/broadcaster.go:171-178 | a receipt is what the contract did with the transaction on the chain it was mined on, which has grown from the one it was sent to |
| Serial.SignedRowsVerify | oracle/src/MatchRegistry.sol:138-154 | with runs that do not overlap, every Signed row's scores fit a uint8 and its stored signature recovers to a service key under the contract's digest of its current identifier and those scores, after any history of runs and failures |
| Serial.VerifiedCalldata | relayer/internal/service/broadcaster.go:83-99 | for such a row the relayer's calldata carries its very scores and passes the contract's signature check for the key |
| Serial.FreshlySigned | signer/internal/service/sign_match.go:24-76 | a row just signed has scores within a uint8 and a signature that recovers under the contract's digest of them |
| Serial.UpsertKeepsSigned | provider/internal/repository/match_repository.go:36-40 | a re-sync that changes scores cannot leave a Signed row with an old signature |
| Serial.DigestMatchesIff | signer/internal/repository/match_repository.go:55-60 | for any row and any signable item of its identifier, the digest of the row's calldata is the item's exactly when the narrowed scores are the item's |
| Limits.SignedUnderOverlap | signer/internal/repository/match_repository.go:55-60 | in every reachable state, under any overlap, every Signed row carries a service key's signature of its identifier and of scores it was once saved with, and it is of the calldata's digest exactly when the narrowed scores are still those |
| Limits.OldScoresStaySigned | signer/cmd/signer/main.go:73-88 | from any initial state, a correction between snapshot and store leaves the row Signed with a signature of its old scores, which with ideal signatures the contract refuses for every service key |
| Waiting.ChangedIff | relayer/internal/repository/match_repository.go:82-98 | in a reachable state, a Signed row that no signer run holds is changed by an action of any process exactly when that is a taken save of its match or a taken mark of its id, and no signer run comes to hold it |
| Waiting.SignedUntilSaved | provider/internal/repository/match_repository.go:36-40 | over any run, such a row stays exactly as it is until a save of its match takes or its identifier comes on chain |
| Waiting.DuplicateUntilRejected | relayer/internal/service/broadcaster.go:146-161 | over any run, such a row whose identifier is on chain, and for which no relay run holds a success, stays exactly as it is until a save of its match takes or the node rejects its transaction as a duplicate |
| Waiting.CorrectedRowWaits | signer/internal/repository/match_repository.go:55-60 | from any initial state a row comes to be Signed with a signature of another digest than its calldata's, and stays so over any run without a save of its match and without its identifier on chain |
| Waiting.DuplicateWaits | relayer/internal/service/broadcaster.go:154-161 | from any initial state a row comes to be Signed with its identifier on chain, and stays so over any run without a save of its match or a recognised rejection of its transaction |
| Round.FaultFreeRound | oracle/src/MatchRegistry.sol:86-136 | one sync, sign, relay without faults puts every new finished match the contract would take on chain with its own scores and leaves its row Broadcasted, whatever else the round carries |
| Round.SyncedNew | provider/internal/save/save.go:25-47 | through the save loop a new finished match ends as its own row, alone with its identifier |
| Round.Recovery | relayer/internal/service/broadcaster.go:41-81 | whatever earlier runs failed to do, a row left Finished, or left Signed by the authorised signer, that the contract would take is delivered by the next fault-free sign and relay |
| Round.SignedWaiting | signer/cmd/signer/main.go:73-88 | the signer run leaves such a row Signed and verifiable, and still alone with its identifier |
| Round.Delivered | relayer/internal/service/broadcaster.go:41-81 | behind any other transactions its own is taken, stays, and its row is marked |
| Round.CalldataTaken | relayer/internal/service/broadcaster.go:83-99 | the contract refuses nothing in the calldata of a verifiable, deliverable row, and the calldata says what the row says |
| Paths.NothingMissedNothingLost | provider/internal/service/sync.go:92-117 | a whole sync run that passes its day, every stale match inserted and every finished one saved or inserted, has all its matches in the matches table or the queue, then and after any further actions of any process |
| Paths.SyncIsPath | provider/internal/service/sync.go:73-117 | what the sync specification makes of the tables is reached by the machine's actions in a row, and the run leaves a pass on record exactly when its cursor write took and moved, clean exactly when no match was missed |
| Paths.BatchIsPath | provider/internal/service/reconcile.go:51-110 | so is what a reconciler's batch makes of them, whole or cut off by the deadline |
| Paths.ReconcileIsPath | provider/internal/service/reconcile.go:33-112 | so is what a whole reconciler run makes of them, page after page, with any answers of the API, any faults and any ending |
| Paths.AnsweredAllowed | provider/internal/service/reconcile.go:68-105 | the machine's terms for a reconciler's events, a finished match of the entry's own among them, follow from the program's contract when the API answers for the entry it was asked about |
| Paths.SignIsPath | signer/cmd/signer/main.go:73-88 | so is what a signer run makes of them, with the digests it issues |
| Paths.RelayIsPath | relayer/internal/service/broadcaster.go:41-81 | so are rows and chain after a fault-free relay batch |
| Faults.FaultyRelayIsPath | relayer/internal/service/broadcaster.go:41-165 | so are rows and chain after a relay batch with whatever answers of an honest node: the results are those the program owes to its answers, each transaction is executed or not as the node pleases and its receipt allows, others' transactions come before each of them, and updates may be lost |
| Paths.RoundIsReached | relayer/internal/service/broadcaster.go:41-81 | the delivering round leads from any reachable state to a reachable one, where all promises hold |
| Paths.RecoveryIsReached | relayer/internal/service/broadcaster.go:41-81 | and so does the recovering one |
| Oracle.ResubmissionIsStable | oracle/src/MatchRegistry.sol:86-117 | after an acceptance and any further calls, the same id with its matching fields and scores up to 80 reverts with MatchAlreadySubmitted and nothing else, whatever the signature |
| Oracle.StoreIsFoldOfAccepted | oracle/src/MatchRegistry.sol:115-121 | over any calls the store is the fold of the accepted submissions; none is overwritten, removed or accepted twice |
| Oracle.GetMatchReturnsAccepted | oracle/src/MatchRegistry.sol:129-136 | getMatch on four fields returns the entry accepted for them, and the zero entry exactly when none was |
| Oracle.RotationHistory | oracle/src/MatchRegistry.sol:61-73 | rotation targets are non-zero and pairwise distinct, the history holds exactly them, the authorised signer is the last or the deployment's |
| Oracle.SignerReuse | oracle/src/MatchRegistry.sol:56-71 | an address authorised before can be again exactly when it is the deployment's signer and was never a rotation's target |
| Oracle.RotatesIff | oracle/src/MatchRegistry.sol:61-73 | after any calls a rotation succeeds exactly for the owner, on an address that is not zero and was no rotation's target before |
| Oracle.StrangersChangeNothing | oracle/src/MatchRegistry.sol:61 | over any calls none of which the owner sent, submissions included, owner, signer, history and both registries stay as they were |
| Oracle.DateRefusedIff | oracle/src/MatchRegistry.sol:94-97 | for a match the pipeline identifies, with the code of its date, the contract refuses the date exactly for years before 2010 or after 2100 |
| Oracle.DeploymentSignerReturns | oracle/README.md:103 | the documented "cannot be reused" fails after one rotation away and back |
| Oracle.RunsFromDeployment | oracle/src/MatchRegistry.sol:47-124 | from a deployment, over any calls: names stand exactly at 1..counter and never change, the store is the accepted submissions and nothing else, rotations are recorded, the signer is never zero |
| Oracle.DeploymentEstablishes | oracle/src/MatchRegistry.sol:47-59 | a deployment that does not revert satisfies the invariant that every call keeps |
| Oracle.RunKeeps | oracle/src/MatchRegistry.sol:61-124 | from a state that satisfies the invariant, over any calls nothing registered, recorded or stored changes or disappears |
| Oracle.ExecKeeps | oracle/src/MatchRegistry.sol:76-124 | so for each single call |
| Oracle.AddUpToGrows | oracle/src/TeamRegistry.sol:27-39 | a batch takes the next ids in order and changes no name |
| Oracle.BatchSucceedsIff | oracle/src/TeamRegistry.sol:27-51 | a batch succeeds exactly when every name is non-empty and the ids suffice |
| Contracts.MatchRegistry.SubmitMatch | oracle/src/MatchRegistry.sol:76-124 | each error exactly when its check is the first to fail, in the source's order and with its bounds; accepted exactly when none fails and the authorised signer signed the typed data; a revert changes nothing, an acceptance stores exactly its entry |
| Contracts.MatchRegistry.ValidateSignature | oracle/src/MatchRegistry.sol:138-154 | malformed exactly when nobody is recovered from the typed data's hash, invalid exactly when another than the authorised signer is |
| Contracts.MatchRegistry.RotateSigner | oracle/src/MatchRegistry.sol:61-73 | succeeds exactly for the owner on a non-zero address outside the history, each error exactly in its case; then history and signer change together, otherwise nothing does |
| Contracts.MatchRegistry.GetMatch | oracle/src/MatchRegistry.sol:129-136 | the entry at the hash of the packed fields, or zeros |
| Contracts.MatchRegistry.Deploy | oracle/src/MatchRegistry.sol:47-59 | refuses the zero signer and starts with an empty history |
| Contracts.TeamRegistry.Add | oracle/src/TeamRegistry.sol:27-39 | succeeds exactly when every name is non-empty and the ids fit 32 bits; then the names stand at the next ids in order; otherwise nothing changes |
| Contracts.TeamRegistry.AddTeams | oracle/src/TeamRegistry.sol:22-25 | succeeds exactly for the owner with at most 200 non-empty names that fit, and appends them in order |
| Contracts.TeamRegistry.Deploy | oracle/src/TeamRegistry.sol:17-20 | succeeds exactly with at most 200 non-empty names, which stand at ids from one on |
| Contracts.CompetitionRegistry.Deploy | oracle/src/CompetitionRegistry.sol:17-33 | the same; the error of an oversized batch carries the length modulo 256 |
| Contracts.CompetitionRegistry.Add | oracle/src/CompetitionRegistry.sol:35-41 | succeeds exactly for the owner, a non-empty name and a free id, and names the next id |
| Contracts.StaysReverted | oracle/src/TeamRegistry.sol:30-36 | a batch that reverts at one name reverts as a whole with that error |
| Contracts.DeployAll | oracle/script/Deploy.s.sol:43-67 | the three deployments succeed exactly when both batches have at most 200 names, all non-empty, and the signer is not zero; and then the invariant holds |
| Contracts.TransactAll | oracle/src/MatchRegistry.sol:61-124 | any transactions on the three objects leave them as the value-level run of those calls |
| Eip712.DigestAgreement | signer/internal/service/sign_match.go:24-55 | the signer digests exactly 32-byte hex identifiers and scores within uint8, and then its digest is the contract's |
| Eip712.DigestOfTypedData | oracle/src/MatchRegistry.sol:138-151 | the contract's digest is the hash of the typed data as the standard spells it out for this domain and struct |
| Eip712.DomainAgrees | signer/internal/service/sign_match.go:103-117 | the typed domain hashes to the contract's domain separator |
| Eip712.MatchTypeString | oracle/src/MatchRegistry.sol:28 | the type string encoded from the signer's fields is the contract's |
| Eip712.StructPreimageInjective | oracle/src/MatchRegistry.sol:139-146 | distinct (id, home, away) have distinct pre-images |
| Crypto.DigestInjective | oracle/src/MatchRegistry.sol:138-151 | equal digests are of the same match and the same scores |
| Crypto.KeyHashInjective | oracle/src/MatchRegistry.sol:90 | equal identifiers are of equal four numbers |
| Crypto.CanonicalIdIdentifies | provider/internal/entity/match.go:76-95 | two matches share an identifier exactly when competition, teams and date agree |
| Entity.PackedKeyDecodes | provider/internal/entity/match.go:77-90 | the packed key decodes back to its four numbers |
| Entity.PackInjective | oracle/src/MatchRegistry.sol:90 | packing is injective |
| Entity.GenerateMatchId | provider/internal/entity/match.go:76-95 | 64 lower-case hex digits, without a prefix, of the hash the contract computes from the packed fields and the date as YYYYMMDD; an error exactly for a negative year or a number above 32 bits |
| Entity.Uint32ToBytes | provider/internal/entity/match.go:97-101 | four bytes, most significant first, whose weighted sum is the number |
| Entity.NewMatch | provider/internal/entity/match.go:38-74 | every match carries the identifier of its own fields, with status 1 for a missing one; fails exactly for a date without a code |
| Calendar.DateCodesAgree | relayer/internal/repository/match_repository.go:63-64 | the provider's text route has a code exactly when the number YYYYMMDD fits, and then the relayer's arithmetic gives the same |
| Calendar.DateCodesOrdered | provider/internal/entity/match.go:84-90 | codes are ordered as dates |
| Bytes.HexSurvives | relayer/internal/repository/match_repository.go:65-66 | hex text decodes to its bytes through every decoder of the pipeline, with or without 0x |
| Bytes.HexInjective | provider/internal/entity/match.go:94 | different bytes have different texts |
| Bytes.HexIsLower | provider/internal/entity/match.go:94 | hex text is of lower-case digits |
| Bytes.BigEndianRoundTrip | provider/internal/entity/match.go:97-101 | a word decodes to its value |

## Left out

- HTTP fetching and JSON decoding, and whether the providers' date filters include the end date: a fetch is an arbitrary sequence of matches or an error.
- Team and competition mapping tables, name switches, environment, private keys, exit codes other than the relayer's success, logging, Docker, deployment.
- PostgreSQL itself: tables are maps under their unique keys. The `end`, `transaction_hash`, `reconciled_at` and `updated_at` columns decide nothing and are not modelled.
- keccak, ECDSA, typed-data and ABI libraries inside: ideal functions, with the field-by-field typed-data encoding and its range checks written out. The dispatch of `abi.Pack` and the parse of the constant ABI cannot fail on these argument types and are not branches of the model.
- Gas limits, fees and nonce values: only whether each question succeeded; a failed gas estimate is asked and ignored as in the source.
- The 7-second pause and the 500-millisecond ticker: only how many entries or polls fit before the deadline.
- The signer's cached types and domain: one domain for the deployment.
- Time zones: a timestamp has one calendar date for provider and relayer.
- Ownership transfer and renunciation of the contracts; events.
- `FinishMatch`, `FindByCanonicalID`, `FindMostRecentTimestamp`, `IncrementTriesInTx`, `FindByProviderMatchID`: not used by the pipeline's steps.
- The errors for an empty team name and an empty competition name are one value, `EmptyName`; those for oversized batches are one constructor, `TooManyNames`.
- Sync.NoSkippedDay: is about runs one after another; the statement under overlap is Overlap.NoSkippedDayOverlapping.
- Paths.RelayIsPath: is about batches without faults and without others in between; the rest is in Faults.FaultyRelayIsPath.
- Faults.FaultyRelayIsPath: a transaction that is mined after its own broadcast has ended appears among the others' transactions of a later one, not under its own number.
- Contracts.DeployAll: the transfers of ownership to the new owner after each deployment (oracle/script/Deploy.s.sol:49, 58 and 70) are not modelled, because all three contracts have one owner throughout.
