# Verified core of wallet-saas-v2

Dafny models and proofs for the stateful parts of the wallet platform that decide which key
signs, which deposits are seen, and when money moves.

- **HD keys** (`KeyRef`, `HdDerive`, `HdStandard`, `HdAgreement`, `HdPub`, over `Bytes` and `Text`): the sign
  service derives signing keys from a seed (BIP-32, "Child key derivation (CKD) functions";
  BIP-44, "Path levels"; SLIP-0010 for ed25519), publishes account keys, and wallet-core derives
  addresses from them with a second implementation. The hash and the curve are parameters of type
  `Crypto`; the two laws assumed of them are the predicate `Lawful`, and `HdPub.ToyCryptoIsLawful`
  shows that something satisfies them.
- **Deposit scanner** (`Pagination`, `SeenEvents`, `GroupScan`, `ScanCoverage`, `Reorg`,
  `StatusRuns`): pages, checkpoints, the seen-event table and the reorg pass.
- **Outbox** (`Outbox`, `OutboxDispatch`, `OutboxHandling`, `OutboxRuns`, `OutboxFinality`,
  `OutboxRowLife`, `OutboxTicks`, `OutboxReach`): the event table, the four handlers that chain deposit, trigger and
  sweep, all their runs, and the schedules of one scanner process.
- **Endpoint manager** (`EndpointManager`, `EndpointHistory`): breaker, refresh, weighted choice.
- **Limiters** (`RateLimiter`, `LateReadings`, `SlotGate`), **seed vault** (`SeedVault`),
  **idempotency gate** (`IdempotencyGate`, `IdempotencyExposure`) and **replacement fees** (`FeeBump`).

Objects that the services update in place are classes whose methods are proved against a function
of the old state; the theorems are then about every run of those functions. Gateway replies, store
failures, clock readings, random draws and the order of interleaved calls are inputs that the
theorems quantify over. `dafny verify dfyconfig.toml` checks everything.

What the proofs show about the code that its comments and configuration do not say:

- The signer's limiter lets at most 2·max − 1 requests through per window length, not max, and that
  is the best bound. It needs clock readings in lock order, but the reading is taken before the
  lock. With readings at most d behind the newest, d below the window, the bound becomes
  max·(⌊(2·window + d − 2)/(window − d)⌋ + 1); from a lateness of one window on there is no bound
  for any limit, because a newer reading can evict the bucket that an older one still needs.
- wallet-core derives a child where the signer refuses a hardened index, and truncates its 64-bit
  indexes to 32 bits. Wherever wallet-core returns keys, the signer returns the same ones exactly
  when both indexes are below 2^31.
- A fee bump satisfies the ten percent replacement rule for every fee exactly from 1819 basis
  points on. The default of 2000 does.
- A PENDING reservation answers NEW, so identical requests that overlap are both forwarded, and so
  is one that follows a final reply whose commit or reject was lost. A key is kept to one final reply
  if and only if each request is let through while no other is being forwarded and no final reply
  has come back.
- Listing the outbox takes its row locks outside a transaction. Two dispatchers can hold the same
  row, and a late failure report turns a DONE row back to PENDING. With any number of dispatchers a
  DONE row stays as it is if and only if nobody marks it for retry; one dispatcher never does.
- A deposit row that is DONE or FAILED is never written again by one dispatcher, so a later status
  change of the same deposit, such as a reorg, is not delivered through it.
- The reorg pass counts more misses than there were since the last found reply at some point of a
  run exactly when the statement that clears the count of a counted row is lost; no other store
  failure has that effect.
- A refresh that lists an unknown endpoint key twice puts a state object into the pool that the
  state table has lost, so reports never reach it. Every pooled object is tracked if and only if each
  key that is listed again was known before.
- For the four known event types the clamp on the back-off exponent never shows; an unknown type
  would stop at 128 seconds, below its five-minute cap.

## Model

| member | source | states |
|---|---|---|
| `KeyRefs.BuiltIDParses` | services/sign-service/internal/hd/keyref.go:22-58 | a printed key id parses back if and only if the sign type is known and the chain is neither blank nor holds a colon, and then gives the normalized names and the same indexes |
| `KeyRefs.AcceptedIDs` | services/sign-service/internal/hd/keyref.go:26-58 | the texts that are accepted, part by part, and the reference made of them |
| `KeyRefs.IDIsPrinted` | services/sign-service/internal/hd/keyref.go:22-24 | a key id lists hd, sign type, chain, account, change and index, in that order |
| `KeyRefs.ParseThenPrintThenParse` | services/sign-service/internal/hd/keyref.go:26-62 | for every accepted text, the id of the parsed reference parses to that reference |
| `KeyRefs.PrintThenParseThenPrint` | services/sign-service/internal/hd/keyref.go:22-62 | printed ids are fixed points of parse-then-print |
| `KeyRefs.IDsIdentifyRefs` | services/sign-service/internal/hd/keyref.go:26-62 | two accepted ids name the same key exactly when they print the same |
| `KeyRefs.ParsedRefIsNormal` | services/sign-service/internal/hd/keyref.go:26-58 | what is accepted is stored in normal form: normalizing its names again changes nothing |
| `KeyRefs.NormalizeChainIsIdempotent` | services/sign-service/internal/hd/keyref.go:150-173 | normalizing a chain name twice is normalizing it once, and a colon neither appears nor disappears |
| `KeyRefs.PathShapes` | services/sign-service/internal/hd/keyref.go:92-129 | the five indexes of a path: 44, coin and account hardened, change and index hardened for ed25519 only, and the account path as its head |
| `KeyRefs.Ed25519PathIsHardened` | services/sign-service/internal/hd/keyref.go:92-117 | an ed25519 path is hardened throughout exactly when all indexes are below 2^31 |
| `HdStandard.PathIsPrinted` | services/sign-service/internal/hd/keyref.go:64-117 | the printed derivation path is the path that is derived, hardened indexes with an apostrophe |
| `HdStandard.AccountPathIsPrinted` | services/sign-service/internal/hd/keyref.go:79-129 | the printed account path is the account path that is derived |
| `KeyRefs.CoinTypesOfNames` | services/sign-service/internal/hd/keyref.go:175-210 | which chain has which coin type, each its own |
| `KeyRefs.EvmChainsShareOneCoin` | services/sign-service/internal/hd/keyref.go:175-210 | exactly the nine EVM chains have coin type 60 |
| `KeyRefs.TickersOfChains` | services/sign-service/internal/hd/keyref.go:150-173 | each ticker stands for its own chain and no other |
| `KeyRefs.SignTypes` | services/sign-service/internal/hd/keyref.go:139-148 | the sign types that are known, and by which names |
| `KeyRefs.Harden` | services/sign-service/internal/hd/keyref.go:92-117 | uint32 addition hardens an index below 2^31 by adding 2^31, and takes it off from there on |
| `ByteStrings.PaddedNumber` | services/sign-service/internal/hd/derive.go:350-357 | left-padding a scalar to a width it fits in keeps its value and gives that width |
| `ByteStrings.Uint32BytesIsBigEndian` | services/sign-service/internal/hd/derive.go:346-348 | an index is hashed as four bytes, most significant first |
| `ByteStrings.PrefixedHexRoundTrip` | services/sign-service/internal/hd/derive.go:359-362 | hex arguments decode to the bytes they encode, with blanks around and 0x or 0X in front |
| `ByteStrings.HexOfBytes` | services/sign-service/internal/hd/derive.go:157-171 | bytes are printed in order, high digit first, in lower case |
| `HdStandard.MasterIsStandard` | services/sign-service/internal/hd/derive.go:199-207 | the master key and chain code are the halves of the hash keyed with "Bitcoin seed", and exist exactly for a left half in [1, N-1] |
| `HdStandard.PrivateChildIsStandard` | services/sign-service/internal/hd/derive.go:209-240 | CKDpriv of BIP-32: hashed data by index, child key as left half plus parent key modulo N, chain code as right half, and exactly when there is a child |
| `HdStandard.PublicChildIsStandard` | services/sign-service/internal/hd/derive.go:242-271 | CKDpub of BIP-32 for normal indexes, with its exact success condition |
| `HdStandard.IndexesAreHashedApart` | services/sign-service/internal/hd/derive.go:209-240 | under one parent key different indexes hash different data |
| `HdStandard.PathGrows` | services/sign-service/internal/hd/derive.go:173-185 | one more index on a path derives one more child |
| `HdStandard.EdMasterIsStandard` | services/sign-service/internal/hd/derive.go:326-329 | the ed25519 master key of SLIP-0010 |
| `HdStandard.EdChildIsStandard` | services/sign-service/internal/hd/derive.go:331-338 | the ed25519 child key of SLIP-0010 |
| `HdDerive.DeriveECDSAKeyState` | services/sign-service/internal/hd/derive.go:173-185 | the loop over the path computes the recursive walk, and a result is a 32-byte key in [1, N-1] with a 32-byte chain code |
| `HdDerive.SecpChildIsValid` | services/sign-service/internal/hd/derive.go:209-240 | any child that derives is a valid key state, whatever the parent |
| `HdDerive.EveryLevelIsInRange` | services/sign-service/internal/hd/derive.go:173-240 | every prefix of a derivable path derives, to a key of 32 bytes in [1, N-1] |
| `HdDerive.DeriveEdDSAKeyState` | services/sign-service/internal/hd/derive.go:297-338 | the ed25519 loop computes the recursive walk and succeeds exactly when every index is hardened |
| `HdAgreement.ChildCommutes` | services/sign-service/internal/hd/derive.go:209-271 | at a normal index, deriving privately then publishing equals publishing then deriving |
| `HdAgreement.AccountChildCommutes` | services/sign-service/internal/hd/derive.go:157-171 | the two public levels below an account give the public key of the two private levels |
| `HdAgreement.SigningKeyIsAtPath` | services/sign-service/internal/hd/derive.go:59-92 | the signing key is the key derived along the reference's path |
| `HdAgreement.AccountIsPublished` | services/sign-service/internal/hd/derive.go:118-155 | the published account fields are the compressed and uncompressed public key and the chain code at the account path |
| `HdAgreement.SigningAndPublicKeysAgree` | services/sign-service/internal/hd/derive.go:34-171 | whenever the signing key derives, the address key derives if and only if change and index are below 2^31, and is then the compressed and the uncompressed point of that signing key |
| `HdAgreement.Ed25519KeysAgree` | services/sign-service/internal/hd/derive.go:34-92 | both ed25519 sides succeed together, exactly below 2^31, and the public key is the tail of the private one |
| `HdAgreement.Ed25519KeysAreAtPath` | services/sign-service/internal/hd/derive.go:297-324 | both ed25519 keys come from the key derived along the reference's path |
| `HdPub.ImplementationsAgree` | services/wallet-core/internal/hdpub/ecdsa.go:15-68 | for all strings and indexes below 2^31 wallet-core and the signer return the same keys or the same error; from 2^31 on the signer refuses; where wallet-core succeeds the two agree if and only if both indexes are below 2^31 |
| `HdPub.HardenedKeysDiffer` | services/wallet-core/internal/hdpub/ecdsa.go:15-68 | over any curve, wherever a hardened child exists wallet-core returns it and the signer refuses |
| `HdPub.IndexesWrap` | services/wallet-core/internal/hdpub/ecdsa.go:15-40 | wallet-core hands out one key for all indexes equal modulo 2^32 |
| `HdPub.NegativeIndexesAreRefused` | services/wallet-core/internal/hdpub/ecdsa.go:15-40 | exactly the negative indexes are refused as such |
| `HdPub.PublishedAccountDerivesSameChild` | services/sign-service/internal/hd/derive.go:118-155 | the published account key and chain code lead wallet-core to the signer's child key, through hex and back |
| `HdPub.WatchOnlyKeyIsTheSigningKey` | services/wallet-core/internal/hdpub/ecdsa.go:15-68 | end to end, wallet-core's child is the public key of the signer's private key |
| `HdPub.HardenedIndexExample` | services/wallet-core/internal/hdpub/ecdsa.go:15-68 | a concrete account and hardened index where wallet-core's exported function returns a key and the signer's refuses, over the integers modulo N |
| `Pagination.Guard.Observe` | services/scan-account-service/internal/worker/scanner_utils.go:160-185 | the guard's new memory and verdict are those of the step function on its old memory |
| `Pagination.VerdictIsExact` | services/scan-account-service/internal/worker/scanner_utils.go:160-185 | the verdict on the last page from the pages alone: blank and standing cursors, trailing empty pages, earlier advances to the cursor |
| `Pagination.AdvancesAreCounted` | services/scan-account-service/internal/worker/scanner_utils.go:178-184 | the stall counters count exactly how often the scan advanced to each cursor, and none passes the guard |
| `Pagination.NoCursorTwiceTooOften` | services/scan-account-service/internal/worker/scanner_utils.go:160-185 | no cursor is advanced to more than g times |
| `Pagination.PagesAreBounded` | services/scan-account-service/internal/worker/scanner_utils.go:160-185 | a gateway that draws cursors from N values is asked for at most N*g+1 pages |
| `Pagination.EmptyRunEndsScan` | services/scan-account-service/internal/worker/scanner_utils.go:164-177 | any run of e consecutive empty pages is the end of the scan |
| `SeenEvents.MoreConfirmations` | services/scan-account-service/internal/worker/scanner_utils.go:79-123 | more confirmations never lower the status or leave the ledger's CONFIRMED |
| `SeenEvents.StatusNeeds` | services/scan-account-service/internal/worker/scanner_utils.go:79-123 | what each status needs: the ledger sees CONFIRMED exactly from the minimum on, at least one; FINALIZED exactly from the unlock threshold, or the minimum plus the reorg window |
| `SeenEvents.TerminalWords` | services/scan-account-service/internal/worker/scanner_utils.go:79-86 | which words of the chain decide the status alone, and how |
| `StatusRuns.ConfirmedRowsHaveMinimum` | services/scan-account-service/internal/worker/scanner_utils.go:79-123 | in any run, whatever fails, a row that is CONFIRMED for the ledger has at least its watch's minimum of confirmations |
| `SeenEvents.SeenTable.UpsertSeenEvent` | services/scan-account-service/internal/store/postgres.go:317-395 | when a sighting is news, the row it then leaves, and the reported change, old and new status and confirmations |
| `SeenEvents.SeenTable.IncrementNotFound` | services/scan-account-service/internal/store/postgres.go:491-504 | the count of the row goes up by one and is returned; a missing row is an error |
| `SeenEvents.SeenTable.ResetNotFound` | services/scan-account-service/internal/store/postgres.go:506-514 | the count of the row, if any, is cleared and nothing else changes |
| `SeenEvents.LastSightingDecides` | services/scan-account-service/internal/store/postgres.go:356-394 | after any sequence of sightings a row has the status of its last one |
| `SeenEvents.NotifiesOncePerCount` | services/scan-account-service/internal/store/postgres.go:356-394 | a steady event notifies exactly once per distinct confirmation count |
| `StatusRuns.StatusNeverFallsInRuns` | services/scan-account-service/internal/store/postgres.go:317-395 | over every steady run of scans and reorg checks, whichever store statements fail, the status rank never falls, the ledger status never leaves CONFIRMED, and the row notifies at most once per distinct stored confirmation count, exactly once if no stored statement reported an error |
| `StatusRuns.RunShowsSightings` | services/scan-account-service/internal/worker/scanner_reorg.go:43-77 | not-found counts aside, a run of scans and checks shows for each row what storing its sightings shows |
| `GroupScan.Scanner.RecordMatches` | services/scan-account-service/internal/worker/scanner_deposit.go:197-231 | the innermost loop stores a prefix of the sightings owed; if it succeeds, all of them, with an event enqueued for exactly those that were news; it succeeds if the store does |
| `GroupScan.Scanner.RecordPage` | services/scan-account-service/internal/worker/scanner_deposit.go:179-232 | the transfer loop stores a prefix of the page's sightings; if it succeeds, all of them, with an event for exactly the news; it succeeds if the store does |
| `GroupScan.Scanner.ScanPages` | services/scan-account-service/internal/worker/scanner_deposit.go:144-249 | the fetched pages form a chain of cursors up to the page limit or the guard's stop, rows and events are those of the page sightings, and the next checkpoint follows the verdicts |
| `GroupScan.Scanner.ScanGroup` | services/scan-account-service/internal/worker/scanner_deposit.go:112-262 | a completed scan ran to its end and wrote every owed row and then the checkpoint; a failed one wrote some rows and left the checkpoint alone, unless the checkpoint statement itself was applied and still reported an error; it fails on a blank network, and succeeds when store and gateway do |
| `ScanCoverage.FinishedScanMovesCheckpoint` | services/scan-account-service/internal/store/postgres.go:302-315 | every finished scan moves the checkpoint to the cursor past its pages, unless both are numbers and that cursor is strictly below |
| `ScanCoverage.NextScanStartsThere` | services/scan-account-service/internal/store/postgres.go:271-300 | so the next scan starts at that cursor or numerically beyond it |
| `ScanCoverage.SightingsAreOwed` | services/scan-account-service/internal/worker/scanner_deposit.go:179-205 | nothing is stored but sightings of transfers owed to a watch of the scan |
| `ScanCoverage.FirstSightingShowsTransfer` | services/scan-account-service/internal/worker/scanner_deposit.go:193-208 | the row a first sighting leaves: key, amount, sender, recipient, confirmations and status of the transfer, and no other row changes |
| `ScanCoverage.CompletedScanCovers` | services/scan-account-service/internal/worker/scanner_deposit.go:179-232 | after a scan that reached its checkpoint, whatever other writers added, every transfer on every fetched page that is not internal and pays a watch has its row |
| `ScanCoverage.MixedScanIsAStep` | services/scan-account-service/internal/worker/scanner_deposit.go:60-86 | a scan whose row statements mix in any order with those of groups scanned beside it still counts as a step of the runs below |
| `ScanCoverage.ScansAreSteps` | services/scan-account-service/internal/worker/scanner_deposit.go:112-262 | both ends of the group scan are steps of the runs below |
| `ScanCoverage.CheckpointFollowsPages` | services/scan-account-service/internal/worker/scanner_deposit.go:234-253 | the cursor to store is reached from the start cursor through fetched pages only |
| `ScanCoverage.CheckpointIsEarned` | services/scan-account-service/internal/worker/scanner_deposit.go:112-262 | over every run of scans with arbitrary pages and failures, and with other groups, addresses and the reorg pass writing rows meanwhile, the stored checkpoint is reached from where scanning began (the first checkpoint, or the address cursor of the first scan to finish) only through pages that scans of the run fetched, in that order, all of whose owed transfers have seen-event rows; without a checkpoint no scan finished |
| `ScanCoverage.NumericCheckpointsDoNotFall` | services/scan-account-service/internal/store/postgres.go:302-315 | over any stretch of a run in which the stored checkpoint is always numeric it never decreases |
| `Reorg.ReconcileCandidates` | services/scan-account-service/internal/worker/scanner_reorg.go:23-99 | the loop over the candidates applies each reply to its row in turn, whichever store statements fail, before or after being applied, and enqueues an event for exactly the sightings that were stored as news without error |
| `Reorg.PassIsARun` | services/scan-account-service/internal/worker/scanner_reorg.go:11-99 | within a pass the listed copies are never stale, so the pass is a run of checks of current rows |
| `Reorg.PassChecksEach` | services/scan-account-service/internal/worker/scanner_reorg.go:23-40 | each candidate of a listing is checked once from the row it was listed with, unless its network is blank |
| `Reorg.CheckShows` | services/scan-account-service/internal/worker/scanner_reorg.go:43-95 | what a check with a working store leaves in the row for each kind of reply, and that an event is due exactly if status or confirmations moved |
| `Reorg.CountNeverExceedsMisses` | services/scan-account-service/internal/store/postgres.go:376-380 | in every run that loses no reset of the event, whatever else fails, the stored count is at most the number of consecutive not-found replies since the last found one |
| `Reorg.CountStepIsExact` | services/scan-account-service/internal/worker/scanner_reorg.go:43-77 | a step takes the count above the misses if and only if the row is counted and the reset of a found reply is lost |
| `Reorg.CountIsExact` | services/scan-account-service/internal/worker/scanner_reorg.go:43-77 | over every run the count stays within the consecutive misses at each point if and only if no found reply loses the reset of the row while it is counted |
| `Reorg.AbsenceNeedsEnoughMisses` | services/scan-account-service/internal/worker/scanner_reorg.go:43-77 | a row turns REORGED for absence only after at least threshold consecutive misses |
| `Reorg.EnoughMissesMark` | services/scan-account-service/internal/worker/scanner_reorg.go:43-77 | with a working store, threshold misses in a row do mark the row |
| `Outbox.PrintedKeysDiffer` | services/scan-account-service/internal/worker/scanner_utils.go:26-40 | rows of different kinds or deposits never share an event key |
| `Outbox.PrintedWords` | services/scan-account-service/internal/worker/scanner_utils.go:26-40 | the word each kind of key starts with |
| `Outbox.DepositKeysDiffer` | services/scan-account-service/internal/worker/scanner_utils.go:26-28 | for names without colons deposits share a key exactly if tenant, chain, network and hash agree in normal form and the index is the same |
| `Outbox.OutboxTable.UpsertOutboxEvent` | services/scan-account-service/internal/store/postgres.go:516-548 | an acceptable event sets or resets its row unless the row is DONE or FAILED |
| `Outbox.OutboxTable.InsertOutboxEventIfAbsent` | services/scan-account-service/internal/store/postgres.go:550-582 | an acceptable event sets its row only if there is none or it is FAILED |
| `Outbox.OutboxTable.ListPendingOutboxEvents` | services/scan-account-service/internal/store/postgres.go:584-616 | the listing is the first due rows by id up to the limit, each as it stands, no key twice |
| `Outbox.ListingIsComplete` | services/scan-account-service/internal/store/postgres.go:584-616 | no due row is passed over |
| `Outbox.ListingIsExact` | services/scan-account-service/internal/store/postgres.go:594-603 | a row is listed exactly if it is PENDING, due and of an allowed chain |
| `Outbox.OutboxTable.MarkOutboxEventDone` | services/scan-account-service/internal/store/postgres.go:618-625 | the row becomes DONE and nothing else changes |
| `Outbox.OutboxTable.MarkOutboxEventRetry` | services/scan-account-service/internal/store/postgres.go:627-648 | attempt, state and retry time follow from the listed attempt, and the payload stays |
| `Outbox.BackoffIsMonotone` | services/scan-account-service/internal/store/postgres.go:650-675 | the delay is nondecreasing in the attempt and stays within first delay and cap, for every type |
| `Outbox.DelaysOfTypes` | services/scan-account-service/internal/store/postgres.go:650-675 | in seconds, where each type's delay starts, and where and from which attempt on it ends up |
| `Outbox.BackoffIsCappedDoubling` | services/scan-account-service/internal/store/postgres.go:650-675 | for the four known types the delay is unclamped doubling cut at the cap |
| `Outbox.UnknownTypesStopShort` | services/scan-account-service/internal/store/postgres.go:650-675 | for any other type the delay stops at 128 seconds, below its cap |
| `OutboxDispatch.Dispatcher.EnqueueDepositEvent` | services/scan-account-service/internal/worker/scanner_deposit.go:348-395 | the row a scan or reorg pass asks for, built from the watch and the transfer, for every outcome of the statement |
| `OutboxDispatch.ThresholdOnNumbers` | services/scan-account-service/internal/worker/scanner_utils.go:57-70 | on integers the threshold is met exactly strictly above it; a blank one always, and no other text ever |
| `OutboxDispatch.OrderIdIsPrinted` | services/scan-account-service/internal/worker/scanner_utils.go:18-24 | order ids name the transfer, its index, the account and the network |
| `OutboxDispatch.Dispatcher.HandleDepositOutboxEvent` | services/scan-account-service/internal/worker/scanner_outbox.go:97-139 | rows, calls and outcome of the deposit handler for every answer of the ledger and the store |
| `OutboxDispatch.Dispatcher.HandleSweepTriggerOutboxEvent` | services/scan-account-service/internal/worker/scanner_outbox.go:153-207 | rows, calls and outcome of the trigger handler for every balance reply and every outcome of the insert |
| `OutboxDispatch.Dispatcher.HandleEvent` | services/scan-account-service/internal/worker/scanner_outbox.go:141-230 | the handler is chosen by the event's kind; a payload of another shape fails |
| `OutboxDispatch.Dispatcher.DispatchOutbox` | services/scan-account-service/internal/worker/scanner_outbox.go:61-95 | a pass handles and marks the listed rows in order, whatever the answers and whichever marks fail |
| `OutboxHandling.HandlerAnswers` | services/scan-account-service/internal/worker/scanner_outbox.go:97-230 | exactly when the work of an event succeeds |
| `OutboxHandling.DispatchSettles` | services/scan-account-service/internal/worker/scanner_outbox.go:69-93 | a dispatched row becomes DONE if and only if its work succeeded, and otherwise has used one more attempt, FAILED when none is left, due again after its delay |
| `OutboxHandling.PassSettlesEach` | services/scan-account-service/internal/worker/scanner_outbox.go:61-95 | a pass settles every event of its listing that way |
| `OutboxHandling.DepositIsReported` | services/scan-account-service/internal/worker/scanner_outbox.go:97-124 | the ledger is called exactly if nothing it needs is blank |
| `OutboxHandling.BalanceIsRead` | services/scan-account-service/internal/worker/scanner_outbox.go:153-175 | the balance of the watched address is read exactly if a sweep is wanted |
| `OutboxHandling.ProjectsAndSweepsAreCalled` | services/scan-account-service/internal/worker/scanner_outbox.go:141-230 | a project is told and a sweep run exactly if asked for and complete |
| `OutboxHandling.ConfirmedDepositIsFollowed` | services/scan-account-service/internal/worker/scanner_outbox.go:125-139 | a confirmed deposit that the ledger took is followed by the project and trigger events its watch asks for |
| `OutboxHandling.SufficientBalanceIsFollowed` | services/scan-account-service/internal/worker/scanner_outbox.go:176-207 | a sufficient balance is followed by the sweep event |
| `OutboxHandling.NothingElseFollows` | services/scan-account-service/internal/worker/scanner_outbox.go:97-207 | no event follows an unconfirmed or refused deposit, nor a balance at or below the threshold |
| `OutboxRuns.StepKeepsJustified` | services/scan-account-service/internal/worker/scanner_outbox.go:97-230 | every atomic step of any dispatcher keeps each row and listing justified by earlier calls |
| `OutboxRuns.SweepsAreEarned` | services/scan-account-service/internal/worker/scanner_outbox.go:97-230 | over every run from an empty outbox each SweepRun call goes back to an enqueue for an auto-sweep watch and a CONFIRMED or FINALIZED transfer: the ledger accepted its notification, then the balance of the watched address was read as an integer strictly above the threshold in force, and the sweep moves the transfer's amount from the watch's account to its treasury, another account |
| `OutboxRuns.NotificationsShowTransfers` | services/scan-account-service/internal/worker/scanner_deposit.go:348-376 | over every such run what the ledger is told is, field by field, the watch and the transfer of some enqueue |
| `OutboxRuns.ProjectNoticesAreEarned` | services/scan-account-service/internal/worker/scanner_outbox.go:97-151 | over every such run a project is told of a deposit only after the ledger accepted it as CONFIRMED, and never of a deposit on the treasury itself |
| `OutboxReach.SweepIsReachable` | services/scan-account-service/internal/worker/scanner_outbox.go:97-230 | conversely, a complete auto-sweep deposit with a sufficient balance can reach its sweep |
| `OutboxRowLife.RowsStaySound` | services/scan-account-service/internal/store/postgres.go:516-648 | over timely runs a PENDING row has attempts left, FAILED holds exactly when none are, and a row is marked at most max times between resets |
| `OutboxTicks.HandledAtMostMaxTimes` | services/scan-account-service/internal/worker/scanner_outbox.go:61-95 | over every schedule of enqueues and passes of one process, counting each call of a handler: a row is handled at most max times between resets, lost marks aside; PENDING has attempts left and FAILED holds exactly when none are |
| `OutboxTicks.PassKeepsCounts` | services/scan-account-service/internal/worker/scanner_outbox.go:69-93 | a pass keeps handlings less lost marks equal to the attempts of every row, plus one if it is DONE |
| `OutboxTicks.PassIsCounted` | services/scan-account-service/internal/worker/scanner_outbox.go:61-95 | the pass that counts handlings is the dispatcher's pass |
| `OutboxRowLife.HandlersOnlySpawn` | services/scan-account-service/internal/worker/scanner_outbox.go:97-230 | handlers change no row except by setting an absent or FAILED one |
| `OutboxFinality.FinalStepIsExact` | services/scan-account-service/internal/store/postgres.go:516-648 | for every step the code can take, with any dispatchers, a settled row survives it if and only if the step is not an unsettling mark of its key |
| `OutboxFinality.FinalityIsExact` | services/scan-account-service/internal/store/postgres.go:516-648 | over every run a DONE row, or a FAILED deposit row, stays settled up to a point if and only if no unsettling mark of its key comes before it |
| `OutboxFinality.DoneIsFinalUnlessRetried` | services/scan-account-service/internal/store/postgres.go:618-648 | over every run a DONE row is the very same row throughout if and only if nobody marks it for retry |
| `OutboxRowLife.FinalRowsAreFrozen` | services/scan-account-service/internal/store/postgres.go:516-582 | so with one dispatcher a DONE row, or a FAILED deposit row, never changes again, payload included |
| `OutboxRowLife.UntimelyRetryRevivesDone` | services/scan-account-service/internal/store/postgres.go:627-648 | a second dispatcher's late failure report turns a DONE row back to PENDING |
| `OutboxRowLife.PassIsARun` | services/scan-account-service/internal/worker/scanner_outbox.go:61-95 | a dispatcher's pass over a listing is a run of atomic steps with timely marks, since handlers leave queued rows alone |
| `OutboxRowLife.DispatchOutboxIsARun` | services/scan-account-service/internal/worker/scanner_outbox.go:61-95 | listing and pass together extend any timely run, so every theorem about runs holds of the dispatcher |
| `EndpointManager.PickIndexIsInterval` | services/chain-gateway/internal/endpoint/manager.go:193-208 | a draw selects endpoint i exactly when it falls in i's slice of the weights |
| `EndpointManager.ChoiceIsExact` | services/chain-gateway/internal/endpoint/manager.go:193-208 | exactly effectiveWeight(i) of the possible draws select endpoint i |
| `EndpointManager.PickWeighted` | services/chain-gateway/internal/endpoint/manager.go:193-208 | the accumulator loops return that endpoint, and both fallback returns are unreachable |
| `EndpointManager.SoonestOf` | services/chain-gateway/internal/endpoint/manager.go:182-191 | with every circuit open the first endpoint with the least openUntil is chosen |
| `EndpointManager.FilterAvailable` | services/chain-gateway/internal/endpoint/manager.go:176-181 | the candidates kept are those that the choice is made from, in pool order |
| `EndpointManager.AvailableIsClosed` | services/chain-gateway/internal/endpoint/manager.go:176-181 | exactly the pool members whose openUntil is unset or not after now are available |
| `EndpointManager.Manager.Select` | services/chain-gateway/internal/endpoint/manager.go:156-209 | the errors, and otherwise a pool member's endpoint: with any circuit of the pool closed one whose circuit is, by weight; with all open one that closes first |
| `EndpointHistory.TrippedIsAvoided` | services/chain-gateway/internal/endpoint/manager.go:171-208 | for openDuration after the failure that tripped it an endpoint is not chosen while another circuit of its pool is closed |
| `EndpointHistory.TrippedIsOpen` | services/chain-gateway/internal/endpoint/manager.go:231-258 | a circuit is closed exactly below the threshold or once openDuration is over since the last trip |
| `EndpointManager.PoolsAreApart` | services/chain-gateway/internal/endpoint/manager.go:331-337 | for names without bars an endpoint is in a pool exactly if chain, network and model agree |
| `EndpointManager.EndpointsAreApart` | services/chain-gateway/internal/endpoint/manager.go:331-337 | and endpoints share a key exactly if the url agrees as well |
| `EndpointManager.Manager.Refresh` | services/chain-gateway/internal/endpoint/manager.go:120-154 | for any list: listed endpoints keep their health and state object and take the listed data, others go, and pools list the objects in order, each tracked by the state table unless an unknown key is listed again |
| `EndpointManager.RefreshedKeys` | services/chain-gateway/internal/endpoint/manager.go:120-154 | exactly the listed keys are known after a refresh |
| `EndpointManager.RefreshedData` | services/chain-gateway/internal/endpoint/manager.go:120-154 | each has the data listed last under it, and the health it had, or a new one's if it was unknown |
| `EndpointManager.MembersAreListed` | services/chain-gateway/internal/endpoint/manager.go:120-154 | a pool member is the object of a listed endpoint of that pool |
| `EndpointManager.PoolShape` | services/chain-gateway/internal/endpoint/manager.go:120-154 | each pool holds exactly the objects of its listed endpoints in list order |
| `EndpointManager.PoolsAreTrackedExactly` | services/chain-gateway/internal/endpoint/manager.go:120-154 | every pooled object is in the state table if and only if each key that is listed again was known before |
| `EndpointManager.Manager.ReportSuccess` | services/chain-gateway/internal/endpoint/manager.go:211-229 | success resets the breaker of that endpoint and eases its penalty by one, and touches no other |
| `EndpointManager.Manager.ReportFailure` | services/chain-gateway/internal/endpoint/manager.go:231-258 | failure advances the breaker and penalty of that endpoint and touches no other |
| `EndpointHistory.BreakerRemembers` | services/chain-gateway/internal/endpoint/manager.go:120-258 | after n failures since the last success, through any refreshes that keep the endpoint, the streak is n mod threshold and openUntil is unset below the threshold and otherwise set by the latest multiple-of-threshold failure |
| `EndpointHistory.WeightStaysInRange` | services/chain-gateway/internal/endpoint/manager.go:339-348 | at any point of any run the effective weight is between 1 and the listed weight, or 1 if that is lower |
| `EndpointManager.WeightSteps` | services/chain-gateway/internal/endpoint/manager.go:211-258 | a new endpoint has its listed weight; each failure takes one off, down to one, and each success gives one back |
| `EndpointHistory.KeysNameEndpoints` | services/chain-gateway/internal/endpoint/manager.go:120-154 | at any point of any run each endpoint is filed under its own key |
| `RateLimiter.Engine.Admit` | services/sign-service/internal/policy/engine.go:135-160 | a request is refused exactly if its key has used up the limit in a running window; above 10000 buckets the expired ones go, below none |
| `RateLimiter.BucketsAreApart` | services/sign-service/internal/policy/engine.go:136-136 | requests share a bucket exactly if token, tenant and operation agree, bars aside |
| `RateLimiter.KeysDoNotInterfere` | services/sign-service/internal/policy/engine.go:150-160 | what a key gets is what it would get if it were alone |
| `RateLimiter.Engine.EvictExpired` | services/sign-service/internal/policy/engine.go:142-148 | whatever the order of the map, exactly the expired buckets go |
| `RateLimiter.EvictionIsInvisible` | services/sign-service/internal/policy/engine.go:142-154 | with a monotone clock, eviction changes no answer, for every interleaving of keys |
| `RateLimiter.WindowBound` | services/sign-service/internal/policy/engine.go:135-160 | with a monotone clock any interval of one window length admits at most 2*max-1 requests of a key |
| `RateLimiter.WindowBoundIsTight` | services/sign-service/internal/policy/engine.go:135-160 | for every limit and window of two ticks or more some run reaches that bound |
| `LateReadings.LateWindowBound` | services/sign-service/internal/policy/engine.go:135-160 | with readings at most d behind the newest, for every d below the window and with eviction, any interval of one window length admits at most max*(floor((2*window+d-2)/(window-d))+1) requests of a key |
| `LateReadings.NeverLateIsMonotone` | services/sign-service/internal/policy/engine.go:135-160 | lateness zero is exactly the monotone clock of the sharper bound |
| `LateReadings.StaleReadingsBreakTheBound` | services/sign-service/internal/policy/engine.go:135-160 | from a lateness of one window on, for every limit and every n, some run admits n requests of a key to one window |
| `LateReadings.BoundExistsExactly` | services/sign-service/internal/policy/engine.go:135-160 | for every limit some bound holds if and only if readings are less than one window late |
| `SlotGate.Gate.WaitTurn` | services/scan-account-service/internal/client/chain_gateway.go:379-394 | the slot handed out and the next one reserved |
| `SlotGate.SlotIsEarliest` | services/scan-account-service/internal/client/chain_gateway.go:379-394 | each slot is the earliest time not before the reading and one interval after the previous slot |
| `SlotGate.SpanBound` | services/scan-account-service/internal/client/chain_gateway.go:379-394 | for every sequence of callers a span of length L holds at most floor(L/interval)+1 slots |
| `SlotGate.SpanBoundIsTight` | services/scan-account-service/internal/client/chain_gateway.go:379-394 | enough callers arriving together fill a span to that bound |
| `SeedVault.EnvelopeRoundTrip` | services/sign-service/internal/keystore/crypto.go:16-77 | decrypting the envelope returns the seed, given only that open inverts seal |
| `SeedVault.EnvelopeLayout` | services/sign-service/internal/keystore/crypto.go:16-44 | the bytes of the envelope: sv1, salt, nonce, sealed seed bound to its storage key |
| `SeedVault.EnvelopeOpens` | services/sign-service/internal/keystore/crypto.go:46-77 | what opens, and the error for what does not |
| `SeedVault.WrittenLoads` | services/sign-service/internal/keystore/keys.go:71-147 | a written slot loads its seed and no other slot changes |
| `SeedVault.Keys.LoadSeed` | services/sign-service/internal/keystore/keys.go:71-98 | the seed or the error for blank, absent, empty and unreadable slots |
| `SeedVault.Keys.ProvisionSeed` | services/sign-service/internal/keystore/keys.go:100-125 | a slot that holds anything is never overwritten |
| `SeedVault.Keys.ReplaceSeed` | services/sign-service/internal/keystore/keys.go:127-147 | the slot is overwritten unless an argument is blank |
| `SeedVault.RunKeepsAgreement` | services/sign-service/internal/keystore/keys.go:52-125 | over every interleaving without replacement each successful call holds the seed the stored envelope opens to |
| `SeedVault.FirstCallCreates` | services/sign-service/internal/keystore/keys.go:52-69 | the first call on an empty slot creates the seed where that is allowed, and the slot then loads it |
| `SeedVault.LaterCallLoads` | services/sign-service/internal/keystore/keys.go:52-98 | a later call returns that seed and changes nothing |
| `SeedVault.SeedsAgree` | services/sign-service/internal/keystore/keys.go:52-125 | any two successful calls on one slot return the same seed |
| `IdempotencyGate.Table.Reserve` | services/api-gateway/internal/security/postgres.go:156-179 | the row that is there afterwards and the answer for each stored state |
| `IdempotencyGate.Table.Commit` | services/api-gateway/internal/security/postgres.go:181-188 | the row becomes SUCCESS with the body and keeps its hash |
| `IdempotencyGate.Table.Reject` | services/api-gateway/internal/security/postgres.go:190-197 | the row becomes FAILED with the reason and keeps its hash |
| `IdempotencyGate.SettlesByStatus` | services/api-gateway/internal/transport/http/proxy.go:303-313 | 2xx commits the body, 4xx rejects with the status, anything else leaves the row open |
| `IdempotencyGate.RowsEvolve` | services/api-gateway/internal/security/postgres.go:156-197 | over every interleaving rows stay, hashes never change and PENDING is never re-entered |
| `IdempotencyGate.OnlyMatchingHashesGetThrough` | services/api-gateway/internal/transport/http/proxy.go:274-313 | a request past the gate carries the stored hash of its key |
| `IdempotencyGate.LaterAnswers` | services/api-gateway/internal/security/postgres.go:156-179 | at any later point another hash gets Conflict, and no answer is New once the row has left PENDING |
| `IdempotencyGate.OverlapForwardsTwice` | services/api-gateway/internal/security/postgres.go:156-179 | from an empty table two requests with one key and hash that overlap both get through and both bring back the final reply |
| `IdempotencyGate.AtMostOneFinalReply` | services/api-gateway/internal/transport/http/proxy.go:274-313 | if no request is let through while another is in flight and final replies are settled, however reservations fail, there is at most one 2xx or 4xx reply per key; after a 2xx exactly its body is replayed, and after a 4xx the request is rejected |
| `IdempotencyExposure.OneFinalReplyIsExact` | services/api-gateway/internal/transport/http/proxy.go:274-313 | over every interleaving and failure, at each point of a run no answers can bring a second final reply if and only if each request was let through with no other being forwarded and no final reply received |
| `IdempotencyExposure.ExposureIsExact` | services/api-gateway/internal/transport/http/proxy.go:274-313 | from any state, the final replies that requests already let through can bring stay within n if and only if replies so far plus requests being forwarded are within n |
| `IdempotencyExposure.OverlapIsExposed` | services/api-gateway/internal/transport/http/proxy.go:274-313 | from any state with two requests for a key being forwarded two more final replies are reachable |
| `IdempotencyExposure.LostSettleReopens` | services/api-gateway/internal/transport/http/proxy.go:303-313 | after the commit or reject of a final reply is lost the next identical request is let through |
| `IdempotencyExposure.SerialRunsAreGuarded` | services/api-gateway/internal/transport/http/proxy.go:274-313 | runs without overlap and with settled replies meet that condition |
| `FeeBump.BumpedIsMax` | services/wallet-core/internal/dispatcher/withdraw_accelerate.go:146-164 | the bump is max(n+1, floor(n*(10000+bps)/10000)) |
| `FeeBump.BumpIsStrictlyMonotone` | services/wallet-core/internal/dispatcher/withdraw_accelerate.go:146-164 | the bump rises strictly and keeps fees in strict order |
| `FeeBump.PayloadBump` | services/wallet-core/internal/dispatcher/withdraw_accelerate.go:113-144 | for all nonnegative fees it succeeds, both rise, only the fees and the nonce mode change, and the clamp matters exactly when the input had the maximum below the priority fee |
| `FeeBump.DefaultRate` | services/wallet-core/internal/dispatcher/withdraw_accelerate.go:113-164 | without a configured rate both fees rise by a fifth, rounded down, and at least by one |
| `FeeBump.PayloadBumpFails` | services/wallet-core/internal/dispatcher/withdraw_accelerate.go:113-164 | it refuses exactly the payloads with a fee that is not a nonnegative integer |
| `FeeBump.TenPercentRule` | services/wallet-core/internal/dispatcher/withdraw_accelerate.go:106-164 | every fee rises by ten percent if and only if the rate is at least 1819 basis points |
| `FeeBump.RepeatedBumps` | services/wallet-core/internal/dispatcher/withdraw_accelerate.go:62-90 | k accelerations add at least k, and from 1819 basis points compound to at least 1.1^k |

## Left out

- The queued withdraw path: whether it broadcasts at most once depends on ledger adapters outside this model.
- HMAC, secp256k1, ed25519, AES-GCM and scrypt themselves: parameters with stated laws.
- Transports, generated code, bootstrap, configuration, logging, the PKCS#11 backend, chain adapters, plugins and the router.
- JSON, base64 and base58 encodings of payloads: payloads are typed values, so undecodable text and unknown event types do not occur.
- JSON tree normalization of transfers and finality: its replies are the environment's choice.
- scan-utxo-service: an older copy of the account scanner.
- Scanning a single watch (`scanOneWatch`): the group scan with one address and no address index.
- Block-hash bookkeeping, per-address checkpoints, last transaction hashes and pruning in the group scan: no decision of the scan reads them back, except the address cursor a new chain starts from, which is an input.
- `RewindChainCheckpoint`: no code calls it.
- Injectivity of deposit keys over arbitrary tenant, chain and transaction strings: separators make it false; causality is stated per deposit key.
- The ledger's, project's and wallet-core's reactions to the calls they receive.
- Delivery of every status change: the code does not promise it, and seen-event rows and outbox rows are committed separately, so coverage is stated for seen-event rows.
- The other checks of Authorize (tokens, tenants, key allow-lists), the concurrency semaphore of the request gate, and health probes.
- White space and letter case beyond ASCII; 64-bit overflow of confirmation counts, attempt counters and times.
- last_error, created_at, updated_at and sequence numbers, except that outbox rows are listed in creation order.
- Goroutine scheduling and cancellation inside an atomic step; interleavings are between steps.
- `GroupScan.Saved`: models the checkpoint statement's numeric guard with its condition evaluated left to right.
- OutboxRowLife.RowsStaySound: counts marks; OutboxTicks.HandledAtMostMaxTimes counts handlings.
- RateLimiter.WindowBound: for readings in lock order; LateReadings.LateWindowBound covers late ones.
