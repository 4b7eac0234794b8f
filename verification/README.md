# FAB: a verified model of its protocols and its money arithmetic

FAB is a local bookkeeping engine. This project models the parts where its ledger, the Google Drive
provider and Wave meet, and proves what they keep. Providers that list, page or download may answer
anything, and fail any call. A file's folder is inspected truthfully, but any call about it may fail, and
an update of its parents may take effect in both halves, in one or in none, whether it raises or not.
The ledger is explicit state. Operations that change state are class methods,
each proved against a function from the old state to the new one; the theorems are about those
functions, over every input, every run and, for archiving and posting, every interleaving.

| file | what it models |
|---|---|
| `BankImport.dfy` | statement import: occurrence-numbered identities over a keyed ledger |
| `AmountParsing.dfy` | the five parsers that read an amount from text, and the printed notations |
| `PostingAttempts.dfy`, `PostingRuns.dfy`, `PostingInterleaving.dfy`, `PostingCalls.dfy`, `PostingRaces.dfy` | dry run, approval, execution with retries, supervised completion: the operations, their runs, and workers and users that interleave |
| `IdempotencyKeys.dfy` | the key of a posting attempt |
| `WaveMirror.dfy`, `WaveOverlap.dfy` | the paginated mirror of Wave entities, and runs that overlap |
| `DriveArchiver.dfy`, `WaveEvidence.dfy` | moving a verified source file, the evidence and the plan it rests on |
| `ArchiveProtocol.dfy`, `ArchiveLocation.dfy`, `ArchiveRuns.dfy` | the whole archive protocol with interleaved workers, submissions and edits; where a marked document's file is; whole runs |
| `WaveTransaction.dfy` | categorized document, payload with normalized line items, balanced transaction |
| `TotalScan.dfy` | the total amount of a document text |
| `FieldMerge.dfy` | merging the fields that the processing steps found |
| `DuplicateDecision.dfy` | the duplicate decision and its fingerprint |
| `DriveFetch.dfy` | fetching a folder within page, file and byte limits |
| `ReleasePaths.dfy`, `ReleasePackage.dfy` | building and verifying release archives |
| `Text.dfy`, `Money.dfy`, `Numbers.dfy`, `Bytes.dfy` | Python's text operations and rounding as far as they are used |

Amounts are exact (cents, decimals or reals), time is a number of seconds, and SHA-256 is an injection.

## What the code does not promise

Where an expected property is false of the code, the model keeps the code as it is, a lemma gives an
input that shows it, and the exact condition is proved.

- A bank reference that is falsy but not missing (a number 0) counts as given when occurrences are
  numbered but not when the identity is chosen: a row is lost (`EveryRowStoredIff`, `FalsyReferenceLosesRow`).
- An account cut at 200 characters behind a space is looked up under another key than it is stored
  under, so importing again reports every row as new (`Reimport`, `UnstableAccountExists`).
- Importing again starts the reconciliation of a stored transaction over (`ReimportForgetsReconciliation`).
- Grouped whole amounts are misread by a factor of a thousand or not at all, by each of the five
  parsers in its own cases, and two parsers disagree on parentheses (`WholeAmountReadIff`,
  `ParenthesesDisagreeIff`).
- One approval can be posted twice: a forced claim takes over an attempt in progress, two users
  complete the same supervised attempt, or a retry claims it under a completing user
  (`ForcedClaimPostsTwice`, `TwoCompletionsPostTwice`, `RetryRacesCompletion`). From any state more
  postings than approvals are possible exactly if `Paid` does not hold, and a race breaks it exactly
  if no approval is to spare (`OverspendIff`, `RaceOverspendsIff`).
- A rejection neither stops a worker nor survives its update (`RejectionIsOverrun`); exactly when is
  in `RejectionOverrunIff` and `RejectionOverwrittenIff`. An approval whose check went through before
  a posting reopens the posted attempt (`LateApprovalReopens`, `PostedReopensIff`).
- A separator inside the id, the source, the category or the target of an attempt makes its key
  collide with another's, except that a source that is nothing but a separator does not
  (`KeySharedIff`).
- Entity ids that differ in surrounding space are counted twice and stored once (`PresentCountIff`, `SpacedIdsCollapse`).
- Overlapping synchronizations of one partition hide each other's entities: a completed run mirrors what
  it was sent exactly if nobody else completed or wrote the same entity after it did
  (`OverlappedMirrorsIff`, `OverlapHidesEntity`).
- A move that takes effect but is not confirmed leaves the file outside the intake; a failed check
  after the move pulls a file that was archived already back into the intake, and takes one that was in
  both folders out of the archive (`ArchiveRunAllOrNothingIff`, `ArchivedFileIsPulledBack`,
  `RaisedMoveKeepsIntakeIff`, `RestoreUndoesMoveIff`).
- Dates that cannot be read match each other, and so do amounts (`ReadingsMatchIff`); a ready plan may
  belong to an unprocessed document (`ReadyPlanStage`, `ReadyButUnprocessed`).
- A mark `archived` is not final. A later readback takes it away, and so does a processing run or a review
  correction that read the document before it was marked and writes its metadata back afterwards
  (`MarkLostIff`, `HonestReadbackUnmarks`, `StaleEditUnmarks`).
- In the same way a mark that was taken away comes back without any check (`MarkAppearsIff`), even with
  the file in the intake (`StaleEditMisplacesMark`, `MarksFromTheBeginning`, `SampleCanStart`). That does
  harm exactly if the file is not archived or a worker may still restore it (`RemarkIsHarmfulIff`).
- Correcting the sign of line items with mixed signs changes their sum (`NormalizedAddsUpIff`, `MixedSignsFlipWrongly`).
- A copy of a document without references and with too few fields is not a duplicate (`CopyQualifiesIff`).
- Blank lines are skipped when a total is sought, but a refund column is searched within eight lines,
  blank ones included (`BlankLineHidesTotal`). A blank line hides a column exactly if it stands above a
  sum in the eighth line (`RefundKeptIff`); `TotalWithBlank` has the total of every text.
- An empty file is refused once the byte budget is exactly used up (`EmptyFileAfterFullRun`, `KeptIff`).
- A build does not look at the limits on records, manifest and archive, which its own verification
  then refuses (`BuildIff`).

## Model

| member | source | states |
|---|---|---|
| BankImport.LocalLedger.UpsertBankTransaction | src/operations/local_ledger.py:5167-5215 | inserts or overwrites under stripped account and identity; a blank account is the default one, a blank identity is refused |
| BankImport.LocalLedger.ImportTransactions | src/operations/local_bank_transactions.py:139-243 | the ledger, the import record and the summary are those of the specified import, and a row that raises leaves the rows before it and a running record |
| BankImport.IdentitiesExactly | src/operations/local_bank_transactions.py:167-198 | an identity is produced if and only if a row carries it as reference, or it is an occurrence number up to the multiplicity of its fingerprint |
| BankImport.IdentitiesIgnoreOrder | src/operations/local_bank_transactions.py:167-198 | statements with the same multiset of rows produce the same identities |
| BankImport.Conservation | src/operations/local_bank_transactions.py:169-225 | imported + duplicates + skipped is the number of rows and skipped are the rejected ones; with an account that is stored as it is looked up the key set grows by imported |
| BankImport.Reimport | src/operations/local_bank_transactions.py:169-225 | importing again adds no key, and reports no new row if and only if the account is stored as it is looked up (or all rows are rejected) |
| BankImport.UnstableAccountExists | src/operations/local_bank_transactions.py:150-151 | an account for which lookup and storage differ |
| BankImport.ReimportForgetsReconciliation | src/operations/local_ledger.py:5167-5215 | every touched transaction ends as not reconciled and owned by this import; every other one is unchanged |
| BankImport.StoredIsMaximum | src/operations/local_bank_transactions.py:167-198 | after any sequence of imports a reference-less transaction is stored exactly as often as in the one statement listing it most often |
| BankImport.EveryRowStoredIff | src/operations/local_bank_transactions.py:174-198 | every row gets a key of its own if and only if no two rows share a reference up to outer space, and no fingerprint mixes a falsy reference with another row without a usable one; no reference looks like a generated identity |
| BankImport.FalsyReferenceLosesRow | src/operations/local_bank_transactions.py:174-198 | two equal rows with reference 0 store one transaction |
| AmountParsing.RoundTrip | src/operations/local_bank_transactions.py:461-490 | every amount of cents printed in European or American style, grouped or not, is read back exactly by all five parsers |
| AmountParsing.PrintedAmountIsRead | src/document_handling/duplicate_detector.py:411-437 | the parsers agree on each printed text, which none of them trims or unwraps first |
| AmountParsing.ParenthesesDisagreeIff | src/operations/local_bank_transactions.py:461-490 | in parentheses the statement importer reads minus the magnitude and the duplicate detector the amount, so they disagree if and only if it is positive |
| AmountParsing.WholeAmountReadIff | src/document_handling/duplicate_detector.py:411-437 | for every grouped whole amount, signed or not, and style: which of the five parsers reads it right, which a thousandth of it, and which nothing |
| IdempotencyKeys.SameKeyIff | src/data_entry/safe_posting.py:16-21 | the key of an unambiguous document and target equals another key if and only if all four fields are equal, whatever the other fields hold |
| IdempotencyKeys.KeySharedIff | src/data_entry/safe_posting.py:16-21 | a document and target share their key with others if and only if one of the four fields contains the separator, the one exception being a lone separator as the source of a document with an id, with no separator elsewhere |
| IdempotencyKeys.CategoryCollides | src/data_entry/safe_posting.py:16-21 | every category with a separator gives the key of a shorter category and a longer target |
| IdempotencyKeys.TargetCollides | src/data_entry/safe_posting.py:16-21 | every target with a separator gives the key of a longer category and a shorter target |
| PostingAttempts.PostingDatabase.Create | src/data_entry/safe_posting.py:23-74 | a new attempt exactly when its key is not taken |
| PostingAttempts.PostingDatabase.ApproveAttempt | src/data_entry/posting_approval.py:25-38 | approves exactly from the statuses that allow it |
| PostingAttempts.PostingDatabase.RejectAttempt | src/data_entry/posting_approval.py:40-51 | rejects whatever the status was |
| PostingAttempts.PostingDatabase.CompleteSupervisedAttempt | src/data_entry/posting_approval.py:76-135 | completes only an attempt waiting for supervision |
| PostingAttempts.PostingDatabase.ClaimAttempt | src/data_entry/posting_executor.py:103-119 | claims exactly a claimable status, changing nothing else |
| PostingAttempts.PostingDatabase.HandleFailure | src/data_entry/posting_executor.py:221-231 | fails the attempt and schedules a retry until the limit, then the dead letter |
| PostingAttempts.PostingDatabase.ExecuteAttempt | src/data_entry/posting_executor.py:51-101 | one execution is one step of the specification; the handler is called exactly after a claim |
| PostingAttempts.PostingDatabase.ExecuteAll | src/data_entry/posting_executor.py:30-49 | a batch is the run of its executions |
| PostingRuns.HandlerNeedsApproval | src/data_entry/posting_executor.py:51-119 | in every run a handler is called only on an attempt whose latest human decision is an approval |
| PostingRuns.PostedOnlyOnce | src/data_entry/posting_executor.py:51-119 | after a posting, the next call for the attempt comes after a rejection followed by an approval |
| PostingRuns.OneAttemptPerKey | src/data_entry/safe_posting.py:36-66 | in every run no two attempts share a key |
| PostingRuns.RetriesBounded | src/queue/retry_manager.py:48-100 | an attempt is scheduled for retry fewer times than the limit over its whole life |
| PostingInterleaving.OnePostingPerApproval | src/data_entry/posting_executor.py:51-119 | in every interleaving without a race postings of an attempt never exceed its approvals |
| PostingInterleaving.UnforcedPostsOncePerApproval | src/data_entry/posting_approval.py:76-107 | with claims that are not forced it is enough that completions of an attempt do not overlap |
| PostingInterleaving.OverspendIff | src/data_entry/posting_executor.py:51-119 | from any state an attempt can be posted more often than approved, without another approval or race, if and only if it is not paid for |
| PostingInterleaving.RaceBreaksIff | src/data_entry/posting_executor.py:103-119 | a race leaves its attempt paid for if and only if an approval was to spare |
| PostingInterleaving.RaceOverspendsIff | src/data_entry/posting_approval.py:91-107 | a race makes a posting without approval possible if and only if none was to spare |
| PostingCalls.CalledIff | src/data_entry/posting_executor.py:51-119 | from any state a handler can be called without another approval if and only if a worker or the status leads to it, with forced claims or without |
| PostingRaces.ForcedClaimPostsTwice | src/data_entry/posting_executor.py:103-119 | two forced workers post one approval twice |
| PostingRaces.TwoCompletionsPostTwice | src/data_entry/posting_approval.py:91-107 | two users that both checked the status complete one supervised attempt twice |
| PostingRaces.RetryRacesCompletion | src/data_entry/posting_approval.py:91-107 | a retry posts the attempt that a user is completing, without taking over one in progress |
| PostingRaces.RejectionIsOverrun | src/data_entry/posting_approval.py:40-64 | a rejection during execution ends as posted |
| PostingCalls.RejectionOverrunIff | src/data_entry/posting_approval.py:40-51 | after a rejection a handler is still called without another approval if and only if a worker held the attempt, or with forced claims had a result other than success |
| PostingCalls.RejectionOverwrittenIff | src/data_entry/posting_approval.py:40-64 | a rejection can be overwritten without another approval if and only if a worker or a completing user still had an update to make |
| PostingCalls.PostedReopensIff | src/data_entry/posting_approval.py:25-38 | a posted attempt reaches a handler again without a rejection if and only if a worker leads to it or a checked approval is still to be written |
| PostingRaces.LateApprovalReopens | src/data_entry/posting_approval.py:25-38 | an approval checked before the posting and written after it posts a second time |
| WaveMirror.Mirror.UpsertWaveEntity | src/operations/local_ledger.py:3186-3232 | writes the row of a stripped id, refuses a blank one |
| WaveMirror.Mirror.WriteNodes | src/data_entry/waveapps_entity_sync.py:296-317 | writes the nodes of a page up to a repeated or blank id, counting exactly what it wrote |
| WaveMirror.Mirror.MarkEntitiesMissing | src/operations/local_ledger.py:3234-3251 | marks exactly the rows of the partition that this run did not see |
| WaveMirror.Mirror.SyncEntityType | src/data_entry/waveapps_entity_sync.py:241-346 | status, rows, fetches and count are those of the specified crawl |
| WaveMirror.Mirror.Sync | src/data_entry/waveapps_entity_sync.py:130-239 | a run with a new id synchronizes the types in order and stops at the first that does not complete |
| WaveMirror.CompletedMirrorsServer | src/data_entry/waveapps_entity_sync.py:256-346 | against any server, completion leaves exactly the returned ids present; they are distinct and as many as reported |
| WaveMirror.IncompleteMarksNothing | src/data_entry/waveapps_entity_sync.py:256-346 | any other outcome marks no row missing |
| WaveMirror.OtherPartitionsUntouched | src/operations/local_ledger.py:3234-3251 | rows of other targets and types are unchanged, whatever the outcome |
| WaveMirror.FetchesBounded | src/data_entry/waveapps_entity_sync.py:256-346 | no server is asked for more than maxPages pages |
| WaveMirror.CompletedRunMirrorsAll | src/data_entry/waveapps_entity_sync.py:130-239 | a completed run leaves every requested partition mirrored |
| WaveMirror.PresentCountIff | src/data_entry/waveapps_entity_sync.py:296-337 | the rows present are as many as reported if and only if no two ids differ in outer space only |
| WaveMirror.SpacedIdsCollapse | src/data_entry/waveapps_entity_sync.py:296-337 | a server for which they are fewer |
| WaveMirror.FaithfulServerCompletes | src/data_entry/waveapps_entity_sync.py:256-346 | a faithful server with n distinct ids is mirrored in max(1, ceil(n / size)) fetches |
| WaveOverlap.SameCrawl | src/data_entry/waveapps_entity_sync.py:256-346 | what a run asks, writes and ends with does not depend on the rows it finds |
| WaveOverlap.OverlappedMirrorsIff | src/data_entry/waveapps_entity_sync.py:296-346 | with any writes and completions of other runs in between, a completed run leaves exactly the ids it was sent present if and only if no other run wrote an entity, or completed, after this run wrote it |
| WaveOverlap.OverlapHidesEntity | src/operations/local_ledger.py:3234-3251 | two runs that are sent the same entity, and the one completing first marks it missing |
| DriveArchiver.DriveFile.MoveFile | src/document_fetchers/drive_archiver.py:53-84 | status and parents are those of the specified move under any faults; nothing else can change |
| DriveArchiver.DriveFile.RestoreFile | src/document_fetchers/drive_archiver.py:86-108 | the same for restoring |
| DriveArchiver.MoveSucceedsIff | src/document_fetchers/drive_archiver.py:53-84 | a move without failures succeeds if and only if the file is in the intake or already archived |
| DriveArchiver.Idempotent | src/document_fetchers/drive_archiver.py:53-108 | a second move or restore changes nothing, whatever failed in the first |
| DriveArchiver.RestoreUndoesMoveIff | src/document_fetchers/drive_archiver.py:53-108 | restoring after any successful move gives back the parents if and only if the file was in the intake and not in the archive folder |
| DriveArchiver.RaisedMoveKeepsIntakeIff | src/document_fetchers/drive_archiver.py:53-84 | a move that raised left the file in the intake if and only if what its rollback did, if it got that far, makes up for what its update did, each in both halves, one or none |
| DriveArchiver.ArchiveWithLease | src/operations/drive_wave_delivery.py:840-899 | one archive run under any faults, with all identity checks, ends as specified: file, mark and review |
| DriveArchiver.ArchiveRunAllOrNothingIff | src/operations/drive_wave_delivery.py:840-899 | wherever the file lies, a run ends archived and marked, or unmarked where it was, if and only if without a mark the rollback or the restore makes up for the update; the content never changes and an unmarked run opens a review |
| DriveArchiver.ArchivedFileIsPulledBack | src/operations/drive_wave_delivery.py:862-877 | an archived file whose later check fails is moved into the intake, unmarked |
| WaveEvidence.CanonOfTidied | src/operations/drive_wave_delivery.py:1507-1540 | canonical values do not depend on spacing, and canonical spacing is a fixed point |
| WaveEvidence.MetadataNeverAccepted | src/operations/drive_wave_delivery.py:619-716 | evidence without a readback is never accepted |
| WaveEvidence.AcceptedBytesAreSource | src/operations/drive_wave_delivery.py:567-617 | accepted bytes hash to the digest of the source and have its size |
| WaveEvidence.AcceptedUntilStale | src/operations/drive_wave_delivery.py:1032-1073 | with the same document, exports and configuration, accepted evidence has a reason against it at a later time if and only if the exports speak against it or one of its timestamps is too old |
| WaveEvidence.DigestsDifferIff | src/operations/drive_wave_delivery.py:1494-1519 | the digests of the expected fields differ if and only if some canonical field changed |
| WaveEvidence.FieldChangeBlocks | src/operations/drive_wave_delivery.py:735-787 | a changed canonical field keeps evidence bound to the old ones from archiving anything |
| WaveEvidence.ReadyPlanStage | src/operations/drive_wave_delivery.py:1556-1599 | a ready plan misses no expected field, and its stage is exactly one of these three |
| WaveEvidence.ReadyButUnprocessed | src/operations/drive_wave_delivery.py:1556-1599 | an unprocessed document whose plan is ready, with honest evidence |
| WaveEvidence.ReadingsMatchIff | src/operations/drive_wave_delivery.py:1501-1539 | two dates match if and only if they are the same day, two amounts if and only if they are the same in cents, or neither can be read |
| WaveEvidence.ReadyRestsOnReadback | src/operations/drive_wave_delivery.py:735-787 | a ready plan rests on read-back bytes equal to the source |
| WaveEvidence.ArchivableIff | src/operations/drive_wave_delivery.py:735-787 | some evidence lets a document be archived if and only if nothing speaks against the document itself, it is not marked archived, and no required field is missing |
| ArchiveProtocol.RunKeepsInv | src/operations/drive_wave_delivery.py:789-965 | every interleaving of workers, submissions and edits keeps the invariant of workers, users, lease, audit log and marks |
| ArchiveProtocol.ArchivedIsProven | src/operations/drive_wave_delivery.py:821-965 | in every interleaving a document marked archived, by a worker or by a stale write, has a mark whose run accepted proven evidence and saw the source's content in the archive folder, outside the intake and not in trash |
| ArchiveProtocol.AcceptedIsProven | src/operations/drive_wave_delivery.py:602-708 | every accepted entry of the audit log rests on submitted bytes that are the source's |
| ArchiveProtocol.OneWorkerUnderLease | src/operations/drive_wave_delivery.py:789-819 | no two workers are between taking and releasing the lease |
| ArchiveProtocol.LifecycleWrites | src/operations/drive_wave_delivery.py:692-707 | the lifecycle after any step: only a commit, the end of a submission and an edit written back set it |
| ArchiveProtocol.MarkLostIff | src/operations/local_review.py:888-952 | a step takes the mark away if and only if it ends a submission of proven evidence or writes back metadata that were read without the mark |
| ArchiveProtocol.MarkAppearsIff | src/operations/local_processing.py:1488-1698 | a step makes the mark appear if and only if a worker commits or metadata are written back that had the mark when read |
| ArchiveLocation.MarkedFileIsArchived | src/operations/drive_wave_delivery.py:821-965 | if nobody else moves the file and every lost mark is written back harmlessly, a marked document's file is in the archive folder and out of the intake, in every interleaving |
| ArchiveLocation.AstrayIff | src/operations/drive_wave_delivery.py:850-899 | from any state the document can end up marked with its file not archived, without another move from outside or stale mark, if and only if the state is not located |
| ArchiveLocation.RemarkIsHarmfulIff | src/operations/local_review.py:888-952 | writing a lost mark back makes that possible if and only if the file is not archived or a worker may still restore it |
| ArchiveRuns.HonestReadbackUnmarks | src/operations/drive_wave_delivery.py:567-708 | an honest readback of the source bytes takes the mark away whenever nothing speaks against the document |
| ArchiveRuns.UnhinderedRunMarks | src/operations/drive_wave_delivery.py:789-965 | a worker that nothing stops, with a ready plan and an intact file, marks the document, archives the file, and leaves nothing else behind |
| ArchiveRuns.StaleEditUnmarks | src/operations/local_review.py:57-146 | an edit that was opened before such a run and saved after it takes the mark away without a readback |
| ArchiveRuns.StaleEditMisplacesMark | src/operations/local_review.py:57-146 | from every state with such a run, a stale edit can leave the document marked with its file in the intake, though nobody moves it from outside |
| ArchiveRuns.MarksFromTheBeginning | src/operations/drive_wave_delivery.py:567-965 | from every beginning with an eligible document and an intact file there is a run to a mark, and one to a misplaced mark |
| ArchiveRuns.SampleCanStart | src/operations/drive_wave_delivery.py:735-787 | a document of one byte for which that holds |
| WaveTransaction.ReadItems | src/data_entry/waveapps_surface.py:2731-2769 | the loop keeps the items with a readable amount, in order, with the default category and account where they have none |
| WaveTransaction.NormalizeWaveLineItems | src/data_entry/waveapps_surface.py:2722-2790 | the line items are those read, those read with the sign corrected, or one line for the whole amount, as specified |
| WaveTransaction.NormalizedAddsUpIff | src/data_entry/waveapps_surface.py:2770-2790 | for every list of lines the items add up to the total within the tolerance if and only if the sign was not flipped, or the sum of all magnitudes is within the tolerance too |
| WaveTransaction.FlipCountsTwice | src/data_entry/waveapps_surface.py:2777-2785 | for whole-cent lines that sum is the magnitude of their sum and twice the minority sign |
| WaveTransaction.OneSignAddsUp | src/data_entry/waveapps_surface.py:2770-2790 | lines of one sign always add up, and a corrected sign is the total's |
| WaveTransaction.MixedSignsFlipWrongly | src/data_entry/waveapps_surface.py:2777-2785 | 10 and -4 against -6 become -14 |
| WaveTransaction.ExpenseLineItems | src/data_entry/waveapps_transaction.py:101-157 | the loop computes the specified lines and the list of what is missing |
| WaveTransaction.AcceptedIsBalanced | src/data_entry/waveapps_transaction.py:46-98 | an accepted transaction has positive cents adding up to the anchor, one line per item in order with its account and amount, all on one side |
| WaveTransaction.AcceptedIff | src/data_entry/waveapps_transaction.py:46-98 | a transaction with line items is accepted if and only if nothing is missing and the lines add up exactly |
| WaveTransaction.CreditSurvives | src/data_entry/waveapps_surface.py:2625-2632 | builder and payload agree on what a credit note is, for every text |
| WaveTransaction.PostedIsBalanced | src/data_entry/waveapps_api_executor.py:155-182 | through payload, bridge and builder: whatever posts is balanced, and a deposit of decreasing lines if and only if it is a credit note |
| WaveTransaction.PostsIff | src/data_entry/waveapps_surface.py:2664-2719 | through the whole path: a document posts if and only if it is routed as a transaction, accounts, date and amount are there, and its payload lines add up to the cent |
| TotalScan.ScanLines | src/document_processors/financial_field_extractor.py:334-441 | the pass with carried variables equals the candidates of every line read by itself with the nearest written line before it |
| TotalScan.ColumnarRefundTotal | src/document_processors/financial_field_extractor.py:472-533 | the search stops at the first label with two refunds and their sum within eight lines |
| TotalScan.ExtractTotalAmount | src/document_processors/financial_field_extractor.py:311-470 | the extracted total is the declarative one |
| TotalScan.PreviousIsNearest | src/document_processors/financial_field_extractor.py:348-358 | the carried line is the nearest written one, all between being blank |
| TotalScan.ChoiceIff | src/document_processors/financial_field_extractor.py:457-470 | the result is the candidate of maximal confidence furthest down; below 0.85 only with a total label and one magnitude |
| TotalScan.LastTotalLineDecides | src/document_processors/financial_field_extractor.py:394-470 | for any payments the total is what the deciding line says: the last rounded total or paid VAT summary, or else the last plain total, whatever else the text holds |
| TotalScan.TotalWithBlank | src/document_processors/financial_field_extractor.py:334-470 | for every text, place and payments: the total with one more blank line is chosen as before, without the refund columns that the line spoils |
| TotalScan.BlankLinesDoNotMatter | src/document_processors/financial_field_extractor.py:334-470 | a blank line anywhere leaves the total unchanged unless it spoils the refund column that was found |
| TotalScan.RefundKeptIff | src/document_processors/financial_field_extractor.py:478-533 | a refund column stays one, with its sum on the shifted line, if and only if the blank line is not between its label and a sum in the eighth line; a blank line never makes one |
| TotalScan.RefundLabelKeptIff | src/document_processors/financial_field_extractor.py:478-533 | the first label with a refund column stays the first if and only if the blank line does not spoil it |
| TotalScan.BlankLineHidesTotal | src/document_processors/financial_field_extractor.py:478-533 | a text that loses its total by one more blank line |
| TotalScan.NegativeTotalIsSigned | src/document_processors/financial_field_extractor.py:394-470 | a total is negative only if the text has a refund label or a negative amount |
| FieldMerge.Processed.MergeExtractedData | src/document_processors/processor_pipeline.py:124-141 | every field is taken over or kept by the same rule, whatever the order of the fields |
| FieldMerge.Processed.ProcessDocument | src/document_processors/processor_pipeline.py:52-122 | after the steps (up to a failed recognition) every field is the fold of what was merged, in order |
| FieldMerge.MergeIff | src/document_processors/processor_pipeline.py:124-145 | a field holds value, confidence and evidence of the last of the most confident non-empty results, and nothing if and only if there was none |
| DuplicateDecision.IsDuplicate | src/document_handling/duplicate_detector.py:82-142 | the first finding decides; without one the first ten conflicts are told |
| DuplicateDecision.DecisionIff | src/document_handling/duplicate_detector.py:82-142 | a duplicate if and only if some document qualifies, and then the match of the first that does |
| DuplicateDecision.FingerprintIff | src/document_handling/duplicate_detector.py:63-80 | fingerprints are equal if and only if evidence and normalized file name are |
| DuplicateDecision.ReferenceIsStable | src/document_handling/duplicate_detector.py:324-328 | normalizing a reference again changes nothing |
| DuplicateDecision.ConflictsSymmetric | src/document_handling/duplicate_detector.py:367-383 | two documents have the same conflicts either way round |
| DuplicateDecision.EvidenceMatchSymmetric | src/document_handling/duplicate_detector.py:331-364 | the exact-evidence relations are symmetric |
| DuplicateDecision.QualifiesSymmetric | src/document_handling/duplicate_detector.py:82-142 | with stored fingerprints up to date and a symmetric ratio the whole rule is symmetric |
| DuplicateDecision.SimilarDocumentsAgree | src/document_handling/duplicate_detector.py:180-230 | above a threshold of 6/7 (the default is 0.9) a similar document never differs in a compared date, amount or complete reference, whatever the texts |
| DuplicateDecision.CopyQualifiesIff | src/document_handling/duplicate_detector.py:82-142 | a document is a duplicate of its copy if and only if it has a reference, or vendor, date and amount, or three comparable fields |
| DuplicateDecision.CopyIsFound | src/document_handling/duplicate_detector.py:82-142 | wherever in the list the copy is, the decision is a duplicate |
| DriveFetch.ConfiguredLimits | src/document_fetchers/drive_fetcher.py:94-108 | whatever is configured, the limits are positive, bounded, and a run can hold the largest file |
| DriveFetch.BoundedBytes.Write | src/document_fetchers/drive_fetcher.py:257-265 | a chunk is taken whole or refused, exactly at the limit |
| DriveFetch.DownloadFile | src/document_fetchers/drive_fetcher.py:179-190 | the outcome of a download depends on the concatenated bytes only, not on the chunks |
| DriveFetch.DriveFetcher.FetchDocuments | src/document_fetchers/drive_fetcher.py:78-233 | pages and progress are those of the specified run, stopping at the first broken download |
| DriveFetch.RunWithinLimits | src/document_fetchers/drive_fetcher.py:110-224 | for every provider pages, files and bytes stay within their limits, and a completed run fetched or skipped everything considered |
| DriveFetch.KeptIff | src/document_fetchers/drive_fetcher.py:134-191 | whatever is declared, a file is kept with exactly its content if and only if declared and actual size fit and the download does not break |
| DriveFetch.DocumentsAreKept | src/document_fetchers/drive_fetcher.py:134-217 | the documents are exactly those of the kept items |
| DriveFetch.FaithfulListing | src/document_fetchers/drive_fetcher.py:117-134 | a faithful provider's folder is listed in full up to the file limit when the pages suffice |
| ReleasePaths.NormalPathIsMember | package.py:342-354 | every normalized path is the name of a plain file inside the root |
| ReleasePaths.NormalizeIsIdempotent | package.py:342-349 | normalizing once is enough |
| ReleasePackage.VerifyRecords | package.py:148-182 | the loop over the records ends as specified, with exactly the expected members |
| ReleasePackage.VerifyPackage | package.py:101-204 | verification accepts and reports as specified, error by error |
| ReleasePackage.RecordsIff | package.py:148-182 | the records pass if and only if each names a plain file of its size and checksum, no path repeats, and the total is within its limit |
| ReleasePackage.ManifestIff | package.py:124-139 | a manifest is read if and only if names are distinct and inside the root and it is a small plain readable member |
| ReleasePackage.ReleaseIff | package.py:124-194 | an archive is accepted if and only if its members are exactly the manifest and what it lists, with sizes, checksums, totals and limits as they should be |
| ReleasePackage.SameManifestSameFiles | package.py:148-194 | accepted archives with equal manifests have the same members and the same content in each listed one |
| ReleasePackage.BuildPackage | package.py:206-281 | what is written and whether it stays is as specified |
| ReleasePackage.BuildIff | package.py:206-281 | a build of acceptable sources yields an archive if and only if paths are distinct and not the manifest's, and records, manifest and archive are within their limits |
| ReleasePackage.BuiltHoldsSources | package.py:263-273 | a built archive is accepted and holds every source under its path with its content |

## Left out

- DuplicateDecision.QualifiesSymmetric: assumes a symmetric ratio and stored fingerprints that are up to date; `SequenceMatcher` itself is an unknown function here, and is not symmetric on all texts.
- ArchiveProtocol.ArchivedIsProven: the checks of a submission and a worker's plan each read the ledger in one step, and a lease does not expire while a worker holds it.
- PostingAttempts.PostingDatabase.ExecuteAll: takes the attempts as given; which ones a batch selects, in which order and how many, depends on timestamps that are not modelled.
- AmountParsing.RoundTrip: exponents, underscores, infinities and currency signs around the digits are not modelled.
- Binary floating point: amounts, confidences and scores are exact, and round half to even where Python's `round` does.
- Parsing of CSV, CAMT and MT940 statements, of JSON, and of dates; a date is a day or unreadable.
- Labels, patterns and vendor names on a line of text: they are features of the line.
- Retention of Gmail attachments, and documents that do not come from Drive.
- Row numbers, timestamps and free texts of the ledger; a posting's document and review rows.
- The choice of sources for a release (forbidden and development paths, links), output names, and files that change while they are read.
- Unicode case folding and spaces beyond Latin-1, negative zero in printed amounts.
- Storing of downloaded files under their names; the retry queue beyond counting and due times.
- Sign-in, HTTP, rate limits, the dashboard, static catalogs and policy gates.
