# Verification models

This project models the ingest path of the repair-order assistant and its synthetic data
generator in Dafny, and proves what the code promises about them.

* **Intake** (`IngestStore`, `IntakeProtocol`, `IntakeCauses`): many workers receive at-least-once blob events
  and race to claim one row per (tenant, content hash). Every SQL statement is one atomic step;
  a schedule interleaves any number of workers with redelivery and crashes.
* **Queues** (`QueueProtocol`, `QueueAttempts`, `QueueCauses`, `QueueWorker`): the receive, acknowledge, poison
  loop and the redrive script, as a machine of atomic steps with crashes and as the loops
  themselves.
* **Gateway** (`RateLimiter`): the fixed-window limiter with one bucket per key.
* **Customer identity** (`PiiVault`, `CustomerChains`): the vault of hash records, the lookup
  and the identity it gives, over every interleaving of lookups and writes.
* **Redaction** (`Regex`, `SemanticRedaction`, `RedactionShapes`, `TagSpans`, `TagRedaction`): the five chained
  global replacements on a model of a backtracking regular expression engine, and the loops
  that replace and read the values of one tag.
* **Flat XML** (`XmlEscape`, `FlatXml`, `FlatXmlRoundTrip`, `SemanticXml`): the printers and
  scanners of the flat and of the semantic document.
* **Routing** (`FieldNames`, `RoSchema`, `FieldRouting`, `RoutingLaws`, `RoutingOrder`,
  `RoutingPartition`, `RoutedValues`, `RoutingErrors`, `SortedLines`, `Permutations`,
  `SourceRouting`): the fold that sends each field to one of three payloads, what they hold and
  which error stops it. `EditDistance`, `ClosestMatches` and `UnknownFields` are its
  unknown-field suggestions.
* **Insertion** (`Sorting`): the sorted lists that routing, validation, suggestions and
  apportionment keep.
* **Line items** (`LineItemValidation`, `LineItemErrors`, `RoutedLineItems`): indices, products,
  totals and the error raised.
* **Generator** (`Random`, `LineItems`, `LineItemLaws`, `LineItemTexts`, `LineItemBuilder`,
  `LineItemRange`, `LineItemBill`, `BuiltLineItems`, `Apportionment`, `ScenarioPlan`, `ScenarioSeeds`): labor
  hours, line items, the scenario plan, the shuffle and the VIN pool. `LineItems` gives the
  bundle as a function of the draws, which the loops of `LineItemBuilder` compute.
* **Dataset check and chunks** (`WellFormedTags`, `TaggedText`, `Chunking`, `ChunkPrivacy`).

Clocks, hashes, SQL row choice, queue delivery, API replies and embeddings are parameters or
arbitrary choices, so each result holds for all of them. So are random draws, any fractions of
[0, 1) in any order, except where a result speaks of seeds. Strings are sequences of characters.
Money and hours of the generator are exact hundredths; the validator works on exact decimals.

A text searched by a scanner is passed on with the scanner as a function (`Finder`, `Pattern`,
`Classifier`, `Readers`), so that the laws hold for any of them. `SourceRouting` states those of
routing for Schema V2 and parseIndexedFieldName.

## Where the code and its promises differ

* `buildScenarioPlan` asks for at least as many orders as scenarios, which are 6, but a request
  of 6 leaves one scenario without a count and throws. It succeeds exactly from 7 on
  (`ScenarioPlan.ServedFromSeven`).
* The dataset check reports several roots, but the text `<repair_order/><foo></foo>` and a text
  without tags pass (`TaggedText.SecondRootIsAccepted`, `TaggedText.NoTagIsAccepted`);
  `WellFormedTags.OneRootIff` says exactly when an accepted document has one document element.
* The flat document round trip fails exactly for a field named REPAIR_ORDER
  (`FlatXmlRoundTrip.RoundTrip`), because the root element ends at the first closing tag of
  that name.
* Generated line items are valid by construction, but the builder can stop with GEN_RANGE. Some
  draws make it do so exactly when the parameters meet `LineItemRange.CanGiveUp`: for some
  number of labor lines the most labor exceeds the top of the range, or the most labor below
  the top exceeds it together with all parts but one at 2 x 350.00
  (`LineItemRange.GivesUpIff`); `LineItemBill.StopsIff` says exactly which draws do. Of the
  shipped scenarios, MULTI_LINE_MAJOR_REPAIR, PII_IN_SEMANTIC and REPEAT_VISIT stop for some
  seed of the generator: the first for seed 34151, the others for seed 24, which draws one labor
  line of 2.43 hours, parts of 2 x 125.44 and 2 x 321.51, and a target of 875.76.
  ROUTINE_MAINTENANCE, HIGH_DOLLAR_DIAGNOSTIC and WARRANTY_REPAIR stop for none
  (`ScenarioSeeds.ShippedGiveUp`).
* The limiter is to have one bucket per tenant and user, but a tenant called dev shares those of
  developers without a tenant, and a colon in an id lets two tenants share one
  (`RateLimiter.OddTenantsShare`). For all other tenants the promise holds
  (`RateLimiter.ShareBucketIff`).
* The semantic document replaces < and > but not &, so a text that has one of the entities itself
  is not read back as it was; every other text is (`SemanticXml.SafeReadBackIff`).
* A message is to be poisoned after maxDequeue attempts, but a worker that crashes, or loses the
  delete, on the last one lets the message be delivered and handled again
  (`QueueAttempts.CrashOnLastDelivery`). The bound is maxDequeue plus the number of such escapes
  (`QueueAttempts.HandledAtMost`), it is reached for every number of them
  (`QueueAttempts.BoundIsReached`), and runs without them keep to maxDequeue.
* Redacted text passes assertNoRawPii as a whole, but its chunks need not: cutting a word at 800
  characters can leave what reads as a VIN, for instance in a semantic entry of a full stop, 779
  spaces and 18 letters Z (`ChunkPrivacy.CutCanMakeVin`).
  `ChunkPrivacy.ChunksPassIff` says exactly when all chunks pass.
* A labor field whose base ends in a numeric segment is not read back as printed
  (`FieldNames.LaborNameReadBack` gives the exact condition); no line field of the schema does
  (`SourceRouting.LineFieldsEndPlainly`).

## Model

| member | source | states |
|---|---|---|
| `IntakeProtocol.EveryRunIsSafe` | ops/intake-worker/BlobCreatedIntake/index.js:402-575 | the invariant of every interleaving of any number of workers with redelivery and crashes at any point, from an empty table |
| `IntakeProtocol.AtMostOneClaimAndCall` | ops/intake-worker/BlobCreatedIntake/index.js:402-510 | per (tenant, hash) at most one claim ever succeeds, the ingest API is called at most once and only after a claim, and at most one mark is made |
| `IntakeProtocol.ProcessingIffUnmarkedClaimer` | ops/intake-worker/BlobCreatedIntake/index.js:402-575 | a row is PROCESSING exactly while one process has claimed it and not marked it yet |
| `IntakeProtocol.EveryMarkHitsOneRow` | ops/intake-worker/ingestStore.js:61-100 | every mark and every duplicate mark of every run updates exactly one row |
| `IntakeProtocol.RowBookkeeping` | ops/intake-worker/ingestStore.js:23-100 | duplicate_count equals the duplicate marks done and is positive on INGESTED rows only; error_code is set exactly on FAILED rows |
| `IntakeProtocol.StatusOnlyMovesForward` | ops/intake-worker/ingestStore.js:23-100 | between any two moments of a run a row only moves absent, PENDING, PROCESSING, INGESTED or FAILED, and an end status stays |
| `IntakeProtocol.StepFollowsEdge` | ops/intake-worker/ingestStore.js:23-100 | one step changes the status of a row along one edge of that lifecycle or not at all |
| `IntakeProtocol.LostClaimSeesStatus` | ops/intake-worker/BlobCreatedIntake/index.js:411-437 | a status read after a lost claim is never missing or PENDING, so the fallback to DUPLICATE is never used |
| `IntakeProtocol.CrashLeavesProcessing` | ops/intake-worker/BlobCreatedIntake/index.js:447-575 | a worker that crashes between its claim and its mark leaves the row PROCESSING in every continuation of the run |
| `IntakeProtocol.DeliveredIsHandled` | ops/intake-worker/BlobCreatedIntake/index.js:335-575 | an event delivered in any state of any run and not interrupted ends after five steps, with an outcome that says that of event, row and reply |
| `IntakeCauses.EndsHaveCauses` | ops/intake-worker/BlobCreatedIntake/index.js:447-575 | in every run a row is INGESTED only after the process that claimed it, with a download that passes every check, was answered Accepted; it is FAILED with INGEST_HTTP_c, INGEST_TIMEOUT or INGEST_ERROR only after that process got HTTP c, no answer in time or a failed call, and with any other code only after the claimed download failed the check of that code |
| `IntakeCauses.OutcomesHaveCauses` | ops/intake-worker/BlobCreatedIntake/index.js:447-575 | a process returns success only after its key was answered Accepted, and a failure code only after what the code says |
| `IntakeProtocol.OutcomeMeans` | ops/intake-worker/BlobCreatedIntake/index.js:335-575 | what each outcome says of event, row met, reply and row left: Success for an unclaimed row, a sound download and Accepted, INGEST_HTTP_c for that status, FILE_TOO_LARGE for a length or body above the limit, and so on; the conditions exclude each other |
| `IntakeProtocol.ProcessEvent` | ops/intake-worker/BlobCreatedIntake/index.js:335-575 | the imperative handler, uninterrupted, leaves the table and returns the result of the step machine, and its outcome says that of event, reply and rows |
| `IntakeProtocol.HandleClaimed` | ops/intake-worker/BlobCreatedIntake/index.js:447-575 | download and validation failures, the API call and its marks are the steps of the claimer; outcome and row follow from the first failed check or else from the reply |
| `IntakeProtocol.HandleLost` | ops/intake-worker/BlobCreatedIntake/index.js:411-445 | the decision after a lost claim is the fetch step and, for INGESTED rows only, one more duplicate |
| `IngestStore.IngestFiles.UpsertIngestFile` | ops/intake-worker/ingestStore.js:23-44 | inserts a PENDING row or refreshes uri and event id only, never the status |
| `IngestStore.IngestFiles.ClaimIngestFile` | ops/intake-worker/ingestStore.js:46-59 | succeeds exactly for a PENDING row, which becomes PROCESSING with its error cleared |
| `IngestStore.IngestFiles.MarkDuplicate` | ops/intake-worker/ingestStore.js:61-71 | adds one to duplicate_count of an existing row and changes no status |
| `IngestStore.IngestFiles.MarkFailed` | ops/intake-worker/ingestStore.js:73-85 | turns a PROCESSING row FAILED with its code and touches no other row |
| `IngestStore.IngestFiles.MarkIngested` | ops/intake-worker/ingestStore.js:87-100 | turns a PROCESSING row INGESTED with its error cleared and touches no other row |
| `IngestStore.IngestFiles.FetchIngestStatus` | ops/intake-worker/ingestStore.js:102-110 | reads the status, or nothing for a missing row |
| `QueueProtocol.NothingIsLost` | ops/intake-worker/queueWorker.js:133-167 | with any number of workers and redrive scripts, redelivery, failed deletes and crashes between a send and its delete, each text sent is in main, in poison or acknowledged at least as often as it was sent |
| `QueueProtocol.RunBalances` | ops/intake-worker/queueWorker.js:133-167 | in every state the copies stored or acknowledged exceed the texts sent exactly by the half-done moves and the copies that outlived one |
| `QueueProtocol.CleanRunLeaksNothing` | ops/intake-worker/queueWorker.js:133-167 | a run in which every half-done move is finished leaves no extra copy |
| `QueueProtocol.CleanRunConservesExactly` | ops/intake-worker/queueWorker.js:133-167 | without a consumer stopped half-way, conservation is exact: nothing lost and nothing duplicated |
| `QueueAttempts.RunTracks` | ops/intake-worker/queueWorker.js:133-164 | in every run the count of a stored message is the number of its deliveries, and once it is spent each delivery from number maxDequeue on has escaped or is the newest, which one worker is at work on |
| `QueueAttempts.HandledAtMost` | ops/intake-worker/queueWorker.js:133-164 | over every interleaving with crashes, redelivery and lost deletes a message is delivered at most maxDequeue times and once more per escape, and handled at most once per delivery |
| `QueueAttempts.UndisturbedHandledAtMostMax` | ops/intake-worker/queueWorker.js:133-164 | without a crash, a lost delete or a delivery during another the bound is maxDequeue |
| `QueueAttempts.BoundIsReached` | ops/intake-worker/queueWorker.js:133-164 | the bound is exact: for every limit and every number of escapes some run handles the message so often |
| `QueueAttempts.CrashOnLastDelivery` | ops/intake-worker/queueWorker.js:145-164 | a worker that crashes on the last delivery allowed makes the message be delivered once more |
| `QueueCauses.AckedAfterSuccess` | ops/intake-worker/queueWorker.js:145-151 | in every run a text is acknowledged at most as often as a handling of it ended with success |
| `QueueCauses.PoisonedWhenSpent` | ops/intake-worker/queueWorker.js:151-164 | in every run a worker sends a message to the poison queue, and deletes its original, only when it was delivered maxDequeue times |
| `QueueCauses.AttemptMeans` | ops/intake-worker/queueWorker.js:145-164 | after an attempt a worker acknowledges exactly when it succeeded, poisons exactly when it failed with the count spent, and else lets go; the queues stay as they are |
| `QueueCauses.SuccessAcknowledges` | ops/intake-worker/queueWorker.js:145-149 | in any state a message received, handled with success and deleted is acknowledged and gone, and nothing else changes |
| `QueueCauses.FailureMoves` | ops/intake-worker/queueWorker.js:151-164 | one received for the last time, failed, sent to the poison queue and deleted has moved there |
| `QueueWorker.Worker.Receive` | ops/intake-worker/queueWorker.js:133-139 | hands out one to batchSize waiting messages, whatever their counts, each counted once more and held by nobody else |
| `QueueWorker.Worker.Settle` | ops/intake-worker/queueWorker.js:145-164 | acknowledges, poisons when the dequeue count is spent, or leaves the message; a delete that fails is a failed attempt, and a poison send or delete that fails ends the worker with the message still stored |
| `QueueWorker.Worker.HandleBatch` | ops/intake-worker/queueWorker.js:145-166 | the loop over a batch conserves every text, and attempts made and attempts still allowed add up as before; texts are acknowledged only for successful handlings and poisoned only with their counts spent; a worker that ends leaves at most one copy too many and loses nothing |
| `QueueWorker.Worker.Drain` | ops/intake-worker/queueWorker.js:133-167 | from any counts a queue that gets nothing new drains whatever the handling does: unless a poison send or delete fails, every message ends acknowledged, after a success, or poisoned, with its count spent; no message is handled more often than its count allows, and one not acknowledged exactly so often |
| `QueueWorker.AttemptsOf` | ops/intake-worker/queueWorker.js:145-156 | a waiting message is allowed maxDequeue less its count attempts, or one when the count is spent already |
| `QueueWorker.Worker.Redrive` | ops/intake-worker/redrive_poison_queue.js:54-82 | for any sizes of the replies it terminates with moved at most maxMessages, moves exactly that many texts from poison to main and stops early only on an empty reply |
| `RateLimiter.Limiter.RateLimit` | platform/gateway/src/http/middleware/rateLimit.ts:20-56 | health checks and requests without user, request id, or tenant or developer role never touch a bucket; any other request changes the bucket of its own key only |
| `RateLimiter.Serve` | platform/gateway/src/http/middleware/rateLimit.ts:16-56 | serving a sequence of raw requests gives the buckets and the answers of the keyed run |
| `RateLimiter.ShareBucketIff` | platform/gateway/src/http/middleware/rateLimit.ts:24-33 | two callers, of tenants without a colon that are not called dev, share a bucket exactly when tenant and user agree, or when both have no tenant and the user agrees |
| `RateLimiter.OddTenantsShare` | platform/gateway/src/http/middleware/rateLimit.ts:33 | a tenant called dev shares buckets with developers without a tenant, and a colon lets two tenants share one |
| `RateLimiter.AnswerIsIndependent` | platform/gateway/src/http/middleware/rateLimit.ts:20-56 | for such tenants each answer to a raw request is the one its caller gets with the requests of all other callers removed |
| `RateLimiter.KeysAreIndependent` | platform/gateway/src/http/middleware/rateLimit.ts:31-45 | the admissions of a key are those of the run with all other keys removed |
| `RateLimiter.DecisionIsIndependent` | platform/gateway/src/http/middleware/rateLimit.ts:31-45 | so is each single decision |
| `RateLimiter.BucketAlwaysTells` | platform/gateway/src/http/middleware/rateLimit.ts:35-45 | a bucket counts the admissions of its window, and the window before saw at most max |
| `RateLimiter.WindowsDoNotOverlap` | platform/gateway/src/http/middleware/rateLimit.ts:35-38 | two windows of a key are the same or a full window apart |
| `RateLimiter.AtMostMaxPerWindow` | platform/gateway/src/http/middleware/rateLimit.ts:35-45 | a key is admitted at most max times in each of its windows |
| `RateLimiter.LessThanTwiceMax` | platform/gateway/src/http/middleware/rateLimit.ts:35-45 | and at most 2 max - 1 times in any interval of the window length |
| `RateLimiter.TwiceMaxLessOneIsReached` | platform/gateway/src/http/middleware/rateLimit.ts:35-45 | for every key, limit and window of 2 seconds or more some run reaches that bound |
| `RateLimiter.RefusedOnlyWhenSpent` | platform/gateway/src/http/middleware/rateLimit.ts:40-56 | a request is refused only when max requests of its own key were admitted in the last window seconds |
| `CustomerChains.SameCustomerIsChained` | workloads/ro-assistant/src/services/ingest/customerIdentity.ts:20-66 | over every interleaving of lookups and writes, whichever row LIMIT 1 picks, two records with one customer id are of one tenant and joined by a chain of records of that customer, each sharing a hash with the next |
| `CustomerChains.NoMatchIsNewCustomer` | workloads/ro-assistant/src/services/ingest/customerIdentity.ts:41-60 | a lookup that matches nothing starts a customer that no record and no other ingest has |
| `CustomerChains.MatchJoinsExistingCustomer` | workloads/ro-assistant/src/services/ingest/customerIdentity.ts:41-60 | a lookup that matches takes the customer of a record it shares a hash with |
| `CustomerChains.LaterLookupMeets` | workloads/ro-assistant/src/services/ingest/customerIdentity.ts:20-66 | whatever happens in between, a later lookup of the tenant that shares a hash with an ingest done never starts a customer, and gets that of the ingest when it picks its record |
| `PiiVault.MatchesIffMeet` | workloads/ro-assistant/src/services/pii/piiVault.ts:74-91 | the column-wise WHERE clause is exactly: the hash sets of the record and of the payload meet |
| `PiiVault.Vault.WritePiiVaultRecord` | workloads/ro-assistant/src/services/pii/piiVault.ts:9-65 | three roles may write one record under (tenant, ro id), overwriting it; every other role changes nothing |
| `PiiVault.Vault.FindCustomerUuidByHashes` | workloads/ro-assistant/src/services/pii/piiVault.ts:69-91 | returns the customer of some matching row of the tenant, and nothing only when no row matches |
| `PiiVault.Vault.ResolveCustomerIdentity` | workloads/ro-assistant/src/services/ingest/customerIdentity.ts:20-66 | missing and empty payloads are errors; otherwise the identity is that of a record the hashes meet, or the minted id when they meet none |
| `SemanticRedaction.RedactedTextPassesCheck` | workloads/ro-assistant/src/services/ingest/redact.ts:39-45 | for every text the five chained replacements leave no email, phone or VIN match, so assertNoRawPii never throws on their output |
| `SemanticRedaction.UnchangedIffNothingMatches` | workloads/ro-assistant/src/services/ingest/redact.ts:96-104 | the redacted text equals the text exactly when none of the five patterns matches it |
| `SemanticRedaction.StageCleans` | workloads/ro-assistant/src/services/ingest/redact.ts:96-104 | a replacement leaves no match of its own email or phone pattern and brings none back |
| `SemanticRedaction.StageKeepsNoVin` | workloads/ro-assistant/src/services/ingest/redact.ts:96-104 | the VIN replacement leaves no VIN and the two later ones open no word boundary around one |
| `RedactionShapes.ShapeIff` | workloads/ro-assistant/src/services/ingest/redact.ts:39-45 | where each of the five patterns matches, in terms of characters: runs and lengths around the @, digits and separators, 17 VIN characters or a word between word boundaries |
| `RedactionShapes.StageCuts` | workloads/ro-assistant/src/services/ingest/redact.ts:96-104 | a replacement cuts the text at the leftmost places of its shape and puts the token of its pattern, for a person behind the role, in their place; everything between stays |
| `RedactionShapes.RedactionIsFiveStages` | workloads/ro-assistant/src/services/ingest/redact.ts:96-104 | redaction is the five replacements in the order email, phone, VIN, person, address |
| `RedactionShapes.NothingIsLeft` | workloads/ro-assistant/src/services/ingest/redact.ts:39-45 | no email, phone or VIN shape is left anywhere in redacted text |
| `RedactionShapes.ClassIsGreedy` | workloads/ro-assistant/src/services/ingest/redact.ts:39-45 | a repeated class takes its longest run first and then gives back one character at a time |
| `Regex.EndsAreMatches` | workloads/ro-assistant/src/services/ingest/redact.ts:39-45 | the backtracking engine finds exactly the matches of the declared language of an expression |
| `TagRedaction.RedactTagValues` | workloads/ro-assistant/src/services/ingest/redact.ts:5-35 | the loop replaces the content of every complete span of the tag and nothing else |
| `TagRedaction.ExtractTagValues` | workloads/ro-assistant/src/services/pii/piiExtract.ts:36-57 | the loop returns the stripped, trimmed, non-empty contents of the same spans |
| `TagRedaction.RedactionIsReadBack` | workloads/ro-assistant/src/services/ingest/redact.ts:5-35 | for one tag and a token without <: redacting again changes nothing, everything outside the contents is as before, and the reader returns the token once per span and nothing else |
| `TagRedaction.FoundSpanIs` | workloads/ro-assistant/src/services/ingest/redact.ts:5-35 | the first complete span: the first opening of the tag in any case, its first closing bracket and the first closing tag behind it; none is reported only when one of them is missing |
| `TagRedaction.CleanedValuesAre` | workloads/ro-assistant/src/services/pii/piiExtract.ts:36-57 | the values extracted are exactly the stripped and trimmed contents that are not empty |
| `TagSpans.ReadRedacted` | workloads/ro-assistant/src/services/pii/piiExtract.ts:36-57 | the same for any way of finding spans that a token does not disturb |
| `SemanticXml.StripXmlTags` | workloads/ro-assistant/src/services/ingest/xmlFieldRouting.ts:561-576 | the scanning loop returns the text outside tags, read character by character |
| `SemanticXml.PrintSemanticXml` | workloads/ro-assistant/src/services/ingest/xmlFieldRouting.ts:551-559 | the printing loop returns the joined lines |
| `SemanticXml.StripIsIdempotent` | workloads/ro-assistant/src/services/ingest/xmlFieldRouting.ts:561-576 | stripped text has no < and stripping it again changes nothing |
| `SemanticXml.SemanticTextSurvives` | workloads/ro-assistant/src/services/ingest/xmlFieldRouting.ts:551-576 | stripping the printed document gives a newline and then each text, brackets replaced, on its own line, indented by two spaces |
| `SemanticXml.SafeIsReplaced` | workloads/ro-assistant/src/services/ingest/xmlFieldRouting.ts:554 | the safe form of a text is the text after the two global replacements of < and > |
| `SemanticXml.SafeReadBackIff` | workloads/ro-assistant/src/services/ingest/xmlFieldRouting.ts:554 | it is read back as the text exactly when the text has none of the entities the reading undoes |
| `SemanticXml.SemanticTextIsRead` | workloads/ro-assistant/src/services/ingest/xmlFieldRouting.ts:551-576 | then printing, stripping and reading back gives every text as it was: no semantic text is lost |
| `SemanticXml.PrintedEntriesDiffer` | workloads/ro-assistant/src/services/ingest/xmlFieldRouting.ts:551-559 | the printed document determines paths and texts of its entries |
| `XmlEscape.EscapeIsOnePass` | ops/synthetic-data/generate_v2.ts:119-120 | three replacements in this order are one pass over the characters |
| `XmlEscape.EscapeIsInjective` | ops/synthetic-data/generate_v2.ts:119-120 | escapeXml maps different values to different texts |
| `XmlEscape.TrimmedReadBack` | ops/synthetic-data/generate_v2.ts:119-120 | undoing the escapes of a trimmed escaped value gives the trimmed value |
| `FlatXml.TagIsMatch` | workloads/ro-assistant/src/services/ingest/xmlFieldRouting.ts:82-84 | what the field scanner finds is a match of the field pattern |
| `FlatXml.TagIsShortest` | workloads/ro-assistant/src/services/ingest/xmlFieldRouting.ts:82-84 | it finds one whenever there is one, with the shortest value |
| `FlatXml.NextTag` | workloads/ro-assistant/src/services/ingest/xmlFieldRouting.ts:82-84 | one exec of the global pattern returns the leftmost field from a position on |
| `FlatXml.ReadFlatFields` | workloads/ro-assistant/src/services/ingest/xmlFieldRouting.ts:73-103 | the loops of extractFlatFields compute the field list, the nesting error of the first nested value, and the two invalid-document errors; texts have no < and no outer white space |
| `FlatXml.ReadingMeans` | workloads/ro-assistant/src/services/ingest/xmlFieldRouting.ts:73-103 | what is returned for every document: XML_INVALID without a root or without fields in a root that is not blank; XML_NESTING with the upper-cased name of the first field whose value has a <; else names in upper case with trimmed values, in order |
| `FlatXml.FieldsAreLeftmost` | workloads/ro-assistant/src/services/ingest/xmlFieldRouting.ts:82-100 | the fields of a text are its leftmost matches, each looked for behind the one before |
| `FlatXml.ReadTextsAreFlat` | workloads/ro-assistant/src/services/ingest/xmlFieldRouting.ts:86-97 | no text that the reader returns has a < or white space at its ends |
| `FlatXml.PrintXml` | ops/synthetic-data/generate_v2.ts:208-215 | the printing loop returns the joined document |
| `FlatXml.FieldMap.AddField` | ops/synthetic-data/generate_v2.ts:122-128 | a name that is there already is refused and changes nothing; any other is appended |
| `FlatXmlRoundTrip.PrintedIsRead` | ops/synthetic-data/generate_v2.ts:208-215 | what the reader makes of any printed document: the fields before the first one named REPAIR_ORDER, and an error when that is the first |
| `FlatXmlRoundTrip.RoundTrip` | workloads/ro-assistant/src/services/ingest/xmlFieldRouting.ts:73-103 | the reader gives back exactly the printed fields if and only if none of them is named REPAIR_ORDER |
| `FlatXmlRoundTrip.NothingIsLost` | workloads/ro-assistant/src/services/ingest/xmlFieldRouting.ts:73-103 | names come back in order and values up to surrounding white space |
| `FieldNames.PartNameReadBack` | workloads/ro-assistant/src/services/ingest/lineItemIndexing.ts:76-104 | BASE_l_p, for digit strings l and p, parses to BASE and their values for every base, and a zero index is an error |
| `FieldNames.LaborNameReadBack` | workloads/ro-assistant/src/services/ingest/lineItemIndexing.ts:76-104 | BASE_l parses to BASE and the value of l exactly when the last segment of BASE is not a number |
| `FieldNames.EveryNameIsRead` | workloads/ro-assistant/src/services/ingest/lineItemIndexing.ts:76-104 | how every name is read, by its cuts at the last underscores: plain without a number at the end, labor with one and part with two positive numbers, an error for a zero |
| `SourceRouting.LineNamesReadBack` | workloads/ro-assistant/src/services/ingest/lineItemIndexing.ts:36-104 | every labor and part name of Schema V2 with positive indices is read back as printed |
| `SourceRouting.LineFieldsEndPlainly` | workloads/ro-assistant/src/services/ingest/lineItemIndexing.ts:36-64 | no labor or part field of Schema V2 ends in a numeric segment |
| `RoutingPartition.ParsedIndicesArePositive` | workloads/ro-assistant/src/services/ingest/lineItemIndexing.ts:66-104 | every index of a parsed name is positive |
| `FieldNames.EnsureContiguousIndices` | workloads/ro-assistant/src/services/ingest/lineItemIndexing.ts:106-118 | accepts exactly the lists whose set of indices is 1..n |
| `EditDistance.LevenshteinDistance` | workloads/ro-assistant/src/services/ingest/xmlFieldRouting.ts:127-147 | the table filled in place holds the recursive distance |
| `EditDistance.BestReaches` | workloads/ro-assistant/src/services/ingest/xmlFieldRouting.ts:127-147 | some edit script of that cost turns the left word into the right one |
| `EditDistance.NoScriptIsCheaper` | workloads/ro-assistant/src/services/ingest/xmlFieldRouting.ts:127-147 | and no script costs less |
| `EditDistance.ZeroIffEqual` | workloads/ro-assistant/src/services/ingest/xmlFieldRouting.ts:127-147 | the distance is zero exactly for equal words |
| `EditDistance.Symmetric` | workloads/ro-assistant/src/services/ingest/xmlFieldRouting.ts:127-147 | the distance is symmetric |
| `EditDistance.Triangle` | workloads/ro-assistant/src/services/ingest/xmlFieldRouting.ts:127-147 | the triangle inequality holds |
| `ClosestMatches.ScoreIsLeast` | workloads/ro-assistant/src/services/ingest/xmlFieldRouting.ts:152-157 | the score of a candidate is its least distance to an unknown field |
| `ClosestMatches.ClosestSchemaMatches` | workloads/ro-assistant/src/services/ingest/xmlFieldRouting.ts:149-161 | parses the bases, scores every candidate with levenshteinDistance, sorts and cuts: the result is that of the specification, or the error of the first name that cannot be parsed |
| `ClosestMatches.ClosestAreBest` | workloads/ro-assistant/src/services/ingest/xmlFieldRouting.ts:149-161 | the suggestions are a sorted, duplicate-free choice of the limit, and no field left out beats one that is in by (score, name) |
| `UnknownFields.UnknownFieldsAreUnknown` | workloads/ro-assistant/src/services/ingest/xmlFieldRouting.ts:364-470 | the unknown-field error names fields whose bases the schema does not know, each once, so that removing duplicates changes nothing |
| `UnknownFields.SuggestionsAreBest` | workloads/ro-assistant/src/services/ingest/xmlFieldRouting.ts:149-173 | for every document refused for unknown fields the suggestions are found: the bases are parsed, none is known, and the suggestions, at most five known fields, are the nearest |
| `UnknownFields.SourceSuggests` | workloads/ro-assistant/src/services/ingest/xmlFieldRouting.ts:163-170 | at Schema V2 there is always a suggestion |
| `RoSchema.V2IsValid` | workloads/ro-assistant/src/services/ingest/roSchemaV2Fields.ts:1-86 | the three classes of Schema V2 are disjoint and cover every line item field |
| `FieldRouting.CollectWith` | workloads/ro-assistant/src/services/ingest/xmlFieldRouting.ts:357-462 | the loop over the leaves with its three mutable maps computes the fold of the per-leaf step, errors included |
| `FieldRouting.RouteXmlToPayloads` | workloads/ro-assistant/src/services/ingest/xmlFieldRouting.ts:357-485 | the payloads are the collected fields, with lines in order of their indices |
| `RoutingPartition.AllowedIff` | workloads/ro-assistant/src/services/ingest/xmlFieldRouting.ts:376-461 | which indexed names the branches let through: labor and part fields with an index of their kind, all others without, numbers where due |
| `RoutingPartition.RouterAccepts` | workloads/ro-assistant/src/services/ingest/xmlFieldRouting.ts:357-466 | a document is accepted exactly when its names differ and every field is allowed |
| `RoutingPartition.LandsOnce` | workloads/ro-assistant/src/services/ingest/xmlFieldRouting.ts:367-462 | every field of an accepted document is in exactly one of the personal, deterministic and semantic payloads |
| `RoutingPartition.StoredAsRead` | workloads/ro-assistant/src/services/ingest/xmlFieldRouting.ts:367-462 | under different parsed names a place of the payloads holds what its field writes |
| `RoutedValues.ValuesStand` | workloads/ro-assistant/src/services/ingest/xmlFieldRouting.ts:175-355 | under different parsed names every value stands where its name says: the number that its text reads as for number fields, the text itself for other deterministic fields, in the header or on its line; personal values word for word |
| `RoutedValues.SemanticIs` | workloads/ro-assistant/src/services/ingest/xmlFieldRouting.ts:405-461 | the semantic payload is one entry for each field with a semantic base, in document order, with its path, its text and the indices of its name |
| `RoutedValues.NameIs` | workloads/ro-assistant/src/services/ingest/xmlFieldRouting.ts:312-323 | the customer name is the name fields that are not empty, in document order, with one space between them |
| `RoutedValues.ValuesHaveFields` | workloads/ro-assistant/src/services/ingest/xmlFieldRouting.ts:367-462 | nothing else is in header and lines: every cell belongs to a field of the document with that base and those indices |
| `RoutedValues.LinesHaveFields` | workloads/ro-assistant/src/services/ingest/xmlFieldRouting.ts:398-440 | and every labor or part line to a field with its indices |
| `RoutedValues.PersonalIff` | workloads/ro-assistant/src/services/ingest/xmlFieldRouting.ts:470-485 | there is a personal payload exactly when some field is personal |
| `RoutingErrors.RefusalIs` | workloads/ro-assistant/src/services/ingest/xmlFieldRouting.ts:365-470 | which error a refused document gets: that of the first field that repeats a path or is refused for its name, its class or its text, or else all unknown fields in document order |
| `RoutingPartition.NoPiiInSemantic` | workloads/ro-assistant/src/services/ingest/xmlFieldRouting.ts:487-498 | assertNoPiiInSemantic never fires on routed output |
| `RoutingPartition.PartEntriesHaveLines` | workloads/ro-assistant/src/services/ingest/xmlFieldRouting.ts:405-430 | every semantic entry of a part has a part line |
| `RoutingPartition.LinesAreIndexed` | workloads/ro-assistant/src/services/ingest/xmlFieldRouting.ts:470-478 | lines come in strictly increasing order of positive indices |
| `RoutingOrder.AcceptanceIgnoresOrder` | workloads/ro-assistant/src/services/ingest/xmlFieldRouting.ts:357-466 | permuting the fields of a document does not change whether it is accepted |
| `RoutingOrder.RoutingIgnoresOrder` | workloads/ro-assistant/src/services/ingest/xmlFieldRouting.ts:357-485 | for names that parse to different (base, labor, part), any permutation gives the same deterministic payload and lines, a permuted semantic payload, and the same personal data up to the order of the name parts |
| `SourceRouting.SourceAccepts` | workloads/ro-assistant/src/services/ingest/xmlFieldRouting.ts:357-466 | with Schema V2 and parseIndexedFieldName a document is accepted exactly when its names differ and every field is allowed |
| `SourceRouting.SourceLandsOnce` | workloads/ro-assistant/src/services/ingest/xmlFieldRouting.ts:367-462 | with these, every field of an accepted document is in exactly one payload |
| `SourceRouting.SourceNoPiiInSemantic` | workloads/ro-assistant/src/services/ingest/xmlFieldRouting.ts:487-498 | with these, assertNoPiiInSemantic never fires |
| `SourceRouting.SourceIgnoresOrder` | workloads/ro-assistant/src/services/ingest/xmlFieldRouting.ts:357-485 | with these, any order of the fields is routed alike when no index has a leading zero |
| `SourceRouting.SourceValidatedIndices` | workloads/ro-assistant/src/services/ingest/xmlFieldRouting.ts:473-479 | with parseIndexedFieldName and any schema, validated labor line i has index i+1 and the parts of each line are numbered from 1 |
| `RoutingLaws.AcceptedIff` | workloads/ro-assistant/src/services/ingest/xmlFieldRouting.ts:367-466 | acceptance is a property of each field alone plus different names |
| `RoutingLaws.RunFills` | workloads/ro-assistant/src/services/ingest/xmlFieldRouting.ts:391-452 | a place in the payloads is filled exactly when some field writes it |
| `RoutingLaws.RunWrites` | workloads/ro-assistant/src/services/ingest/xmlFieldRouting.ts:391-452 | when no two fields share a place, it holds what its one field carries |
| `RoutingLaws.RunLines` | workloads/ro-assistant/src/services/ingest/xmlFieldRouting.ts:391-440 | a labor or part line exists exactly when some field, semantic or not, carries its index |
| `RoutingLaws.RunSemantic` | workloads/ro-assistant/src/services/ingest/xmlFieldRouting.ts:406-461 | the semantic payload is the semantic fields in document order |
| `SortedLines.SortLines` | workloads/ro-assistant/src/services/ingest/xmlFieldRouting.ts:471-478 | sorting the values of a map gives exactly its entries in increasing order |
| `SortedLines.LinesAreUnique` | workloads/ro-assistant/src/services/ingest/xmlFieldRouting.ts:471-478 | there is only one such list |
| `LineItemValidation.ValidateLineItems` | workloads/ro-assistant/src/services/ingest/xmlFieldRouting.ts:597-742 | the checks in order: which error is raised, if any |
| `LineItemValidation.CheckPartGaps` | workloads/ro-assistant/src/services/ingest/xmlFieldRouting.ts:612-626 | the map of part indices per labor line finds a gap exactly when one line has one |
| `LineItemValidation.AcceptedIffAcceptable` | workloads/ro-assistant/src/services/ingest/xmlFieldRouting.ts:597-742 | no error is raised exactly for contiguous indices, parts on existing labor lines, described parts that exist, and products and totals within 0.01 |
| `LineItemErrors.ErrorIsRaised` | workloads/ro-assistant/src/services/ingest/xmlFieldRouting.ts:597-742 | which error is raised: of the first stage that fails, of the first line in it, of the first check of that line, with the limits 275 per hour, 20 hours and 0.01 |
| `LineItemValidation.GrandTotalIsHonest` | workloads/ro-assistant/src/services/ingest/xmlFieldRouting.ts:641-741 | an accepted grand total differs from 275 times the hours plus quantities times unit prices plus fees and tax less discount by at most 0.01 per line and one more |
| `RoutedLineItems.NoLooseDescriptions` | workloads/ro-assistant/src/services/ingest/xmlFieldRouting.ts:628-638 | after routing the PART_DESCRIPTION_ORPHANED branch is unreachable |
| `RoutedLineItems.ValidatedIndices` | workloads/ro-assistant/src/services/ingest/xmlFieldRouting.ts:473-479 | when routed line items pass, labor line i has index i+1 and parts are in lexicographic order, numbered from 1 on each labor line |
| `RoutedLineItems.ValidatedAmounts` | workloads/ro-assistant/src/services/ingest/xmlFieldRouting.ts:597-742 | when routed line items pass, the named cells of every line and of the header hold numbers that fit each other |
| `Random.Rng.constructor` | ops/synthetic-data/v2Rng.ts:17-30 | the generator steps and outputs as mulberry32 does, from its seed |
| `Random.Rng.Next` | ops/synthetic-data/v2Rng.ts:17-25 | advances the state by one step and returns its output, the next fraction of the seed's tape |
| `Random.HashSeed` | ops/synthetic-data/v2Rng.ts:8-15 | the loop folds the character codes with the rounds that the next results are about |
| `Random.OneCharacterMatters` | ops/synthetic-data/v2Rng.ts:8-15 | two seed texts that differ in one character hash to different seeds, as every round can be undone |
| `Random.HashedTellsApart` | ops/synthetic-data/v2Rng.ts:8-15 | hashing the same text never brings two hashes together |
| `Random.KnownHashes` | ops/synthetic-data/v2Rng.ts:8-15 | the hashes of the empty text, a and foobar are the published ones of FNV-1a |
| `Random.Rng.Int` | ops/synthetic-data/v2Rng.ts:32-36 | the draw scaled to the range, both ends included |
| `Random.Rng.Choose` | ops/synthetic-data/v2Builders.ts:10-13 | chooseFloat stays within its bounds |
| `Random.Rng.Shuffle` | ops/synthetic-data/v2Rng.ts:41-48 | the in-place swaps are the picks applied in order, and the result is a permutation |
| `Random.EveryOrderIsReached` | ops/synthetic-data/v2Rng.ts:41-48 | every permutation is the result of some picks |
| `LineItemBuilder.MakeLaborHoursSplit` | ops/synthetic-data/v2Builders.ts:85-109 | the split of its draws: a total that n lines can carry is split into n values within [0.50, 20.00] that sum to it; the error is raised for no such total |
| `LineItemLaws.SplitFits` | ops/synthetic-data/v2Builders.ts:85-109 | for every run of draws within their bounds, a total that n lines can carry is split exactly and each line keeps to [0.50, 20.00] |
| `LineItemBuilder.BuildLines` | ops/synthetic-data/v2Builders.ts:129-172 | the lines of its draws: labor line i has index i+1 and its exact product, the parts of each labor line are numbered from 1, and no line has more than the largest number of parts |
| `LineItemBuilder.FitTotal` | ops/synthetic-data/v2Builders.ts:193-229 | re-pricing keeps indices and products, and gives up exactly when the total is out of range and labor alone, or labor with all parts but the last, exceeds the range |
| `LineItemLaws.AdjustedInRange` | ops/synthetic-data/v2Builders.ts:193-229 | the adjusted total is out of range exactly under that condition, for every target |
| `LineItemBuilder.BuildLineItems` | ops/synthetic-data/v2Builders.ts:111-241 | returns the bundle that its draws lead to: a returned bundle is sound, has an allowed number of labor lines and a grand total in range, zero under warranty; the hours error is unreachable, and GEN_RANGE is raised only under `LineItemRange.CanGiveUp` |
| `LineItemLaws.BuiltIsSound` | ops/synthetic-data/v2Builders.ts:111-241 | for every run of draws, a bundle is sound and in range, the hours error is not raised, GEN_RANGE not under warranty, and an empty pick only with an empty template list |
| `LineItemTexts.BuiltTexts` | ops/synthetic-data/v2Builders.ts:129-165 | every text of a returned bundle comes from the template list of its kind, causes from causes, corrections from corrections and so on, and the labor type is warranty exactly in a warranty scenario |
| `LineItemTexts.BuiltHours` | ops/synthetic-data/v2Builders.ts:118-124 | a returned bundle bills the drawn total hours when its lines can carry them, and else the closest hours they can carry |
| `LineItemRange.GivesUpIff` | ops/synthetic-data/v2Builders.ts:17-21 | some draws stop the builder with GEN_RANGE exactly when the parameters meet a condition on line counts, parts per line, hours, range and the dearest part |
| `LineItemRange.GivingUpMeans` | ops/synthetic-data/v2Builders.ts:193-229 | for every run of draws, the builder stops with GEN_RANGE only when the parameters meet the condition |
| `LineItemBill.StopsIff` | ops/synthetic-data/v2Builders.ts:111-241 | which draws stop the builder: exactly those whose labor and part prices are out of range and whose labor, or labor below the drawn target with all parts but the last, exceeds it |
| `BuiltLineItems.BuiltIsAccepted` | ops/synthetic-data/v2Builders.ts:111-241 | valid by construction: the ingest validation accepts every bundle the builder returns |
| `Apportionment.CountsAreFair` | ops/synthetic-data/generate_v2.ts:85-104 | largest remainders: the counts sum to the request, each is within less than 1 of its exact share, and none is rounded down while one with a smaller fraction is rounded up |
| `Apportionment.Apportion` | ops/synthetic-data/generate_v2.ts:85-104 | the loops over shares and remaining units compute those counts |
| `ScenarioPlan.ServedFromSeven` | ops/synthetic-data/generate_v2.ts:79-104 | with the shipped distribution every scenario gets a count exactly for requests of 7 or more |
| `ScenarioPlan.BuildScenarioPlan` | ops/synthetic-data/generate_v2.ts:79-117 | succeeds exactly from 7 on; the plan holds each scenario as often as its fair count and does not begin with a repeat visit |
| `ScenarioPlan.ChooseVehicles` | ops/synthetic-data/generate_v2.ts:253-275 | the prior-VIN errors are raised exactly for a plan that begins with a repeat visit, never for a built plan; a repeat visit gets the vehicle of an earlier order |
| `ScenarioPlan.ShippedParamsAreValid` | ops/synthetic-data/v2Scenarios.ts:28-93 | the parameters of every scenario meet what the builder needs |
| `ScenarioSeeds.ShippedGiveUp` | ops/synthetic-data/v2Scenarios.ts:28-93 | exactly three of the shipped scenarios stop with GEN_RANGE for some 32-bit seed of mulberry32; the other three return a bundle whatever the seed |
| `ScenarioSeeds.OnlyDearStop` | ops/synthetic-data/v2Builders.ts:111-241 | the other three return a bundle for every seed wherever in the tape of the seed the builder begins to draw |
| `WellFormedTags.EnsureXmlWellFormed` | ops/synthetic-data/validate_dataset.ts:14-66 | the loop over tags reports the error of the stack machine |
| `WellFormedTags.AcceptedIffDocument` | ops/synthetic-data/validate_dataset.ts:14-66 | nothing is reported exactly when the tags are self-closing tags followed by at most one nested element, the first of them named repair_order |
| `WellFormedTags.ErrorHasReason` | ops/synthetic-data/validate_dataset.ts:28-66 | every error has its reason: an unclosed tag means that elements are left open, any other is raised at one tag, which has no name, closes what is not the innermost open element, follows a closed root or is a first tag of another name, and all that comes before can be closed to a document |
| `WellFormedTags.PrintIsInjective` | ops/synthetic-data/validate_dataset.ts:14-66 | the tags of a document determine it |
| `WellFormedTags.OneRootIff` | ops/synthetic-data/validate_dataset.ts:14-66 | an accepted document has one document element (XML 1.0, section 2.1) exactly when it has a tag and its first tag is not self-closing or is its only one |
| `TaggedText.TextIsRead` | ops/synthetic-data/validate_dataset.ts:14-26 | the scanner reads from a text of tags with attributes, declarations and comments, with any other text between them, the events of its tags |
| `TaggedText.TextPassesIff` | ops/synthetic-data/validate_dataset.ts:14-66 | such a text of the tags of a forest passes exactly when the forest is a document |
| `TaggedText.SecondRootIsAccepted` | ops/synthetic-data/validate_dataset.ts:46-62 | the text `<repair_order/><foo></foo>` is read as a forest with two roots, and nothing is reported |
| `TaggedText.NoTagIsAccepted` | ops/synthetic-data/validate_dataset.ts:14-66 | nothing is reported for a text without tags |
| `Chunking.ChunkText` | workloads/ro-assistant/src/services/ingest/chunk.ts:9-23 | the loop returns the slices that are not blank, numbered in order |
| `Chunking.ChunksHoldTheText` | workloads/ro-assistant/src/services/ingest/chunk.ts:9-23 | the chunks keep every character that is not white space in order, each has 1 to 800 characters and is not blank, and chunk i has index i |
| `ChunkPrivacy.SlicePassesIff` | workloads/ro-assistant/src/services/ingest/chunk.ts:13-14 | a slice of a text that passes assertNoRawPii passes too exactly when no end of it cuts a longer word down to 17 VIN characters; emails and phone numbers never come from a cut |
| `ChunkPrivacy.ChunksPassIff` | workloads/ro-assistant/src/services/ingest/chunk.ts:9-23 | all chunks of a text that passes do so exactly when no cut does that |
| `ChunkPrivacy.CutCanMakeVin` | workloads/ro-assistant/src/services/ingest/ingestPipeline.ts:153-160 | a semantic entry whose text goes through printer, stripper and redaction, and passes the check, can have a chunk that would not |
| `Chunking.EmbedChunks` | workloads/ro-assistant/src/services/ingest/embed.ts:66-73 | one embedding per chunk, under the id of the chunk |
| `Chunking.Tables.StoreChunksAndEmbeddings` | workloads/ro-assistant/src/services/ingest/store.ts:314-337 | appends one chunk row per chunk and one vector row per chunk whose id has an embedding |
| `Chunking.EachChunkGetsItsOwn` | workloads/ro-assistant/src/services/ingest/store.ts:319-336 | in whatever order the embeddings come, every stored chunk gets exactly its own |

## Left out

- RoutingOrder.RoutingIgnoresOrder: leading-zero aliases such as OP_CODE_1 and OP_CODE_01 parse to one name; they collapse to one line with the last write winning, so the names are required to parse differently.
- RoutingPartition.StoredAsRead: the same requirement on names, for the same reason.
- RoutedValues.ValuesStand: the same requirement on names.
- RoutedValues.NameIs: name texts have no outer white space, which the reader makes sure of (FlatXml.ReadTextsAreFlat).
- FieldRouting.RouteXmlToPayloads: number parsing is a partial function; parseInt on more than 15 digits loses precision, and on a very long run of digits gives Infinity, which the code rejects. Scalar fields of a payload are entries of a map under their field names instead of record properties.
- ClosestMatches.ClosestAreBest: localeCompare is any total order on names.
- LineItemBuilder.BuildLineItems: exact hundredths instead of floating point; the strings made from drawn numbers (OP100, TECH-7, PART-1234) are kept as the numbers, and the words of fixed lists as values of their own types.
- ScenarioSeeds.ShippedGiveUp: the template lists are required not to be empty, as the shipped ones are; which of the other seeds stop the builder is decided by their draws (LineItemBill.StopsIff), not listed.
- LineItemRange.GivesUpIff: the same requirement on the template lists.
- TaggedText.TextPassesIff: text with an opening bracket outside tags is not covered; a closing bracket inside an attribute value or comment ends the tag for the scanner, and what follows it counts as text between tags.
- Random.Rng.Next: the state wraps at 32 bits, which the code's number does not; the two agree until the number exceeds 2^53, after some five million draws.
- Apportionment.Apportion: shares are exact fractions; ties that floating point would break differently are broken by position. The shared count objects of the source are cells of one array.
- RateLimiter.LessThanTwiceMax: window and maximum are whole numbers; the settings also admit fractions. The audit entry of a refusal is not modelled.
- SemanticRedaction.RedactedTextPassesCheck: letters are ASCII; under the flags in use no other character folds to one.
- TagRedaction.RedactionIsReadBack: one tag at a time. The chain of many tags in redactPii is not modelled, since overlapping malformed spans of different tags interact. Lower-casing is taken to keep lengths, as it does on ASCII.
- FlatXml.FieldMap.AddField: values are texts; formatting numbers with two decimals is not modelled.
- CustomerChains.SameCustomerIsChained: ro ids are new, as randomUUID gives them, so the machine has no overwriting write.
- QueueProtocol.NothingIsLost: a delete is by message id and is refused when the message is gone; pop receipts and visibility times are arbitrary choices of the schedule.
- QueueWorker.Worker.Redrive: its sends and deletes succeed; where they fail is among the crashes and lost deletes of QueueProtocol.
- Liveness of intake: FAILED rows never return to PENDING, and a crash leaves a row PROCESSING forever (IntakeProtocol.CrashLeavesProcessing), so only at-most-once is claimed.
- Blob download, the sax parser, HTTP, JWT, encryption, hashing, Postgres row-level security and session variables, and the Azure clients: foreign calls.
- The metrics counters of the worker: their flush is not awaited, so records that land during a flush are lost or counted twice.
- storeRepairOrderDetails and the other inserts of store.ts: column lists without logic, and the first has fewer parameters than placeholders.
- Full generator-to-router acceptance: the generator writes CAUSE_n and CORRECTION_n, which routing rejects, so only line items and totals are followed through.
- buildLineItemSemanticRedactions, assertSemanticRedaction, validateRoNumber and the required-field tests of validateRoutedPayloads: single branches.
- The audit pages of the gateway, scripts/pii_reencrypt.ts and scripts/ftp_intake_watcher.ts.
- Intent patterns, strategy selection, role tables, tone and the TTL store: single branches.
