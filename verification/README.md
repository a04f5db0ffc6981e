# Catalogue import, read model and reconciler: a verified model

A catalogue service takes vendor CSV files, splits each into byte ranges that any number of
workers import, keeps products and promotions in PostgreSQL, and serves a storefront from a
read model in Redis that is recomputed from PostgreSQL and repaired by a reconciler. This
project models the protocols that hold it together and proves what they keep, over every run.

Four parts, each built from small files:

- **Vendor import.** `FileRows`, `ReadRangeLines` and `ChunkBoundaries` are the byte loops:
  rows of a range, the windowed reader, the splitter; `RowTexts` ties rows to bytes. `Decimal`
  and `VendorCsv` are the row format, and `CutRows` what it makes of a row too long to hold. `ProductStore` is the guarded
  upsert and `ArrivalOrder` when its outcome does not depend on order. `ImportTables` holds each
  SQL statement as its effect on a row; `ImportMachine` is the state machine of one job, its
  chunks and any number of invocations; `ImportInvariant`, `ImportTheorems`, `ImportLanding` and `ImportEndToEnd`
  prove what its runs keep; `ImportStatements` is what each statement does to the columns of
  the rows it matches, and when it matches; `LineValues` is when a committed line's values last, `ImportPrices`
  how far a stored price is from the vendor's, and `ImportOverflow` what a stock too large for
  its column does. `ImportWorker` is `ProcessChunkCommand` as a program, every path
  of which is shown to be a run of that machine; `RegisterImport` is where a run starts, and
  `ImportWitness` one small run from there to completion.
- **Read model.** `ReadModel` gives the two Redis scripts as steps on an index and proves that
  the newest read wins whatever the order; `ReadModelStore` runs them on token text;
  `Recompute` is the machine of handlers that read at one instant and write later; `Rebuild`
  is the rebuild command over keyset pages and scans.
- **Promotions and reconciler.** `Promotions` is the table under its constraints, and
  `PromotedCatalogue` that table, the products and the handlers as one machine.
  `BoundarySweep` is the watermark machine, `SweepWindows` what its windows hold and
  `SweepCommand` the program that refines it.
  `OrphanSweep` settles or re-offers abandoned imports.
- **Money and text.** `BasePrice` is the floored rule chain with its error bound,
  `EffectivePrice` the discounts and the choice of promotion, `ProductEntries` the entry as it
  is priced, stored as text and read back.

Where the source works by changing state, the model is a class or a loop proved against a
specification function, and the theorems are about that function. A machine's `Step` is total:
an action that is not enabled changes nothing, so every sequence of actions is a run. History
fields (`log`, `holders`, `shown`, `acked`, ...) record what happened and decide nothing, but
for `named`, by which product ids are new when they first show.

Times are microseconds and counters unbounded; the source's exact-integer limit,
truncation to milliseconds and flooring are written out where they matter. A file is a
sequence of characters, one per byte.

What the code does and its comments do not say, with when it does and when it does not:

- A header line whose newline lies beyond the first 64 KiB makes a file count as having no
  body: it imports nothing and its job completes (`ChunkBoundaries.BodyCoveredIff`,
  `ChunkBoundaries.LongHeaderLosesBody`).
- A row above the reader's cap is not always refused on its column count, as the comment on the
  cap has it: it is judged by the separators within what was kept, and stored when there are
  four of them and the fields are good
  (`CutRows.RefusedHoweverCutIff`, `CutRows.CutRowIsStored`).
- `upsertMany` is not a register of the newest row: a row skipped as unchanged keeps its old
  provenance, so an older row arriving later can overwrite the newest. For any number of rows
  the newest wins in every order exactly when no row of other values is later than where its
  values are first found (`ArrivalOrder.NewestWinsIff`, `ProductStore.TwoOffersCommuteIff`,
  `ProductStore.NewestOfferCanLose`).
- So a committed line's product need not hold the line's values in the end: a line skipped as
  unchanged leaves a row that an earlier job's straggler may still change
  (`ImportWitness.SkippedLineIsOverwritten`). After its commit a product follows others' offers
  alone, so the values hold throughout a run if and only if each such offer has them or does
  not beat the row (`LineValues.CommittedValuesHoldIff`); and they are final, in every run that
  follows, if and only if the line was written or no earlier job reaches its SKU
  (`LineValues.LineIsFinalIff`, `LineValues.CompletedIsFinalIff`).
- The parser takes a stock up to 2^53 - 1 and the column up to 2^31 - 1. A batch that would
  store more throws, exactly then, and whole (`ImportOverflow.CommitThrowsIff`); so one such row
  keeps its chunk's checkpoint from ever passing it and its job from completing
  (`ImportOverflow.OversizedRowBlocks`).
- A chunk's `done` is final exactly while no failure recorded since has brought it to the
  bound: a straggler that throws after the job completed can turn it into `failed`
  (`ImportTheorems.DoneStaysIff`, `ImportWitness.DoneChunkFails`). The job row and
  `next_offset` are final.
- A draft that is assigned has an instant announced by whichever sweep passes it exactly when
  the mark is still behind that instant and the sweep holding the mark has not selected past
  it (`BoundarySweep.AssignIsSweptIff`).

## Model

| member | source | states |
|---|---|---|
| FileRows.ResumeAt | src/modules/ingestion/domain/read-range-lines.ts:27-35 | every yielded end offset is a row boundary, and reading again from it yields exactly the rows that are left; rows meet end to start and the last ends the range |
| FileRows.RowsConcat | src/modules/ingestion/domain/read-range-lines.ts:27-35 | ranges that meet at a row boundary read as their union |
| FileRows.RowsSnoc | src/modules/ingestion/domain/read-range-lines.ts:52-61 | going one row further appends exactly that row |
| FileRows.ReadsConcat | src/modules/ingestion/domain/read-range-lines.ts:13-25 | readings of adjoining ranges, each row exact within the cap and otherwise a prefix shorter than cap plus window, join into such a reading of the union |
| RowTexts.RowsRejoin | src/modules/ingestion/domain/read-range-lines.ts:44-69 | no row holds a newline, and the rows put together again, a newline after each, are the bytes of the range, but for the newline its last row may lack |
| ReadRangeLines.ScanWindow | src/modules/ingestion/domain/read-range-lines.ts:50-65 | one window: the rows that end in it are taken with their true offsets and the rest is carried over |
| ReadRangeLines.ReadRangeLines | src/modules/ingestion/domain/read-range-lines.ts:36-70 | for every split of the range into windows: every row once, in order, with its true end offset, exact within the cap, else a prefix shorter than cap plus window; nothing for an empty range |
| ReadRangeLines.KeepPiece | src/modules/ingestion/domain/read-range-lines.ts:21-25 | appending a whole piece keeps the held text a faithful bounded prefix of the row so far |
| ChunkBoundaries.FirstRowOffset | src/modules/ingestion/domain/chunk-boundaries.ts:42-49 | the offset past the header line, byte order mark or not, when its newline is in the first 64 KiB; the file's size otherwise |
| ChunkBoundaries.NextNewlineAfter | src/modules/ingestion/domain/chunk-boundaries.ts:51-60 | the end of the row that holds the given offset, however the buffers fall |
| ChunkBoundaries.ChunkBoundaries | src/modules/ingestion/domain/chunk-boundaries.ts:20-40 | consecutive chunks, each the shortest run of whole rows longer than the target, numbered in order |
| ChunkBoundaries.ChunksPartition | src/modules/ingestion/domain/chunk-boundaries.ts:8-19 | the chunks partition the body: non-empty, on row boundaries, end to start, every one but the last longer than the target, ending with the first row that makes it so |
| ChunkBoundaries.SplitUnique | src/modules/ingestion/domain/chunk-boundaries.ts:20-40 | a file and a target have one division |
| ChunkBoundaries.ChunkedReading | src/modules/ingestion/domain/chunk-boundaries.ts:8-19 | for every file, target and windows, the readings of the chunks laid end to end are a reading of the whole body |
| ChunkBoundaries.BodyCoveredIff | src/modules/ingestion/domain/chunk-boundaries.ts:42-49 | the chunked rows are the rows of the body exactly when the header fits in the head of the file or nothing follows it |
| ChunkBoundaries.LongHeaderLosesBody | src/modules/ingestion/domain/chunk-boundaries.ts:42-49 | a concrete file with a row after its header and no chunk |
| VendorCsv.SplitCsvLine | src/modules/ingestion/domain/split-csv-line.ts:9-38 | the character loop computes the recursive split |
| VendorCsv.SplitPrint | src/modules/ingestion/domain/split-csv-line.ts:1-8 | CSV inverse: splitting any non-empty field list printed with the quoting of section 2 of RFC 4180 returns the fields |
| VendorCsv.PlainSplits | src/modules/ingestion/domain/split-csv-line.ts:9-38 | a line without quotes splits at its commas and nowhere else: no field holds one and the fields with commas between are the line |
| VendorCsv.TrimTakesSpace | src/modules/ingestion/domain/parse-vendor-row.ts:23 | what trimming takes off each end is space, and what it leaves neither starts nor ends with any |
| VendorCsv.CentsExact | src/modules/ingestion/domain/parse-vendor-row.ts:11-18 | the cents read digit by digit are exactly 100 times the decimal the text denotes |
| VendorCsv.PricesRead | src/modules/ingestion/domain/parse-vendor-row.ts:7-9 | digits are a price, and digits, a point and more digits are one exactly with one or two of them; and of how many cents each is |
| VendorCsv.PriceIsDecimal | src/modules/ingestion/domain/parse-vendor-row.ts:7-9 | nothing else is a price |
| VendorCsv.AcceptedIff | src/modules/ingestion/domain/parse-vendor-row.ts:32-62 | five trimmed fields are a row exactly when sku, name and category say something and price and stock are written as the contract has it and at most 2^53 - 1; the row's values are theirs |
| VendorCsv.PriceTextReads | src/modules/ingestion/domain/parse-vendor-row.ts:34-36 | a price printed with two places reads back to the cent |
| VendorCsv.RowRoundTrip | src/modules/ingestion/domain/parse-vendor-row.ts:19-44 | parsing a printed row of trimmed fields returns that row, rejected if and only if its price or stock is out of the exact range |
| CutRows.ColumnsCounted | src/modules/ingestion/domain/split-csv-line.ts:9-38 | a line splits into one field more than it has separators outside quotes |
| CutRows.CutNoMoreColumns | src/modules/ingestion/domain/read-range-lines.ts:13-25 | cutting a row never adds a column |
| CutRows.RefusedOnColumnsIff | src/modules/ingestion/domain/read-range-lines.ts:13-19 | a row, cut or not, is refused on its column count exactly when what was kept of it has other than four separators; a row of too few columns always is |
| CutRows.RefusedHoweverCutIff | src/modules/ingestion/domain/read-range-lines.ts:13-25 | a row is refused on its columns however the windows cut it if and only if the most of it that may be held has fewer than four separators or the least already has more; within the cap both are the row |
| CutRows.PaddedReads | src/modules/ingestion/domain/parse-vendor-row.ts:19-44 | a printed row followed by any number of spaces reads as the row |
| CutRows.CutRowIsStored | src/modules/ingestion/domain/read-range-lines.ts:13-19 | a family of six-column rows above the cap, refused whole, that held to the cap read as the good row they start with |
| ProductStore.DedupeKeepsLast | src/modules/product/db/product-repository.ts:44-47 | of a SKU repeated in a batch the last row is the one stored |
| ProductStore.DedupeCounts | src/modules/product/db/product-repository.ts:44-47 | as many rows are stored as the batch has SKUs |
| ProductStore.StatementAt | src/modules/product/db/product-repository.ts:49-83 | what the statement does to one SKU's row whatever else is in the batch: inserted, offered, or untouched |
| ProductStore.ProvenanceGrows | src/modules/product/db/product-repository.ts:64-81 | over any run no row is lost, no id changes and no stored (job, offset) goes back |
| ProductStore.ReplayHarmless | src/modules/product/db/product-repository.ts:38-42 | replaying the batch just applied changes no row |
| ProductStore.RowsIndependent | src/modules/product/db/product-repository.ts:49-83 | a SKU's row depends on its own offers alone, however batches mix it with others |
| ProductStore.NewestWins | src/modules/product/db/product-repository.ts:64-81 | with pairwise distinct values, any arrival order ends with the row of greatest provenance |
| ProductStore.ArrivalOrderIrrelevant | src/modules/product/db/product-repository.ts:64-70 | so two orders of the same offers, duplicates included, end at the same row |
| ProductStore.TwoOffersCommuteIff | src/modules/product/db/product-repository.ts:71-81 | exactly when two offers end with the same values, and with the same row, in either order: not when the older gets past the row's provenance and the newer was skipped as unchanged, nor, for provenance, when both offer one change |
| ProductStore.NewestOfferCanLose | src/modules/product/db/product-repository.ts:71-81 | a concrete row whose newest offer, unchanged, ends overwritten by an older row of the same file |
| ArrivalOrder.NewestWinsIff | src/modules/product/db/product-repository.ts:64-81 | for any number of offers: the newest one's values win in every arrival order, repetitions included, if and only if no offer of other values is later than the stored row that already has them, nor than an offer of them the row would take |
| ArrivalOrder.LosingLoses | src/modules/product/db/product-repository.ts:71-81 | when that fails, an order that loses |
| ProductStore.ProductTable.WriteRow | src/modules/product/db/product-repository.ts:49-83 | one row of the statement: new state, and the product's id exactly if the row was inserted, or beat the stored one with other values |
| ProductStore.ProductTable.UpsertMany | src/modules/product/db/product-repository.ts:43-100 | the table after the deduplicated batch, and one id, the right one, per distinct SKU, written or skipped; or, exactly when a row does not fit its column, none and nothing stored |
| ImportTables.SweepSettles | src/modules/reconciler/commands/sweep-orphan-chunks-command.ts:38-44 | once no chunk is pending or running, one sweep takes the job out of running: completed if every chunk is done, failed otherwise |
| ImportStatements.ClaimWinsIff | src/modules/ingestion/db/ingestion-repository.ts:18-63 | a started invocation's claim wins if and only if its chunk is pending, or running with no lease or one that ran out before now; the winner holds a new lease of the length asked for, to the millisecond, and resumes at the checkpoint; a claim that loses changes no chunk |
| ImportStatements.ReleaseFrees | src/modules/ingestion/db/ingestion-repository.ts:85-98 | a release of a chunk still running under the invocation's lease leaves it pending with no lease and otherwise as it was; any other release changes no chunk |
| ImportStatements.ReleasedIsClaimed | src/modules/ingestion/commands/process-chunk-command.ts:153-160 | after it, at any later instant, the next invocation started for the chunk wins its claim at once and resumes where the released one stopped |
| ImportStatements.CommitMovesIff | src/modules/ingestion/db/ingestion-repository.ts:64-84 | a commit moves the checkpoint if and only if it is where the batch began, adds the batch's distinct SKUs and refused rows, and makes the chunk done exactly at its end; otherwise nothing is written |
| ImportStatements.FailureCounts | src/modules/ingestion/db/ingestion-repository.ts:114-141 | a failure counts once and fails the chunk exactly from the bound on; the invocation goes on to the job exactly if the chunk is then failed |
| ImportStatements.JobEndsIff | src/modules/ingestion/db/ingestion-repository.ts:143-210 | a job completes if and only if it is running and every chunk is done, with the number of chunks and their sums; it fails if and only if it is running, none is left to run and one failed, with its row counters as they were |
| ImportStatements.RefreshRecounts | src/modules/ingestion/db/ingestion-repository.ts:99-113 | a refresh recounts a running job, by its chunks, and no other |
| ImportStatements.InvocationEndsJob | src/modules/ingestion/commands/process-chunk-command.ts:169-173 | an invocation's completion and giving up end the job as the sweep's do |
| ImportInvariant.StepKeeps | src/modules/ingestion/commands/process-chunk-command.ts:121-174 | the invariant of chunks, invocations, leases and job row is kept by every step |
| ImportInvariant.RunKeeps | src/modules/ingestion/commands/process-chunk-command.ts:121-174 | so it holds after every run |
| ImportTheorems.ExactlyOnce | src/modules/ingestion/commands/process-chunk-command.ts:121-174 | in every reachable state the committed batches tile the range before the checkpoint, which is a row boundary; the committed lines are its rows, each once and in order; the counters are sums over exactly those batches |
| ImportTheorems.NeverGoesBack | src/modules/ingestion/db/ingestion-repository.ts:64-84 | checkpoints and failures only grow and what was committed stays committed |
| ImportTheorems.InvocationCosts | src/modules/ingestion/commands/process-chunk-command.ts:99-174 | the work left never rises, and is strictly smaller when an invocation that claimed its chunk and was not killed ends, however it ends, than when it claimed |
| ImportTheorems.JobFinal | src/modules/ingestion/db/ingestion-repository.ts:99-113 | a job leaves running at most once and its row never changes after that |
| ImportTheorems.CompletedIsWhole | src/modules/ingestion/db/ingestion-repository.ts:175-210 | completed means every chunk at its end, and in every later state the job's counters are the sums over its chunks |
| ImportTheorems.DoneStaysIff | src/modules/ingestion/db/ingestion-repository.ts:124-133 | after any run a done chunk is still done if and only if no failure was recorded on it since or its failures are below the bound; otherwise it is failed; its checkpoint stays at its end |
| ImportWitness.RunsToCompletion | src/modules/ingestion/commands/process-chunk-command.ts:99-174 | one import step by step from registration to its completed job |
| ImportWitness.DoneChunkFails | src/modules/ingestion/db/ingestion-repository.ts:124-133 | from there, a straggler that starts and throws turns the done chunk failed while the job stays completed with its old count |
| ImportWitness.SkippedLineIsOverwritten | src/modules/product/db/product-repository.ts:64-81 | from there, an earlier job's late row replaces the values of a line that had been skipped as unchanged |
| ImportTheorems.ReleaseIsHolders | src/modules/ingestion/db/ingestion-repository.ts:85-98 | a release takes effect if and only if the row runs under the invocation's own lease; it then frees that row and no other, and the invocation is the last claimant |
| ImportTheorems.LeaseExclusive | src/modules/ingestion/db/ingestion-repository.ts:27-30 | at most one invocation that can still release holds the row's current lease |
| ImportLanding.RunLands | src/modules/product/db/product-repository.ts:64-81 | every run keeps, when no SKU of the file repeats and no later job touches them: each stored line's product carries the line's provenance and exactly its values, or was skipped as unchanged and holds them still unless an earlier job's offer reached it |
| ImportLanding.WrittenLineStays | src/modules/product/db/product-repository.ts:64-81 | a line that was written keeps exactly its row in every later state, whatever earlier jobs still commit |
| LineValues.ProductFollows | src/modules/product/db/product-repository.ts:64-81 | over any run, whoever else writes: once its row is committed, in a file where no SKU repeats, a product is what the others' offers of its SKU make of the row as it was |
| LineValues.ValuesHoldIff | src/modules/product/db/product-repository.ts:64-81 | so it holds given values in every state of a run if and only if it holds them at first and each later offer has them or does not beat the row |
| LineValues.CommittedValuesHoldIff | src/modules/product/db/product-repository.ts:64-81 | for a line just committed, written or skipped: its values hold throughout exactly when no later offer of other values beats the row its commit left |
| LineValues.LineIsFinalIff | src/modules/product/db/product-repository.ts:71-81 | a committed line's values survive every run in which only this job and earlier ones touch the file's SKUs if and only if the line was written or no earlier job reaches its SKU |
| LineValues.CompletedIsFinalIff | src/modules/product/db/product-repository.ts:71-81 | the same for every row of a completed import |
| ImportOverflow.CommitThrowsIff | docs/schema.sql:249 | a due batch's commit throws if and only if a line it would store, the last of its SKU in the batch, has a stock the column cannot hold |
| ImportOverflow.PrintedOversized | src/modules/ingestion/domain/parse-vendor-row.ts:38-41 | a printed row within the cap that the rules do not refuse is such a row exactly when its stock is above the column's bound and within the parser's |
| ImportOverflow.OversizedRowBlocks | src/modules/ingestion/commands/process-chunk-command.ts:240-262 | in a file where no SKU repeats, no run's checkpoint ever passes such a row and no run completes the job, whoever else writes |
| ImportPrices.VendorPricesLand | src/modules/ingestion/commands/process-chunk-command.ts:206-232 | a completed import leaves every stored row priced by one revision of the rules: never above its exact price, below it by less than the slack, exact without percentages; and its product so wherever no earlier job's offer reached it |
| ImportEndToEnd.RegisterIsRegistered | src/modules/ingestion/commands/register-import-command.ts:44-70 | what registration commits is where the machine starts: nothing committed, chunks end to start on row boundaries of the body |
| ImportEndToEnd.RegisterLands | src/modules/ingestion/commands/register-import-command.ts:57-67 | registration leaves a state those theorems start from |
| ImportEndToEnd.EndToEnd | src/modules/ingestion/commands/process-chunk-command.ts:88-90 | for every file in which no SKU repeats, rows of any length: when no later job touches its SKUs, a completed job has committed every row of the body once, each stored row's product is as RunLands says, exactly the values its batch priced wherever no earlier job reaches it, and the counters add up to the rows of the body |
| ImportEndToEnd.VendorFileLands | src/modules/ingestion/commands/process-chunk-command.ts:206-232 | the same for the vendor's format: each row refused, or stored with the sku, name, category and stock its text reads, which is its whole text within the cap |
| ImportWorker.ImportStore.ClaimChunk | src/modules/ingestion/db/ingestion-repository.ts:18-63 | the guarded update: new state, and what the winner is told |
| ImportWorker.ImportStore.CheckpointBatch | src/modules/ingestion/db/ingestion-repository.ts:64-84 | compare-and-set on the checkpoint |
| ImportWorker.ImportStore.Transaction | src/modules/ingestion/commands/process-chunk-command.ts:240-262 | product write and checkpoint together, or neither; a row its column cannot hold throws |
| ImportWorker.ImportStore.Commit | src/modules/ingestion/commands/process-chunk-command.ts:240-275 | a commit is the machine's step; stored is the batch's distinct SKUs, or none when superseded; thrown exactly when the machine may not commit |
| ImportWorker.ImportStore.ReleaseChunk | src/modules/ingestion/db/ingestion-repository.ts:85-98 | a release is the machine's step: pending and no lease if the row still runs under this lease, no change if not |
| ImportWorker.ImportStore.RefreshJobProgress | src/modules/ingestion/db/ingestion-repository.ts:99-113 | a refresh is the machine's step |
| ImportWorker.ImportStore.CompleteJobIfDone | src/modules/ingestion/db/ingestion-repository.ts:175-210 | a completion is the machine's step |
| ImportWorker.ImportStore.RecordChunkFailure | src/modules/ingestion/db/ingestion-repository.ts:114-141 | a recorded failure is the machine's step, and whether it exhausted the chunk |
| ImportWorker.ImportStore.FailJobIfExhausted | src/modules/ingestion/db/ingestion-repository.ts:143-173 | giving up is the machine's step |
| ImportWorker.ImportStore.TakeRow | src/modules/ingestion/commands/process-chunk-command.ts:142-146 | one row priced into the batch; thrown before anything changed exactly if it parses and the rules are at fault |
| ImportWorker.ImportStore.CommitInto | src/modules/ingestion/commands/process-chunk-command.ts:176-190 | the totals grow by exactly the batch that landed; a batch the table cannot hold throws, and otherwise only a statement's own fault does |
| ImportWorker.ImportStore.NextRow | src/modules/ingestion/commands/process-chunk-command.ts:137-161 | one turn of the loop: on with the batch one row longer, or committed exactly when full; handed off exactly between batches, out of time and short of the end |
| ImportWorker.ImportStore.HandOff | src/modules/ingestion/commands/process-chunk-command.ts:153-160 | out of budget with bytes left: its release is in the run, and it ended short of the chunk's end |
| ImportWorker.ImportStore.Finish | src/modules/ingestion/commands/process-chunk-command.ts:169-173 | counters before status; returns unless one of its statements throws |
| ImportWorker.ImportStore.FillBatches | src/modules/ingestion/commands/process-chunk-command.ts:133-167 | the whole loop over the range, whatever others do between its statements |
| ImportWorker.ImportStore.Process | src/modules/ingestion/commands/process-chunk-command.ts:99-174 | one delivery is a run of the machine whatever interleaves and wherever it throws, the recording of a throw included; the totals it returns are the sums over the batches it itself committed, which tile what it moved the checkpoint over; completed means up to the chunk's end |
| ImportWorker.ImportStore.Caught | src/modules/ingestion/commands/process-chunk-command.ts:102-118 | a throw is recorded, and the job given up when that exhausted the chunk, with others stepping in between and a second throw possible at either statement |
| ImportWorker.CommitTallies | src/modules/ingestion/commands/process-chunk-command.ts:144-151 | the variables of the loop stay in step with the machine across a commit, won or lost |
| RegisterImport.Registry.Execute | src/modules/ingestion/commands/register-import-command.ts:35-86 | accepted exactly when the file is new and the vendor has no open import; then the one division of the body, nothing committed, and each chunk delivered once; otherwise nothing kept |
| OrphanSweep.OrphanIsClaimable | src/modules/reconciler/db/orphan-chunk-repository.ts:16-35 | every orphan is a chunk a claim would take |
| OrphanSweep.OrphanIff | src/modules/reconciler/db/orphan-chunk-repository.ts:16-35 | a chunk of a running job that has not moved for the grace is an orphan if and only if a claim would have taken it a grace ago |
| OrphanSweep.StillRunningHasWork | src/modules/reconciler/commands/sweep-orphan-chunks-command.ts:38-44 | a job the sweep leaves running has a chunk pending or running, and is as it was |
| OrphanSweep.Reconciler.SettleAll | src/modules/reconciler/commands/sweep-orphan-chunks-command.ts:38-44 | every running job is settled, no other job changes |
| OrphanSweep.Reconciler.Execute | src/modules/reconciler/commands/sweep-orphan-chunks-command.ts:34-72 | settles every running job, re-offers only claimable chunks, all of them when every publish goes through |
| ReadModel.ApplyAllShows | src/modules/storefront/db/product-write-repository.ts:25-58 | any run of scripts leaves exactly what each product's winning message says, in all four keys, and nothing else |
| ReadModel.WinnerIsNewest | src/modules/storefront/db/product-write-repository.ts:18-21 | the winner is a message that was applied and none is newer |
| ReadModel.OrderIndependent | src/modules/storefront/db/product-write-repository.ts:13-58 | the same writes and removals in any order with any duplicates leave the same tokens, entries and sorted sets, when equal tokens of one product carry equal content |
| ReadModel.TwoCommuteIff | src/modules/storefront/db/product-write-repository.ts:18-21 | two calls for one product commute if and only if their tokens differ or they are the same |
| ReadModel.IndexInvariant | src/modules/storefront/db/product-write-repository.ts:25-58 | in every reachable index an entry exists iff its token names a category, iff it is in the whole listing, iff it is in exactly that category's set, at the entry's own price |
| ReadModel.TokensGrow | src/modules/storefront/db/product-write-repository.ts:18-21 | no call takes a product's token back |
| ReadModelStore.TokenReadsBack | src/modules/storefront/db/product-write-repository.ts:5-22 | a token's text parses back at its first colon, colons in the category included |
| ReadModelStore.Store.ReadStored | src/modules/storefront/db/product-write-repository.ts:7-23 | refused with the token that won, or the category being left |
| ReadModelStore.Store.WriteScript | src/modules/storefront/db/product-write-repository.ts:25-43 | the WRITE script on text tokens is the step, and its answer |
| ReadModelStore.Store.RemoveScript | src/modules/storefront/db/product-write-repository.ts:45-58 | the REMOVE script on text tokens is the step, and its answer |
| ReadModelStore.Store.AppliedAll | src/modules/storefront/db/product-write-repository.ts:157-178 | a batch in chunks applies every call in order and answers each in its place |
| Recompute.CacheAgrees | src/modules/storefront/events/product-upserted-handler.ts:7-10 | under every interleaving of handlers that read at one instant and write later, of stamps asked for after a read that found nothing, and of products that go for good, every entry is the price of the row as PostgreSQL showed it at the stored token, and absent if it was absent then |
| Recompute.DeliveryOrderIsIrrelevant | src/modules/storefront/db/product-write-repository.ts:13-58 | two runs that delivered the same messages hold the same read model |
| Recompute.TokensOnlyGrow | src/modules/storefront/db/product-write-repository.ts:18-21 | over any run no token goes back |
| Recompute.Converges | src/modules/storefront/events/product-upserted-handler.ts:7-10 | once a read made after a product's last change has been written, the entry is current, whatever older writes still arrive |
| Rebuild.ReachableIsBehind | src/modules/storefront/commands/rebuild-read-model-command.ts:15-18 | any index a run of handlers leaves is one a rebuild may start from at a later instant |
| Rebuild.NextPage | src/modules/storefront/db/product-source-repository.ts:75-94 | a keyset page adds exactly its ids, each once, to what was seen |
| Rebuild.RebuildCommand.Handle | src/modules/storefront/events/product-upserted-handler.ts:19-32 | after a batch exactly its products are up to date and no other product changed |
| Rebuild.RebuildCommand.RecomputePages | src/modules/storefront/commands/rebuild-read-model-command.ts:75-92 | terminates having recomputed every id of the source once, and says how many |
| Rebuild.RebuildCommand.DropOrphans | src/modules/storefront/commands/rebuild-read-model-command.ts:94-121 | every entry with no product behind it is recomputed, no product of the source is touched |
| Rebuild.RebuildCommand.RebuildAll | src/modules/storefront/commands/rebuild-read-model-command.ts:41-48 | from any index a run may leave: ends with exactly the priced catalogue, orphans tombstoned, and opens the storefront only then |
| Rebuild.RebuildCommand.RebuildCategory | src/modules/storefront/commands/rebuild-read-model-command.ts:50-68 | recomputes each id of the source and the set's own listing once, returns the size of that union, and leaves the set exactly the source's category |
| Rebuild.RebuiltExactly | src/modules/storefront/commands/rebuild-read-model-command.ts:41-48 | a recompute of the source and of what else is listed leaves the catalogue and tombstones |
| Promotions.InsertedExactlyWhen | src/modules/promotion/db/promotion-repository.ts:44-73 | an insert is taken if and only if its columns are well formed, it has one target at most, its product exists and no active promotion of its target shares an instant with it; what is stored is what was asked for, active with a target and a draft without; refused, nothing is stored |
| Promotions.AssignedExactlyWhen | src/modules/promotion/db/promotion-repository.ts:75-116 | an assignment is taken if and only if the promotion is a draft that is not over, it names one target and that target exists and is free for the draft's window; it then has that target and is active, all else unchanged; not found and not assignable are told apart |
| Promotions.CancelCancels | src/modules/promotion/db/promotion-repository.ts:118-136 | a cancel makes a known promotion cancelled at this instant and changes nothing else; of one already cancelled it changes nothing |
| Promotions.CancelledForGood | src/modules/promotion/db/promotion-repository.ts:118-136 | in every run that follows it keeps its first instant of cancellation, is active at no instant and stands in the way of no insert |
| Promotions.OnePerTarget | docs/schema.sql:361-369 | in every reachable table, at every instant, at most one active promotion per product and per category |
| Promotions.ReadIsOneRow | src/modules/storefront/db/product-source-repository.ts:36-47 | so a read returns exactly one row per product |
| Promotions.LivesOn | src/modules/promotion/db/promotion-repository.ts:75-136 | over any run a promotion keeps its window, its creation instant and, once cancelled, everything |
| Promotions.LiveIsActive | src/modules/promotion/db/promotion-repository.ts:14-22 | what is shown as live is what prices products then; what is shown expired or cancelled never prices again |
| Promotions.NamesAreNotBlank | src/modules/promotion/domain/dto/create-promotion-input.ts:6 | names trimmed and not empty at creation are never blank in any reachable table, so such an entry is one the reader takes |
| Promotions.PromotionRepository.Create | src/modules/promotion/db/promotion-repository.ts:44-73 | the outcome and the table of an insert, refusals included |
| Promotions.PromotionRepository.AssignTarget | src/modules/promotion/db/promotion-repository.ts:75-116 | the outcome and the table of an assign: not found, not assignable, overlap, no such product, or assigned |
| Promotions.PromotionRepository.CancelRow | src/modules/promotion/db/promotion-repository.ts:118-136 | the outcome and the table of a cancel: cancelled now, or, a repeat, unchanged |
| PromotedCatalogue.JoinedIsRead | src/modules/storefront/db/product-source-repository.ts:36-47 | in every reachable promotion table the read's two left joins give each product exactly one row |
| PromotedCatalogue.ReadIsSound | src/modules/storefront/db/product-source-repository.ts:24-28 | and that row carries exact numbers and named promotions only |
| PromotedCatalogue.ReadHasSides | src/modules/storefront/db/product-source-repository.ts:45-46 | the row's product promotion is the one active then for the product and its category promotion the one active then for its category, each absent exactly when there is none |
| PromotedCatalogue.ShownIsPromoted | src/modules/storefront/events/product-upserted-handler.ts:7-10 | under every interleaving of promotion writes, product writes, the clock and handlers that deliver late: each entry is the price of the one row the tables joined at its token, under the one promotion of its target active then or at the base price, and it parses back to itself |
| BoundarySweep.MarkNeverGoesBack | src/modules/reconciler/db/boundary-repository.ts:68-79 | whatever the clock does and whoever loses the compare-and-set, the windows won run on without gap or overlap, none longer than an hour, and the mark never goes back |
| BoundarySweep.SweepCovers | src/modules/reconciler/db/boundary-repository.ts:7-66 | every start, end, cancellation or creation the mark has passed, of a promotion that showed it as other than a draft less than 30 seconds after it, was acknowledged for the window that passed it |
| SweepWindows.SweptOnlyCrossed | src/modules/reconciler/db/boundary-repository.ts:48-62 | and nothing else was: whatever was acknowledged for a window has an instant in it and is no draft |
| SweepWindows.WindowIsLagged | src/modules/reconciler/db/boundary-repository.ts:7-46 | a sweep's window runs from the mark to 30 seconds before now, to the millisecond, or to an hour past the mark if that is sooner, and is empty if that is not past the mark |
| SweepWindows.RowsLive | src/modules/promotion/db/promotion-repository.ts:75-136 | what the writes the sweep runs beside do to a promotion's instants |
| BoundarySweep.LateAssignIsNotSwept | src/modules/reconciler/db/boundary-repository.ts:48-62 | a draft assigned after the mark passed its start has that start in no later window |
| BoundarySweep.AssignIsSweptIff | src/modules/reconciler/db/boundary-repository.ts:48-62 | a draft assigned in any reachable state: each of its instants is acknowledged by the window that passes it, in every run that follows, if and only if the mark is still behind it and the sweep holding the mark has not selected past it |
| SweepCommand.Reconciler.CrossedSince | src/modules/reconciler/db/boundary-repository.ts:18-66 | both ends in one statement, the promotions in a later one |
| SweepCommand.Reconciler.AdvanceMark | src/modules/reconciler/db/boundary-repository.ts:68-79 | compare-and-set of the mark |
| SweepCommand.Reconciler.Execute | src/modules/reconciler/commands/sweep-boundaries-command.ts:37-64 | one sweep is a run of the machine; it returns only with everything it found acknowledged for its window and its advance made, and throws only if a statement did |
| BasePrice.ChainIgnoresOrder | src/modules/pricing/domain/base-price-calculator.ts:78-82 | with distinct ids the order of the rule rows decides nothing of the chain |
| BasePrice.ChainLists | src/modules/pricing/domain/base-price-calculator.ts:78-82 | the chain is the active ingestion rules and no others, each once, the highest priority first and then the lowest id |
| BasePrice.RulesRunInOrder | src/modules/pricing/domain/base-price-calculator.ts:43-69 | so the rules a row is priced by are those that fire on it, in that order |
| BasePrice.PriorityDecides | src/modules/pricing/domain/base-price-calculator.ts:78-82 | a concrete price that the order decides, the same however the rules are read |
| BasePrice.PricedIffInRange | src/modules/pricing/domain/base-price-calculator.ts:62-69 | a row is priced if and only if every step leaves it within zero and 2^53 - 1 |
| BasePrice.RanksFixTheOrder | src/modules/pricing/domain/base-price-calculator.ts:31-34 | given ranks as priorities, an engine that reports the highest first reports exactly the chain |
| BasePrice.BasePriceCalculator.Calculate | src/modules/pricing/domain/base-price-calculator.ts:43-76 | accepted iff the price stays in range after every rule that fired; otherwise the first rule to take it out is named; bad facts and a failed engine are told apart |
| BasePrice.BasePriceIsWithinSlack | src/modules/pricing/domain/base-price-calculator.ts:181-186 | for well-formed rules: never above the exact price, and below it by less than the sum over percentage steps of the product of the later factors; exact without percentages |
| BasePrice.CalculatorIgnoresOrder | src/modules/pricing/domain/base-price-calculator.ts:25-41 | the same rules in any order compile alike and give every row one outcome: price, rejection, the rule named and the rules version |
| BasePrice.CalculatorIsWithinSlack | src/modules/pricing/domain/base-price-calculator.ts:43-76 | every base price of a calculator built from rules that compile is within that slack |
| EffectivePrice.PricedExactly | src/modules/promotion/domain/effective-price-calculator.ts:18-56 | priced exactly when type, value and base allow; within zero and the base; a percentage leaves the ceiling of the rest, a fixed amount the rest or nothing |
| EffectivePrice.BestIsHighest | src/modules/promotion/domain/promotion-resolver.ts:43-49 | the winner is among the results and none is above it |
| EffectivePrice.SelectDecides | src/modules/promotion/domain/promotion-resolver.ts:39-52 | a level is selected exactly when some rule fires, and is that of a firing rule with none above it |
| EffectivePrice.SelectIgnoresOrder | src/modules/promotion/domain/promotion-resolver.ts:43-49 | between rules that share no priority the order of results decides nothing |
| ProductEntries.PriceIsExplained | src/modules/storefront/domain/product-pricer.ts:16-76 | whatever the rules, the effective price is within zero and the base, and names a promotion exactly when one of the row's candidates made it |
| ProductEntries.PriceFollowsRules | src/modules/storefront/domain/product-pricer.ts:16-55 | an entry is sold under the promotion of the level that a firing rule with none above it selects, the product's or the category's, at the price it makes; at the base price under none when no rule fires or that promotion has no price; its other columns are the row's |
| ProductEntries.SoleWinnerPrices | src/modules/storefront/domain/product-pricer.ts:46-55 | a rule that fires above every other decides alone |
| ProductEntries.FieldsOf | src/modules/storefront/db/product-write-repository.ts:125-155 | the pushed pairs set exactly the stored hash |
| ProductEntries.EntryReadsBack | src/modules/storefront/domain/dto/stored-product.ts:10-37 | the priced entry parses back to itself iff its numbers are exact and its promotion's name, if any, is not blank; otherwise it is refused |
| ProductEntries.SoundRowReadsBack | src/modules/storefront/domain/dto/stored-product.ts:10-37 | an entry priced from exact numbers and promotions with a name always passes every refinement and parses back to itself |

## Left out

- HTTP routes, validation middleware, logging, metrics, configuration and shutdown: plumbing with no state of these protocols.
- UTF-8 decoding: rows are byte sequences, one character per byte, and the row cap counts those; text that is not valid UTF-8 can carry bytes across lines in the source.
- The stream a range is read from is taken whole before the loop over its rows; the file does not change during an import, so this is not observable.
- The queue: delivery is any number of invocations at any time, which covers loss, delay and duplication; job-id deduplication and retry backoff are not modelled, and nothing is claimed of an announcement after a commit, which a kill loses by design.
- PostgreSQL and Redis: each statement, transaction and script is one atomic step; `updated_at` on job rows outside the orphan sweep, `last_error` and the ids a sequence skips are not modelled.
- The rule engine: a condition is any predicate on the facts, compiled rules are taken as well formed beyond their adjustment's range, and the engine reports fired rules highest priority first.
- ArrivalOrder.NewestWinsIff: two offers of the newest provenance are taken to have the same values; a (job, offset) is one line of one file, and ImportTheorems.ExactlyOnce has it committed once.
- Token order: a change is taken to show at a later microsecond than every read before it, so that equal tokens stand for equal snapshots; the source relies on the same (`clock_timestamp()` against the statement's snapshot). Product ids come from an identity column: one that is gone does not come back, and none is asked for before it exists.
- ReadModelStore.Store.WriteScript: the entry is kept as a value; the text fields it is stored as, and what a reader makes of them, are ProductEntries.
- Categories are taken as not blank and Redis as never losing the token hash alone, which the source's validation and deployment see to.
- SKU and file hashing, uploads, the calculator cache's lifetime, re-queueing of failed deliveries, drift counting and `rebuildUnlessReady`: little state and no hard law.
- ImportEndToEnd.EndToEnd: a row above the cap is taken to sell every SKU one of its cut texts may read, because where it is cut depends on how the stream falls into windows; a later job touching the file's SKUs is excluded, as the property it states is of files no later job touches.
- What else PostgreSQL refuses of a row, a NUL in a text or a SKU too long for its index, would throw as an oversized stock does and is not modelled.
- ImportPrices.VendorPricesLand: that a calculator charges what the rules rows of some revision say is BasePrice.BasePriceCalculator.Calculate; here it is what `rules` is taken to be.
- PromotedCatalogue.ShownIsPromoted: numbers in the tables are taken as exact and categories as not blank, as their columns, identity sequences and the inputs' validation keep them.
- LineValues.LineIsFinalIff: job ids are taken to start at 1, as their identity column has it; a job 0 has no earlier one.
- ImportTheorems.LeaseExclusive: the clock only moves forward, as the lease's own use of it needs.
- BoundarySweep.SweepCovers: the clock only moves forward in these runs; MarkNeverGoesBack does not need that.
- Rebuild.RebuildCommand.RebuildAll: the catalogue stands still and no other writer runs beside it; what concurrent handlers do to an entry is Recompute.CacheAgrees.
- OrphanSweep.Reconciler.Execute: the sweep runs without other statements in between; each of its statements among others is a step of the import machine.
- A failed job's row counters are the last refresh's and are not claimed to be final; only a completed job's are.
