# egent-jobs, verified model

`egent-jobs` is a River job worker over Postgres: it parses uploaded files into chunks, embeds the chunks,
answers RAG evaluation records, extracts memories from conversations and keeps a versioned persona document.
SQL, HTTP, the embedder and the language model enter this model as outcomes that the environment chooses, any
of which may be a failure; what is proved is how state evolves across goroutines, loops, retries and
transactions, for every choice.

| file | what it models |
|---|---|
| `EmbedProtocol`, `EmbedSafety`, `EmbedContract`, `EmbedSchedule` | the dispatch and drain protocol of the embed worker as a transition system, its invariant, and what it promises |
| `EmbedTable` | the embeddings table and its upsert; a job's attempts sharing the table with goroutines of earlier attempts |
| `Batching` | `chunkBy` |
| `TextChunker`, `ChunkerProperties`, `Utf8`, `Whitespace` | the default text chunker on bytes, and conservation, size and UTF-8 properties |
| `TaskLedger` | the `async_tasks` row over all attempts of a job (module `EmbedLedger`: with the embed protocol as `run`) |
| `ParseStore`, `ParseLedger`, `PoolDeadlock` | the two batches of parse persistence over retries, together with the ledger row, and over a bounded connection pool |
| `RagEval`, `RagEvalWorkers` | the RAG evaluation record, resumed stage by stage; the embedding stages of several workers at once |
| `MemoryIngest` | gatekeeper, five extract-and-store loops, transactional parent and child rows |
| `Persona` | the persona document and its history (module `PersonaTransactions`: interleaved transactions) |
| `BracketScan`, `JsonReplies` | the regular expressions that fish JSON out of replies; JSON text with its white space, and which arrays they recover |
| `VectorLiteral` | pgvector literals (module `Numerals`: decimal numerals as Go prints and reads them) |
| `Embeddings`, `SeqUtil`, `BlankText` | vectors and their dimension, sequences, white space |

Objects that the source updates in place (the ledger store, the chunker's builder, the tables behind each
worker) are classes whose methods are proved against specification functions; the theorems are about those
functions and about the transition systems.

## Where the code and its comments or evident intent disagree

The model follows the code; each point below is a lemma.

- The embed drain waits for one message per batch, but goroutines send only on failure. With at least one
  batch `run` never returns nil; after every batch succeeded it waits for the outer context to expire, and the
  ledger row never becomes "success" (`EmbedContract.LiteralMeetsContractIffEmpty`,
  `EmbedLedger.EmbeddedButProcessing`, `EmbedLedger.NeverSuccess`). With one message per batch the same
  protocol meets its contract (`EmbedContract.IntendedMeetsContract`).
- The chunker writes the tail of an over-long line twice and splits it once; the cap is no bound on a chunk, and
  a cut can fall inside a character (`ChunkerProperties.LiteralConservesIffBlankTails`, `SharedText`,
  `Utf8PreservedIffCutsAtBoundaries`; when the cap does bound the texts, `CapBoundsTextsIff`).
- The parse worker compares a wrapped no-rows error for identity, so a vanished task row is retried to the last
  attempt instead of cancelled (`TaskLedger.MissingRow`).
- `MarkSuccess` ignores the affected-row count and leaves an earlier error payload in place
  (`TaskLedger.Store.MarkSuccess`, `TaskLedger.ErrorColumn`).
- `SkipExist` is never read: a failed closing write duplicates a file's chunks on the retry
  (`ParseStore.SettledIffClosed`).
- A parent evaluation that was marked in error stays so when every record later succeeds
  (`RagEval.EvaluationErrorIff`).
- The persona worker guards against a blank persona but not against a cleared tagline, and history rows carry a
  new id rather than the document's (`Persona.TaglineReplaysIffNeverCleared`,
  `LiveTaglineReplaysIff`, `OnlyFirstRowNamesDocument`).
- The prompts ask for a `tags` array in every element, and the array expression cannot match across a nested
  array: it finds the first innermost one, so such replies store nothing (`JsonReplies.TaggedArrayNeverRecovered`,
  `FirstInnerFound`, `MemoryIngest.TaggedRepliesStoreNothing`).
- Memory ingestion reports success when every store operation failed (`MemoryIngest.NilWithNothingStored`).

## Assumptions

- An SQL statement, batch or commit that reports an error was not applied. A batch of parse persistence applies
  as a whole. A batch of embedding upserts may also stop after any number of its rows.
- Generated ids are fresh: row ids are positions in the table.
- The embedder is deterministic per chunk id where convergence is claimed (`EmbedJob.World`), and arbitrary
  elsewhere.
- A pooled batch keeps its connection until it is closed.
- `RagEval`, `MemoryIngest` and `ParseStore` take whole attempts one after another, although their queues run
  several workers (main.go:122-128); only the embedding stage of the evaluation is also modelled with workers
  interleaving (`RagEvalWorkers`), one attempt at a time on each record.
- Persona transactions run under read committed, the upsert holding the row lock until the end.
- Decoding a JSON text, and the exponent threshold of the `%g` format, are parameters.

## Model

| member | source | states |
|---|---|---|
| Batching.ChunkBy | fileingest/embed_worker.go:320-334 | the loop that cuts slices computes the batches described from the front of the list |
| Batching.BatchesPartition | fileingest/embed_worker.go:320-334 | batches concatenate to the input, none is empty or longer than the requested size (one, if that is not positive), all but the last have exactly it, and there are none exactly for no items |
| Batching.BatchesDisjoint | fileingest/embed_worker.go:320-334 | distinct chunks fall into exactly one batch |
| EmbedSafety.StepInv | fileingest/embed_worker.go:179-228 | every enabled step of the main goroutine, a batch goroutine or the outer context keeps the protocol invariant (slots, program counters, outcomes, messages) |
| EmbedSafety.ReachableInv | fileingest/embed_worker.go:179-228 | the invariant holds in every state reachable by any interleaving |
| EmbedContract.PoolSafety | fileingest/embed_worker.go:195-214 | live goroutines number at most the concurrency limit, and equal the occupied slots except between taking a slot and starting its goroutine |
| EmbedContract.SendNeverBlocks | fileingest/embed_worker.go:195-211 | whenever a goroutine is about to send, the error channel has room |
| EmbedContract.GoroutineNeverStuck | fileingest/embed_worker.go:207-213 | every live goroutine has an enabled step of its own, in both modes |
| EmbedContract.StepLowersWork | fileingest/embed_worker.go:200-227 | every step lowers a measure of the remaining work |
| EmbedContract.RunsTerminate | fileingest/embed_worker.go:200-227 | no schedule is longer than the work there is at its start |
| EmbedContract.NoStartAfterReturn | fileingest/embed_worker.go:200-227 | after `run` returned, no schedule starts another goroutine or changes the result |
| EmbedContract.LeftoversExit | fileingest/embed_worker.go:207-213 | goroutines left running by a return can all reach exit without a context expiring |
| EmbedContract.RootCause | fileingest/embed_worker.go:200-226 | if `run` returns an error while the outer context is live and the fetch succeeded, some batch failed on its own account before any cancellation |
| EmbedSchedule.RootCauseHappened | fileingest/embed_worker.go:200-226 | the same on the schedule: some step of it failed a batch on its own account when `cancelWork` had not been called |
| EmbedSchedule.FailureHappened | fileingest/embed_worker.go:207-213 | a batch recorded as failed has a step of the schedule that failed it: an embedder error, a reply of another size than the batch, or a persist error |
| EmbedSchedule.ReachableGuards | fileingest/embed_worker.go:207-226 | in every reachable state results being persisted are one for each chunk; a failure sent or about to be sent came after the cancellation, so dispatch may stop; a batch error names a batch that failed; a context error under a live outer context left some batch unstarted |
| EmbedSchedule.PersistedInFull | fileingest/embed_worker.go:267-283 | a batch that counts as persisted had a reply with a vector of 1024 numbers for each of its chunks, and later a persist call that applied all of it |
| EmbedSchedule.AllPersistedInFull | fileingest/embed_worker.go:195-227 | so for every batch when all count as persisted, and, with one message per batch, for a nil return |
| EmbedContract.NilMeansPersisted | fileingest/embed_worker.go:216-227 | with one message per batch, a nil return means that every batch was persisted |
| EmbedContract.IntendedProgress | fileingest/embed_worker.go:195-227 | with one message per batch, until `run` has returned some step other than the context expiring is enabled |
| EmbedContract.IntendedMeetsContract | fileingest/embed_worker.go:195-227 | with one message per batch, over all interleavings under a live context: every state that can go no further has returned, and returned nil exactly when every batch is persisted, unless the fetch failed |
| EmbedContract.LiteralNeverReturnsNil | fileingest/embed_worker.go:207-227 | the code as written has no reachable state that returned nil when there is a batch to embed |
| EmbedContract.LiteralHangs | fileingest/embed_worker.go:216-227 | with all batches persisted and all goroutines gone, only the outer context can act, and after it only the drain's context case, which returns an error |
| EmbedContract.LiteralReachesAllDone | fileingest/embed_worker.go:200-227 | that state is reachable for every non-empty list of batches and every concurrency |
| EmbedContract.LiteralMeetsContractIffEmpty | fileingest/embed_worker.go:179-228 | the code as written meets the contract exactly when there is no batch |
| EmbedTable.EmbeddingStore.PersistEmbeddings | fileingest/embed_worker.go:285-318 | a wrong dimension anywhere writes nothing; otherwise the rows before the first rejected statement are upserted in order, and success means all of them |
| EmbedTable.EmbeddingStore.EmbedAndPersist | fileingest/embed_worker.go:267-283 | nothing is written on an embedder error, a wrong number of results or a wrong dimension; otherwise the rows before the first rejected statement are upserted, and success is exactly all of them |
| EmbedJob.UpsertTargets | fileingest/embed_worker.go:298-307 | upserting target rows brings exactly the mentioned chunks to their target and leaves every other row |
| EmbedJob.JobStepInv | fileingest/embed_worker.go:200-214 | each step of any attempt, leftover goroutines included, keeps every row at its old or target value, and a target stays a target |
| EmbedJob.OldOrTarget | fileingest/embed_worker.go:285-318 | the same between any two moments of a job, and rows of other files are untouched |
| EmbedJob.Converges | fileingest/embed_worker.go:285-318 | once some attempt persisted all its batches, the table equals that of a sequential loop, whatever failed or overlapped |
| EmbedJob.ConvergesOnChunks | fileingest/embed_worker.go:192-227 | for the batches cut by `chunkBy`, that loop is over the file's chunks in order |
| TextChunker.ScannedAll | fileingest/text_chunker.go:43-44 | the scanner reports an error exactly when some line reaches its limit, and otherwise yields all lines |
| TextChunker.Builder.FlushBuf | fileingest/text_chunker.go:50-61 | an empty buffer is left alone, another becomes a trimmed row with the next index |
| TextChunker.Builder.Scan | fileingest/text_chunker.go:63-82 | one line takes rows, buffer and index to those of the accumulator after that line, tail written twice |
| TextChunker.Chunk | fileingest/text_chunker.go:27-88 | succeeds exactly for empty or valid UTF-8 content whose lines are shorter than 65536 bytes or twice the cap, whichever is more, with the rows of its pieces numbered in order; the cap is 1500 unless a positive one is given; the error says which check failed |
| ChunkerProperties.RawLinesAreLines | fileingest/text_chunker.go:43-64 | lines hold no newline, and with a newline after each they are the file again, up to a final newline it may lack |
| ChunkerProperties.FirstLine | fileingest/text_chunker.go:63-64 | a line ends at a newline, and one carriage return before that belongs to the line end |
| ChunkerProperties.BlankLineSplits | fileingest/text_chunker.go:65-68 | around a blank line the pieces are those of what stands before it and those of what stands after it: no text spans it |
| ChunkerProperties.TextEdges | fileingest/text_chunker.go:54-77 | a flushed text neither begins nor ends with white space, and the head of an over-long line is emitted as it is |
| ChunkerProperties.Conservation | fileingest/text_chunker.go:50-83 | the pieces before trimming concatenate to each non-empty line plus newline, an over-long line being its first cap bytes and the given number of copies of its tail |
| ChunkerProperties.IntendedConservation | fileingest/text_chunker.go:69-78 | with the tail kept once, that is every non-empty line with its newline, over-long lines included |
| ChunkerProperties.TextConservation | fileingest/text_chunker.go:54-83 | white space aside, the emitted texts are the same sequence, despite trimming |
| ChunkerProperties.LinesErased | fileingest/text_chunker.go:43-64 | splitting into lines loses nothing but white space |
| ChunkerProperties.LiteralConservesIffBlankTails | fileingest/text_chunker.go:69-78 | white space aside, the code as written emits the content of the file exactly when every over-long line is blank beyond the cap, and otherwise strictly more |
| ChunkerProperties.IntendedTextConservation | fileingest/text_chunker.go:69-78 | with the tail kept once the texts hold exactly the content, white space aside, if and only if no cut falls inside a white-space character, and otherwise more; in particular when no character is split |
| ChunkerProperties.PiecesAgreeIffLinesFit | fileingest/text_chunker.go:69-78 | keeping tails once or twice gives the same untrimmed pieces exactly when every line fits the cap |
| ChunkerProperties.AgreementMeansBlankTails | fileingest/text_chunker.go:69-78 | where both give the same rows, every over-long line is blank beyond the cap |
| ChunkerProperties.BlankTailsAreNotEnough | fileingest/text_chunker.go:69-81 | a file with a blank tail for which keeping it twice gives one row more |
| ChunkerProperties.LoopHead | fileingest/text_chunker.go:63-82 | before every line the buffer holds fewer than cap bytes and all emitted texts are within the bound |
| ChunkerProperties.TextsBounded | fileingest/text_chunker.go:63-83 | every text is within the bound for longest line L: less than cap + L when every line fits the cap, otherwise max(2 cap - 1, 2 (L - cap) + 1) |
| ChunkerProperties.AcceptedTextsBounded | fileingest/text_chunker.go:44-83 | for every accepted file the scanner's limit bounds the texts |
| ChunkerProperties.BoundIsTight | fileingest/text_chunker.go:63-83 | the bound is attained, for every cap and every length of the longest line |
| ChunkerProperties.CapBoundsTextsIff | fileingest/text_chunker.go:23-24 | the cap bounds every text of every file without longer lines exactly when lines have at most one byte, or cap and lines at most two |
| ChunkerProperties.SharedText | fileingest/text_chunker.go:23-24 | for every cap from 3 on, two lines that fit it share a text of 2 cap - 1 bytes: the cap does not cap each chunk |
| ChunkerProperties.Utf8PreservedIffCutsAtBoundaries | fileingest/text_chunker.go:40-83 | for valid content every text is valid UTF-8 exactly when the cap falls on a character boundary of every line it cuts |
| Utf8.ValidCut | fileingest/text_chunker.go:72-74 | either part of a cut valid text is valid exactly when the cut is at a character boundary (section 4 of RFC 3629) |
| Utf8.ValidIffEncoding | fileingest/text_chunker.go:40 | valid text is exactly the encodings of sequences of Unicode scalar values, by the encoding table of section 3 of RFC 3629 |
| Whitespace.EraseTrim | fileingest/text_chunker.go:55 | trimming removes nothing but white space, multi-byte spaces included |
| Whitespace.SpaceIffScalar | fileingest/text_chunker.go:55 | a character's bytes are taken for white space, from either end, exactly when its code point has the Unicode property White_Space |
| Whitespace.EraseJoin | fileingest/text_chunker.go:72-78 | joining two texts leaves the non-white-space of both exactly when the seam is not inside a white-space character, and otherwise less |
| Whitespace.EraseJoinShorter | fileingest/text_chunker.go:72-78 | joining two texts never leaves more non-white-space than they had |
| TaskLedger.Store.UpdateStatus | asynctask/store.go:57-78 | an error writes nothing, a missing row is reported, a null payload keeps the error column |
| TaskLedger.Store.MarkProcessing | asynctask/store.go:32-34 | sets the status and nothing else |
| TaskLedger.Store.MarkSuccess | asynctask/store.go:38-48 | sets status and duration, keeps the error column, and reports a missing row as marked |
| TaskLedger.Store.MarkError | asynctask/store.go:52-55 | sets the status and replaces the payload, the generic name standing in for an empty one |
| TaskLedger.Store.Work | fileingest/embed_worker.go:128-174 | one call of either worker does to its row, and returns, what the attempt specification says, and touches no other row |
| TaskLedger.Store.RunJob | queue/queue.go:122-130 | attempts run until nil, a cancellation or the last one, with the row, verdict and number of attempts of the job specification |
| TaskLedger.TraceShape | fileingest/parse_worker.go:127-158 | every attempt applies nothing, P, P E or P S; S occurs at most once, in the last attempt, which returned nil |
| TaskLedger.NilMeansSuccess | fileingest/embed_worker.go:156-174 | a job that ended with nil has a row in status success, or no row |
| TaskLedger.ErrorColumn | asynctask/store.go:57-73 | the error column is the payload of the last failed attempt that wrote one, or what it was at the start; it never returns to null |
| TaskLedger.AttemptWrites | fileingest/embed_worker.go:156-174 | what one attempt leaves in a living row, by what happens in it: after a failure it could write, "EmbeddingError" or "AsyncTaskError" with the message of `run`; after a success its duration; and the status |
| TaskLedger.JobWrites | fileingest/parse_worker.go:144-158 | over a job, the error column is the worker's type name and the message of the last attempt that failed and could write it, or what it was at the start; after a nil the duration is that of the last attempt |
| TaskLedger.AttemptLeavesProcessing | fileingest/embed_worker.go:128-174 | an attempt leaves the row in processing exactly when its closing write failed, or it could not write and the row was in processing before |
| TaskLedger.StatusOfJob | fileingest/parse_worker.go:124-158 | over a whole job the status is that of the last attempt that wrote; attempts that stopped after P had a failed closing write |
| TaskLedger.MissingRow | fileingest/parse_worker.go:127-134 | for a vanished row the embed worker cancels exactly when some attempt's first statement gets through, at once if the first does; the parse worker uses up all attempts, whatever happens in them |
| TaskLedger.ParseNeverCancels | fileingest/parse_worker.go:128-131 | no run of the parse worker ends in a cancellation |
| EmbedLedger.EmbeddedButProcessing | fileingest/embed_worker.go:156-174 | an attempt of the code as written that embedded everything leaves the row in processing and fails |
| EmbedLedger.FetchErrorPersistsNothing | fileingest/embed_worker.go:179-183 | with a batch to embed, a failed fetch never goes with all batches persisted |
| EmbedLedger.NeverSuccess | fileingest/embed_worker.go:155-174 | over all attempts of a job, each with batches of its own but at least one, the code as written never writes success and never ends with nil |
| ParseStore.ParseDb.PersistChunks | fileingest/parse_worker.go:217-253 | the two batches, either of which may fail, leave the tables of the attempt specification; success means both went in |
| ParseStore.ParseDb.SendFirst | fileingest/parse_worker.go:218-234 | on success the rows are in, in index order, and the array holds their generated ids in that order |
| ParseStore.LinksAreDistinct | fileingest/parse_worker.go:236-251 | linking keeps the links there were, links every id, and never adds a link that is there already |
| ParseStore.AttemptEffect | fileingest/parse_worker.go:217-253 | by its guards: with both batches in, one more complete copy of the file; with only the first, as many unlinked chunks; otherwise nothing; every link names an existing chunk |
| ParseStore.JobEffect | fileingest/parse_worker.go:161-201 | over all attempts the file gains exactly as many complete, index-ordered copies as attempts got their links in, and unlinked chunks come exactly from attempts that failed between the batches |
| ParseStore.SettledIffClosed | fileingest/parse_worker.go:145-158 | once an attempt has its links in, no continuation can give the file another copy exactly when that attempt's closing write did not fail; on the tables, or there is nothing to copy |
| ParseStore.ClosingKeepsOneCopy | fileingest/parse_worker.go:145-158 | in every run whose linked attempts could all close, whatever else fails, the file gains one complete copy or none |
| ParseStore.DuplicatesAfterFailedClose | fileingest/parse_worker.go:153-156 | from any attempt that had its links in and could not close, one more attempt without a fault adds a whole copy to the file |
| ParseLedger.CopiesByTraces | fileingest/parse_worker.go:144-158 | over a job the copies are the attempts that stopped at P with their links in, and the one that wrote success |
| ParseLedger.CopiesBehindLedger | fileingest/parse_worker.go:124-158 | a row brought to success has at least one complete copy behind it; a job that ended with nil, its row still there, and gave the file k copies had exactly k - 1 linked attempts that stopped at P; one that did not end had k |
| PoolDeadlock.FewCallsProgress | fileingest/parse_worker.go:226-246 | with fewer calls than connections some step is enabled until all calls have finished |
| PoolDeadlock.ManyCallsStuck | fileingest/parse_worker.go:226-246 | with at least as many calls as connections a stuck state is reachable, every connection held by a call that wants another |
| PoolDeadlock.DeadlockFreeIff | fileingest/parse_worker.go:226-246 | N concurrent calls over P connections can always make progress exactly when N < P |
| PoolDeadlock.StepConnections | fileingest/parse_worker.go:226-252 | a returning call gives back every connection it had: one when its first batch failed, two after its second |
| RagEval.RagEvalDb.Run | rageval/rageval.go:151-216 | one attempt, with any call failing, leaves the database, verdict and context used of the attempt specification |
| RagEval.RagEvalDb.EmbedQuestion | rageval/rageval.go:270-313 | inserts the vector and links it in two writes, either of which may fail; a wrong dimension writes nothing |
| RagEval.RagEvalDb.Fail | rageval/rageval.go:463-490 | marks the record and the parent evaluation, each unless its own write fails |
| RagEval.AskedByGuards | rageval/rageval.go:182-207 | an attempt that gets to ask does so with the recorded context if there is one, with none for a dataset without files, and otherwise with what was retrieved, whether or not it could be recorded; it gets there exactly when embedding and retrieval did not fail |
| RagEval.RecordedContext | rageval/rageval.go:195-200 | the record's context becomes what was retrieved exactly when that was due and its write got through |
| RagEval.VerdictMeans | rageval/rageval.go:151-216 | done: a success with this answer; cancelled: a missing record and nothing changed; failed: the record in error unless marking failed; no other record is touched |
| RagEval.RunKeeps | rageval/rageval.go:161-216 | from any database in which recorded embedding ids name rows and successes have answers, over any history: both stay so, a recorded id is never replaced, a non-empty context stays, an evaluation in error stays in error |
| RagEval.AnswersFromPersistedContext | rageval/rageval.go:183-204 | a context that is already recorded is what every later attempt answers from |
| RagEval.ResumesFromRetrieved | rageval/rageval.go:190-204 | what an attempt retrieved and wrote it answers from, even if it then fails, and so does every later attempt on the record that asks, after any history |
| RagEval.ResumesFromEmbedding | rageval/rageval.go:165-180 | a question is embedded once: after any history, later attempts on the record insert nothing and work from the vector that was linked |
| RagEval.AttemptOrphans | rageval/rageval.go:289-310 | one attempt orphans exactly the row that it inserted and failed to link, and no other row becomes or ceases to be an orphan |
| RagEval.OrphansCounted | rageval/rageval.go:289-310 | over any history the embedding rows that no record names grow by exactly the attempts that inserted but failed to link |
| RagEval.RowsAccounted | rageval/rageval.go:289-310 | the other new rows are as many as the newly linked records |
| RagEvalWorkers.OrphansInterleaved | rageval/rageval.go:270-313 | however the embedding stages of attempts on different records interleave, statement by statement and beside other writes, the orphans grow by exactly the failed link statements plus the rows still to be linked |
| RagEvalWorkers.OrphansBetweenQuietMoments | main.go:122-128 | for any number of workers, between two moments when none is under way the orphans grow by exactly the failed links |
| RagEval.FailsIff | rageval/rageval.go:161-212 | an attempt fails exactly when the fetch, the embedding, the retrieval, the answer or the result fails, each by its own guard |
| RagEval.EvaluationErrorIff | rageval/rageval.go:478-487 | after any history the parent evaluation has its earlier status unless in some attempt on one of its records a guard past the fetch failed and the mark got through; then it is in error |
| RagEval.EvaluationStuckInError | rageval/rageval.go:451-490 | a failed attempt and a success leave the only record in success and its evaluation in error, for good |
| MemoryIngest.IngestStore.RunInsert | memoryingest/persist.go:72-91 | a failure at any statement or at the commit changes nothing; success adds one parent and its child |
| MemoryIngest.IngestStore.Create | memoryingest/persist.go:94-226 | a failed embedding stores nothing; otherwise as the transaction |
| MemoryIngest.IngestStore.Extract | memoryingest/extractor.go:98-330 | from the reply, keeps in order exactly the rows decoded from its leftmost array that have the layer's required text; a malformed reply gives none, and only a failed call is an error |
| MemoryIngest.FilterCounts | memoryingest/extractor.go:115-128 | a decoded row is kept as often as decoded if its first field, or for activities and experiences its second, is not blank, and not at all otherwise |
| MemoryIngest.ExtractedRows | memoryingest/extractor.go:98-330 | the same of what an extractor yields from a reply, row by row and so in decoded order |
| MemoryIngest.InsertMeans | memoryingest/persist.go:53-226 | any failure stores nothing; otherwise the parent has the layer and, as summary, the narrative of an activity or the first field of any other layer, null for an empty text |
| MemoryIngest.RunMeans | memoryingest/worker.go:169-256 | an attempt by its guards: nothing for empty content, an error for a failed gatekeeper, nothing for a rejection, and otherwise identity, activity, context, experience and preference in this order |
| MemoryIngest.IngestStore.StoreLayer | memoryingest/worker.go:189-200 | stores the extracted memories in order, and counts exactly the growth in parent rows |
| MemoryIngest.IngestStore.Run | memoryingest/worker.go:169-256 | from replies to tables: an error exactly when the gatekeeper's call fails, with nothing stored; otherwise, if the gate opens, the five layers are stored in order; the total is the growth in parent rows |
| MemoryIngest.Gatekeeper | memoryingest/extractor.go:46-72 | the gate is what the leftmost object that mentions relevance decodes to; without one, or if it does not decode, the reply is malformed |
| MemoryIngest.GateOpensIff | memoryingest/extractor.go:42-72 | extraction goes on unless the leftmost such object decodes to "not relevant" |
| MemoryIngest.ObjectDecides | memoryingest/extractor.go:40-72 | an object without braces inside that mentions "relevant" in quotes, after prose without such an object, decides the gate by what it decodes to |
| MemoryIngest.NoKeyIsMalformed | memoryingest/extractor.go:52-56 | a reply that never mentions it is malformed, whatever objects it holds |
| MemoryIngest.InsertAllStores | memoryingest/persist.go:14-17 | parents and children stay in bijection under failures at any statement, and the memories added are those whose operation succeeded, in order |
| MemoryIngest.StoredPart | memoryingest/worker.go:193-199 | no extracted memory is stored more often than it was extracted |
| MemoryIngest.StoredAllIff | memoryingest/worker.go:193-199 | of one layer, all are stored exactly when no store operation failed |
| MemoryIngest.LayersStoredIff | memoryingest/worker.go:189-252 | the same over all layers |
| MemoryIngest.JobStoresAllIff | memoryingest/worker.go:147-256 | a job stores as many memories as its last attempt extracted exactly when none of that attempt's operations failed |
| MemoryIngest.JobStoresOnce | memoryingest/worker.go:147-256 | over all attempts up to the first nil, only the one that ended the job stored anything, nothing more often than extracted, parents and children in bijection |
| MemoryIngest.NilWithNothingStored | memoryingest/worker.go:193-200 | once the gatekeeper has replied, a job with every store operation failing, whatever its replies, ends with nil and an unchanged store |
| MemoryIngest.TaggedRepliesStoreNothing | memoryingest/worker.go:169-256 | when every layer's reply is the array the prompts ask for, with tags in some element, the job ends with nil and stores nothing |
| Persona.ParsePersonaReply | memoryingest/persona.go:238-260 | the leftmost object that mentions a tagline or persona gives both; otherwise the reply is the persona under the current tagline |
| Persona.ReplyByGuards | memoryingest/persona.go:238-258 | without an object that decodes, the reply is the persona and the tagline stays; otherwise both are what the object says |
| Persona.ObjectSpeaks | memoryingest/persona.go:260 | an object without braces inside that mentions "tagline" or "persona" in quotes, after prose without such an object, is what the reply says |
| Persona.RefreshMeans | memoryingest/persona.go:131-186 | a refresh that is due and goes through makes the reply the live document, one version on, with one more row that is its snapshot; any other changes nothing |
| Persona.DiffsSayWhatChanged | memoryingest/persona.go:418-423 | a row's persona diff is empty exactly when the persona stayed, its tagline diff exactly when the tagline stayed or is empty; otherwise they are the new texts |
| Persona.PersonaStore.WritePersona | memoryingest/persona.go:330-409 | a failure at any statement leaves document and history; success bumps the version, keeps the document id and appends a snapshot with diffs |
| Persona.PersonaStore.Run | memoryingest/persona.go:131-186 | an error exactly when a read, the model, or a write that is due fails, and then nothing changed; without an error nothing changes only for no memories or a blank persona |
| Persona.VersionsAreContiguous | memoryingest/persona.go:330-409 | over any serial run, rolled-back refreshes included, the version equals the number of history rows, rows chain 0 to 1 to n, and each is a non-blank snapshot with its diffs |
| Persona.PersonaReplays | memoryingest/persona.go:382-395 | folding the persona diffs from the empty text reproduces every snapshot and ends at the live document |
| Persona.TaglineReplaysIffNeverCleared | memoryingest/persona.go:393-423 | folding the tagline diffs reproduces every snapshot exactly when no refresh cleared a non-empty tagline |
| Persona.LiveTaglineReplaysIff | memoryingest/persona.go:393-423 | folding them ends at the live tagline exactly when that is not empty, or no refresh ever had one |
| Persona.ClearedTaglineIsLost | memoryingest/persona.go:169-173 | a run of two refreshes with replies as the prompt asks for them, after which the live tagline is empty and the replayed one is not |
| Persona.OnlyFirstRowNamesDocument | memoryingest/persona.go:354-391 | given fresh ids, a history row names the document exactly when it is the first |
| PersonaTransactions.VersionAtMostRows | memoryingest/persona.go:337-402 | however read, upsert, append and commit interleave, the version is at most the number of history rows |
| PersonaTransactions.LockExcludes | memoryingest/persona.go:367-402 | no two transactions are between upsert and commit at once |
| PersonaTransactions.OpenTransactionsProceed | memoryingest/persona.go:331-402 | no open transaction waits for ever: it, or the holder of the row lock it waits for, can go on, and can roll back, which leaves document and histories as they were |
| PersonaTransactions.RowsAreCommits | memoryingest/persona.go:384-402 | over any interleaving the histories grow by one row for each commit |
| PersonaTransactions.SingleWorkerVersions | main.go:129 | with the queue's single worker every run keeps them equal |
| PersonaTransactions.VersionGoesBackwards | memoryingest/persona.go:337-402 | with any number of workers from two on, from any version of at least 2 a commit can take it back to 1 |
| PersonaTransactions.VersionCountsRowsIffOneWorker | memoryingest/persona.go:337-402 | the version equals the number of history rows in every reachable state exactly when there is at most one worker |
| BracketScan.Scan | memoryingest/extractor.go:337-340 | a single pass that remembers the last opening bracket computes the leftmost search |
| BracketScan.LeftmostUnique | memoryingest/extractor.go:337-340 | a search has at most one result: leftmost matches also end at the same place |
| BracketScan.SearchIs | memoryingest/extractor.go:337-340 | the search has exactly the result that is leftmost |
| BracketScan.WrappedFoundIff | memoryingest/extractor.go:40-57 | bracketed text in prose is found whole exactly when it is bracket-free and accepted and the prose before it has no match |
| JsonReplies.FlatIffFree | memoryingest/extractor.go:337 | with any white space between its tokens, the text of a JSON value (sections 2, 4 and 5 of RFC 8259) is free of square brackets exactly when it has no array inside and none of its texts has a bracket |
| JsonReplies.ArrayRecoveredIffFlat | memoryingest/extractor.go:339-349 | an array in a reply is matched as a whole exactly when its elements are flat and no match precedes it |
| JsonReplies.TaggedArrayNeverRecovered | memoryingest/extractor.go:82-92 | an array with an element that has an array field, spaced and broken into lines in any way, is never matched as a whole, whatever surrounds it |
| JsonReplies.TaggedArrayYieldsPart | memoryingest/extractor.go:339-349 | whatever brackets its strings hold, in bracket-free prose such a reply yields nothing, or a piece inside the array that is not all of it |
| JsonReplies.FirstInnerFound | memoryingest/extractor.go:339-349 | without brackets in the strings, what is found and decoded is exactly the first innermost array, however deep it lies |
| JsonReplies.TaggedReplyGivesNoRows | memoryingest/extractor.go:76-128 | a reply as the prompts ask for it, with tags in some element, gives no row to a decoder that takes no array of strings for rows |
| JsonReplies.PromptedIsTagged | memoryingest/extractor.go:82-92 | a reply written as in the prompt is such a reply, and its array of tags is what is found in it |
| JsonReplies.ParseArrayReply | memoryingest/extractor.go:339-349 | no match gives no rows, and otherwise the rows or the error are those of decoding the leftmost match |
| JsonReplies.FlatArrayDecoded | memoryingest/extractor.go:339-349 | a flat array after prose without a match is decoded as it stands, and a reply without a match has no rows |
| Numerals.FixedScans | fileingest/embed_worker.go:345 | scanning the fixed-point numeral of a finite number gives the number |
| Numerals.GeneralScans | rageval/rageval.go:541 | scanning its `%g` numeral does too, wherever the format switches to exponents |
| Numerals.FixedIsShortest | fileingest/embed_worker.go:337-345 | the fixed-point numeral has no exponent, no leading zero but a lone one, no trailing zero in its fraction, and no point without a fraction |
| Numerals.ExponentIff | rageval/rageval.go:541 | the `%g` numeral has an exponent exactly below -4 and from the threshold on |
| Numerals.ExponentHasTwoDigits | rageval/rageval.go:541 | that exponent has at least two digits, padded with one zero at most |
| Numerals.ExponentForms | rageval/rageval.go:559 | an exponent is read with either marker and any sign or none |
| VectorLiteral.VectorToPG | fileingest/embed_worker.go:336-350 | the append loop yields the bracketed, comma-separated numerals of either printer |
| VectorLiteral.ParsePGVector | rageval/rageval.go:549-563 | the parser yields the decimal value of every comma-separated part between the brackets, zero where no decimal scans |
| VectorLiteral.LiteralChars | fileingest/embed_worker.go:336-350 | a literal is brackets, commas and numerals, with no space |
| VectorLiteral.TrimPadded | rageval/rageval.go:559 | white space around a part does not matter |
| VectorLiteral.BracketsOptional | rageval/rageval.go:550-551 | neither do the brackets |
| VectorLiteral.NoDigitIsZero | rageval/rageval.go:557-561 | a part without a digit is zero |
| VectorLiteral.SplitJoin | rageval/rageval.go:555 | splitting at commas undoes joining |
| VectorLiteral.RoundTrip | rageval/rageval.go:534-563 | parsing the literal of any finite vector, the empty one included, gives the vector, so both printers denote the same vector |

## Left out

- mediagen/mediagen.go: its job repeats the ledger shape; the rest is provider calls and polling.
- HTTP clients and fetchers, the language model and the embedder: their replies and failures are parameters.
- main.go wiring, signals, environment parsing and health endpoints; queue/queue.go beyond the number of attempts and of workers.
- Prompts and `buildPersonaPrompts`, logging, `truncate` and the like; `nullable` only where a row depends on it.
- Workspace resolution and tenancy filters, query planning and cosine ranking: which chunks a query returns is a parameter.
- IEEE rounding: numbers are finite decimals in shortest form; infinities and NaN have no literal here.
- VectorLiteral.ParsePGVector: of what `fmt.Sscanf` reads, the decimal forms are modelled, with either sign, a bare point and any exponent; not hexadecimal digits, binary exponents, underscores, infinities or NaN, which neither printer writes for a finite number.
- JSON decoding: an arbitrary function from a matched text to rows, applied where the source applies it.
- Reads of `bufio.Scanner`: lines are split as a whole, with the scanner's limit on their length.
- Concurrent jobs on one file, record or ledger row, other than leftover goroutines of earlier attempts; and workers interleaving on different ones, other than where Assumptions says.
- ChunkerProperties.AgreementMeansBlankTails: row for row this is one direction only; with blank tails the second copy can still move the point at which the buffer is flushed (`BlankTailsAreNotEnough`), so agreement then depends on the lines that follow. For the content of the texts the condition is exact (`LiteralConservesIffBlankTails`).
