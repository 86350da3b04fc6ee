# Verified model of the agent's memory, index, scheduler and tool loops

This project models, in Dafny 4.11, the parts of the agent that have to keep promises across
crashes, repeated runs and adversarial partners, and proves those promises for all inputs and runs.
`dafny verify dfyconfig.toml` checks everything.

| files | what they model |
|---|---|
| `Text`, `Sorting`, `Clock` | stripping, joining and searching text; `sorted` with a key; units of time |
| `MarkerSearch`, `Markers`, `MarkerStripping`, `AppendOnce`, `AppendLimits` | idempotent appends to the memory files: the marker line, the streaming and tail searches, the index row, a power failure between any two file effects, and the runs that break each condition |
| `PendingFiles`, `SnapshotText` | `PENDING.md` and its snapshot as a two-phase commit: append, snapshot by rename, commit, rollback, restart |
| `VectorMath`, `DocStore`, `TableAgreement`, `Transactions`, `Ranking`, `VectorSearch`, `VectorAnswers` | the document store's four tables, and the indexed vector search against the full scan |
| `Indexer` | index runs over loaded files |
| `ChunkText`, `SplitText`, `SplitTable`, `ParseBlocks`, `Chunks`, `Chunker` | the Markdown chunker, on characters that remember where in the document they come from |
| `Scheduler`, `SchedulerRuns`, `Cron`, `CronScheduling` | the job service as a state machine, its runs, the cron parser with its fallback search, and the two together |
| `CycleCheck`, `Apportion`, `Stratified`, `Tokenizer`, `CompactLines`, `TokenTrim` | the evidence-graph check, stratified sampling and the token budget of the evaluation tools |
| `ToolProtocol`, `ToolBatch`, `SubAgent` | the sub-agent's loop against any provider and any tools |
| `Streaming` | reassembling a streamed reply |

Objects whose methods change their fields are classes, and each method is tied to a specification
function of the old state (`CallEffect`, `States`, `Replace`, `IndexOne`, `Step`, ...). What the system
promises is proved about those functions, over arbitrary sequences of events. A crash is a parameter:
how many of an operation's file effects still happen. One append, rename, unlink, truncating write or
COMMIT is one effect.

## Where the code falls short of a promise

Each of these is a theorem giving the exact condition under which the promise holds, and a run or an
input that breaks it.

- Exactly-once appending rests on four conditions. That a returned call leaves its marker in its file
  needs none of them (`AppendLimits.ReturnedCallMarks`).
  1. A record orphaned by a crash lies in the last 1 MiB when it is retried
     (`AppendOnce.SecondRecordIff`, `AppendLimits.SecondRecordRun`).
  2. Markers tell keys apart. For keys without angle brackets this means exactly that source and kind,
     joined by a colon and with newlines read as blanks, differ (`AppendOnce.SeparatedIff`): the colon is
     not escaped (`Markers.ColonShared`) and a newline becomes a blank (`Markers.NewlineShared`).
     Otherwise payloads are lost (`AppendLimits.CollisionLosesPayload`). The kinds in use keep all sources
     apart that hold no newline (`AppendOnce.UsedKeysSeparated`).
  3. No text written contains the marker of a key in use: a call writes nothing whenever the scanned tail
     holds its marker, whoever wrote it (`AppendLimits.UnindexedCallWritesNothingIff`,
     `AppendLimits.QuotedMarkerLosesPayload`).
  4. A key is used with one file only: the index leaves the file out, so a second file gets the first
     payload again and the second payload goes nowhere (`AppendLimits.SecondFileRepeatsAndLoses`).
- `append_pending_once` is described as idempotent across restarts. It is while the marker is still in
  `PENDING.md`; once a snapshot has moved it out, a retry writes the first call's payload again
  (`AppendLimits.IndexedCallRewritesIff`, `AppendLimits.SnapshotThenRetryRepeats`).
- The marker builder replaces newlines only, but markers are removed line by line. A marker disappears
  exactly when each of its lines looks like one or is blank (`MarkerStripping.MarkerStrippedIff`), so in a
  key without angle brackets another line break leaves pieces among the facts
  (`MarkerStripping.CarriageReturnKey`), while with brackets they may look like markers and go
  (`MarkerStripping.BracketKeyStripped`).
- A crash between writing the merged pending file and unlinking the snapshot repeats the snapshot's
  lines; nothing else ever does (`PendingFiles.NeverLosesAFact`, `PendingFiles.CutMergeRepeats`).
- A negligible embedding scores 0 in the full scan and not in the indexed search
  (`VectorMath.ScoresAgreeIff`, `VectorMath.ZeroVectorScores`). Without such embeddings both searches give
  the same scores, and the same hits whatever the vector table answers exactly when no tie reaches the
  cut (`VectorAnswers.AnswersAgreeIff`).
- The content hash ignores a byte-order mark and the kind of line ends, so a file changed in nothing else
  keeps its old chunks (`Indexer.ChangedFileSkippedIff`, `Indexer.NotTold`).
- A refused store write counts its document as indexed and as failed (`Indexer.CountersAddUp`,
  `Indexer.RefusedWriteCountsTwice`).
- With a maximum of zero the text splitter never advances (`SplitText.StallsIff`).
- When the next time of a cron job cannot be computed, the exception leaves the job due, and the same
  occurrence is started again (`SchedulerRuns.StartedAgainIff`). With the fallback search this is so for
  every date that does not recur within 366 days, such as the 29th of February
  (`CronScheduling.RaisesIff`, `CronScheduling.LeapDayTwice`). At start-up the exception ends the service
  (`SchedulerRuns.RecoverRaisesIff`).
- Cancelling a recurring job while its task is in flight does not last: the task puts it back
  (`SchedulerRuns.CancelledStartsAgainIff`). A one-shot never comes back.
- `7` stands for Sunday by text replacement, so `5-7` is refused (`Cron.SevenEndsRangeIff`), and so is
  `*/7` (`Cron.SevenAsStepIff`).
- In compact mode `truncation_applied` may be true although no token was cut
  (`TokenTrim.CompactModeFlag`, `TokenTrim.CompactModeMisreports`).
- Content blocks become a user message, which separates a tool reply from the next one unless it is the
  batch's last (`ToolBatch.BatchContiguousIff`, `ToolBatch.BlocksBetweenReplies`).
- Arguments that are not JSON make a streamed reply fail after its content has been shown
  (`Streaming.ChatStreaming`).

## Model

| member | source | states |
|---|---|---|
| MarkerSearch.FileContainsMarker | agent/memory.py:375-394 | for every way of cutting the file into chunks, the loop with the carried suffix finds the marker exactly when the whole file contains it; an empty marker is never found |
| MarkerSearch.CarryIsEnough | agent/memory.py:375-394 | while the marker has not been seen, its length minus one of carried bytes decide as the whole prefix would |
| MarkerSearch.ReadStep | agent/memory.py:375-394 | one more chunk: both the answer and the next carry are those of everything read so far |
| MarkerSearch.ReadChunks | agent/memory.py:375-394 | block-wise reading returns non-empty blocks that concatenate to the file |
| Markers.MarkerFollowsKey | agent/memory.py:246-250 | the marker, built from the raw arguments, depends on the index key alone |
| Markers.MarkerNewlineFree | agent/memory.py:246-250 | a marker holds no newline |
| Markers.WholeLineOnly | agent/memory.py:246-250 | a marker built of texts without angle brackets holds another marker only if it is that marker |
| Markers.MarkersEqualIff | agent/memory.py:246-250 | any two calls carry one marker if and only if source and kind of their index keys, joined by a colon and with newlines read as blanks, coincide |
| Markers.ColonShared | agent/memory.py:246-250 | different keys share a marker when a colon moves from source to kind |
| Markers.NewlineShared | agent/memory.py:246-250 | and when one has a newline where the other has a blank |
| Markers.NestedMarker | agent/memory.py:246-250 | with angle brackets a key may hold the whole marker of another, although the joined texts differ |
| Markers.KindsTellApartIff | agent/memory.py:246-250 | two kinds keep the joined texts of all sources apart if and only if neither ends in a colon and the other |
| Markers.UsedKindsTellApart | core/memory/markdown.py:229-247 | the kinds callers pass, journal:<date> among them, are such |
| MarkerStripping.StripMarkersKeepsFacts | agent/memory.py:251-262 | what a snapshot hands on are exactly the non-blank lines outside marker lines, in order |
| MarkerStripping.RecordStripped | agent/memory.py:251-262 | the marker line of an idempotent append disappears and its payload's facts stay |
| MarkerStripping.MarkerStrippedIff | agent/memory.py:246-262 | for every key: a marker is taken out altogether if and only if each of its lines is a marker line or blank; without angle brackets in the key, if and only if it holds no line break other than the newline the builder replaces |
| MarkerStripping.BrokenMarkerStays | agent/memory.py:246-262 | a key with another line break leaves pieces of its marker behind |
| MarkerStripping.CarriageReturnKey | agent/memory.py:246-262 | as one with a carriage return does |
| MarkerStripping.BracketKeyStripped | agent/memory.py:246-262 | with angle brackets in the key both pieces may be marker lines, and the broken marker disappears |
| AppendOnce.MemoryStore.TailContainsMarker | agent/memory.py:357-373 | looks for the marker in the last 1 MiB of an existing file |
| AppendOnce.MemoryStore.AppendOnceWithIndex | agent/memory.py:291-355 | every branch, cut by a crash before the write or before the COMMIT: exact files, index rows and result |
| AppendOnce.WritesRecord | agent/memory.py:317-341 | whatever is written is the marker line, the right-stripped payload and the blank line asked for: the call's when fresh, the index row's when the file lost the record; no other file changes |
| AppendOnce.FreshIff | agent/memory.py:327-347 | a fresh write happens exactly when neither the index nor the tail knows the key |
| AppendOnce.CallCounts | agent/memory.py:306-355 | one call, wherever the crash falls, adds at most one marked record, of its own key, to its own file |
| AppendOnce.StepKeepsInv | agent/memory.py:291-355 | every event keeps: at most one record per key, none in foreign files, index rows only for recorded keys, files ending in a newline |
| AppendOnce.ExactlyOnce | agent/memory.py:291-355 | over every run of calls, crashes and retries: at most one marked record per key; exactly one, indexed, once a call has returned; a record always carries the whole payload of one of the key's calls |
| AppendOnce.MarkedMeansStored | agent/memory.py:327-347 | a marker found in the file stands beside the payload written with it |
| AppendOnce.SecondRecordIff | agent/memory.py:327-347 | a call leaves a second record if and only if it writes while the first lies outside the scanned tail |
| AppendOnce.OrphanStaysInTail | agent/memory.py:357-373 | an orphaned marker is found while it and the text after it fit in the tail |
| AppendOnce.RetryAfterCrash | agent/memory.py:327-347 | a retry right after a crash between write and COMMIT ends exactly where the uninterrupted call would have |
| AppendOnce.SeparatedIff | agent/memory.py:246-250 | for keys without angle brackets the assumption on markers holds if and only if different keys have different joined texts |
| AppendOnce.UsedKeysSeparated | core/memory/markdown.py:1060-1085 | it holds for the kinds in use and all sources without angle brackets and newlines |
| AppendLimits.ReturnedCallMarks | agent/memory.py:291-355 | at least once, with no condition on keys, markers, texts or history: a call that returns leaves its key indexed and its marker in its file |
| AppendLimits.UnindexedCallWritesNothingIff | agent/memory.py:327-347 | a call for a key not indexed is always indexed, and writes nothing if and only if the scanned tail already holds its marker, whoever wrote it |
| AppendLimits.ForeignMarkerLosesPayload | agent/memory.py:300-347 | when the record before it holds its marker, a call is indexed and its payload is never written |
| AppendLimits.CollisionLosesPayload | agent/memory.py:300-347 | this happens to two keys that share a marker |
| AppendLimits.QuotedMarkerLosesPayload | agent/memory.py:300-347 | and to keys with markers of their own, when the first payload quotes the second marker |
| AppendLimits.SecondRecordRun | agent/memory.py:327-373 | a crash between write and COMMIT, a plain append of a tail's length, and the retry leave two records |
| AppendLimits.IndexedCallRewritesIff | agent/memory.py:310-325 | for an indexed key the call writes again exactly when its target file lacks the marker, and then writes the first call's payload |
| AppendLimits.SnapshotThenRetryRepeats | agent/memory.py:164-207 | a marked append to the pending file, a snapshot and a retry leave the payload in both files |
| AppendLimits.SecondFileRepeatsAndLoses | agent/memory.py:300-325 | a key used with a second file: the first record stands in both files and the second payload in none |
| PendingFiles.MemoryStore.AppendPending | agent/memory.py:157-162 | reaches the state the operation prescribes after the file effects that still happen |
| PendingFiles.MemoryStore.RollbackPendingSnapshot | agent/memory.py:217-233 | writes the merge, then unlinks the snapshot; a crash may fall before, between or after |
| PendingFiles.MemoryStore.SnapshotPending | agent/memory.py:193-207 | recovers a left-over snapshot, then renames a non-empty pending file, and returns its text without marker lines |
| PendingFiles.MemoryStore.CommitPendingSnapshot | agent/memory.py:209-215 | unlinks the snapshot, then makes sure a pending file exists |
| PendingFiles.MemoryStore.RestartOverFiles | agent/memory.py:39-55 | the constructor over left-over files creates the pending file and rolls a snapshot back |
| PendingFiles.FactLinesAdd | agent/memory.py:157-162 | lines never glue: text ending in a newline can be continued without touching its lines |
| PendingFiles.StepTotals | agent/memory.py:157-239 | one operation under any crash keeps all lines in order and adds an append's; a crash inside a merge repeats the snapshot's lines once |
| PendingFiles.NeverLosesAFact | agent/memory.py:50-54 | over every run of append, snapshot, commit, rollback, crash and restart the appended lines are all there in order, and nothing is repeated if and only if no crash fell inside a merge |
| PendingFiles.CutMergeRepeats | agent/memory.py:217-233 | such a crash: one line appended, a snapshot, and a rollback cut before the unlink leave the line twice |
| PendingFiles.SnapshotNeverOverwritten | agent/memory.py:193-215 | whatever the operation and wherever it is cut, a live snapshot is never replaced by another, and the archive only grows |
| PendingFiles.SnapshotTakesAll | agent/memory.py:193-207 | a completed snapshot holds every line on record |
| PendingFiles.RollbackRestores | agent/memory.py:217-233 | a completed rollback puts the snapshot's lines in front of the newer ones |
| PendingFiles.CommitTakesSnapshot | agent/memory.py:209-215 | a completed commit archives exactly the snapshot and leaves what is pending |
| PendingFiles.TwoPhases | agent/memory.py:193-233 | facts appended while a snapshot is out are not archived by its commit, and come after it on rollback |
| SnapshotText.SnapshotHandsOn | agent/memory.py:193-262 | the text a snapshot returns says exactly what the facts on record say outside marker lines, in order, whatever line breaks they hold |
| VectorMath.NormalizedIsUnit | doc_rag/store.py:29-34 | a vector that is not negligible is stored with length one |
| VectorMath.DotUnit | doc_rag/store.py:45-51 | the product with a unit vector is that coordinate |
| VectorMath.DotAdds | doc_rag/store.py:45-51 | the product is additive in both arguments |
| VectorMath.DistanceZeroIff | doc_rag/store.py:41-42 | only equal vectors are at distance zero |
| VectorMath.CosineBounds | doc_rag/store.py:45-51 | the cosine lies between -1 and 1 and is 1 if and only if the normalised vectors are equal |
| VectorMath.ScoresAgree | doc_rag/store.py:29-51 | the score from the L2 distance of stored vectors is the cosine of the originals |
| VectorMath.ScoresAgreeIff | doc_rag/store.py:29-51 | the two scores of a chunk agree if and only if neither vector is negligible |
| VectorMath.ZeroVectorScores | doc_rag/store.py:29-51 | a zero embedding against a unit one scores one half by distance and 0 by cosine |
| DocStore.DocRagStore.ValidateEmbeddings | doc_rag/store.py:315-339 | accepts exactly the batches of right length and dimension in which ready chunks have embeddings, and gives chunk i the i-th embedding, or its own if none were passed |
| DocStore.DocRagStore.InsertChunkNoCommit | doc_rag/store.py:374-424 | one insert into chunk, full-text and vector tables; refused on a taken id or a missing document |
| DocStore.DocRagStore.ReplaceDocumentChunks | doc_rag/store.py:341-372 | either the whole replacement is committed or no table changes; committed, chunk i is stored with the i-th embedding and the vector table holds it, normalised, at its rowid |
| DocStore.DocRagStore.MarkMissingDocumentsDeleted | doc_rag/store.py:449-507 | documents whose files are gone are marked and lose their rows in all tables; returns how many |
| TableAgreement.RemovedAgrees | doc_rag/store.py:348-362 | removing whole documents keeps chunk, full-text and vector rows in one-to-one agreement |
| TableAgreement.InsertAllAgrees | doc_rag/store.py:363-431 | nothing refuses a document's own chunks once its old ones are gone, and the tables agree afterwards |
| Transactions.ReplaceKeeps | doc_rag/store.py:341-372 | a replacement is refused exactly on bad embeddings; otherwise tables agree, readers see the new record and chunks in order, and every other document as before |
| Transactions.ReplaceShows | doc_rag/store.py:341-372 | readers then see chunk i with the i-th embedding passed, or its own if none were |
| Transactions.EmbeddingsOkIff | doc_rag/store.py:315-339 | which embeddings are refused, by number, dimension and readiness |
| Transactions.MarkMissingKeeps | doc_rag/store.py:449-507 | marking keeps the tables in agreement and hides exactly the documents whose files are gone |
| Transactions.ReadyKept | doc_rag/store.py:341-372 | replacing by ready chunks and marking keep every chunk ready |
| VectorSearch.SearchVectorSqliteVec | doc_rag/store.py:526-558 | the join, threshold and early break over the neighbours return the ranked joined neighbours above the threshold |
| VectorSearch.SearchVectorFullscan | doc_rag/store.py:560-586 | the scan loop, sort and cut return the ranked best scores above the threshold, whatever the dimensions |
| Ranking.TopUnique | doc_rag/store.py:580-586 | two lists of k best have the same scores in the same places |
| Ranking.TopDetermined | doc_rag/store.py:580-586 | and are equal unless a tie reaches the cut: a score shared by two candidates and surpassed by fewer than k |
| Ranking.OtherTop | doc_rag/store.py:580-586 | if one does there is a second list, different where the tied score stands |
| Ranking.SortedTakeIsTop | doc_rag/store.py:582-583 | sorting by descending score and cutting lists the k best |
| Ranking.ThresholdTop | doc_rag/store.py:544-556 | cutting the k best at a threshold gives the k best above it |
| VectorSearch.SlowIsTop | doc_rag/store.py:560-586 | the full scan returns the best chunks that reach the threshold |
| VectorSearch.FastIsTop | doc_rag/store.py:526-558 | the joined nearest neighbours by L2 are the best chunks by cosine |
| VectorSearch.FastRefinesSlow | doc_rag/store.py:509-586 | for every agreeing store, query, limit and threshold without negligible vectors both searches return equally many hits with the same ranks and scores, and the very same hits unless a tie reaches the cut |
| VectorSearch.ExactMatch | doc_rag/store.py:509-586 | a chunk whose embedding is the query scores 1 by cosine and by distance, and both searches open with a 1 |
| VectorSearch.HitsAreActive | doc_rag/store.py:526-586 | whatever the tables hold, both searches return only ready chunks of active documents, at the threshold or above |
| VectorAnswers.TopIsAnswer | doc_rag/store.py:526-558 | every list of k best chunks is the join of some answer of the vector table |
| VectorAnswers.AnswersAgreeIff | doc_rag/store.py:509-586 | every answer of the vector table gives the hits of the full scan if and only if no tie reaches the cut |
| Indexer.DocRagIndexer.IndexDocument | doc_rag/indexer.py:127-190 | one document: skipped, refused by the embedding service or the store, or replaced, with the counters each path touches |
| Indexer.DocRagIndexer.Run | doc_rag/indexer.py:72-125 | a whole run: deletions first, then every document; final tables, summary and status |
| Indexer.IndexOneShows | doc_rag/indexer.py:127-190 | a document indexed anew is shown as indexed from nothing; no other document changes, and nothing does if it is skipped or fails |
| Indexer.IndexedChunks | doc_rag/indexer.py:127-190 | field by field what indexing anew stores: each draft in order with its text, the document's data and the embedding answered for it |
| Indexer.RunShows | doc_rag/indexer.py:72-125 | after a run each path shows nothing if not loaded, its file indexed from nothing if it was indexed anew, and what it showed before if it was skipped or failed |
| Indexer.SkippedShows | doc_rag/indexer.py:138-147 | a skipped file is shown in a version with the same normal form, and in its own if the hash tells contents apart |
| Indexer.PlainTelling | doc_rag/models.py:11-16 | it does so for texts without a leading byte-order mark and carriage returns |
| Indexer.LineEnds | doc_rag/models.py:11-12 | each line end of either kind becomes one newline |
| Indexer.IncrementalEqualsRebuild | doc_rag/indexer.py:72-190 | for any class of contents the hash tells apart, a run over any reachable store in which no document fails shows what the same files show when indexed into an empty store |
| Indexer.SecondRunChangesNothing | doc_rag/indexer.py:138-147 | a second run on the same files skips all of them and changes no table |
| Indexer.ReachableStores | doc_rag/indexer.py:72-190 | every store reachable by runs, real or dry, on any texts and whatever failed in them, has agreeing tables and ready chunks |
| Indexer.ReachableFaithful | doc_rag/indexer.py:72-190 | and each of its documents shows what indexing some version of its file from nothing shows |
| Indexer.CountersAddUp | doc_rag/indexer.py:159-185 | indexed, skipped and failed exceed the files scanned by exactly the number of refused store writes, each counted twice; failures past loading are the embedding failures |
| Indexer.CountersMean | doc_rag/indexer.py:72-190 | each counter of a run in terms of the store it starts from: files unchanged, embedded, without usable embeddings, and chunks made |
| Indexer.RefusedWriteCountsTwice | doc_rag/indexer.py:159-185 | one document with chunks and no embeddings: indexed 1, failed 1 of 1 scanned |
| Indexer.ChangedFileSkippedIff | doc_rag/models.py:11-16 | after a document was indexed, a changed file is skipped and its old version stays in view if and only if the two contents have one normal form |
| Indexer.NotTold | doc_rag/models.py:11-16 | as texts with and without a byte-order mark, or with either line end, have |
| SplitText.FindEnd | doc_rag/chunker.py:196-210 | the end of a window: last space before the target, else last newline before the maximum, else the maximum |
| SplitText.WindowsByRule | doc_rag/chunker.py:192-222 | every window ends and the next one starts where the text's own spaces, newlines and length say, overlap included |
| SplitText.RFindIsLast | doc_rag/chunker.py:200-206 | the backward searches find the last occurrence in their range, or none |
| SplitText.StallsIff | doc_rag/chunker.py:192-222 | the next window starts where the last one did if and only if the maximum is zero |
| SplitText.Split | doc_rag/chunker.py:192-222 | terminates because the start grows, never takes the too-large branch, and returns the stripped windows |
| SplitText.WindowsSweep | doc_rag/chunker.py:192-222 | windows start at 0, end at the end, are within the maximum, leave no gap and overlap by at most the smaller of the configured overlap and half the target |
| SplitText.SplitCovers | doc_rag/chunker.py:192-222 | every visible character lies in some part |
| SplitTable.LongerTable | doc_rag/chunker.py:241-248 | a row too large alone is too large after pending rows, so these are flushed before it |
| SplitTable.SplitRows | doc_rag/chunker.py:232-253 | the parts' rows concatenated are exactly the rows, in order; a group ends only where its next row would exceed the maximum, and a part exceeds it only as a single flagged row |
| SplitTable.Split | doc_rag/chunker.py:224-253 | fewer than three lines go to the text splitter; otherwise every part shows the two header lines over its group of rows, and a flagged part over one row |
| SplitTable.TableCovers | doc_rag/chunker.py:224-253 | every visible character of a table stands in some part |
| ParseBlocks.OpenStep | doc_rag/chunker.py:122-134 | one update of the heading stack keeps it equal to the headings not closed so far |
| ParseBlocks.OpenIncreases | doc_rag/chunker.py:122-134 | the stack always has strictly increasing levels |
| ParseBlocks.OpenIff | doc_rag/chunker.py:122-134 | a heading is on the stack if and only if no later heading has an equal or lower level |
| ParseBlocks.PathsJoin | doc_rag/chunker.py:80-81 | a heading path is the open titles with an arrow between any two |
| ParseBlocks.PathIs | doc_rag/chunker.py:80-81 | where no heading is open the path is the title; elsewhere it is made of the open headings |
| ParseBlocks.KindIs | doc_rag/chunker.py:153-166 | what a block is taken for, by the first visible character of each line |
| ParseBlocks.Parse | doc_rag/chunker.py:70-151 | blocks lie one after the other with only blank lines between; each is the (stripped) join of exactly its lines, under the heading path in force on all of them, and reaches from a fence to the next, or to the line before a blank one, a fence, a heading or the end |
| ParseBlocks.LaidInOrder | doc_rag/chunker.py:70-151 | line ranges of blocks are disjoint and increasing |
| ParseBlocks.EveryLineInOneBlock | doc_rag/chunker.py:70-151 | each non-blank line lies in exactly one block |
| Chunks.SplitLargeBlock | doc_rag/chunker.py:168-190 | the chunks of an oversized block are its parts, by rows for a table and by windows otherwise, numbered on, each in range, in order and within the limit unless flagged, and show all of the block |
| Chunks.BlockHolds | doc_rag/chunker.py:83-95 | every visible character of a block's lines is in its text |
| Chunker.PackedChunk | doc_rag/chunker.py:34-66 | a packed run of blocks of one heading makes a chunk in order, within the limit, whose range covers them |
| Chunker.FlushShows | doc_rag/chunker.py:34-50 | flushing shows every block in hand |
| Chunker.ChunkDocument | doc_rag/chunker.py:28-68 | the blocks of the document fall into consecutive groups, each one chunk of the joined and stripped texts, or an oversized block and its parts; a group ends only where the next block has another heading, one of the two is over the limit, or both together would be; chunks are numbered 0, 1, 2, ...; each consists of the document's own characters of its line range in order, under one heading path, within the limit unless it is flagged, and then it is one row of a table under its two header lines; every visible character is shown in a chunk whose range contains its line |
| Scheduler.FirstAfterSpec | agent/scheduler.py:611-615 | the advanced fire time is the first on the job's own grid after the limit, at least one period on |
| Scheduler.RescheduleIsLater | agent/scheduler.py:486-492 | rescheduling that finds a time lands strictly after the clock and after the nominal time it replaces; for an interval it always finds one |
| Scheduler.SchedulerService.AdvanceEveryLoop | agent/scheduler.py:607-615 | the loop terminates with the first time after the limit that is a positive number of the job's own intervals, or hours, past its fire time; a cron job gets what its expression gives, or the computation raises |
| Scheduler.SchedulerService.LoadAndRecover | agent/scheduler.py:423-456 | start-up from the persisted jobs, or its end by an exception |
| Scheduler.SchedulerService.AddJob | agent/scheduler.py:394-399 | the event Add |
| Scheduler.SchedulerService.CancelJob | agent/scheduler.py:405-410 | the event Cancel, and whether the job was there |
| Scheduler.SchedulerService.CancelJobByName | agent/scheduler.py:412-418 | the event CancelByName, and which jobs it removed |
| Scheduler.SchedulerService.DoTick | agent/scheduler.py:460-472 | the event Tick: starts and marks in flight exactly the due jobs |
| Scheduler.SchedulerService.FinishTask | agent/scheduler.py:474-500 | the event Finish: the job leaves the in-flight set and is removed, or put back with its next time and its run counted; when rescheduling raises, neither, and nothing is saved |
| SchedulerRuns.StartingSpec | agent/scheduler.py:460-472 | a tick starts each enabled, due job that is not in flight, once |
| SchedulerRuns.StepKeepsSound | agent/scheduler.py:394-500 | every event with fresh ids, also a task whose rescheduling raises, keeps the invariant of the service |
| SchedulerRuns.StepKeepsOnTime | agent/scheduler.py:394-500 | every event but such a task keeps waiting jobs ahead of all their starts |
| SchedulerRuns.AlwaysOneAtATime | agent/scheduler.py:394-500 | over every interleaving, whatever raises: at most one task per job at a time, the in-flight set is the running ids, a one-shot starts at most once |
| SchedulerRuns.NeverTwice | agent/scheduler.py:460-500 | over every interleaving in which no rescheduling raises, no occurrence is started twice |
| SchedulerRuns.StartedAgainIff | agent/scheduler.py:484-494 | after a task ended, some later run on a clock that does not go back starts its occurrence again if and only if its rescheduling raised while its job was in the table; otherwise no run at all does |
| SchedulerRuns.CancelledStaysGone | agent/scheduler.py:405-418 | a job out of the table, no running task of which can put it back from some clock on, never runs again from then on |
| SchedulerRuns.CancelledStartsAgainIff | agent/scheduler.py:405-410 | after a cancel some later run on a clock that does not go back starts the job again if and only if a task of it is running, it is recurring, and its rescheduling finds a time for some clock still to come |
| SchedulerRuns.IntervalCanReturn | agent/scheduler.py:607-615 | for a job with an interval the last condition always holds |
| SchedulerRuns.FinishedJobReturnsIff | agent/scheduler.py:479-500 | a task that ends leaves its job in the table if and only if the job is recurring, even if cancelled meanwhile; if rescheduling raises, only if it was still there. Only its fire time and run count change, and no other job does |
| SchedulerRuns.OtherEventsOnTable | agent/scheduler.py:394-472 | exactly which jobs the table holds after an addition, a cancellation or a tick |
| SchedulerRuns.StepSaves | agent/scheduler.py:394-500 | an event that changes the table leaves the file equal to it; any other leaves the file as it was |
| SchedulerRuns.CancelledNotRecovered | agent/scheduler.py:405-456 | a job cancelled while no task of it can put it back is in the table of no later start-up |
| SchedulerRuns.StartIsSound | agent/scheduler.py:423-456 | recovery from distinct persisted jobs establishes both invariants |
| SchedulerRuns.RecoverRaisesIff | agent/scheduler.py:436-441 | start-up dies if and only if some persisted recurring job is overdue and its next time cannot be computed |
| SchedulerRuns.RecoverKeepsIff | agent/scheduler.py:423-456 | a persisted job survives a start-up that succeeds if and only if it is enabled and recurring, not yet due, or at most five minutes late; only missed recurring jobs move, to their next time after the clock |
| Cron.SplitJoined | agent/scheduler.py:113 | splitting at commas undoes joining |
| Cron.DecimalParses | agent/scheduler.py:121-130 | a decimal number reads back as itself |
| Cron.RangeNotation | agent/scheduler.py:118-132 | writing a stepped range in cron notation and reading it gives it back |
| Cron.ParsePart | agent/scheduler.py:115-132 | the branches for step, star, range and number |
| Cron.RangeSet | agent/scheduler.py:132 | the stepped values of a range, and no others |
| Cron.ParseCronField | agent/scheduler.py:111-135 | succeeds exactly when there is a non-blank part and all are ranges within bounds; the set is then the union of their stepped values, non-empty and within bounds |
| Cron.SevenEndsRangeIff | agent/scheduler.py:159 | as a range end, 7 is accepted for Sunday if and only if the range starts with 0 or 7; 5-7 is refused |
| Cron.SevenAsStepIff | agent/scheduler.py:159 | every positive step is valid, but as a day-of-week field it is refused if and only if all its digits are 0 and 7, as */7 is |
| Cron.ParseFields | agent/scheduler.py:138-156 | accepts exactly expressions of five or six valid fields; five fields mean second 0 |
| Cron.MatchIsPoint | agent/scheduler.py:140-152 | every matching whole second after the given time is a point the search visits or would visit |
| Cron.WeekDays | agent/scheduler.py:158 | 1970-01-01 is a Thursday, and each day has the next day of the week |
| Cron.SixNumbers | agent/scheduler.py:146-170 | six numbers match exactly the moments whose clock, calendar and day of the week show them |
| Cron.PointsSpan | agent/scheduler.py:157 | the search reaches 366 days ahead |
| Cron.WordsJoined | agent/scheduler.py:139 | splitting at white space undoes joining words with blanks |
| Cron.NextCronFireFallback | agent/scheduler.py:138-173 | the result is the least whole second strictly after the given time whose every field matches, day of month and day of week both; for valid fields it fails exactly when no grid point of the first 366 days matches |
| Cron.FallbackIsNext | agent/scheduler.py:138-173 | the search as a function keeps the same promise |
| Cron.NextFireUnique | agent/scheduler.py:138-173 | and the promise leaves one answer |
| CronScheduling.FallbackFireOk | agent/scheduler.py:176-181 | the fallback search meets what the job service assumes of its source of cron times, strictly |
| CronScheduling.RaisesIff | agent/scheduler.py:486-492 | with the fallback, rescheduling a cron job raises if and only if its expression is invalid or no grid point of the next 366 days matches |
| CronScheduling.RareDateFindsNothing | agent/scheduler.py:157-173 | for midnight on a date at least 1461 days from its next, the search from any time in the three years after it finds nothing |
| CronScheduling.LeapDayStartsAgain | agent/scheduler.py:474-500 | so a job for the 29th of February that was not cancelled can have the same occurrence started again |
| CronScheduling.LeapDayTwice | agent/scheduler.py:394-500 | a run from the empty service, at any times in order, in which that happens |
| CycleCheck.Search.Visit | memory2/eval_memory_governance_dataset.py:307-318 | terminates on every graph; returns true only if there is a cycle, and otherwise leaves the node visited and the stack as it was |
| CycleCheck.NoCycleFrom | memory2/eval_memory_governance_dataset.py:307-318 | no cycle starts at a node in finishing order |
| CycleCheck.HasCycle | memory2/eval_memory_governance_dataset.py:303-320 | true if and only if the graph has a cycle, through targets that are not keys too, whatever the order of the keys |
| CycleCheck.SameCycles | memory2/eval_memory_governance_dataset.py:119-131 | the adjacency built from the edges has the cycles of the edge list |
| CycleCheck.CheckEdges | memory2/eval_memory_governance_dataset.py:108-132 | reports a cycle if and only if the listed edges form one, and exactly the malformed entries and dangling ends |
| Apportion.SomeAboveOne | memory2/eval_public_long_memory.py:134-145 | while too many seats are given some category has more than one, so the break is unreachable |
| Apportion.SomeBelowShare | memory2/eval_public_long_memory.py:146-155 | while too few are given some category is below its share, so has a case left |
| Apportion.MaxBy | memory2/eval_public_long_memory.py:135-142 | no category has a larger key than the one picked |
| Apportion.Allocate | memory2/eval_public_long_memory.py:126-155 | both loops end; seats sum to the sample size, each between one and the category's size, less than one above its share unless it is the one, and not below its floor when the floors need no cutting; every step takes or gives a seat where the keys say |
| Apportion.CourseUnique | memory2/eval_public_long_memory.py:130-155 | which leaves one course of corrections, so one allocation |
| Sorting.SortBySpec | memory2/eval_public_long_memory.py:161-163 | a permutation in ascending order |
| Sorting.SortByStable | memory2/eval_public_long_memory.py:161-163 | elements of equal keys stay in order |
| Stratified.Group | memory2/eval_public_long_memory.py:119-122 | the groups are the cases of each category, in order |
| Stratified.SizesSum | memory2/eval_public_long_memory.py:119-129 | the sizes of the categories sum to the number of cases |
| Stratified.StratifiedSampleCases | memory2/eval_public_long_memory.py:109-165 | nothing, everything, an error, or exactly sample_size cases, none twice, fairly from every category and in order: the first of each category's shuffled cases, as many as the corrections end with |
| Tokenizer.TokensSplit | memory2/eval_public_long_memory.py:1427-1428 | a skipped character separates tokens |
| Tokenizer.TokensAreTokens | memory2/eval_public_long_memory.py:1427-1428 | every token is a single character or a run |
| Tokenizer.RunExample | memory2/eval_public_long_memory.py:1427-1428 | a price with a path and a hyphen is one token |
| Tokenizer.SingleToken | memory2/eval_public_long_memory.py:1427-1428 | each Chinese character, and a mark, is a token whatever stands next to it |
| Tokenizer.TokensRoundTrip | memory2/eval_public_long_memory.py:1401-1408 | tokenising the space-joined tokens gives them back |
| TokenTrim.CompactKeepsTokens | memory2/eval_public_long_memory.py:1402 | stripping and dropping lines keeps all tokens |
| CompactLines.CompactTrimmed | memory2/eval_public_long_memory.py:1402 | compacting compacted text changes nothing |
| TokenTrim.TrimTokens | memory2/eval_public_long_memory.py:1401-1408 | the trimmed text has exactly the source's last tokens, at most the budget |
| TokenTrim.WithinBudget | memory2/eval_public_long_memory.py:1401-1407 | a text within the budget becomes its stripped lines that are not blank |
| TokenTrim.TrimTwice | memory2/eval_public_long_memory.py:1401-1408 | a second trim to the same budget changes nothing |
| TokenTrim.TruncationIff | memory2/eval_public_long_memory.py:1233-1254 | in long_context and answer_window modes truncation_applied is true if and only if tokens were cut |
| TokenTrim.ReasonGivenIff | memory2/eval_public_long_memory.py:1418-1424 | a reason is given with the flag, and only then |
| TokenTrim.CompactModeFlag | memory2/eval_public_long_memory.py:1220-1225 | in compact mode the flag is set, with nothing trimmed, exactly when trimming would have cut |
| TokenTrim.CompactModeMisreports | memory2/eval_public_long_memory.py:1220-1254 | "a b" under a budget of one: both tokens rendered, truncation_applied true |
| ToolProtocol.AnsweredIffNothingOwed | agent/tool_runtime.py:90-129 | the message-by-message account of open calls agrees with the protocol stated on the whole list |
| ToolProtocol.ToolRoundsSpec | agent/subagent.py:93-98 | the rounds counted are the assistant messages with calls, in order |
| ToolProtocol.TrimToolResults | agent/subagent.py:87-112 | replaces exactly the tool results before the third-last round |
| ToolProtocol.TrimmingIsSafe | agent/subagent.py:87-112 | trimming keeps length, roles, ids and the protocol, leaves the last three rounds intact, clears every earlier result, and is idempotent |
| ToolBatch.ResultAnswers | agent/tool_runtime.py:107-129 | appending a result answers the call owed next, with or without content blocks |
| ToolBatch.BatchReplies | agent/subagent.py:209-266 | a batch is answered call by call: by its own result, clipped at 100000 characters and never empty, as far as calls were executed, and as skipped from there on |
| ToolBatch.SuccessNamesSpec | agent/subagent.py:223-227 | tools_called lists each successful tool once |
| ToolBatch.BatchContiguousIff | agent/tool_runtime.py:107-129 | replies follow their calls without interruption if and only if no result but a batch's last has content blocks |
| ToolBatch.BlocksBetweenReplies | agent/tool_runtime.py:107-129 | two calls, the first result with content blocks, are such a batch |
| SubAgent.CanSend | agent/subagent.py:182-188 | when nothing is owed, the trimmed history and the history with one prompt may be sent |
| SubAgent.KnownSpec | agent/subagent.py:343-351 | the exit tools asked for are those that exist |
| SubAgent.TextOfSpec | agent/subagent.py:194-197 | the text of a reply is its content without surrounding white space, empty if there is nothing visible |
| SubAgent.ReflectByBudget | agent/subagent.py:273-280 | which prompt follows a round, by the passes left |
| SubAgent.SubAgent.Chat | agent/subagent.py:182-188 | requires the protocol of every list given to the provider |
| SubAgent.SubAgent.ExecuteToolCall | agent/subagent.py:395-420 | a tool of the map is run once and its outcome returned; any other call gives the error text and runs nothing |
| SubAgent.SubAgent.SkipRest | agent/subagent.py:258-264 | the calls cut off by the loop guard are all answered |
| SubAgent.SubAgent.RunBatch | agent/subagent.py:199-266 | one round: the exact messages appended, every call answered in order, by what its tool gave when its turn came or the unknown-tool error, or as skipped after a denial |
| SubAgent.SubAgent.RunMandatoryExit | agent/subagent.py:343-393 | one provider call per existing exit tool, over the whole history and its prompt; of the reply only the first call is run, and its unclipped result appended |
| SubAgent.SubAgent.ForceFinalSummary | agent/subagent.py:316-341 | one more call, over the whole history; the exit reason says whether its text or the fallback is returned |
| SubAgent.SubAgent.SummarizeIncompleteProgress | agent/subagent.py:291-314 | one more call, over the whole history; its text if there is one, else the fallback |
| SubAgent.SubAgent.Run | agent/subagent.py:163-289 | for every provider and tools: the history is the opening, the rounds and the exit turns; round k is the k-th reply, given to the trimmed history before it, with the outcome each of its tools gave in turn; every list sent keeps the protocol; provider calls are the iterations, plus existing exit tools and the summary when cut short; what each exit reason means and which text is returned |
| Streaming.FirstToolChunkSpec | agent/provider.py:370-371 | the first chunk with a tool-call fragment |
| Streaming.CallForIs | agent/provider.py:370-401 | id, name and arguments of a call are each that field of its index's fragments joined in order; no arguments are an empty object |
| Streaming.TextsAdd | agent/provider.py:363-389 | content and reasoning of a stream are those of its parts, joined |
| Streaming.OneChunkText | agent/provider.py:363-389 | a chunk contributes its own content and reasoning |
| Streaming.OneMoreShown | agent/provider.py:363-389 | a content piece adds to the content shown, a reasoning piece to the thinking |
| Streaming.InterleavingDoesNotMatter | agent/provider.py:370-401 | streams with the same fragments per index give the same calls in the same order |
| Streaming.AddFragment | agent/provider.py:370-383 | a fragment is appended to its index's slot only |
| Streaming.Assemble | agent/provider.py:391-401 | one call per index in ascending order, made of that index's own fragments, with {} for missing arguments; raises if and only if some arguments are not JSON |
| Streaming.ChatStreaming | agent/provider.py:319-404 | content shown is that before the first tool call, a prefix of the full content and all of it if no tool call arrives, even when the reply is not delivered, which happens if and only if some arguments are not JSON; the calls are the assembly of all fragments |

## Left out

- LLM calls, HTTP, channels, dashboard, setup, configuration loading and prompt texts: no property beyond plumbing. Prompts appear as short constants where the loop appends them.
- Torn writes inside one file call, and the operating system reordering file effects.
- Universal newline translation: text is what the files hold, and a carriage return is not followed by a newline when a text is cut into lines.
- Unicode white space, line breaks and word characters beyond ASCII: white space is ASCII, and the tokeniser takes any classification of the other characters.
- SQLite, sqlite-vec and FTS5 internals: tables are maps and lists, a transaction is all or nothing, and vec0 is exact k-nearest. Rows' modification times, sizes and run bookkeeping tables are not part of this model.
- Hashes, document ids and chunk ids are injective constructors over what they hash.
- Floating-point rounding: vectors, scores and shares are exact; a square root is any function with its two defining properties.
- VectorSearch.FastRefinesSlow: assumes no negligible vectors, for which the two scores really differ.
- AppendOnce.ExactlyOnce: assumes that no text written contains a marker of a key in use and that each key has one file; without either the claim is false.
- AppendOnce.StepKeepsInv: under the same two assumptions.
- AppendOnce.SeparatedIff: keys without angle brackets; with them a marker may hold another, and the assumption on markers is the condition itself.
- DocStore: upserts outside `replace_document_chunks`, reading single chunks, lexical search and snippets, which add only easy members.
- Indexer.DocRagIndexer.Run: an exception outside the handling of one document, which ends the run as failed, is not part of this model.
- Indexer: the dry-run report, file metadata and the run's bookkeeping rows; a run is one loaded list of distinct paths with a number of loader errors. 
- Chunker.ChunkDocument: requires a positive max_chunk_chars. Target and overlap sizes are non-negative. Token counts, hashes and flags of a chunk's metadata are not modelled.
- Scheduler: `compute_fire_at`, durations, persistence format, execution of a job and status fields; the lead of soft jobs is an arbitrary non-negative offset; intervals are non-negative; job ids of additions are fresh. What a raising rescheduling leaves on disk is the file as last saved.
- SchedulerRuns.NeverTwice: the next cron time is any partial function whose values are at or after their argument. The fallback search is shown to be one; that APScheduler is one is assumed.
- Cron.NextCronFireFallback: local time has a fixed offset, so daylight-saving shifts are not modelled; the calendar is any pair of functions from day numbers.
- CronScheduling.LeapDayTwice: that two 29ths of February are at least 1461 days apart is a premise about the calendar.
- Cron.ParseCronField: numbers with underscores, which Python's int accepts, are refused.
- CycleCheck: Python's recursion limit; the other checks of the validator, which are set comparisons.
- Stratified.StratifiedSampleCases: the seeded generator is any sequence of permutations; names are numbers, as only their order matters.
- SubAgent: fields a provider adds to an assistant message are assumed not to replace its role or tool calls; tool execution returns a result, as the executor turns errors into results; the decimal numbers inside prompts and truncation notes are left out.
- Streaming.ChatStreaming: arguments stay text, and which texts are JSON is a parameter; usage counters, time-outs and the per-provider post-processing of content.
- Edits of memory files by others and `clear_pending`: the code gives no guarantee there.
- `dedup_decider`, `injection_governance_experiments`, `bus/processing`, `bus/queue`, evaluation reports and scoring tables: they would add only easy members.
