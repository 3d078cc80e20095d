# Verified model of the agent platform's core

A Dafny 4.11 model of the backend's core logic, with proofs. It covers

- the event worker: ingest, retry, concurrent jobs and usage accounting as a state machine over every
  interleaving (`Worker`), and the two tasks and the usage tracker as they are written, proved to be
  schedules of that machine (`Tasks`);
- hybrid retrieval: the BM25 index (`Bm25`), the per-tenant index cache under concurrent searches, uploads and
  deletes (`IndexCache`), reciprocal rank fusion (`Fusion`) and the assembled search (`HybridSearch`);
- ingestion: the paragraph chunker (`Chunker`), batched embedding, padding and storing (`Embedding`);
- the agent's graph of nodes with its heal loop (`Agent`), the SQL validator with its regular expressions and
  reference scan (`Sandbox`), schema reflection (`SchemaReflection`) and the transactional executor (`McpClient`);
- the rate limiter (`RateLimit`) and the behaviour rules (`Rules`).

`Runs`, `StableSort`, `Totals`, `Text`, `ChunkIds` and `Options` hold what the modules share: runs of a state machine,
stable sorting by rank, sums over sequences, characters and white space, chunk ids, optional values.

Code that changes things in place is modelled by methods and classes proved against specification functions;
the lemmas then say what those functions mean. Concurrent code is modelled by a step function over an explicit
state, and `Exec` runs a list of actions, so a statement about every `acts` with `Exec(Init, acts).Some?` is a
statement about every interleaving. Outside answers (chat models, embeddings, the vector query, the container, the
database, the clock) are parameters about which nothing is assumed beyond what a lemma's `requires` says.
`math.log` is a parameter assumed positive and monotone above 1. Automatic induction is switched off on every
lemma; the inductions are written out.

Where the code differs from its comments or documentation, the model follows the code:

- `check_rate_limit` calls itself a sliding window; it has fixed windows (`SlidingExactly`, `BoundaryBurst`).
- `self_heal_node` writes corrected code, but `coder_node` overwrites it without having been told about the
  errors (`HealTextIrrelevant`, `RetriesAreFutile`).
- The bail-out of `self_heal_node` is reached only when no retries are allowed (`HealCalls`).
- A run that uses up its attempts was meant to report the errors; unless no retry was allowed it answers with the
  empty string (`FinalAnswer`).
- The `chunk_overlap` parameter is not used. The comment promises the last two paragraphs as overlap; the code carries
  over the last two elements, which is nothing after a flush of one, the whole chunk after a flush of two, and two
  paragraphs after a flush of more (`OverlapExactly`). After a flush of two every later chunk holds the whole of the
  one before it (`ChunksSwallow`, `SwallowReached`).
- The agent searches under the tenant id as text, invalidation removes the UUID key, so the agent's index is
  never refreshed and one upload leaves it stale for good (`TextKeyNeverRefreshed`, `TextKeyGoesStale`).
- The in-process validator asks for a placeholder in every write, and the executor binds no parameters: where the
  database refuses unbound placeholders, no write it reviewed is committed (`InProcessWriteNeverCommits`).
- The retry endpoint answers "queued" but leaves the stored status alone, and refuses an event whose job crashed
  (`StrandedForever`).
- `track_usage` promises one row per tenant and period; two first uses can insert two, and then no later job is
  counted in that period (`DuplicateExactly`, `RaceFromAnywhere`, `DuplicateClosesPeriod`).
- The comment on `BehaviorRule` says a lower number is a higher priority; the code takes the largest
  (`PriorityOfFirst`).
- `node_traces` is overwritten by every node, so a result carries the last two nodes only (`TokensConserved`).
- The pattern against quoted tautologies misses one that ends the statement (`QuotedTautologyFinds`).
- The index query does not ask whether an index is unique, so none is reported as unique (`CollectIndexes`).
- A command tag that is blank but not empty makes `_parse_rows_affected` raise after the commit, so a committed
  statement is reported as failed (`McpClient.CommittedIffExecuted`).

The API allows at most five retries, hence at most 17 visits (`RunLength`), below LangGraph's default of 25 steps.

## Model

| member | source | states |
|---|---|---|
| Worker.UsageConserved | backend/src/services/usage_tracker.py:29-88 | in every interleaving and for any choice of tenants and periods, the usage rows (duplicates included) sum to exactly the jobs that ended well: runs, webhook events among them, and input tokens = output tokens = what the chat-model calls of those jobs took |
| Worker.AlwaysBalanced | backend/src/services/usage_tracker.py:47-87 | every reachable state balances each counter, row by row against job by job |
| Worker.AlwaysReportsSpent | backend/src/workers/tasks.py:99-105 | in every reachable state, the run a job carries reports as input and as output tokens what its chat-model calls took |
| Worker.NeverRequeued | backend/src/api/v1/events.py:129-142 | over any run no event returns to queued, and run id, result, completion time and error message, once set, stay set |
| Worker.AlwaysTracked | backend/src/workers/tasks.py:47-124 | in every reachable state: completed events have run id, result and completion time, failed ones an error; all jobs of a queued event have yet to mark it; a processing event has a job that is still to settle it or crashed; no job misses its event |
| Worker.Quiescence | backend/src/workers/tasks.py:20-124 | once all jobs of an event are over the event is completed or failed, with all that goes with it, but in exactly two cases: it is still queued if and only if every job crashed before marking it, and still processing if and only if the last job to write its status crashed owing it |
| Worker.SingleJobQuiescence | backend/src/workers/tasks.py:39-124 | for an event with one job: still queued if and only if the job crashed before its first commit, still processing if and only if it crashed between that commit and the one that completes or fails the event |
| Worker.AlwaysWritten | backend/src/workers/tasks.py:47-118 | in every reachable state, an event is processing exactly when the job that wrote its status last still owes it, and queued exactly when no job has written it |
| Worker.AlwaysShown | backend/src/workers/tasks.py:47-124 | in every reachable state an event's row shows what the last job to write it has got to: the number and the unchanged result of that job's run from its completed commit on, its error once it has failed |
| Worker.AlwaysCarryRuns | backend/src/workers/tasks.py:67-74 | in every reachable state a run that a job carries is one the agent can make for such a job: its result is that of the last visit, its tokens those of the calls |
| Worker.CompletedHoldsItsRun | backend/src/workers/tasks.py:76-88 | over every schedule, an event last written by a job that ended well is completed and holds exactly that job's run id and result |
| Worker.Drains | backend/src/workers/tasks.py:20-167 | without new requests every schedule is finite: at most as many steps as the work outstanding |
| Worker.Progress | backend/src/workers/tasks.py:20-167 | until every job is over and every enqueue made, some step other than a crash or a lost enqueue is possible |
| Worker.StrandedForever | backend/src/api/v1/events.py:129-130 | an event that is neither completed nor failed, with no job left and none about to be enqueued, stays so in every continuation, and a retry of it is always refused |
| Worker.CrashStrands | backend/src/workers/tasks.py:47-61 | from every reachable state a new event can be stranded in processing: the broadcast between the first commit and the try block raises |
| Worker.DuplicateExactly | backend/src/services/usage_tracker.py:49-73 | a second row for a tenant and period appears exactly when a job that found none inserts after another has |
| Worker.RaceDuplicates | backend/src/services/usage_tracker.py:49-73 | any two jobs of a tenant without a row, both about to look for it, can both insert and both be counted |
| Worker.RaceFromAnywhere | backend/src/services/usage_tracker.py:49-73 | from every state, the initial one included, in which a tenant has no row for the current period, two agent jobs can leave it with two |
| Worker.DuplicateClosesPeriod | backend/src/services/usage_tracker.py:49-55 | after a duplicate no job that had not yet made its query is ever counted in that period |
| Tasks.Session.SelectRow | backend/src/services/usage_tracker.py:49-55 | finds no row, the one row, or two different rows of the tenant for the period, and says truly which |
| Tasks.Session.TrackUsage | backend/src/services/usage_tracker.py:29-87 | raises exactly for several rows or a failed commit and then writes nothing; otherwise inserts or increments the very row it found |
| Tasks.Session.ProcessEvent | backend/src/workers/tasks.py:20-124 | run alone it is a schedule of the machine from queue to end; it is counted exactly when every step succeeded and the period has no duplicate row, and then the row is the old one with the run id, the unchanged result and the completion time; failed and crashed rows are given in full as well; it crashes before marking exactly when the event cannot be loaded or marked, and owing the event exactly when the broadcast before the try block raises, or the handler fails after a try that did not complete it |
| Tasks.Session.ProcessMarked | backend/src/workers/tasks.py:55-124 | the part after the first commit: the same, from a marked event |
| Tasks.Session.TryEvent | backend/src/workers/tasks.py:61-108 | the try block: ends counted or hands the exception over; the row is the old one with status, run id, the agent's result and completion time exactly when the agent ended and the commit succeeded, and otherwise untouched |
| Tasks.Session.FailEvent | backend/src/workers/tasks.py:110-124 | the handler: marks the event failed with the error, and crashes exactly when the commit or the broadcast raises |
| Tasks.Session.ChargeRun | backend/src/workers/tasks.py:98-106 | charging a run: counted exactly when the usage is written, otherwise an exception |
| Tasks.Session.RunAgentTask | backend/src/workers/tasks.py:127-167 | likewise a schedule of the machine; counted exactly when every step succeeded; events untouched |
| Tasks.Gateway.IngestWebhook | backend/src/api/v1/webhooks.py:172-197 | stores a queued event and enqueues its job, stores it without a job when the enqueue raises, and changes nothing when the ingestion or its commit raises; a schedule of the machine |
| Tasks.Gateway.RetryEvent | backend/src/api/v1/events.py:115-142 | missing, refused, or accepted exactly for the tenant's failed events; a job is added only when accepted and no event changes; a schedule of the machine |
| IndexCache.CachedIsSomeSnapshot | backend/src/services/rag_query.py:90-112 | under every interleaving each cached index is the index of some committed chunk set of its tenant |
| IndexCache.CurrentAfter | backend/src/api/v1/rag.py:59-70 | an upload adds its chunks to the tenant's, a delete takes its own away, and no other action changes any tenant's chunks |
| IndexCache.CoherenceExactly | backend/src/services/rag_query.py:97-107 | a step breaks coherence exactly when it stores rows that are no longer current with no invalidation outstanding |
| IndexCache.QuietReadsCoherent | backend/src/services/rag_query.py:90-112 | if no upload or delete of a tenant commits between a search's read of its chunks and its store, every tenant without an outstanding invalidation has the index of its current chunks, whatever else interleaves |
| IndexCache.AtomicBuildsCoherent | backend/src/api/v1/rag.py:68-70 | in particular if each build is atomic |
| IndexCache.CoherentSearch | backend/src/services/rag_query.py:138-148 | then a search on the cached index finds the same chunks with the same scores as one on an index built now; cut to any top_k, the two lists have the same length and the same score at every position and differ only in chunks that tie with the last |
| IndexCache.RaceLeavesStaleIndex | backend/src/api/v1/rag.py:122-128 | otherwise, from every state without an index, a search, an upload and its invalidation can leave an index that lacks the upload |
| IndexCache.TextKeyNeverRefreshed | backend/src/agents/nodes/researcher.py:23-44 | an index cached under the text key never changes again, whatever is uploaded or deleted |
| IndexCache.TextKeyGoesStale | backend/src/api/v1/rag.py:68-70 | from every state in which nobody has cached or is building the tenant's text index, one agent search, an upload and its invalidation lead to an index that lacks the upload, and every later run keeps that index |
| Bm25.Index.IndexChunks | backend/src/services/rag_query.py:46-59 | the incrementally built tables agree with the documents: frequencies, lengths, count and average |
| Bm25.Index.AddChunk | backend/src/services/rag_query.py:48-56 | one round keeps the tables in agreement and adds exactly the chunk's document |
| Bm25.Index.CountTerms | backend/src/services/rag_query.py:54-56 | adds one to the frequency of each distinct token and to no other |
| Bm25.Index.ComputeIdf | backend/src/services/rag_query.py:61-65 | the table-based value is the formula on the documents, and 0 for an unknown term |
| Bm25.Index.ScoreDoc | backend/src/services/rag_query.py:72-83 | the loop computes the BM25 score from scratch, and never divides by zero; the following rows say what that score is |
| Bm25.Index.Score | backend/src/services/rag_query.py:67-87 | the scored and sorted list is the ranking by the formula |
| Bm25.RankedMeaning | backend/src/services/rag_query.py:67-87 | the ranking lists exactly the documents that share a token with the query, by descending score, ties in corpus order |
| Bm25.PositiveIffShares | backend/src/services/rag_query.py:75-85 | a score is above zero exactly when the document shares a token with the query, and never negative |
| Bm25.IdfPositive | backend/src/services/rag_query.py:61-65 | the logarithm is always taken of a number above 1, so every known term weighs something |
| Bm25.RarerTermsWeighNoLess | backend/src/services/rag_query.py:61-65 | a rarer term weighs no less |
| Bm25.IdfIs | backend/src/services/rag_query.py:61-65 | the inverse document frequency is the logarithm of (2n + 2) / (2df + 1) |
| Bm25.DocFreqCounts | backend/src/services/rag_query.py:54-56 | the document frequency of a term is the number of documents that hold it |
| Bm25.WeightOrder | backend/src/services/rag_query.py:79-83 | a token weighs more in one document than in another if and only if tf1 * (avg + 3 * len2) > tf2 * (avg + 3 * len1): more occurrences and fewer tokens count for more |
| Bm25.WeightScale | backend/src/services/rag_query.py:79-83 | a weight is below 2.5 times the inverse document frequency, and equals it for one occurrence at average length |
| Bm25.ScoreAdds | backend/src/services/rag_query.py:75-83 | a query's score is the sum of its parts' scores, repeated tokens counted each time |
| Bm25.OneTokenOrder | backend/src/services/rag_query.py:67-87 | for a query of one known token that comparison alone decides which of two documents scores higher |
| Bm25.ShorterFirst | backend/src/services/rag_query.py:67-87 | of two documents with the same number of occurrences the shorter scores strictly higher and is ranked first, and of two of the same length the one with more occurrences |
| Bm25.TokenizeParts | backend/src/services/rag_query.py:27-29 | a character that is no word character separates tokens |
| Bm25.TokenizeWord | backend/src/services/rag_query.py:27-29 | a run of word characters is one token, in lower case |
| Bm25.SearchFinds | backend/src/services/rag_query.py:46-87 | a search of indexed chunks finds exactly those whose content shares a token with the query text |
| Bm25.RankedPermuted | backend/src/services/rag_query.py:97-102 | the order in which the query returns chunks changes no score and no member of a result |
| Fusion.ReciprocalRankFusion | backend/src/services/rag_query.py:151-172 | the score table and sort give the fused list of the specification |
| Fusion.ScoreTable.AddList | backend/src/services/rag_query.py:162-168 | adds to each id its contributions in the list, and records ids in first-seen order |
| Fusion.FusedEntries | backend/src/services/rag_query.py:162-172 | the ids are exactly the union, each once, each with the sum of its contributions |
| Fusion.ContributionAtRank | backend/src/services/rag_query.py:164-168 | in a list without repeats an id contributes weight / (k + rank + 1), or nothing when absent |
| Fusion.DefaultScore | backend/src/services/rag_query.py:19-21 | with the built-in constants an id scores 0.7 / (61 + vector rank) and 0.3 / (61 + keyword rank), where it has them |
| Fusion.FirstSeenIs | backend/src/services/rag_query.py:162-168 | first-seen order is the vector list's ids by rank, then the keyword list's other ids by rank |
| Fusion.FusedOrder | backend/src/services/rag_query.py:170-172 | descending by score, and among equal scores in first-seen order |
| Fusion.FusedScoreBounds | backend/src/services/rag_query.py:162-168 | every score lies in (0, (vw + bw) / (k + 1)] |
| Fusion.BetterRankedFirst | backend/src/services/rag_query.py:151-172 | an id no worse in both lists and better in one comes strictly earlier |
| Fusion.LeadersFirst | backend/src/services/rag_query.py:151-172 | when vw * (k + 1) >= bw * (k + n), the first n vector results precede every keyword-only result |
| StableSort.OnlyRanking | backend/src/services/rag_query.py:171-171 | the descending stable order of the keys is unique, so the model of the sort leaves no freedom |
| Fusion.VectorFirstExactly | backend/src/services/rag_query.py:151-172 | vector lists of m results always precede all keyword-only results if and only if vw * (k + 1) >= bw * (k + m) |
| Fusion.Bm25Overtakes | backend/src/services/rag_query.py:151-172 | below that threshold, two lists in which a keyword-only result overtakes |
| Fusion.DefaultWeightsReach | backend/src/services/rag_query.py:19-21 | with the built-in constants the threshold is 82 vector results |
| HybridSearch.Cache.GetOrBuild | backend/src/services/rag_query.py:90-107 | returns the cached index, or builds and stores the index of the rows |
| HybridSearch.Cache.Invalidate | backend/src/services/rag_query.py:110-112 | removes exactly the given key |
| HybridSearch.Cache.Search | backend/src/services/rag_query.py:138-148 | the top of the ranking by the index used, stale or new |
| HybridSearch.Library.UploadDocument | backend/src/api/v1/rag.py:59-83 | adds the chunks and removes exactly the tenant's UUID key, or changes nothing when the ingestion raises |
| HybridSearch.Library.DeleteDocument | backend/src/api/v1/rag.py:115-128 | removes the chunks and exactly the tenant's UUID key, or changes nothing when there is no such document |
| HybridSearch.AssembleHits | backend/src/services/rag_query.py:210-223 | the loop yields the hits for the ranked ids that still exist |
| HybridSearch.AssembleSources | backend/src/services/rag_query.py:210-223 | the hits are exactly the existing chunks of the ranked ids, in ranked order |
| HybridSearch.Hybrid | backend/src/services/rag_query.py:175-223 | the whole pipeline: fusion of both legs, cut to top_k, assembled |
| HybridSearch.HybridOutput | backend/src/services/rag_query.py:193-223 | at most top_k hits, distinct ids, all in the chunk table when read, non-increasing fused score, even with a stale index |
| HybridSearch.VectorFillsTop | backend/src/services/rag_query.py:194-199 | a vector leg of at least top_k results, however long, fills the whole top when vw * (k + 1) >= bw * (k + top_k) |
| HybridSearch.KeywordsOnlyReorder | backend/src/services/rag_query.py:194-199 | over all legs within their limits, a full vector leg always fills the whole top if and only if top_k is 0 or vw * (k + 1) >= bw * (k + top_k) |
| HybridSearch.DefaultReorderReach | backend/src/services/rag_query.py:19-21 | with the built-in constants that is if and only if top_k <= 82 |
| HybridSearch.KeywordEntersTop | backend/src/services/rag_query.py:194-199 | above it, two legs for which a keyword-only result enters the top |
| Chunker.ChunkText | backend/src/services/rag_ingestion.py:49-80 | splitting, packing and dropping small chunks give the chunks of the specification, whose paragraphs, chunks and selection the following rows determine |
| Chunker.LargeSources | backend/src/services/rag_ingestion.py:79-80 | the chunks kept are those with an estimate of at least 100, all of them, in order |
| Chunker.OneChunkExactly | backend/src/services/rag_ingestion.py:57-77 | paragraphs make one chunk, their join, if and only if there is one of them or their estimates add up to no more than the budget |
| Chunker.Pack | backend/src/services/rag_ingestion.py:57-77 | the accumulator loop computes the run of the specification |
| Chunker.AddParagraph | backend/src/services/rag_ingestion.py:61-73 | one round of the loop is one step of the specification |
| Chunker.ParagraphsAreParagraphs | backend/src/services/rag_ingestion.py:56-56 | paragraphs are not blank, have no white space at their ends and hold no blank line |
| Chunker.ParagraphsHoldText | backend/src/services/rag_ingestion.py:56-56 | for every text the paragraphs hold all its characters but white space, in order |
| Chunker.ParagraphsOfJoin | backend/src/services/rag_ingestion.py:56-66 | the paragraphs of paragraphs joined by blank lines are those paragraphs |
| Chunker.SplitJoin | backend/src/services/rag_ingestion.py:56-66 | splitting a join of paragraphs on blank lines gives the paragraphs back |
| Chunker.ChunkWindows | backend/src/services/rag_ingestion.py:56-77 | the chunks are joins of contiguous windows from the first paragraph to the last, ends increasing, no gap; all but the last end exactly where the loop flushed, and each next one starts right after, two paragraphs back, or at the same start, by the number of elements flushed |
| Chunker.OverlapExactly | backend/src/services/rag_ingestion.py:64-70 | for every estimator, budget and document: nothing is carried over iff the flush found one element, the whole window iff it found two, exactly two paragraphs iff it found three or more or two that are paragraphs; starts strictly increase iff no flush finds exactly two |
| Chunker.ChunkingIsLossless | backend/src/services/rag_ingestion.py:56-77 | every chunk splits into exactly its window, and dropping the overlaps rebuilds the paragraphs of the text, which hold all its characters but white space, in order |
| Chunker.CountIsSum | backend/src/services/rag_ingestion.py:59-73 | the running count is the sum of the elements' estimates |
| Chunker.OverBudgetOnlyAfterFlush | backend/src/services/rag_ingestion.py:64-73 | the count exceeds the budget only on one paragraph or on one overlap with one paragraph |
| Chunker.JoinEstimate | backend/src/services/rag_ingestion.py:29-29 | a join of m parts with estimates summing to R is estimated between R and R + (5m - 2) / 4 |
| Chunker.ChunkBudget | backend/src/services/rag_ingestion.py:61-77 | every chunk keeps to the budget, up to what joining adds, unless it is one paragraph or an overlap with one |
| Chunker.FlushOfTwoTraps | backend/src/services/rag_ingestion.py:65-70 | from any accumulator: a flush of two elements carries the whole chunk over and leaves the count over the budget |
| Chunker.OverlapNeverShrinks | backend/src/services/rag_ingestion.py:65-70 | from such an accumulator every further paragraph closes a chunk that holds the whole of the one before it |
| Chunker.ChunksSwallow | backend/src/services/rag_ingestion.py:61-77 | in every run over paragraphs: after a flush of two elements each remaining paragraph gives one more chunk, and each chunk is the whole of the one before it followed by one paragraph, to the end of the document |
| Chunker.SwallowReached | backend/src/services/rag_ingestion.py:49-77 | for every budget there is a beginning of a document after which that happens, whatever paragraphs follow |
| Embedding.GenerateEmbeddingsFallback | backend/src/services/llm.py:107-138 | the primary model's vectors, else the local model's padded ones, else an exception |
| Embedding.EmbedAnswers | backend/src/services/llm.py:107-138 | the primary model's vectors unchanged; or the local model's, one by one and in order, each cut to 1536 numbers or filled up with zeros at the end; or an exception exactly when neither answers |
| Embedding.PaddingKeepsDot | backend/src/services/llm.py:131-138 | padded vectors have length 1536, and their inner product loses exactly what lies beyond it: nothing for inputs up to that length |
| Embedding.EmbedChunks | backend/src/services/rag_ingestion.py:83-90 | the loop over batches of 20 concatenates the batches' answers, or raises with the first that raises |
| Embedding.RaisesExactly | backend/src/services/rag_ingestion.py:83-90 | the whole raises if and only if one of the batches of 20 does |
| Embedding.OneChunkDocument | backend/src/services/rag_ingestion.py:119-119 | a document is split into one chunk if and only if it has one paragraph or comes to at most 1000 tokens |
| Embedding.BatchesAlign | backend/src/services/rag_ingestion.py:83-90 | for every list length, if each batch has one vector for each text, the vector at an index is the one its text got in its batch |
| Embedding.BatchingInvisible | backend/src/services/rag_ingestion.py:83-90 | if texts are embedded one by one, cutting them into batches makes no difference |
| Embedding.AlignedExactly | backend/src/services/rag_ingestion.py:83-90 | with at most one vector for each text, every vector is that of the text at its index if and only if no short batch is followed by a batch that returns any vector |
| Embedding.SourceOfVector | backend/src/services/rag_ingestion.py:126-129 | each vector of the result is the one its source text got within its batch |
| Embedding.ShortBatchShifts | backend/src/services/rag_ingestion.py:129-129 | a first batch that comes back one vector short gives its last text the vector of the first text of the next batch |
| Embedding.ProcessDocument | backend/src/services/rag_ingestion.py:93-150 | stores every chunk with its index and the vector at that index and completes the document, or marks it failed and raises |
| Agent.ExactlyOneRun | backend/src/agents/graph.py:49-104 | for all outside answers there is exactly one chain of visits along the graph's edges, and it is the run |
| Agent.EdgeDescends | backend/src/agents/graph.py:67-102 | every edge lowers the remaining retries, or keeps them and lowers the rank of the node |
| Agent.RunLength | backend/src/agents/graph.py:40-46 | at most 3 * max(1, max_retries) + 2 visits and max(1, max_retries) of the coder; a completed run has 3 visits on the read path and 3c + 2 for c coder visits on the write path, heals after each but an executed one, and gives up only with the attempts used up |
| Agent.LongestRun | backend/src/agents/graph.py:40-46 | both bounds are reached for every max_retries |
| Agent.HealCalls | backend/src/agents/nodes/self_heal.py:23-46 | the bail-out branch is taken if and only if max_retries <= 0, and the self-heal asks the model at most max_retries times |
| Agent.VisitSound | backend/src/agents/graph.py:141-162 | at every visit the inputs are those of the run, the node fits the intent, and the retry count is 0 or below max_retries on the write path |
| Agent.ExecutedIsReviewed | backend/src/agents/nodes/mcp_executor.py:27-110 | the executor's visit is the last but one and on the write path; its statement is what the coder wrote two visits before and is not blank; at the review just before, the container's own verdict on it was passed, or, where it gave none, it passed the in-process validator |
| Agent.ReviewDecides | backend/src/agents/nodes/reviewer.py:23-61 | every review is of what the coder wrote just before; the statement goes to the executor at the next visit if and only if it is not blank and the container's verdict is passed, or the in-process validator's where there is none; otherwise the self-heal follows and finds exactly the reviewer's errors |
| Agent.HealVisit | backend/src/agents/nodes/self_heal.py:21-74 | the self-heal asks the model about the refused statement and the errors of its review, unless no retry is allowed, keeps the stripped answer and uses up one retry |
| Agent.CommitsExactly | backend/src/agents/nodes/mcp_executor.py:52-110 | the executed statement is committed if and only if execution is enabled, the run's secret (the empty one without a connection) decrypts to a PostgreSQL address, and connecting, setting the timeout, executing and committing all succeed |
| Agent.ExecutedPassesFallback | backend/src/agents/nodes/reviewer.py:30-61 | where the in-process validator reviewed it, the executed statement holds none of the words DROP, TRUNCATE, ALTER, CREATE, GRANT and REVOKE, no COPY FROM, no comment after a semicolon and neither tautology, as far as each pattern reaches; it has a placeholder if it writes, and names only known columns of known tables |
| Agent.InProcessWriteNeverCommits | backend/src/agents/nodes/mcp_executor.py:105-110 | with a database that refuses unbound placeholders, no write reviewed in process is committed or reported as executed |
| Agent.ExecutesAtMostOnce | backend/src/agents/graph.py:94-102 | the executor is called at most once in a run |
| Agent.CommittedIffExecuted | backend/src/agents/nodes/mcp_executor.py:58-136 | the database commits the run's statement exactly when the result says executed, but for a blank, non-empty command tag |
| Agent.WithoutConnectionNothingCommits | backend/src/agents/nodes/mcp_executor.py:52-78 | a run without a connection commits nothing unless the empty secret decrypts to a database address |
| Agent.HealTextIrrelevant | backend/src/agents/nodes/coder.py:49-56 | two runs whose answers differ only in the texts of the self-heal visit the same nodes, execute the same statement and end with the same result |
| Agent.RetriesAreFutile | backend/src/agents/nodes/coder.py:25-47 | with steady answers of the coder's model and the container, what is executed passed its first review |
| Agent.FinalAnswer | backend/src/agents/nodes/format_response.py:19-49 | the answer is the researcher's message on the read path, only a status after an execution, and when the attempts are used up the errors if no retry was allowed and the empty string otherwise |
| Agent.FinalReport | backend/src/agents/graph.py:170-178 | a completed run reports a read intent exactly on the researcher's path, the citations of the search and no others, and the executor's result exactly when it was visited |
| Agent.TokensConserved | backend/src/agents/graph.py:170-178 | the tokens reported as input and as output are both the sum over the run's chat-model calls; the traces are those of the last two nodes |
| Agent.ClassifyVisit | backend/src/agents/nodes/classify_intent.py:34-52 | an answer is classified as write exactly when it is the word write, in any case and with any white space around it, and as read otherwise; write goes to the coder and read to the researcher |
| McpClient.TargetDatabase.ExecuteInTransaction | backend/src/services/mcp_client.py:143-210 | commits the statement exactly when connecting, setting the timeout, executing and committing all succeed; every opened connection is closed |
| McpClient.TargetDatabase.ExecuteWrite | backend/src/services/mcp_client.py:71-141 | the decision ladder: connects only for a reviewed statement with execution enabled and a PostgreSQL address |
| McpClient.CommittedIffExecuted | backend/src/services/mcp_client.py:90-206 | committed exactly when reported executed, except for a blank, non-empty command tag; and only after every check passed |
| McpClient.FailureReported | backend/src/services/mcp_client.py:89-206 | each failure is reported if and only if it is the first: not reviewed, execution disabled, each of the three bad secrets, and the kind of the first step of the transaction that raises |
| McpClient.CountReported | backend/src/services/mcp_client.py:171-187 | an executed UPDATE, DELETE or SELECT is reported with the count in its command tag |
| McpClient.RowCountRoundTrip | backend/src/services/mcp_client.py:213-234 | the count of an UPDATE, DELETE or SELECT tag is read back for every number |
| McpClient.InsertCountRoundTrip | backend/src/services/mcp_client.py:213-234 | so is the count of an INSERT tag |
| McpClient.CountOnlyFrom | backend/src/services/mcp_client.py:213-234 | a count is read only from an INSERT tag of three words or an UPDATE, DELETE or SELECT tag of two, and it is what the last word spells |
| McpClient.FieldsParts | backend/src/services/mcp_client.py:222-222 | any white space separates the fields of a command tag |
| McpClient.BlankHasNoFields | backend/src/services/mcp_client.py:222-224 | a tag splits into no fields exactly when it is blank |
| Sandbox.ValidateFallback | backend/src/services/sandbox.py:232-284 | the loops over patterns and references produce the errors of the specification, which the next rows state in characters |
| Sandbox.ReportsExactly | backend/src/services/sandbox.py:239-266 | the report is a message of its own for each of the ten forbidden words and shapes in the text, in order, then that a write has no placeholder, then the references whose table is known and whose column is not |
| Sandbox.CheckRefs | backend/src/services/sandbox.py:269-282 | reports each scanned reference whose table is known and whose column is not, the last of equal table names deciding |
| Sandbox.CheckPatterns | backend/src/services/sandbox.py:258-260 | reports the message of each pattern found, in order |
| Sandbox.PassesExactly | backend/src/services/sandbox.py:239-284 | a statement passes if and only if none of the six forbidden words stands in it as a whole word, it has no COPY FROM, no comment after a semicolon and neither tautology, it has a placeholder if it holds INSERT, UPDATE or DELETE, and each reference to a known table names one of its columns |
| Sandbox.KeywordFinds | backend/src/services/sandbox.py:243-248 | a keyword pattern finds exactly the whole words, in any case |
| Sandbox.CopyFromFinds | backend/src/services/sandbox.py:249-249 | the COPY pattern finds exactly COPY, white space, anything on one line, white space and FROM, inside words too |
| Sandbox.CommentFinds | backend/src/services/sandbox.py:250-250 | the comment pattern finds exactly a semicolon and two hyphens with nothing but white space between |
| Sandbox.TautologyFinds | backend/src/services/sandbox.py:251-251 | the tautology pattern finds exactly the word OR and 1 = 1 with no word character after it |
| Sandbox.WriteFinds | backend/src/services/sandbox.py:263-263 | the write pattern finds the letters INSERT, UPDATE and DELETE anywhere, inside words too |
| Sandbox.PlaceholderFinds | backend/src/services/sandbox.py:263-263 | the placeholder pattern finds exactly a dollar sign followed by a digit |
| Sandbox.QuotedTautologyFinds | backend/src/services/sandbox.py:252-255 | the quoted tautology pattern finds exactly the word OR, a quoted text, an equals sign and a quoted text with a word character right after the last quote: without one, as at the end of a statement, it is not found |
| Sandbox.QualifiedNameFound | backend/src/services/sandbox.py:275-275 | a dotted pair of words standing free is always scanned, whatever surrounds it |
| Sandbox.QuotedNameFound | backend/src/services/sandbox.py:276-276 | a dotted pair of quoted words, with spaces around the dot at will, is scanned whenever no double quote comes before it, or neither a word character nor a dot comes right before its first quote |
| Sandbox.ThreePartName | backend/src/services/sandbox.py:275-275 | of a.b.c only (a, b) is scanned |
| Sandbox.ScannedStands | backend/src/services/sandbox.py:275-276 | whatever is scanned stands in the text, each reference at its own place: first the dotted pairs of whole words from left to right, then the quoted pairs |
| Sandbox.ReportedColumns | backend/src/services/sandbox.py:270-282 | a reference is reported with the columns available if and only if it is scanned and those are the columns of the last table of its name, its own not among them |
| Sandbox.ReflectThenValidate | backend/src/services/schema_reflection.py:43-105 | a scanned reference to a reflected table is reported if and only if the catalogue has no such column row, up to case |
| Sandbox.LastTableDecides | backend/src/services/sandbox.py:270-282 | for any table names: a scanned reference is reported if and only if the last table reflected under its name, up to case, has no catalogue row for the column |
| SchemaReflection.Reflect | backend/src/services/schema_reflection.py:42-113 | grouping, marking, linking and copying in place give the graph of the specification, with every attribute of the columns, the indexes and the sizes |
| SchemaReflection.CollectIndexes | backend/src/services/schema_reflection.py:94-102 | a table's indexes are its index rows, in order, never marked unique |
| SchemaReflection.GroupColumns | backend/src/services/schema_reflection.py:43-56 | groups the columns by table, in row order |
| SchemaReflection.MarkPrimaryKeys | backend/src/services/schema_reflection.py:58-65 | marks a column exactly when a key row names it |
| SchemaReflection.LinkForeignKeys | backend/src/services/schema_reflection.py:67-85 | lists all relationships and links each column to the last row that names it |
| SchemaReflection.ColumnSources | backend/src/services/schema_reflection.py:43-85 | a table's columns are its rows, all and in order, each with its attributes, key flag and reference |
| SchemaReflection.ReflectedColumns | backend/src/services/schema_reflection.py:43-85 | the columns of a reflected table are its catalogue rows, all and in order; one is a key column if and only if a primary-key row names it |
| SchemaReflection.ReflectedFields | backend/src/services/schema_reflection.py:67-113 | tables and relationships are copied in catalogue order, field by field |
| SchemaReflection.IndexSources | backend/src/services/schema_reflection.py:94-102 | a table's indexes are its index rows, all and in order |
| SchemaReflection.LastReferenceMeaning | backend/src/services/schema_reflection.py:78-85 | the reference kept is that of the last matching row, and there is one if and only if some row matches |
| RateLimit.AdmissionExact | backend/src/core/security_middleware.py:23-40 | for every order of increments and expiry calls, delayed or lost, a request is admitted if and only if fewer than 100 requests of its window came before it |
| RateLimit.WindowLimit | backend/src/core/security_middleware.py:23-40 | of the requests in an aligned window exactly the first 100 are admitted |
| RateLimit.MinuteLimit | backend/src/core/security_middleware.py:23-40 | of a tenant's requests in one minute of the clock exactly the first 100 are admitted |
| RateLimit.SlidingLimit | backend/src/core/security_middleware.py:25-28 | at most 200 are admitted in any 60 consecutive seconds |
| RateLimit.SlidingExactly | backend/src/core/security_middleware.py:25-28 | the 60 seconds from a given second on never admit more than 100, in all runs, if and only if they are one of the limiter's own windows |
| RateLimit.BoundaryBurst | backend/src/core/security_middleware.py:26-27 | 200 admitted within two seconds around the end of any window |
| RateLimit.LateIncrement | backend/src/core/security_middleware.py:31-34 | a request that increments 61 seconds after reading the clock can be the 101st of its window to be admitted |
| RateLimit.DelayExactly | backend/src/core/security_middleware.py:24-34 | no window ever admits more than 100, in all runs whose increments take effect within a given delay, if and only if the delay is at most 60 seconds |
| RateLimit.Redis.CheckRateLimit | backend/src/core/security_middleware.py:17-40 | a check whose steps take effect at once is a schedule of the machine with the same verdict |
| Rules.ResolvePath | backend/src/services/behavior_rules.py:31-41 | the walk with its early return is the walk over all parts |
| Rules.ResolveComposes | backend/src/services/behavior_rules.py:31-41 | resolving p.q is resolving q in what p resolves to |
| Rules.ResolveKey | backend/src/services/behavior_rules.py:31-41 | a name without a dot resolves to what the object holds under it, and otherwise to null |
| Rules.OperatorLaws | backend/src/services/behavior_rules.py:17-28 | for all values gt and lte, and lt and gte, are opposites unless they raise; lt is gt the other way round; eq is symmetric; ne, not_contains and in follow from eq and contains |
| Rules.CompareFlips | backend/src/services/behavior_rules.py:20-23 | comparing the other way round gives the opposite, at every depth of nested lists, and raises for the same values |
| Rules.EvaluateConditions | backend/src/services/behavior_rules.py:44-66 | the loops with their early returns give the outcome of the first check that does not hold |
| Rules.EvaluateTest | backend/src/services/behavior_rules.py:56-65 | one condition: its operators in order, or direct equality |
| Rules.HoldsIffAll | backend/src/services/behavior_rules.py:54-66 | conditions match if and only if every check holds; any other outcome is that of some check |
| Rules.MoreConditionsMatchLess | backend/src/services/behavior_rules.py:54-66 | adding conditions only narrows the match |
| Rules.MatchIgnoresOrder | backend/src/services/behavior_rules.py:54-66 | whether conditions match does not depend on their order, even when checks raise |
| Rules.OutcomeIgnoresOrder | backend/src/services/behavior_rules.py:54-66 | nor does the outcome, unless one condition fails and another raises |
| Rules.OrderDecides | backend/src/services/behavior_rules.py:54-66 | if so, the conditions can be ordered to fail and ordered to raise |
| Rules.OrderMattersExactly | backend/src/services/behavior_rules.py:54-66 | some order of the same conditions has another outcome if and only if one condition fails and another raises |
| Rules.NumberLaws | backend/src/services/behavior_rules.py:17-28 | on numbers and truth values the operators are the comparisons of numbers, and contains raises |
| Rules.EqualityLaws | backend/src/services/behavior_rules.py:17-28 | equality holds within one kind of values only: texts with themselves, lists item by item, objects key by key |
| Rules.SameTransitive | backend/src/services/behavior_rules.py:17-28 | equality is transitive, at every depth |
| Rules.TextOrder | backend/src/services/behavior_rules.py:20-23 | texts compare by the first character in which they differ, and a proper beginning comes first |
| Rules.ListOrder | backend/src/services/behavior_rules.py:20-23 | lists compare by the first items that are not equal, and a proper beginning comes first |
| Rules.ContainsLaws | backend/src/services/behavior_rules.py:24-26 | contains: a text within a text, an item in a list, a key in an object; it raises in exactly the other cases |
| Rules.OtherOperators | backend/src/services/behavior_rules.py:27-27 | starts_with holds if and only if the one text is the other with some text, possibly empty, after it; an unknown operator never holds |
| Rules.PlainCondition | backend/src/services/behavior_rules.py:62-65 | a plain value is compared for equality with what the path resolves to |
| Rules.OperatorCondition | backend/src/services/behavior_rules.py:56-61 | operators are applied in turn to what the path resolves to, until one does not hold |
| Rules.ConditionsInTurn | backend/src/services/behavior_rules.py:51-66 | no conditions always match; conditions are evaluated in turn, and the first that does not hold decides |
| Rules.MatchRules | backend/src/services/behavior_rules.py:79-100 | raises if and only if some rule's evaluation raises, and otherwise returns the matching rules in order |
| Rules.MatchingSources | backend/src/services/behavior_rules.py:91-100 | the rules returned are those whose conditions hold, all of them, in the order of the query |
| Rules.IngestWebhook | backend/src/services/webhook_service.py:49-63 | refused if and only if a rule's evaluation raises; otherwise the event carries the names of the matched rules and the largest of their priorities, or 50 |
| Rules.PriorityOfFirst | backend/src/services/webhook_service.py:60-63 | that priority is the first returned rule's, and no matching rule has a larger one |

## Left out

- Rounding: scores and vectors are real numbers; `round(score, 4)` and floating-point error are not modelled.
- Characters beyond ASCII in `\w`, `\s`, lower-casing and case-insensitive search.
- A negative `top_k`, for which Python slices count from the end.
- The container's own validation script: its verdict is arbitrary. It repeats the checks of the in-process validator.
- The time stamps of a reflected schema graph.
- Other processes' index caches: each API or worker process has its own; the model follows one.
- The token estimate of `tiktoken`: the estimator is a parameter, except where the quarter-length form is named.
- Ids given twice in the vector list; the query cannot return a row twice.
- The target system, explanation and parameters in the coder's answer: no parameters are passed to the executor.
- `run_agent`'s lookup of the newest schema cache, and the cost, latency and audit record of the query endpoint.
- LangGraph's step limit, and arq's cancellation, timeout and tries: a started job runs to its end or crashes.
- Broadcasts and logging appear only as steps that may raise.
- The period's calendar dates: a period is a number that the clock advances.
- Counters of `track_usage` that no job passes: sandbox executions, queries, storage.
- Non-numeric JSON values (NaN, infinities), and `str` of a value, which is a parameter.
- `parse_document`, `build_context_from_results`, `log_audit_event`, summaries and listings: easy members only.
- The API, authentication, encryption, signatures and the user interface.
- SchemaReflection.Reflect: the dictionaries are maps of values that the loops replace, so sharing of a column's
  dictionary between two places is not captured.
- Chunker.AddParagraph: the loop body works on values passed in and returned rather than on lists changed in place.
- Embedding.ProcessDocument: stored chunks are returned instead of being added to a session, so a rollback by the
  caller is not captured.
