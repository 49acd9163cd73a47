# Retrieval validation, ingestion and RAG response shaping — a Dafny model

This project models the logic at the heart of a retrieval-augmented question
answering backend for a book on Physical AI, plus one small robot controller
from the book's examples. The modelled parts are:

- **Retrieval validation engine** (retrieval_validation.py):
  - the validating constructors of the four records: query results, validation reports, test queries and validation rules;
  - the bounded connection-retry loop;
  - the similarity search with its query guard, its truncation and its result filtering;
  - the threshold filter and the predefined test queries;
  - keyword accuracy and metadata checks, per-result validation, and the validation report;
  - the consistency analysis across repeated runs.
- **Ingestion helpers** (main.py):
  - the overlapping chunker;
  - batched embedding;
  - the stored payload;
  - idempotent creation of the collection;
  - the sitemap URL filter;
  - the page-text clean-up.
- **RAG response shaping** (rag_agent.py): context retrieval with the threshold, the general-knowledge fallback, content previews and de-duplicated sources.
- **The obstacle-avoidance controller**: a three-state machine over the latest laser scan.

The external services are parameters:
- The search backend is a `Gateway.SearchBackend` value: the collection listing, the embedding key and the embedding and query calls.
- The embedding provider is a function from a batch to vectors.
- The LLM completions are given as results.
- The clock is a number.
- Run k of the consistency check sees `world(k)`.
- Attempt k of the connection loop succeeds when `succeeds(k)` holds.

Python exceptions are the `Failure` alternative of a `Result`.

Modules:
- `Wrappers`: Option and Result.
- `Seqs`: generic filter, count, sum, map, flatten and de-duplication with their algebra.
- `Text`: Python's `strip`, `lower`, `startswith`, substring `in` and slicing on `seq<char>`.
- `Records`: the four records.
- `Gateway`: connection, search, threshold and test queries.
- `Validation`: the checks and the report.
- `Consistency`: the repeated runs.
- `Chunker`, `Ingestion` and `Cleanup`: main.py.
- `Rag`: rag_agent.py.
- `Robot`: the controller class.

Where the code departs from its written description, the model follows the code:
- With zero results the report's accuracy is 0/1 = 0.0, not 1.0.
- The custom query's category `"custom"` is rejected by the test-query constructor.
- The consistency percentage is an average count of shared ids, not a fraction.
- The per-query failure report can never be built (see Findings).

## Model

| member | source | states |
|---|---|---|
| Records.NewQueryResult | backend/retrieval_validation.py:50-63 | succeeds exactly on results with non-blank content, an http(s) source URL, `title` and `created_at` in the metadata and a score in [0,1], and then returns that record; blank content is reported first, then a bad URL |
| Records.NewValidationReport | backend/retrieval_validation.py:77-90 | succeeds exactly on a non-blank query, results_count ≥ 0, accuracy in [0,1] and details holding both count keys; details without the counts are rejected |
| Records.FirstBlank | backend/retrieval_validation.py:108-109 | the index of the first blank keyword: all keywords before it are non-blank, and the one at it is blank |
| Records.NewTestQuery | backend/retrieval_validation.py:102-113 | succeeds exactly when id, text and every keyword are non-blank, the category is concept/procedure/reference and the priority is high/medium/low; a bad category alone is reported as such |
| Records.NewValidationRule | backend/retrieval_validation.py:125-136 | succeeds exactly when ids and description are non-blank, the type is one of the three rule types and the threshold is absent or in [0,1] |
| Records.CustomQueryRejected | backend/retrieval_validation.py:761-768 | the custom query built with category "custom" is always rejected by the constructor |
| Text.Strip | backend/retrieval_validation.py:336-337 | the stripped string is the maximal slice of the input that neither starts nor ends with whitespace: only whitespace lies before and after it, and it is empty iff the input is all whitespace |
| Text.StripIdempotent | backend/main.py:134-135 | stripping twice is stripping once |
| Text.StripUnchanged | backend/main.py:134-135 | a string with no whitespace at either end is its own strip |
| Text.ContainsAt | backend/retrieval_validation.py:515 | substring `in` holds iff the needle occurs at some index of the haystack |
| Text.LowerIsLowerCase | backend/retrieval_validation.py:511 | the lowered text holds no ASCII capital, and every other character is unchanged |
| Text.LowerIdempotent | backend/retrieval_validation.py:511-515 | lowering twice is lowering once, so lowering the already-lowered content changes nothing |
| Text.Take | backend/retrieval_validation.py:340-342 | `s[:n]`: the first min(n, len s) characters |
| Gateway.ConnectToQdrant | backend/retrieval_validation.py:172-211 | a missing URL fails before any attempt; otherwise the first successful attempt is returned after exactly that many attempts, and only when all attempts fail is it a connection error after all of them |
| Gateway.EffectiveQuery | backend/retrieval_validation.py:340-342 | a query over 1000 characters becomes its first 1000, a shorter one is unchanged |
| Gateway.ResultOf | backend/retrieval_validation.py:385-412 | a point becomes a result iff its stripped content has at least 10 characters and the result constructor accepts its fields, and then carries the point's id, content, URL, title, date and score |
| Gateway.KeptResultsAppend | backend/retrieval_validation.py:385-412 | the kept results of two runs of points are the kept results of each, concatenated |
| Gateway.KeptResultsWellFormed | backend/retrieval_validation.py:393-412 | every kept result is well-formed and has enough content |
| Gateway.KeptResultsAllQualify | backend/retrieval_validation.py:385-412 | when every point qualifies, each is kept in order |
| Gateway.FilterPoints | backend/retrieval_validation.py:383-415 | the loop over the store's points returns exactly the in-order kept results |
| Gateway.SearchContract | backend/retrieval_validation.py:320-419 | a blank query fails before any store call; a successful search had the collection, the key, a successful embedding of the truncated query, and returns the kept results of the store's answer |
| Gateway.RunSimilaritySearch | backend/retrieval_validation.py:320-419 | the method's outcome, every error path included, is the search specification's |
| Gateway.AboveThreshold | backend/retrieval_validation.py:492 | every kept item comes from the input and has a score ≥ threshold |
| Gateway.AboveThresholdExact | backend/retrieval_validation.py:492 | an item is kept iff it is in the input with a score ≥ threshold, and the filter distributes over concatenation, so order is kept |
| Gateway.AboveThresholdCompose | backend/retrieval_validation.py:477-494 | filtering at a lower and then a higher threshold is filtering at the higher one |
| Gateway.ThresholdSearch | backend/retrieval_validation.py:477-494 | a failing search fails unchanged, and a successful one is filtered by the threshold |
| Gateway.LoadTestQueries | backend/retrieval_validation.py:462-474 | a non-empty category selects only predefined queries of that category; a falsy one returns all |
| Gateway.LoadTestQueriesExact | backend/retrieval_validation.py:472-474 | a query is selected iff it is predefined and has the category |
| Gateway.LoadTestQueriesByCategory | backend/retrieval_validation.py:423-474 | concept gives tq001, tq003, tq005 in order; procedure gives tq002; reference gives tq004; custom gives none |
| Gateway.TestQueriesWellFormed | backend/retrieval_validation.py:423-459 | each of the five predefined queries passes its constructor |
| Validation.RequiredMatches | backend/retrieval_validation.py:519 | max(1, n div 2) |
| Validation.FoundKeywords | backend/retrieval_validation.py:512-516 | a keyword is found iff it is one of the keywords and occurs in the lowercased content; at most as many are found as given |
| Validation.ValidateTextAccuracy | backend/retrieval_validation.py:497-520 | the loop's verdict is the text-accuracy rule |
| Validation.TextAccuracyCases | backend/retrieval_validation.py:508-520 | no keywords is accurate; keywords and empty content is not; otherwise accurate iff the hits number at least max(1, n div 2) |
| Validation.TextAccuracyMajority | backend/retrieval_validation.py:519-520 | with two or more keywords, accurate iff at least half of them, rounded down (⌊n/2⌋ of n), are found |
| Validation.TextAccuracyMonotone | backend/retrieval_validation.py:514-520 | adding a keyword that occurs never turns accurate into inaccurate |
| Validation.TextAccuracyIgnoresCase | backend/retrieval_validation.py:511-520 | two contents that lower to the same text get the same verdict for every keyword list |
| Validation.TextAccuracySingle | backend/retrieval_validation.py:514-520 | with one keyword, accurate iff that keyword occurs case-insensitively |
| Validation.ValidateMetadata | backend/retrieval_validation.py:523-549 | valid iff `title` and `created_at` are both present and non-empty |
| Validation.ValidateMetadataExamples | backend/tests/test_retrieval_validation.py:88-103 | `{}`, an empty title and an empty date are invalid; a title and a date are valid |
| Validation.ErrorTags | backend/retrieval_validation.py:576-587 | no tags iff both checks pass, and each tag is present exactly when its check fails |
| Validation.DetailOf | backend/retrieval_validation.py:568-590 | a detail carries the result's id, its metadata verdict, non-blank content as its content verdict, and the matching tags |
| Validation.ValidateRetrievedData | backend/retrieval_validation.py:552-592 | one detail per result in input order, the flag is true iff every detail passes, and no results give (true, []) |
| Validation.SearchResultsHaveContent | backend/retrieval_validation.py:393-395 | every result surviving the search filter has non-blank content |
| Validation.PassedPlusFailed | backend/retrieval_validation.py:619-622 | passed plus failed is the number of details |
| Validation.AllPassedIffCounted | backend/retrieval_validation.py:619-622 | every detail passes iff the passed count is the number of details |
| Validation.AccuracyDenominator | backend/retrieval_validation.py:614-616 | the number of results, or 1 when there are none |
| Validation.Accuracy | backend/retrieval_validation.py:614-616 | non-negative, 0 with no passes, at most 1 iff passed ≤ total, and 1 iff all passed |
| Validation.AccuracyMeaning | backend/retrieval_validation.py:614-616 | accuracy times total is the passed count |
| Validation.DurationMs | backend/retrieval_validation.py:625-629 | the duration exists exactly when a start time is given; it is never negative when the end time, or the clock when no end is given, is not before the start |
| Validation.Metrics | backend/retrieval_validation.py:632-638 | the rate is 0 without a positive duration, and the average score is 0 without results |
| Validation.MetricsMeaning | backend/retrieval_validation.py:632-638 | rate times seconds is the result count, and average times count is the score sum |
| Validation.SummaryOf | backend/retrieval_validation.py:641-649 | the details hold the passed and failed counts, which add up to the number of details, the details themselves, and the accuracy breakdown: the shares of details whose content and whose metadata are valid, both 1.0 when there are no details (646-648) |
| Validation.GenerateValidationReport | backend/retrieval_validation.py:595-659 | accepted iff the query is non-blank and the accuracy stays ≤ 1; then results_count, the all-passed flag, the accuracy, the counted details and the metrics are as stated above |
| Validation.ReportOfValidatedResults | backend/retrieval_validation.py:595-659 | validating the results and reporting them always succeeds, with accuracy 1 iff there are results and all pass |
| Validation.EmptyReportAccuracy | backend/retrieval_validation.py:614-616 | with no results the report passes with accuracy 0.0 and average score 0.0 |
| Validation.ReportRejectsExcessDetails | backend/retrieval_validation.py:614-616 | more passing details than results push the accuracy over 1, and the constructor rejects the report |
| Validation.FailureReportAsWritten | backend/retrieval_validation.py:802-814 | the fallback report as written is always rejected |
| Validation.FailureReportAlwaysRejected | backend/retrieval_validation.py:805-813 | the rejection is for the missing count keys in details |
| Validation.FailureReport | backend/retrieval_validation.py:802-814 | the corrected fallback report is built for every non-blank query: failed, no results, accuracy 0, with the error in counted details |
| Consistency.AllRunsRaise | backend/retrieval_validation.py:679-694 | when every run raises, no run is collected |
| Consistency.NoRunRaises | backend/retrieval_validation.py:679-694 | when no run raises, every run's results are collected in run order |
| Consistency.PooledScoresSnoc | backend/retrieval_validation.py:689-690 | the pooled scores of one more run are the old ones followed by that run's scores |
| Consistency.VarianceNonNegative | backend/retrieval_validation.py:712 | the sample variance is never negative |
| Consistency.ConstantScoresZeroVariance | backend/retrieval_validation.py:712 | equal scores have variance 0 |
| Consistency.PooledScoresCount | backend/retrieval_validation.py:679-708 | the per-run result counts add up to the number of pooled similarity scores |
| Consistency.SharedIds | backend/retrieval_validation.py:719-728 | the shared-id total is at most the later runs times the first run's ids |
| Consistency.ConsistencyPercentage | backend/retrieval_validation.py:719-728 | non-negative, 0 with at most one run, and at most the first run's distinct ids |
| Consistency.Analyze | backend/retrieval_validation.py:697-739 | no successful run gives the all-failed report; otherwise the run count, per-run counts, average, variance, count consistency, percentage, and consistent iff counts agree and the variance is < 0.01 |
| Consistency.ValidateRetrievalConsistency | backend/retrieval_validation.py:662-739 | the loop's report is the analysis of the runs that did not raise and of their pooled scores |
| Consistency.AllFailedIsInconsistent | backend/retrieval_validation.py:697-704 | when every run raises, the report is inconsistent with 0 successful runs |
| Consistency.IdenticalRunsOverlapFully | backend/retrieval_validation.py:719-728 | identical later runs share all of the first run's ids |
| Consistency.IdenticalRunsAreCountConsistent | backend/retrieval_validation.py:707-728 | two or more identical runs are count-consistent, and their percentage is the number of distinct ids |
| Consistency.UnevenRunsInconsistent | backend/retrieval_validation.py:715-739 | runs of 5, 3 and 5 results are never consistent |
| Chunker.ChunkText | backend/main.py:149-191 | on every text that fits one window, and on every text when the sizes are positive with overlap below chunk size, the while loop returns exactly the chunk sequence specified by `Chunks` |
| Chunker.ChunkFromAt | backend/main.py:172-188 | chunk i is the window of the text starting at i·(width − overlap) and cut at the text's end |
| Chunker.ShortTextIsOneChunk | backend/main.py:166-170 | a text of at most 4·chunk_size characters is the single chunk `[text]`, whatever the overlap |
| Chunker.ChunkSizes | backend/main.py:172-188 | a longer text gives at least two chunks, every non-final one exactly 4·chunk_size long, and the last non-empty and ending at the text's end |
| Chunker.LastChunk | backend/main.py:183-186 | the last window is non-empty, at most one width long, and is the text's suffix |
| Chunker.ChunksOverlap | backend/main.py:183-188 | each chunk after the first begins with the last 4·overlap_size characters of the one before |
| Chunker.ReassembleFrom | backend/main.py:172-188 | the windows from any start, each after the first minus its overlap, rebuild the text from that start |
| Chunker.ChunksReassemble | backend/main.py:149-191 | the first chunk followed by each later chunk minus its overlap is the original text |
| Chunker.DefaultSizes | backend/main.py:149-191 | with the default 512/51 tokens, texts over 2048 characters begin with a 2048-character chunk, and shorter ones are one chunk |
| Ingestion.BatchesCover | backend/main.py:215-226 | the batches are non-empty, hold at most 96 texts, number ⌈n/96⌉, and concatenate back to the input |
| Ingestion.EmbedBatchesFails | backend/main.py:215-237 | embedding the batches fails iff some batch call fails |
| Ingestion.EmbedBatchesLength | backend/main.py:215-226 | a provider answering each batch with one vector per text yields one vector per input text |
| Ingestion.EmbeddingContract | backend/main.py:205-237 | no key or any failing batch gives `[]`; a well-behaved provider gives one vector per text |
| Ingestion.Embed | backend/main.py:205-237 | the batch loop returns exactly the specified embedding |
| Ingestion.PayloadOf | backend/main.py:287-296 | the payload's content is the segment's first 10000 characters, content_length is the full length, and a missing title or date becomes "" |
| Ingestion.PointOf | backend/main.py:283-296 | a point is built iff the segment has an embedding, with its id, vector and payload |
| Ingestion.StoredSegmentIsFound | backend/main.py:287-296 | a stored segment with enough content is found again with its truncated content, URL, title, date and score |
| Ingestion.CreateCollection | backend/main.py:240-269 | an existing collection is left alone; otherwise a new one of size 1024 with cosine distance is added; every failure leaves the store unchanged; other collections are untouched |
| Ingestion.CreateCollectionIdempotent | backend/main.py:250-255 | creating twice is creating once, and the second call finds it existing |
| Ingestion.SiteUrl | backend/main.py:79-84 | a loc is kept iff its stripped text starts with the base URL, and the stripped text is what is kept |
| Ingestion.SiteUrlsAppend | backend/main.py:79-84 | the filter distributes over concatenation, so order is kept |
| Ingestion.SiteUrlsOnSite | backend/main.py:83 | every kept URL starts with the base URL and is already stripped |
| Ingestion.FilterSitemapUrls | backend/main.py:76-84 | the loop returns exactly the filtered URLs |
| Cleanup.SplitLinesNoBreaks | backend/main.py:134 | no line of the split contains a line break |
| Cleanup.SplitOnDoubleSpaceNoDouble | backend/main.py:135 | no piece of a split on two spaces contains two consecutive spaces |
| Cleanup.SplitOnDoubleSpaceJoins | backend/main.py:135 | joining the pieces with two spaces rebuilds the line |
| Cleanup.StrippedPieceClean | backend/main.py:135 | a stripped piece without breaks or double spaces is clean |
| Cleanup.JoinClean | backend/main.py:136 | joining non-empty clean phrases with single spaces is clean |
| Cleanup.CleanTextIsClean | backend/main.py:134-136 | the cleaned text has no line break, no leading or trailing whitespace and no two consecutive spaces |
| Cleanup.CleanTextOfClean | backend/main.py:134-136 | clean text is its own clean-up |
| Cleanup.CleanTextIdempotent | backend/main.py:134-136 | cleaning twice is cleaning once |
| Rag.RetrieveContext | backend/rag_agent.py:109-124 | without a client it raises; a failing search re-raises; success returns only search results with score ≥ threshold |
| Rag.RetrieveContextIsThresholdSearch | backend/rag_agent.py:114-120 | retrieval is the threshold search: a result is returned iff the search found it with a score ≥ threshold |
| Rag.FallbackAnswersDespiteFailure | backend/rag_agent.py:313-339 | when retrieval finds nothing and the general completion raises, the query is still answered: the apology followed by the disclaimer, with no chunks and no sources |
| Rag.Preview | backend/rag_agent.py:351 | content over 500 characters becomes its first 500 followed by "...", and shorter content is unchanged |
| Rag.ChunkView | backend/rag_agent.py:348-357 | a retrieved chunk keeps the id, URL, score and metadata, with the content previewed |
| Rag.RespondContents | backend/rag_agent.py:334-360 | no chunks give the general answer and the disclaimer, and otherwise the grounded answer or its error; one view per chunk in order; sources are duplicate-free and are exactly the chunks' URLs |
| Rag.ProcessQuery | backend/rag_agent.py:332-360 | a failing retrieval raises its error, and otherwise the response is built from the retrieved chunks |
| Robot.ClosestIsMinimum | frontend-book/docs/module-1-ros2-nervous-system/chapter-3-from-ai-agents-to-robot-bodies/examples/ai_robot_controller.py:56-61 | +∞ iff no range is finite and positive; otherwise the closest is one of the valid ranges and no valid range is smaller |
| Robot.Decide | frontend-book/docs/module-1-ros2-nervous-system/chapter-3-from-ai-agents-to-robot-bodies/examples/ai_robot_controller.py:71-83 | STOPPED iff closer than 0.3, AVOIDING iff from 0.3 to below the safety threshold, EXPLORING otherwise |
| Robot.DecideSafe | frontend-book/docs/module-1-ros2-nervous-system/chapter-3-from-ai-agents-to-robot-bodies/examples/ai_robot_controller.py:71-83 | a nearer obstacle never gives a faster forward command, and no valid range means exploring |
| Robot.AIBasedRobotController.constructor | frontend-book/docs/module-1-ros2-nervous-system/chapter-3-from-ai-agents-to-robot-bodies/examples/ai_robot_controller.py:23-49 | starts with no scan, threshold 0.8, state EXPLORING and nothing published |
| Robot.AIBasedRobotController.ScanCallback | frontend-book/docs/module-1-ros2-nervous-system/chapter-3-from-ai-agents-to-robot-bodies/examples/ai_robot_controller.py:51-61 | stores the scan and sets the closest obstacle to the minimum valid range; state and commands are unchanged |
| Robot.AIBasedRobotController.AiDecisionCallback | frontend-book/docs/module-1-ros2-nervous-system/chapter-3-from-ai-agents-to-robot-bodies/examples/ai_robot_controller.py:63-86 | before any scan nothing changes; afterwards the state is the decision for the closest obstacle and exactly its command is published |

## Left out

- Qdrant, Cohere and OpenAI/OpenRouter SDK calls, HTTP fetching and HTML/XML parsing: these are foreign network calls. They appear only as parameters: the search backend, the embedding provider, completions and sitemap `loc` values.
- Logging, `time.sleep` between retries, `datetime.now` and timestamps: these are side effects or clock reads. Times are inputs in milliseconds.
- `uuid5` point ids: this is hashing. Ids are inputs.
- `generate_answer_with_chat_model` and the Assistants-API answer path: these are LLM calls. The grounded answer is an input result.
- The FastAPI application, startup hooks and the mock agent: these are a web layer.
- `main()` functions, `run_complete_validation_pipeline` and CLI parsing: these are orchestration. Only the pipeline's fallback report is modelled.
- ROS node set-up, subscriptions, timers, publishers and logging in the controller: these are middleware. Published commands are a sequence field.
- Consistency.Analyze: the standard deviation's square root is not modelled. The test `stdev < 0.1` is stated as sample variance `< 0.01`, which is equivalent for non-negative values.
- Text.Lower: lowercasing covers ASCII letters only, with no Unicode case mapping.
- Cleanup.SplitLines: it differs from `splitlines()` in three ways. It splits `\r\n` as two breaks. It gives `[""]` for the empty string, where Python gives `[]`. It adds an empty last line after a final break. All three add only empty lines, which the clean-up's `if chunk` drops, so the cleaned text is the same.
- Rag.RespondContents: `list(set(...))` has no fixed order in Python. The model's Seqs.Dedup keeps each URL at its last occurrence, for example `["a","b","a"]` gives `["b","a"]`. The contract promises only no duplicates and the same set.
- Gateway.Search: a failure creating the Cohere client (backend/retrieval_validation.py:361) happens outside the inner `try` of 364-373. It re-raises unchanged through 417-419 and is not turned into the "Failed to embed query text" ValueError. The search backend has no field for that failure, so the model cannot produce it. Only the embedding call itself fails, which gives the EmbeddingFailed ValueError.
- Ingestion.Embedding: a failure creating the Cohere client is covered only as a failing call. Vector contents are opaque.
- Ingestion.SiteUrl: a `loc` element whose text is None (Python would raise) is not modelled. A missing `loc` element is `None`.
- Validation.ValidateMetadata: the non-dict argument case is not modelled. Metadata is a map of strings, and truthy means non-empty.
- Chunker.ChunkText: it requires either a text of at most 4·chunk_size characters, or chunk_size > 0 with overlap_size < chunk_size. A longer text with overlap_size ≥ chunk_size makes Python loop forever, so there is no result to model. A longer text with chunk_size ≤ 0 and overlap_size < chunk_size terminates in Python through empty or negative-index slices, for example `chunk_text("abc", 0, -1) == [""]`; this case is not modelled. The only caller, backend/main.py:356, uses the defaults 512 and 51, which meet the requirement.
- Robot.AIBasedRobotController.constructor: `closest_obstacle` is unset in Python until the first scan. The model starts it at +∞, and it is read only after a scan.
- The numpy array conversion of the scan is not modelled. Readings are exact reals, +∞, −∞ or NaN. Only a finite, positive reading counts as a valid range, as `not math.isinf(r) and r > 0` requires.

## Findings

| source | as written | input that shows it | evidently intended | confidence | as-written member | corrected member |
|---|---|---|---|---|---|---|
| backend/retrieval_validation.py:805-813 | the per-query fallback `ValidationReport` passes details `{'errors': [...]}` without `passed_count`/`failed_count`, which `__post_init__` (89-90) rejects, so the fallback itself raises | any query whose validation raises, e.g. query "What is ROS 2?" with a failing search | a failed report with zero counts recorded beside the error | not executed | Validation.FailureReportAsWritten | Validation.FailureReport |
