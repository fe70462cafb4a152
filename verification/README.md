# Evaluation service core, modelled in Dafny

The evaluation service is the Python (FastAPI) half of a fraud-operations
platform. It answers semantic searches over four Pinecone namespaces
(`fraud-cases`, `onboarding-knowledge`, `risk-patterns`, `investigations`).
It scores retrieval runs by hit rate, MRR and NDCG. It judges RAG
interactions with TruLens-style feedback functions and keeps them in an
in-memory log. It serves dashboards over that log. It ingests records into
the index, either posted directly or pulled in bulk from the Node backend's
seller list.

This project is a functional model of that core:

- **Explicit state.** The evaluation log is an explicit value that each
  operation takes and returns.
- **Backends as parameters.** The vector index, the LLM provider, the query
  decomposer's LLM reply, the RAGAS outcome, the Node backend's HTTP reply,
  uuids and clocks are all parameters.
- **Faults as results.** A backend fault is a `Result.Err`. Where the
  Python code catches an exception, the model takes the branch the code takes.
  Where it does not catch one, the fault propagates.

Modules follow the source files:

- `PineconeService` (services/pinecone_service.py)
- `QueryDecomposer` (services/query_decomposer.py)
- `SearchRouter` (routers/search.py)
- `RetrievalEval` (routers/retrieval_eval.py)
- `TrulensEvaluator` (services/trulens_evaluator.py)
- `Dashboard` (routers/dashboard.py)
- `EvaluateRouter` (routers/evaluate.py)
- `IngestRouter` (routers/ingest.py)

They rest on small helper modules:

- `Wrappers`: `Option` and `Result`.
- `Json`: JSON values with Python truthiness.
- `Slicing`: Python's `xs[:n]`, including negative `n`.
- `Means`: sum and mean.
- `StableSort`: Python's stable `sort(reverse=True)`. It is given both as an
  insertion sort and as a declarative characterisation, and the two are
  proved to coincide.

Behaviour of the code that the model keeps, and that a casual reading of
the service's documentation would not suggest:

- `search_investigate` has no `try`: one failing namespace fails the whole
  request. It also keeps duplicate ids (`MergeKeepsDuplicates`).
- `search_advanced` keeps the first hit seen for an id, not the
  best-scoring one (`DedupKeepsFirstNotBest`).
- The sorts are stable. In `get_evaluations` and in the leaderboard, tied
  entries keep their insertion order rather than appearing newest-first
  (`ListTieKeepsInsertionOrder`).
- The NDCG ideal gain counts `relevant_ids` with duplicates. NDCG is within
  [0, 1] only when the retrieved ids are distinct. With duplicates it
  exceeds 1 (`NdcgDuplicatesExceedOne`).
- In the bulk ingest, a seller whose `onboardingRiskAssessment` is `null`
  makes `risk.get` raise. That exception is swallowed with the whole seller
  batch, so nothing at all is upserted (`BulkNullRiskUpsertsNothing`).
- The list and history limits (`1 <= limit <= 500`) are enforced by FastAPI.
  They are modelled as an error result rather than as a precondition.

## Model

All source paths are under `backend/evaluation/`.

| member | source | states |
|---|---|---|
| StableSort.Sort | backend/evaluation/routers/search.py:62 | the result is a permutation of the input, ordered by descending key, in which elements with equal keys keep their input order |
| StableSort.StableSortUnique | backend/evaluation/routers/search.py:62 | two descending orderings that agree on the order of every group of equal keys are the same sequence, so a stable sort's output is unique |
| StableSort.SortIsTheStableSort | backend/evaluation/services/trulens_evaluator.py:94 | any stable descending sort of the input equals the modelled sort |
| StableSort.SortKeepsDistinct | backend/evaluation/routers/search.py:102 | sorting never introduces two entries with the same attribute when the input had none |
| Slicing.TakeLength | backend/evaluation/routers/search.py:63 | `xs[:n]` keeps min(n, len) leading items for n >= 0, drops -n trailing items for n < 0, and is always a prefix |
| Means.MeanWithin | backend/evaluation/services/trulens_evaluator.py:124-125 | the mean of an empty list is 0.0; otherwise it lies within any bounds that hold for every element |
| PineconeService.BuildSearchParamsRoundTrip | backend/evaluation/services/pinecone_service.py:56-67 | the index parameters give back every argument of the call, except that an empty filter is dropped; a rerank block is present iff rerank was asked for, and it reranks `text` to `top_k` |
| PineconeService.ProjectHits | backend/evaluation/services/pinecone_service.py:71-81 | one hit per index match, in the index's order |
| PineconeService.ProjectMatchKeepsFields | backend/evaluation/services/pinecone_service.py:77-79 | the metadata never holds `text`, and metadata plus text give back the match's fields |
| PineconeService.ProjectMatchDefaults | backend/evaluation/services/pinecone_service.py:74-76 | a missing id, text or score projects to "", "" or 0.0; present ones are copied |
| PineconeService.Search | backend/evaluation/services/pinecone_service.py:47-81 | succeeds iff the index answers, and then the hits are the projections of the index's matches, one per match in the index's order; an index fault reaches the caller unchanged |
| PineconeService.Upsert | backend/evaluation/services/pinecone_service.py:40-45 | no records gives 0 and sends nothing to the index; otherwise exactly one request carries the given records to the given namespace, and the count is the number of records, or else the index's own error passed through |
| PineconeService.GetStats | backend/evaluation/services/pinecone_service.py:83-93 | the stats name the index, report the total (0 if missing) and one count per reported namespace (0 if missing) |
| PineconeService.GetService | backend/evaluation/services/pinecone_service.py:100-104 | the returned instance is the one stored afterwards, and an existing instance is returned as is |
| PineconeService.GetServiceSingleton | backend/evaluation/services/pinecone_service.py:96-104 | a second call returns the first call's instance and leaves the slot unchanged, whatever new instance it could have built |
| QueryDecomposer.DecomposeFallback | backend/evaluation/services/query_decomposer.py:19-50 | no client, a raised call, a non-list or an empty list all yield exactly [query]; a non-empty list yields its first max_sub_queries items, unchecked |
| QueryDecomposer.DecomposeBounds | backend/evaluation/services/query_decomposer.py:45-50 | with a positive bound the sub-query list is never empty and never longer than the bound |
| QueryDecomposer.DecomposeNonPositiveBound | backend/evaluation/services/query_decomposer.py:19-46 | for every reply and every bound <= 0: an accepted list with bound 0 gives no sub-queries, a negative bound -m drops the list's last m items (none left when m covers it), and every fallback path still gives `[query]` |
| SearchRouter.Search | backend/evaluation/routers/search.py:10-25 | exactly one backend call with the request's own arguments; on success every hit is returned unchanged, in order, under the request's namespace and query |
| SearchRouter.SearchSimilarCases | backend/evaluation/routers/search.py:28-33 | the call goes to `fraud-cases` with rerank forced on |
| SearchRouter.SearchKnowledge | backend/evaluation/routers/search.py:36-40 | the call goes to `onboarding-knowledge` with the caller's rerank flag |
| SearchRouter.SearchPatterns | backend/evaluation/routers/search.py:43-47 | the call goes to `risk-patterns` with the caller's rerank flag |
| SearchRouter.Merge | backend/evaluation/routers/search.py:62-63 | the merged results are ordered by descending score, have min(top_k, total) entries, and are drawn from the collected hits |
| SearchRouter.MergeIsPrefixOfStableSort | backend/evaluation/routers/search.py:62-63 | the merged results are the top_k-prefix of any stable descending sort of the collected hits |
| SearchRouter.MergeKeepsDistinctIds | backend/evaluation/routers/search.py:102-103 | merging hits with distinct ids never yields the same id twice |
| SearchRouter.MergeKeepsDuplicates | backend/evaluation/routers/search.py:55-63 | for example, merging does not de-duplicate: two hits with one id both survive, best first |
| SearchRouter.TagAllNamespace | backend/evaluation/routers/search.py:57-58 | each hit is kept in place, with its namespace recorded in its metadata |
| SearchRouter.CollectInvestigate | backend/evaluation/routers/search.py:55-59 | namespaces are queried in order; on a fault, collecting stops right after the first failing namespace's call, with every earlier namespace having answered, and returns that namespace's error; it succeeds iff every namespace answers, and then the collection is every namespace's hits, tagged, one namespace after the other |
| SearchRouter.TaggedHitsBlock | backend/evaluation/routers/search.py:55-59 | the tagged hits of namespace i occupy one contiguous block, in their own order, starting right after all hits of the namespaces before it, so each hit is kept exactly once |
| SearchRouter.SearchInvestigate | backend/evaluation/routers/search.py:50-69 | the four namespaces are queried in order with top_k and rerank on; a fault fails the request with the first failing namespace's error, after exactly the calls up to that namespace; on success the results are the merge of the in-order tagged collection: score-ordered, min(top_k, total hits) of them, each a namespace-tagged hit |
| SearchRouter.InvestigateResults | backend/evaluation/routers/search.py:55-63 | the results are the leading top_k of any stable descending sort of the tagged hits in namespace order, so equal scores keep namespace order and then rank order |
| SearchRouter.PairsOrder | backend/evaluation/routers/search.py:88-89 | (sub-query i, namespace j) is visited at position i*4+j: sub-queries outer, namespaces inner |
| SearchRouter.TagAllPair | backend/evaluation/routers/search.py:95-96 | each hit is kept in place, annotated with its namespace and sub-query |
| SearchRouter.StreamOrigins | backend/evaluation/routers/search.py:88-99 | every collected hit is an annotated hit that some (sub-query, namespace) call actually returned |
| SearchRouter.StreamAllFailed | backend/evaluation/routers/search.py:98-99 | when every call fails, the faults are skipped and nothing is collected |
| SearchRouter.DedupFirst | backend/evaluation/routers/search.py:85-97 | no kept hit has an already-seen id, and no two kept hits share an id |
| SearchRouter.DedupFirstOrigin | backend/evaluation/routers/search.py:92-97 | each kept hit is the first hit in the stream with its id |
| SearchRouter.DedupFirstComplete | backend/evaluation/routers/search.py:92-97 | the first hit with an id not seen before is always kept |
| SearchRouter.StreamAnnotated | backend/evaluation/routers/search.py:91-97 | every streamed hit is annotated with the namespace and sub-query of a call that returned it |
| SearchRouter.DedupKeepsFirstNotBest | backend/evaluation/routers/search.py:92-97 | for example, a later, better-scoring hit with an already-seen id is dropped |
| SearchRouter.SearchAdvanced | backend/evaluation/routers/search.py:75-111 | one call per (sub-query, namespace) pair, in loop order, with top_k 3 and rerank on; the response always succeeds with namespace `advanced` |
| SearchRouter.AdvancedFirstSeen | backend/evaluation/routers/search.py:85-103 | the results are score-ordered, carry distinct ids, and each is the first hit with its id in the call order |
| SearchRouter.AdvancedResultsOrigin | backend/evaluation/routers/search.py:88-97 | every result was returned by some pair's call, and is annotated with that pair's namespace and sub-query |
| SearchRouter.AdvancedAllFailed | backend/evaluation/routers/search.py:88-111 | if the backend fails every call, the answer is a successful, empty `advanced` response |
| RetrievalEval.CountFound | backend/evaluation/routers/retrieval_eval.py:16-17 | the number of relevant entries found never exceeds the number of relevant entries |
| RetrievalEval.HitRate | backend/evaluation/routers/retrieval_eval.py:10-18 | the hit rate lies in [0, 1], and is 0.0 when either list is empty |
| RetrievalEval.CountFoundExtremes | backend/evaluation/routers/retrieval_eval.py:16-17 | every relevant entry is counted iff all were retrieved; none is counted iff none was retrieved |
| RetrievalEval.HitRateExtremes | backend/evaluation/routers/retrieval_eval.py:10-18 | for non-empty lists, the rate is 1 iff every relevant id was retrieved, and 0 iff none was |
| RetrievalEval.HitRateCountsDuplicates | backend/evaluation/routers/retrieval_eval.py:17-18 | for example, a relevant id listed twice counts twice, in both numerator and denominator |
| RetrievalEval.FirstRelevant | backend/evaluation/routers/retrieval_eval.py:26-28 | the position found is relevant and no earlier position is; none is found only when no position is relevant |
| RetrievalEval.ReciprocalRank | backend/evaluation/routers/retrieval_eval.py:21-29 | the MRR lies in [0, 1], and is 0.0 when either list is empty |
| RetrievalEval.ReciprocalRankCharacterised | backend/evaluation/routers/retrieval_eval.py:26-28 | when the first relevant entry is at position i, the MRR is 1/(i+1) |
| RetrievalEval.ReciprocalRankNoneRelevant | backend/evaluation/routers/retrieval_eval.py:29 | with no relevant entry retrieved, the MRR is 0.0 |
| RetrievalEval.ReciprocalRankExamples | backend/evaluation/routers/retrieval_eval.py:21-29 | a hit at rank 2 gives 0.5, no hit gives 0.0, and a hit at rank 1 gives 1.0 |
| RetrievalEval.DcgNonNegative | backend/evaluation/routers/retrieval_eval.py:39-43 | the discounted gain is never negative |
| RetrievalEval.IdealMonotone | backend/evaluation/routers/retrieval_eval.py:46-49 | the ideal gain strictly grows with the number of ideal positions |
| RetrievalEval.NdcgZeroCases | backend/evaluation/routers/retrieval_eval.py:34-52 | NDCG is non-negative, and is 0.0 for an empty list or k <= 0 |
| RetrievalEval.DcgPrefix | backend/evaluation/routers/retrieval_eval.py:39-43 | the gain of the first n positions depends only on those positions |
| RetrievalEval.NdcgPrefixOnly | backend/evaluation/routers/retrieval_eval.py:39-43 | NDCG@k ignores everything retrieved after position k |
| RetrievalEval.DcgAtMostIdeal | backend/evaluation/routers/retrieval_eval.py:38-49 | the gain is at most the ideal gain of as many positions as there were relevant hits |
| RetrievalEval.CountRelevantIsFound | backend/evaluation/routers/retrieval_eval.py:41-42 | with distinct retrieved ids, the relevant hits in the first n positions are exactly the distinct relevant ids found there |
| RetrievalEval.NdcgAtMostOne | backend/evaluation/routers/retrieval_eval.py:32-53 | with distinct retrieved ids, NDCG lies in [0, 1] |
| RetrievalEval.NdcgDuplicatesExceedOne | backend/evaluation/routers/retrieval_eval.py:32-53 | for example, a relevant id retrieved twice gives NDCG 1 + disc(1) > 1 |
| RetrievalEval.NdcgSingleRelevantFirst | backend/evaluation/routers/retrieval_eval.py:38-53 | one relevant id, retrieved first and only once, gives NDCG 1 for any k >= 1 |
| RetrievalEval.NdcgRelevantLast | backend/evaluation/routers/retrieval_eval.py:38-53 | the only relevant id at position 3 of 3 gives disc(2)/disc(0) |
| RetrievalEval.EffectiveK | backend/evaluation/routers/retrieval_eval.py:59 | a missing or zero k becomes 5; any other k, negative included, is used as given |
| RetrievalEval.EvaluateRetrieval | backend/evaluation/routers/retrieval_eval.py:56-69 | the response echoes the effective k; its hit rate is the request's hit rate, its MRR the request's reciprocal rank, both in [0, 1], and its NDCG is taken at that k |
| RetrievalEval.EvaluateRetrievalMeaning | backend/evaluation/routers/retrieval_eval.py:10-29 | the response's hit rate is 1 iff every relevant id was retrieved and 0 iff none was; its MRR is 1/(i+1) for the first relevant position i, and 0 when nothing retrieved is relevant |
| TrulensEvaluator.ScoreFor | backend/evaluation/services/trulens_evaluator.py:41-45 | a judged metric scores its value with no details; a raising judge scores 0.0 with the exception text |
| TrulensEvaluator.JudgeContexts | backend/evaluation/services/trulens_evaluator.py:49-52 | succeeds iff every context is judged, giving one value per context in order; otherwise it gives the first context's error |
| TrulensEvaluator.ContextRelevanceScore | backend/evaluation/services/trulens_evaluator.py:47-56 | no contexts score 0.0; otherwise the score is the mean over the first five contexts, or 0.0 with details if any of them raises |
| TrulensEvaluator.EvaluateRag | backend/evaluation/services/trulens_evaluator.py:22-86 | with a provider, exactly the returned record is appended; it copies the input and holds four scores in the fixed metric order, each the provider's answer relevance, context relevance over the first five contexts, groundedness or coherence, or 0.0 with the error; the id is `EVAL-` plus the first 12 hex digits; without a provider the call fails and the log is unchanged |
| TrulensEvaluator.FilterUseCase | backend/evaluation/services/trulens_evaluator.py:93 | an entry is kept iff it is in the log and has the requested use case |
| TrulensEvaluator.GetEvaluations | backend/evaluation/services/trulens_evaluator.py:89-94 | the results come from the log, only of the requested use case, newest first, and number at most limit; with a limit that does not cut, they are all the candidates |
| TrulensEvaluator.GetEvaluationsIsStable | backend/evaluation/services/trulens_evaluator.py:94 | the listing is the limit-prefix of any stable newest-first sort of the candidates |
| TrulensEvaluator.ListAfterAppend | backend/evaluation/services/trulens_evaluator.py:85-94 | a record appended later than every other comes first in the listing |
| TrulensEvaluator.ListTieKeepsInsertionOrder | backend/evaluation/services/trulens_evaluator.py:94 | for example, of two records with the same timestamp, the one appended first is listed first |
| TrulensEvaluator.UseCaseOrder | backend/evaluation/services/trulens_evaluator.py:110-115 | each use case of the log appears once, and nothing else appears |
| TrulensEvaluator.AddScoresAppends | backend/evaluation/services/trulens_evaluator.py:117-122 | a record adds to each metric's bucket exactly its scores of that metric, in order |
| TrulensEvaluator.Step | backend/evaluation/services/trulens_evaluator.py:112-122 | one loop iteration keeps the buckets well-formed and leaves every other use case's buckets as they were |
| TrulensEvaluator.StepMatches | backend/evaluation/services/trulens_evaluator.py:112-122 | one loop iteration keeps the accumulator equal to the reference definitions of the log read so far |
| TrulensEvaluator.AccumulateMatchesReference | backend/evaluation/services/trulens_evaluator.py:109-122 | after the loop, every bucket holds exactly the log's scores for its metric (and use case), and use cases appear in order of first appearance |
| TrulensEvaluator.GetAggregateMetrics | backend/evaluation/services/trulens_evaluator.py:97-143 | each headline figure is the mean of all scores of its metric; the total is the log length; one entry per use case, in order of first appearance, with the means over that use case's records and the count of its answer-relevance scores |
| TrulensEvaluator.AggregateOfEmptyLog | backend/evaluation/services/trulens_evaluator.py:99-107 | an empty log gives zero means, zero evaluations and no use cases |
| TrulensEvaluator.AggregateUseCases | backend/evaluation/services/trulens_evaluator.py:133-141 | a use case has an entry iff some logged record has that use case |
| TrulensEvaluator.UseCaseCountIsRecordCount | backend/evaluation/services/trulens_evaluator.py:139 | when every record has one answer-relevance score, a use case's count is its number of records |
| TrulensEvaluator.EvaluateRagRecordCountsOnce | backend/evaluation/services/trulens_evaluator.py:40-71 | every record `evaluate_rag` writes holds exactly one answer-relevance score |
| TrulensEvaluator.AggregateWithinRange | backend/evaluation/services/trulens_evaluator.py:124-128 | the answer-relevance mean stays within any range, containing 0, that holds for every such score |
| Dashboard.GetMetrics | backend/evaluation/routers/dashboard.py:9-12 | always succeeds and carries the aggregate of the whole log unchanged: the total, the four means and the per use case entries |
| Dashboard.QueryLimit | backend/evaluation/routers/dashboard.py:16 | a missing `limit` becomes 50, which passes validation; a given one is used as is |
| Dashboard.MetricNames | backend/evaluation/routers/dashboard.py:22-23 | every score's metric is among the names |
| Dashboard.SetScores | backend/evaluation/routers/dashboard.py:22-23 | the point gains exactly the score metrics as keys; other keys keep their values; a metric named more than once holds its last score |
| Dashboard.HistoryPoint | backend/evaluation/routers/dashboard.py:21-24 | a point holds timestamp, use case and agent plus one key per metric with its last score; a metric named like a base field overwrites it |
| Dashboard.History | backend/evaluation/routers/dashboard.py:15-25 | a limit outside 1..500 is rejected; otherwise there is one point per listed evaluation, newest first, at most limit of them |
| Dashboard.HistoryPointOfFour | backend/evaluation/routers/dashboard.py:21-24 | a record whose scores are the four TruLens metrics in order gives a point with exactly the three base keys and the four metric names, each holding the record's own value |
| Dashboard.HistoryPointOfEvaluateRag | backend/evaluation/routers/dashboard.py:21-24 | the point of a freshly evaluated record has exactly seven keys, holding its time, use case, agent and four scores |
| Dashboard.Leaderboard | backend/evaluation/routers/dashboard.py:28-34 | the per-use-case entries, sorted by descending answer relevance; ties keep their first-appearance order |
| Dashboard.LeaderboardCoversUseCases | backend/evaluation/routers/dashboard.py:31-34 | a use case has a leaderboard entry iff it occurs in the log, and no use case has two |
| Dashboard.ListEntry | backend/evaluation/routers/dashboard.py:48-56 | the query and response become their first 200 characters; every other field is copied |
| Dashboard.SummaryKeepsShortTexts | backend/evaluation/routers/dashboard.py:50-51 | texts of at most 200 characters are listed whole |
| Dashboard.ListEvaluations | backend/evaluation/routers/dashboard.py:37-59 | a limit outside 1..500 is rejected; otherwise one summary per listed evaluation, only of the requested use case, with non-increasing timestamps |
| EvaluateRouter.RagasScores | backend/evaluation/routers/evaluate.py:31-44 | a RAGAS fault contributes no scores; otherwise one `ragas_`-prefixed score per RAGAS metric, in order |
| EvaluateRouter.EvaluateSingle | backend/evaluation/routers/evaluate.py:17-52 | succeeds iff the TruLens provider exists; the response lists the four TruLens scores first and then the RAGAS ones, and carries the logged record's id, the request's use case and the evaluation time; exactly that record is logged |
| EvaluateRouter.EvaluateSingleIgnoresLog | backend/evaluation/routers/evaluate.py:20-28 | the response does not depend on what was logged before |
| EvaluateRouter.EvaluateSingleScoreNames | backend/evaluation/routers/evaluate.py:42-44 | the first four scores follow the TruLens metric order; every later one is a `ragas_` metric without details |
| EvaluateRouter.ItemResponse | backend/evaluation/routers/evaluate.py:59-72 | an item's entry succeeds iff its evaluation can run; a failed item gives the empty failure marker with its use case |
| EvaluateRouter.EvaluateBatch | backend/evaluation/routers/evaluate.py:55-73 | the batch always succeeds with one entry per item, in order; each entry is that item's own outcome; the log gains the successful items' records in order |
| EvaluateRouter.BatchIsolation | backend/evaluation/routers/evaluate.py:59-72 | inserting a failing item only inserts its failure marker at its position; every other entry and the log are as without it |
| EvaluateRouter.LoggedAppend | backend/evaluation/routers/evaluate.py:59-72 | the log of a batch grows item by item: one more item adds exactly what that item logs on its own |
| EvaluateRouter.LoggedSkipsFailure | backend/evaluation/routers/evaluate.py:63-72 | a failing item logs nothing |
| EvaluateRouter.BatchAllFailed | backend/evaluation/routers/evaluate.py:55-73 | a batch of failing items still succeeds, with one failure marker per item and an unchanged log |
| IngestRouter.ToFieldsRoundTrip | backend/evaluation/routers/ingest.py:20-36 | reading a built record back gives the posted record with the generated `KB-` id when none was given, and with empty optional strings dropped; a zero risk score is kept |
| IngestRouter.ToFieldsReadsOptional | backend/evaluation/routers/ingest.py:21-36 | each optional field reads back from the built record as the posted string, or as absent when it was missing or empty |
| IngestRouter.ToFieldsKeys | backend/evaluation/routers/ingest.py:20-36 | a built record always has `_id` and `text`, uses only the known keys, and has `riskScore` iff one was posted |
| IngestRouter.IngestRecords | backend/evaluation/routers/ingest.py:14-40 | no records gives count 0 and no upsert; otherwise one upsert sends, to the requested namespace, the index record of each posted record in order; the request succeeds iff the index accepts, with the number of posted records |
| IngestRouter.IngestReadsBack | backend/evaluation/routers/ingest.py:18-39 | each posted record reads back, from its position in the upsert, as itself with its id (or `KB-` id) and with empty optional strings dropped |
| IngestRouter.SliceItems | backend/evaluation/routers/ingest.py:68-82 | a slice `[:n]` with n >= 0 has at most n items |
| IngestRouter.RiskParts | backend/evaluation/routers/ingest.py:77-82 | the score and decision lines ("N/A" when missing), then, when the factors are truthy, one line joining the first five factors in order: the first min(5, n) items of a list, or the first five characters of a string, each shown; a truthy factor value that is neither a list nor a string raises |
| IngestRouter.SellerTextParts | backend/evaluation/routers/ingest.py:69-82 | the five labelled seller lines ("Unknown" when missing), followed by the risk lines exactly when the risk assessment is non-empty; only the risk lines can fail |
| IngestRouter.SellerText | backend/evaluation/routers/ingest.py:69-86 | the text exists iff its parts do; it is the five seller lines joined by ". ", followed by ". " and the risk lines joined by ". " when the risk assessment is non-empty, so it starts with the seller's name line |
| IngestRouter.JoinConcat | backend/evaluation/routers/ingest.py:86 | joining two non-empty runs of parts is joining each run and putting the separator between them |
| IngestRouter.SellerFields | backend/evaluation/routers/ingest.py:84-94 | exactly nine keys: the seller's id (or `SELLER-` plus 8 hex digits), the text, category, outcome, seller id and country with their empty-string defaults, the risk score (0 if missing), domain `onboarding` and source `bulk-ingest` |
| IngestRouter.SellerRecord | backend/evaluation/routers/ingest.py:69-94 | a seller record exists only for a dictionary seller, and carries its id, domain and source; a risk assessment that is not a dictionary makes it fail |
| IngestRouter.CollectAll | backend/evaluation/routers/ingest.py:68-94 | the collection succeeds iff every step does, and then holds every step's value in order |
| IngestRouter.SellerRecords | backend/evaluation/routers/ingest.py:68-94 | one record per seller, in order, iff every seller's record can be built |
| IngestRouter.Sellers | backend/evaluation/routers/ingest.py:66-68 | at most 100 sellers are taken |
| IngestRouter.BulkRecords | backend/evaluation/routers/ingest.py:61-94 | the bulk builds at most 100 records |
| IngestRouter.BulkIngest | backend/evaluation/routers/ingest.py:43-102 | always succeeds with namespace `all` and at most 100; it sends one upsert, of exactly the built seller records and to `onboarding-knowledge`, iff the records could be built and there are some; a positive count means the fetch answered 200, the index accepted, and the count is the number of records sent |
| IngestRouter.BulkCountsSellers | backend/evaluation/routers/ingest.py:61-97 | with a 200 reply of well-formed sellers and a working index, the count is min(sellers, 100) |
| IngestRouter.BulkUpsertsSellers | backend/evaluation/routers/ingest.py:61-96 | with a 200 reply of well-formed sellers, the one upsert goes to `onboarding-knowledge` and holds each of the first 100 sellers' records, in order |
| IngestRouter.BulkNullRiskUpsertsNothing | backend/evaluation/routers/ingest.py:76-100 | one seller with a null risk assessment among the first 100 makes the whole bulk upsert nothing |
| IngestRouter.BulkFailuresGiveZero | backend/evaluation/routers/ingest.py:61-102 | an unreachable backend, a non-200 reply or a failing index gives a successful response with count 0 |

## Left out

- Pinecone, Anthropic, TruLens, RAGAS and httpx calls are not modelled as code. Each is a parameter: an index function, an LLM reply, a provider of judgements, a RAGAS outcome, or an HTTP reply.
- The health fetch in `bulk_ingest_from_node` (routers/ingest.py:50-58) only prints, so it has no effect on the result and is left out.
- `uuid.uuid4()` and `datetime.now()` are supplied as parameters. Timestamps are natural numbers rather than ISO-8601 strings; strings of one fixed format compare as the instants do. A history point holds the timestamp as an integer.
- `round(…, 4)` in `get_aggregate_metrics` is not modelled. The means are exact reals.
- TrulensEvaluator.GetAggregateMetrics: its means are the exact, unrounded means, because `round` to four places is not modelled.
- Dashboard.Leaderboard: it sorts on the unrounded answer-relevance means. The source sorts the values rounded to four places, so use cases whose means differ only after the fourth place tie there and keep first-appearance order, while the model orders them by the exact mean.
- RetrievalEval.Ndcg: `1/log2(i+2)` is an uninterpreted discount `disc` with disc(0) = 1, positive and strictly decreasing. Floating-point rounding is not modelled.
- Scores are reals, not IEEE doubles. `float(...)` conversion faults of a judge's value are folded into `Raised`.
- Groundedness's tuple-or-float handling (services/trulens_evaluator.py:61) is folded into the provider's judgement of that metric.
- The context text joined by `"\n---\n"` only feeds the groundedness judge and is not modelled.
- `evaluate_with_ragas` (services/ragas_evaluator.py) is an outcome parameter. Its internals are not part of this model.
- The LLM request in `decompose_query` is not modelled: the prompt, model name and temperature. Only its parsed reply matters.
- Python's `str()` of non-string values in the bulk text is a formatting parameter `fmt`.
- A non-string `text` field of an index match projects to "". Python would pass the value through, and pydantic would then reject it.
- Pydantic schema validation (models/schemas.py) is not modelled, except the `1 <= limit <= 500` bound of the dashboard endpoints and their default limit of 50 (`Dashboard.QueryLimit`); the handlers receive the resolved limit.
- `config.py`, `main.py` (app wiring, CORS) and `seed/seed_pinecone.py` are not part of this model.
- Index creation in `PineconeService.__init__` is left out; the singleton hands out an abstract handle.
- Concurrency between requests, and the background-task parameter of the batch endpoint, are left out.
