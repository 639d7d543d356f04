# CelerGraph core, modelled in Dafny

CelerGraph answers questions about a code base with retrieval over a code
knowledge graph. A Python or Tree-sitter extractor turns source files into
a knowledge graph of files, modules, classes, functions, comments and
imports. An importer loads that graph into Neo4j in batches. Node texts
are embedded into a vector collection. At question time the system:

- expands the graph around the nodes the vector search returns;
- builds a context of node and chunk sections;
- puts that context into a prompt with the question;
- asks a language model;
- normalises the model's `[node:…]`/`[chunk:…]` citations into a
  deduplicated reference list.

Semantic caches keep earlier answers. A sliding-window rate limiter guards
the HTTP endpoints. A small dependency-injection container wires the
services together.

The project models each of those pieces in its own module. The model takes
the form of the source:

- Pure string and list logic is written as functions and lemmas:
  - `Citations`: `format_response`.
  - `Context`: context and prompt building, greeting and refusal detection.
  - `Retrieval`: graph expansion, chunk retrieval, the vector-store helpers.
  - `TsExtract`: the Tree-sitter extractor.
- Objects that update their own fields are classes whose methods are
  proved against specification functions of their state:
  - `SemanticCache`, `Services.SemanticCacheProvider`;
  - `RateLimit.RateLimiter` and its middleware;
  - `Container.DIContainer`;
  - `LoadNeo.Neo4jImporter`;
  - `EmbedNodes.NodeCollection`;
  - `KgGraph.KG` and its import resolver;
  - the LibCST visitor `PyExtract.PyExtract`;
  - the `Solid.GraphRagSystem` pipeline.
- `Engine` models the question-answering engine's `answer_question` and
  `stream_answer` over those pieces.
- `Common` holds the shared `Result`/`Option` types and ASCII string
  helpers.

Everything the system gets from outside is a parameter of the operation
that uses it. That covers:

- the language model, the embedding model, the vector store's replies
  and Neo4j's query results;
- the clock, identifiers and the file system.

Each lemma therefore holds for every possible answer of those
collaborators.

## Model

| member | source | states |
|---|---|---|
| Citations.FindTagsAreTags | core/graphrag.py:391 | every string the model of `re.findall(r'\[(?:node\|chunk):[^\]]+\]', s)` returns is a well-formed citation tag |
| Citations.TagLenOfTag | core/graphrag.py:391 | a citation tag followed by any text is matched exactly, to its closing bracket |
| Citations.NoOpeningNoTags | core/graphrag.py:387-393 | text with no `[node:` and no `[chunk:` yields no citations |
| Citations.StripKeepsTags | core/graphrag.py:400 | stripping the body of surrounding whitespace keeps exactly its citations |
| Citations.Dedup | core/graphrag.py:380 | `list(dict.fromkeys(s))`: the same elements as `s`, without duplicates, no longer than `s` |
| Citations.DedupFirstSeenOrder | core/graphrag.py:401 | the deduplicated list keeps elements in the order of their first occurrence |
| Citations.DedupIdempotent | core/graphrag.py:401 | deduplicating twice is deduplicating once |
| Citations.DedupOfDistinct | core/graphrag.py:401 | a list without duplicates is unchanged |
| Citations.DedupAppendSeen | core/graphrag.py:401 | appending elements already present does not change the deduplicated list |
| Citations.LinesTagsAppend | core/graphrag.py:383-396 | citations are collected line by line, in line order |
| Citations.LinesClosedTags | core/graphrag.py:383-396 | when no line ends inside an open citation, the per-line collection finds exactly the citations of the whole answer |
| Citations.FormatResponse | core/graphrag.py:357-409 | the loop over lines computes `format_response`'s (answer, references) pair |
| Citations.FormatWithMarker | core/graphrag.py:376-380 | an answer that already has a References marker is returned unchanged, with its citations deduplicated |
| Citations.FormatReferencesAreUniqueTags | core/graphrag.py:378-406 | the returned references are well-formed tags and contain no duplicates |
| Citations.FormatWithoutCitations | core/graphrag.py:409 | without a marker and without any citation the answer is returned unchanged with no references |
| Citations.BulletsTags | core/graphrag.py:402 | the bullet list of references contains exactly those references as citations |
| Citations.Bullets | core/graphrag.py:402 | one "- tag" bullet per reference |
| Citations.FormattedHasMarker | core/graphrag.py:403 | the reformatted answer carries the "References:" marker |
| Citations.FormattedTags | core/graphrag.py:403 | the citations of the reformatted answer are those of the body followed by the references |
| Citations.FormatIdempotent | core/graphrag.py:357-409 | when every line's citations are closed, formatting a formatted answer changes neither the answer nor the references |
| Citations.FormatNotIdempotentOnUnclosedOpening | core/graphrag.py:383-406 | an answer ending in an unclosed `[node:` opening gets different references when formatted a second time |
| Citations.UnclosedFirstPass | core/graphrag.py:383-406 | an answer ending in an unclosed `[node:` opening is reformatted with the earlier tag as its only reference |
| Context.Take | core/graphrag.py:260-266 | `xs[:8]`: the first min(len, 8) elements |
| Context.BuildContext | core/graphrag.py:240-274 | the loops build the newline-joined parts list: the nodes section, the chunks section, then the neighbours section |
| Context.SectionLinesShape | core/graphrag.py:260-268 | each entry contributes its tag-and-score line, its text and an empty line |
| Context.NeighborTags | core/graphrag.py:272 | one `[neighbor:id]` tag per neighbour, in order |
| Context.ContextSections | core/graphrag.py:258-274 | the parts list starts with the nodes header, then the node lines, the chunks header, the chunk lines, and the neighbours header only when there are neighbours |
| Context.ContextLayout | core/graphrag.py:258-274 | the part count is 2 + 3·min(nodes, 8) + 3·min(chunks, 8), plus 2 with neighbours; the headers sit at the computed positions |
| Context.ContextNodeLines | core/graphrag.py:260-263 | the k-th node (k < 8) has its tag line and its text at positions 1+3k and 2+3k |
| Context.ContextChunkLines | core/graphrag.py:266-269 | the k-th chunk (k < 8) has its tag line and its text after the node section |
| Context.ContextIgnoresExtraEntries | core/graphrag.py:260-266 | entries beyond the eighth node or chunk do not affect the context |
| Context.BuildPrompt | core/graphrag.py:279-300 | the prompt is the template head, the context, the middle, the question and the tail |
| Context.BuildPromptInjective | core/graphrag.py:279-300 | two prompts with equally long contexts are equal only for equal contexts and questions |
| Context.IsGreeting | core/graphrag.py:412-418 | true exactly when some greeting phrase occurs in the stripped, lower-cased question |
| Context.QuestionWithThisIsGreeting | core/graphrag.py:412-418 | any question containing "this" is classified as a greeting, because "this" contains "hi" |
| Context.GreetingSurvivesExtension | core/graphrag.py:412-418 | appending non-space text to a greeting keeps it a greeting |
| Context.HasNegativeMarker | core/graphrag.py:563-570 | true exactly when one of the four negative markers occurs in the text |
| Context.PromptRefusalIsNegative | core/graphrag.py:563-570 | the refusal sentence the prompt prescribes (core/graphrag.py line 288) is recognised as a negative marker |
| Engine.Direct | core/graphrag.py:437-463 | the direct LLM answer, or an LLMError whose message is prefixed "Direct LLM answer failed: " |
| Engine.Ids | core/graphrag.py:313-315 | the ids of the retrieved nodes, in order, for graph expansion |
| Engine.Ground | core/graphrag.py:514-534 | the parallel retrieval of nodes and chunks, the graph expansion of the retrieved node ids and the context built from them, as the specification of those stages; the first failing stage's error otherwise |
| Engine.Rag | core/graphrag.py:514-548 | the RAG pipeline computes retrieval, expansion, context and generation as its specification |
| Engine.AverageWithinBounds | core/graphrag.py:519-524 | the mean similarity of the chunk and node scores lies between any lower and upper bound of the scores (it is 0.0 for no scores) |
| Engine.RagStopsAtFirstFailure | core/graphrag.py:514-548 | a node-retrieval failure, or a chunk-retrieval failure after node retrieval succeeded, is the pipeline's error |
| Engine.CheckCache | core/graphrag.py:502-506 | with the cache bypassed no lookup happens |
| Engine.CheckCacheFailsWithChroma | core/graphrag.py:502-503 | a cache check fails only when not bypassed and only with a Chroma or embedding error |
| Engine.DraftedFacts | core/graphrag.py:558-570 | the draft holds the context, the formatted answer with unique tag references, and the negative-marker test |
| Engine.RunFinish | core/graphrag.py:570-590 | falls back on a negative answer (keeping the context, no details), otherwise stores (unless bypassed) and returns the formatted answer with its context, the retrieved nodes and chunks, and the metrics |
| Engine.RunTry | core/graphrag.py:493-590 | the try block of `answer_question` as its specification, the success reply carrying context, retrieved context and metrics |
| Engine.AnswerQuestion | core/graphrag.py:466-601 | reply and cache contents afterwards are those of the specification, including both fallbacks |
| Engine.EmptyQuestionIsFixed | core/graphrag.py:489-491 | an empty question gets the fixed reply, whatever the backends do, and the cache is unchanged |
| Engine.GreetingAnswersDirectly | core/graphrag.py:497-499 | a greeting is answered directly without references and without touching the cache |
| Engine.CacheHitIsVerbatim | core/graphrag.py:503-506 | a cache hit is returned verbatim and nothing is stored |
| Engine.NegativeAnswerFallsBack | core/graphrag.py:572-574 | a RAG answer with a negative marker is replaced by the direct answer, with the context, no references, nothing stored |
| Engine.FinishStoresOnlyClean | core/graphrag.py:576-590 | the cache changes only for a non-bypassed, non-negative answer, and then by exactly that entry |
| Engine.StoreOnlyCleanRagAnswers | core/graphrag.py:466-601 | the only way `answer_question` changes the cache is storing the formatted RAG answer it returns |
| Engine.CleanRagAnswerIsStored | core/graphrag.py:576-590 | a clean RAG answer, not bypassed, is returned and stored under the question |
| Engine.ContextRepliesComeFromDraft | core/graphrag.py:574-590 | a reply carrying a context comes from the RAG draft, and one carrying retrieved context and metrics is the draft's clean answer with its retrieval |
| Engine.DraftRetrieved | core/graphrag.py:514-516 | a successful draft holds the question and exactly the node and chunk hits the two retrievals returned |
| Engine.RetrievedContextIsRetrieval | core/graphrag.py:580-590 | a reply with `retrieved_context` also has a context; that retrieval is the question with the node and chunk hits, and the metrics are the two latencies and the mean similarity of the chunk scores followed by the node scores |
| Engine.RagReferencesAreUniqueTags | core/graphrag.py:558-583 | references of a RAG reply are unique, well-formed citation tags |
| Engine.BackendErrorFallsBack | core/graphrag.py:591-594 | a Chroma or embedding error falls back on the direct answer, and its failure propagates as LLMError |
| Engine.OtherErrorFallsBack | core/graphrag.py:595-601 | any other error falls back on the direct answer; if that also fails, LLMError "Both RAG and direct LLM failed" |
| Engine.LookupFailureFallsBack | core/graphrag.py:591-594 | a failing cache lookup (line 503) falls back on the direct answer |
| Engine.NodeRetrievalFailureFallsBack | core/graphrag.py:591-594 | a node-retrieval failure (line 514) falls back on the direct answer, cache unchanged |
| Engine.GreetingDoubleFailure | core/graphrag.py:595-601 | a greeting (lines 497-499) whose direct call fails twice raises the combined LLMError |
| Engine.Forward | core/graphrag.py:643-648 | every fragment is yielded in order and the final text is their concatenation |
| Engine.RunStreamFinish | core/graphrag.py:650-668 | falls back on a negative marker, otherwise formats and stores unless bypassed |
| Engine.StreamChain | core/graphrag.py:339-346 | the streamed chain runs the same retrieval, expansion and context as `answer_question` and streams the LLM's answer to the prompt; a failure before the prompt is raised before any fragment |
| Engine.RunStreamTry | core/graphrag.py:612-668 | the try block of `stream_answer` as its specification, its fragments coming from the streamed chain |
| Engine.StreamAnswer | core/graphrag.py:608-682 | the yielded fragments, raised error and cache afterwards are those of the specification |
| Engine.StreamShortCircuitsYieldOne | core/graphrag.py:609-624 | empty question, greeting and cache hit each yield exactly one fragment and leave the cache unchanged |
| Engine.StreamForwardsFragments | core/graphrag.py:643-647 | the streamed fragments are a prefix of what is yielded |
| Engine.StreamNegativeYieldsOneMore | core/graphrag.py:658-664 | a negative stream yields its fragments followed by the direct answer |
| Engine.StreamStoresOnlyCleanAnswers | core/graphrag.py:666-668 | the stream changes the cache only by storing the formatted complete, non-negative, non-bypassed answer |
| Engine.StreamCacheIsTryCache | core/graphrag.py:612-682 | a non-empty question's stream leaves the cache as its `try` block leaves it: the `except` branches never write it |
| Engine.StreamFinishStores | core/graphrag.py:658-668 | the end of the `try` block changes the cache only when the answer is not negative, the cache is not bypassed and embedding succeeds, and then stores the formatted answer with its references under the question |
| Engine.StreamRaisesOnlyFallbackErrors | core/graphrag.py:669-682 | the only error that escapes the stream is a direct-answer LLMError |
| Engine.StreamCleanEnd | core/graphrag.py:658-668 | after a complete stream without a negative marker the cache is written with the formatted text unless bypassed, and when that succeeds the fragments are all that is yielded |
| Engine.AnswerCleanEnd | core/graphrag.py:576-590 | after a draft without a negative marker the cache is written with it unless bypassed, and when that succeeds the reply is the draft with context, retrieved context and metrics |
| Engine.StreamAgreesWithAnswer | core/graphrag.py:608-682 | when the LLM's generated answer is the concatenation of its streamed fragments, a stream with no failure and no negative marker yields those fragments, and `answer_question` returns their formatted text and references, with the same cache afterwards |
| Engine.StreamDoubleFailureYieldsError | core/graphrag.py:675-682 | when RAG and the fallback both fail, the stream yields an "Error: Both RAG and direct LLM failed" fragment instead of raising |
| Retrieval.ZipRows | core/retrieval.py:77-86 | one hit per zipped row, similarity 1 − distance, as many hits as the shortest column |
| Retrieval.MapRows | core/retrieval.py:77-86 | the loop builds exactly the zipped rows |
| Retrieval.SortDesc | core/retrieval.py:88 | a permutation of the hits, sorted by descending similarity |
| Retrieval.InsertDesc | core/retrieval.py:88 | insertion keeps the order descending and adds exactly one element |
| Retrieval.SortDescOfSorted | core/retrieval.py:88 | the sort is stable on already-sorted input |
| Retrieval.WrapChroma | core/retrieval.py:103-107 | a ChromaError passes through; any other error becomes ChromaError "Retrieval error: …" |
| Retrieval.RetrieveSimilarNodes | core/retrieval.py:41-107 | `retrieve_similar_nodes` as its specification, with every error path |
| Retrieval.EmptyQueryReturnsEmpty | core/retrieval.py:43-45 | a falsy query returns no nodes, before any validation or backend call |
| Retrieval.ValidationErrors | core/retrieval.py:47-51 | a non-string query or top_k outside 1..100 raises ValueError |
| Retrieval.BackendErrorsAreChroma | core/retrieval.py:53-107 | every failure after validation is a ChromaError |
| Retrieval.SimilarNodesSorted | core/retrieval.py:77-88 | the returned nodes are the zipped rows, permuted into descending similarity |
| Retrieval.ZeroRowsIsChromaError | core/retrieval.py:73-107 | ids present but no documents: the average divides by zero and surfaces as ChromaError |
| Retrieval.WrapChromaOrEmbedding | core/graphrag.py:227-232 | Chroma and embedding errors pass through; anything else becomes ChromaError "Code chunk retrieval failed: …" |
| Retrieval.RetrieveCodeChunks | core/graphrag.py:159-232 | `retrieve_code_chunks` as its specification |
| Retrieval.CodeChunksInReplyOrder | core/graphrag.py:196-208 | chunks keep the reply's order (no sort); failures are Chroma or embedding errors |
| Retrieval.ExpandGraph | core/graphrag.py:117-156 | disabled gives []; no driver gives Neo4jError; otherwise the query's neighbours or a Neo4jError |
| Retrieval.ExpansionDisabled | core/graphrag.py:134-136 | with USE_NEO4J off, expansion returns [] whatever the driver |
| SemanticCache.Clean | core/semantic_cache.py:77 | every character outside `[a-z0-9 ]` becomes a space; the length is kept |
| SemanticCache.Tokens | core/semantic_cache.py:76-81 | every token is non-empty, not a stop word, and made only of `[a-z0-9]` |
| SemanticCache.SingleWordTokens | core/semantic_cache.py:76-81 | a single lower-case word that is not a stop word is its own token set |
| SemanticCache.TokensIgnoreCase | core/semantic_cache.py:77 | tokens are insensitive to letter case |
| SemanticCache.Overlap | core/semantic_cache.py:137-141 | the Jaccard overlap lies in [0, 1] |
| SemanticCache.LexicalMatchIsOverlapBound | core/semantic_cache.py:137-143 | the integer test 10·∣a∩b∣ ≥ 3·∣a∪b∣ on non-empty sets is exactly overlap ≥ 0.3 |
| SemanticCache.DisjointNeverMatches | core/semantic_cache.py:137-143 | token sets with nothing in common never pass the lexical guard |
| SemanticCache.SameTokensMatch | core/semantic_cache.py:137-143 | a non-empty token set always passes the guard against itself |
| SemanticCache.SemanticCache.constructor | core/semantic_cache.py:53-68 | the cache keeps the given threshold and the collection's entries |
| SemanticCache.NewCache | core/semantic_cache.py:19-74 | a threshold outside [0, 1] raises ValueError; a collection failure raises ChromaError "Cache collection error: …", the message `get_cache_collection` gives it, which `__init__` re-raises unchanged |
| SemanticCache.SemanticCache.Lookup | core/semantic_cache.py:83-156 | `lookup` as its specification |
| SemanticCache.SemanticCache.Verdict | core/semantic_cache.py:123-152 | the verdict on the nearest row is its specification: similarity one minus the distance, references decoded or empty, a hit only at or above the threshold with enough word overlap |
| SemanticCache.EmptyQuestionMisses | core/semantic_cache.py:99-101 | an empty question is a miss without embedding |
| SemanticCache.LookupOutcomes | core/semantic_cache.py:99-156 | failure exactly when embedding or query fails (ChromaError); hit exactly when similarity ≥ threshold and overlap ≥ 0.3, returning the stored question, answer and similarity |
| SemanticCache.DisjointTokensMiss | core/semantic_cache.py:135-153 | a cached question sharing no token never hits, however close the embedding |
| SemanticCache.SemanticCache.Store | core/semantic_cache.py:158-189 | `store` as its specification |
| SemanticCache.StoreUpserts | core/semantic_cache.py:158-189 | empty question or answer: nothing changes; a failure is a ChromaError with the contents unchanged; success upserts exactly the entry under the question |
| SemanticCache.StoreTwiceKeepsLast | core/semantic_cache.py:180-185 | storing the same question twice keeps only the second answer |
| SemanticCache.StoreThenLookup | core/semantic_cache.py:83-189 | after a store, a lookup returning that entry hits with the stored answer and references exactly when the question has a token |
| SemanticCache.SemanticCache.Clear | core/semantic_cache.py:191-215 | succeeds exactly when connecting and recreating succeed; the entries are emptied only when connecting and dropping succeed, so after a swallowed drop failure the reopened collection keeps them; a failure is ChromaError "Cache clear error: …" |
| SemanticCache.ClearAsWrittenKeepsEntries | core/semantic_cache.py:202-210 | as written, a failed drop on a non-empty collection leaves every entry in place while `clear` reports success |
| SemanticCache.ClearIntended | core/semantic_cache.py:191-215 | the corrected clear succeeds only when it leaves the cache empty, and exactly when connecting and recreating succeed and the drop succeeds or had nothing to drop |
| SemanticCache.ClearIntendedAgrees | core/semantic_cache.py:202-210 | the corrected clear agrees with the code whenever the drop succeeds or the collection is empty |
| Services.ThresholdOf | core/services.py:68 | the configured threshold, or 0.9 when the configuration has none |
| Services.SemanticCacheProvider.constructor | core/services.py:33-50 | the provider keeps the configured threshold and the collection's items |
| Services.SemanticCacheProvider.Lookup | core/services.py:53-83 | `lookup` as its specification |
| Services.ProviderHitRule | core/services.py:64-79 | a hit exactly when embedding and query succeed, a row exists, similarity ≥ threshold and the references JSON parses |
| Services.ProviderFailuresMiss | core/services.py:64-83 | every failure, and an empty reply, is swallowed into a miss |
| Services.MissingReferencesReadEmpty | core/services.py:77 | a row without references metadata reads as an empty reference list |
| Services.SemanticCacheProvider.Store | core/services.py:86-106 | `store` as its specification |
| Services.ProviderStoreAppends | core/services.py:90-103 | a successful store appends exactly one item with a fresh id, the question, the answer and the dumped references (or "[]") |
| Services.ProviderStoreTwiceKeepsBoth | core/services.py:92-103 | storing the same question twice keeps two items (add, not upsert) |
| Services.ProviderStoreThenLookup | core/services.py:53-103 | a stored item read back at distance 0 is a hit with the stored answer and references |
| Services.ProviderIgnoresWording | core/services.py:73-78 | the provider hits even when the questions share no token |
| Services.SemanticCacheMissesDisjoint | core/semantic_cache.py:135-153 | the same row is a miss for the module-level semantic cache, which has the lexical guard |
| Services.LoadDocuments | core/services.py:146-164 | a dict with "nodes" gives its nodes, a list is kept, anything else is wrapped in a one-element list; a read or parse failure propagates |
| Services.LoadDocumentsIsList | core/services.py:153-158 | without a "nodes" dict the result is a list, and loading it again changes nothing |
| Services.ProcessDocument | core/services.py:167-170 | the document is returned unchanged |
| Solid.FirstRow | core/graphrag_solid.py:151-153 | `results.get(key, [[]])[0]`: the first list, [] when the key is absent, IndexError when the outer list is empty |
| Solid.ProcessQueryResults | core/graphrag_solid.py:136-164 | the loop computes `_process_query_results` as its specification, including the KeyError and IndexError paths |
| Solid.ProcessEmptyResults | core/graphrag_solid.py:147-148 | no results or no ids give an empty list |
| Solid.ProcessSortsZippedRows | core/graphrag_solid.py:150-164 | the processed rows are the zipped rows, permuted into descending similarity |
| Solid.FormatTextRules | core/graphrag_solid.py:229-262 | text with a marker or with no citations is unchanged; otherwise the stripped body is followed by one bullet per distinct tag |
| Solid.GroqGenerate | core/services.py:124-131 | the LLM's text, or an error "LLM generation failed: …" |
| Solid.NodeIds | core/graphrag_solid.py:124 | the node ids, in order |
| Solid.GraphRagSystem.constructor | core/graphrag_solid.py:29-47 | the system keeps the Neo4j switch and the cache provider |
| Solid.GraphRagSystem.GenerateAnswer | core/graphrag_solid.py:99-134 | embedding, both queries, optional expansion, context, prompt and generation, stopping at the first failure |
| Solid.GraphRagSystem.AnswerQuestion | core/graphrag_solid.py:63-97 | reply and provider items afterwards are those of the specification |
| Solid.SolidEmptyQuestion | core/graphrag_solid.py:72-74 | an empty question gets the fixed reply whatever the backends do |
| Solid.SolidCacheHit | core/graphrag_solid.py:80-83 | a hit returns the cached answer and nothing else runs |
| Solid.SolidMissStores | core/graphrag_solid.py:86-92 | a miss returns the formatted answer and stores it without references |
| Solid.SolidErrors | core/graphrag_solid.py:93-97 | Chroma, embedding and LLM errors propagate; any other error becomes GraphRAGError "Answer generation failed: …"; nothing is stored |
| Solid.GroqFailureIsWrapped | core/graphrag_solid.py:95-97 | an LLM provider failure surfaces doubly wrapped as GraphRAGError |
| Solid.NeighborsOnlyWithNeo4j | core/graphrag_solid.py:122-125 | with Neo4j off the expansion backend is never consulted |
| Solid.NeighborsFromNodeIds | core/graphrag_solid.py:123-125 | with Neo4j on, expansion runs on the processed node ids and its failure is the answer's failure |
| RateLimit.RateLimiter.constructor | core/ratelimit.py:10-11 | a new limiter has no queues |
| RateLimit.RateLimiter.Allow | core/ratelimit.py:13-24 | the answer, the remaining count and the key's new queue are those of the specification; no other key changes |
| RateLimit.EvictDropsStalePrefix | core/ratelimit.py:19-20 | eviction removes a prefix of the queue |
| RateLimit.EvictLeavesOnlyFresh | core/ratelimit.py:19-20 | on a time-ordered queue, no stale timestamp survives eviction |
| RateLimit.AllowKeepsBound | core/ratelimit.py:19-24 | a queue never grows beyond the limit; the remaining count is limit minus queue length when admitted, 0 otherwise |
| RateLimit.AllowAdmitsBelowLimit | core/ratelimit.py:19-24 | admitted exactly when fewer than `limit` fresh timestamps remain; only then is `now` appended |
| RateLimit.AllowKeepsOrder | core/ratelimit.py:19-22 | with a non-decreasing clock the queue stays ordered |
| RateLimit.BurstAdmitsLimit | core/ratelimit.py:13-24 | in a burst within one window, exactly the first `limit` requests are admitted |
| RateLimit.NothingStaleInBurst | core/ratelimit.py:19-20 | within one window nothing is evicted |
| RateLimit.HealthBurst | t_for_testing/integration/test_rate_limit.py:10-17 | with the health rule (10 per 5 s), ten requests in a burst pass and the eleventh is refused |
| RateLimit.FirstWildcard | core/ratelimit.py:39-42 | the rule of a wildcard pattern whose prefix starts the path, or none when no wildcard matches |
| RateLimit.ExactRule | core/ratelimit.py:36-37 | a rule exactly when the path is a pattern, and then that pattern's rule |
| RateLimit.LimitKey | core/ratelimit.py:46-48 | the key is "host:path", or "unknown:path" without a client |
| RateLimit.RateLimitMiddleware.constructor | core/ratelimit.py:28-31 | the middleware keeps the rules and a fresh, empty limiter |
| RateLimit.RateLimitMiddleware.Dispatch | core/ratelimit.py:33-55 | the response (pass-through, 429, or forwarded with the limit headers) and the limiter's state are those of the specification |
| RateLimit.ExactRuleWins | core/ratelimit.py:36-42 | an exact pattern wins over any wildcard |
| RateLimit.WildcardOrPassThrough | core/ratelimit.py:38-44 | without an exact pattern the first matching wildcard decides; with none the request passes through untouched |
| RateLimit.DispatchTouchesOneKey | core/ratelimit.py:46-49 | a rate-limited request changes only its own key's queue |
| Container.DIContainer.constructor | core/container.py:32-35 | a new container has no registrations, no configuration and has created nothing |
| Container.DIContainer.Register | core/container.py:37-57 | the registration table becomes the one of the specification (the interface's entry is replaced, any cached instance dropped) and `has(interface)` holds afterwards |
| Container.RegisterReplaces | core/container.py:37-57 | registering sets a fresh registration (no cached instance) for the interface and leaves every other interface alone |
| Container.DIContainer.Get | core/container.py:59-90 | the result and the new state are those of the specification |
| Container.GetUnregisteredFails | core/container.py:71-72 | an unregistered interface raises GraphRAGError "Service … not registered" and changes nothing |
| Container.GetCreatesFresh | core/container.py:59-125 | every created instance is distinct from every cached one, and the state stays valid |
| Container.SingletonIsCached | core/container.py:73-90 | once a singleton is created, the next `get` returns the same instance and changes nothing |
| Container.NonSingletonIsFresh | core/container.py:73-90 | a non-singleton gets a new instance on every `get` and nothing is cached |
| Container.FactoryOrClass | core/container.py:105-125 | creation uses the factory when there is one, otherwise the class with or without the configuration; a failing constructor is wrapped in GraphRAGError |
| Container.DIContainer.Configure | core/container.py:92-103 | the configuration is stored and reaches exactly the cached instances that have a `configure` method |
| Container.ConfigureReachesCachedOnly | core/container.py:97-103 | configuring leaves registrations and instance identity alone and sets the configuration only on cached instances that can take it |
| Container.DIContainer.Clear | core/container.py:132-135 | all registrations and the configuration are dropped, so `has` is false for every interface |
| Container.Globals.constructor | core/container.py:149-150 | no global container exists yet |
| Container.Globals.GetContainer | core/container.py:153-162 | the global container is created once and returned on every call |
| Container.Globals.ConfigureServices | core/container.py:165-176 | the global container, created fresh and empty on first use and the same one afterwards, gets the configuration, and each registration becomes what `configure` makes of it (cached instances with `configure` receive it), with the same interfaces and the creation count unchanged |
| LoadNeo.BatchesConcat | core/loadneo.py:148-159 | the batches, concatenated, give back the data |
| LoadNeo.BatchesShape | core/loadneo.py:148-159 | every batch is non-empty and at most `size` long; all but the last are exactly `size` long |
| LoadNeo.BatchesCount | core/loadneo.py:158 | there are no batches exactly for empty data, and ⌈len/size⌉ batches otherwise |
| LoadNeo.BatchAt | core/loadneo.py:158-159 | the k-th batch is `data[k·size : (k+1)·size]` |
| LoadNeo.FirstFailure | core/loadneo.py:120-145 | the first failing batch index, with all earlier batches succeeding, or none when every batch succeeds |
| LoadNeo.InsertCalls | core/loadneo.py:122-140 | one insert query per batch, in order |
| LoadNeo.Classify | core/loadneo.py:80-87 | errors escaping the import are FileNotFoundError, JSONDecodeError or Neo4jError; those three pass through unchanged |
| LoadNeo.GraphDatabase.constructor | core/interfaces.py:137-164 | a fresh recorded database has seen no calls |
| LoadNeo.GraphDatabase.Execute | core/interfaces.py:164 | every call is recorded, in order |
| LoadNeo.Neo4jImporter.constructor | core/loadneo.py:22-28 | the importer keeps its database |
| LoadNeo.Neo4jImporter.ImportItems | core/loadneo.py:112-146 | the count and the queries sent are those of the batch-by-batch specification |
| LoadNeo.Neo4jImporter.ImportIfAny | core/loadneo.py:72-75 | an empty list sends nothing and counts zero; otherwise the batches are imported; the calls are appended to those already made |
| LoadNeo.Neo4jImporter.RunBody | core/loadneo.py:70-110 | constraint (its failure swallowed), then nodes, then edges, each skipped when empty |
| LoadNeo.Neo4jImporter.ImportKnowledgeGraph | core/loadneo.py:48-87 | the outcome and the full call sequence are those of the specification |
| LoadNeo.ImportCountsAll | core/loadneo.py:112-146 | a successful import inserts every item, in batches of at most 500 of the right kind |
| LoadNeo.FailingBatchKeepsEarlier | core/loadneo.py:120-127 | a failing batch raises Neo4jError after exactly the batches before it and itself were sent |
| LoadNeo.CloseAfterConnect | core/loadneo.py:68-77 | close is called exactly when loading and connecting succeeded, and then last and only once |
| LoadNeo.BodyHasNoClose | core/loadneo.py:70-75 | the import body sends only the constraint and insert queries |
| LoadNeo.EmptyListsAreSkipped | core/loadneo.py:72-75 | an empty node or edge list sends no insert of that kind |
| LoadNeo.SuccessfulImportSendsAll | core/loadneo.py:48-87 | when every query succeeds: connect, constraint, all node batches, all edge batches, close |
| LoadNeo.ImportAllPass | core/loadneo.py:112-146 | when no query fails, every item is counted and one insert per batch of 500 is sent, in order |
| LoadNeo.InsertsOfKind | core/loadneo.py:72-146 | importing a list sends only inserts of its own kind, and none for an empty list |
| LoadNeo.ImportErrors | core/loadneo.py:80-87 | every error the import raises is FileNotFoundError, JSONDecodeError or Neo4jError |
| EmbedNodes.PropsValue | core/embed_nodes.py:50 | the first truthy one of "props" and "properties", or an empty dictionary |
| EmbedNodes.BuildTextBlob | core/embed_nodes.py:41-72 | fails exactly when the chosen properties are not a dictionary; otherwise the stripped newline-join of the non-empty name, file, text and other-property parts |
| EmbedNodes.LeadPartsOrder | core/embed_nodes.py:53-63 | a truthy name comes first; "file" wins over "file_path"; at most three lead parts |
| EmbedNodes.OtherPartsListKeys | core/embed_nodes.py:65-68 | every property other than name, file, file_path and text gives exactly one "key: value" line, and no other line appears |
| EmbedNodes.StripEmpty | core/embed_nodes.py:70 | stripping gives "" exactly for all-whitespace text |
| EmbedNodes.JoinAllSpace | core/embed_nodes.py:70 | the joined parts are all whitespace exactly when no part has a visible character |
| EmbedNodes.NonEmptyKeepsVisible | core/embed_nodes.py:70 | dropping empty parts does not change whether any part is visible |
| EmbedNodes.BlobEmptyIff | core/embed_nodes.py:41-72 | the blob is empty exactly when no part has a visible character |
| EmbedNodes.ExtraPropertyMakesBlob | core/embed_nodes.py:65-72 | any property outside the four named ones makes the blob non-empty |
| EmbedNodes.Steps | core/embed_nodes.py:109-142 | one step per node, the i-th node's step computed with the i-th upsert outcome |
| EmbedNodes.Classify | core/embed_nodes.py:146-150 | Chroma and embedding errors pass through; anything else becomes ChromaError "Node embedding failed: …" |
| EmbedNodes.NodeCollection.constructor | core/embed_nodes.py:99-103 | the collection starts with the existing entries |
| EmbedNodes.NodeCollection.Upsert | core/embed_nodes.py:131-136 | upsert sets exactly the entry under the id |
| EmbedNodes.EmbedNodes | core/embed_nodes.py:75-150 | the result and the collection afterwards are those of the specification |
| EmbedNodes.RunLoop | core/embed_nodes.py:106-142 | the loop computes the counts and the collection of the step-by-step specification |
| EmbedNodes.RaisedSticks | core/embed_nodes.py:109-150 | once a node raises, the later nodes change nothing |
| EmbedNodes.EveryNodeAccounted | core/embed_nodes.py:106-142 | without an error, stored plus skipped equals the number of nodes, and the collection grows by at most the count |
| EmbedNodes.StoreStep | core/embed_nodes.py:110-137 | a node is stored only with a truthy id, a non-empty blob as document, a non-empty embedding and its type (default "unknown") |
| EmbedNodes.StoredEntriesComeFromSteps | core/embed_nodes.py:131-136 | every new or changed entry was stored by some node's step |
| EmbedNodes.EmptyNodesReturnEarly | core/embed_nodes.py:88-93 | no nodes: nothing is opened, counted or stored |
| EmbedNodes.EmbeddingErrorSkips | core/embed_nodes.py:122-142 | a failed embedding skips the node exactly when it is an EmbeddingError |
| EmbedNodes.EmbedNodesErrors | core/embed_nodes.py:146-150 | every error that escapes is a Chroma or embedding error |
| KgGraph.SanitizeIsJsonSafe | graph_indexing/kgbuild/graph.py:20-35 | the sanitized value holds no tuple, set or foreign object at any depth |
| KgGraph.SanitizeFixesJsonSafe | graph_indexing/kgbuild/graph.py:20-35 | an already JSON-safe value is left unchanged |
| KgGraph.SanitizeIdempotent | graph_indexing/kgbuild/graph.py:20-35 | sanitizing twice is sanitizing once, so the second pass in `to_dict` (line 75) changes nothing |
| KgGraph.SanitizeProps | graph_indexing/kgbuild/graph.py:37-38 | same keys in the same order, each value sanitized |
| KgGraph.SanitizePropsKeys | graph_indexing/kgbuild/graph.py:37-38 | sanitizing keeps exactly the keys, and keeps them unique |
| KgGraph.SanitizedGet | graph_indexing/kgbuild/graph.py:37-38 | the value read back under a key is the sanitized original value |
| KgGraph.AddNodeMerges | graph_indexing/kgbuild/graph.py:43-49 | the first call fixes id and type; later calls keep them and merge properties, new values (sanitized) overriding old ones |
| KgGraph.WithNodeValid | graph_indexing/kgbuild/graph.py:43-49 | adding a node keeps ids unique and in insertion order, stores the id, and leaves every other node unchanged |
| KgGraph.KG.constructor | graph_indexing/kgbuild/graph.py:13-15 | a new graph has no nodes and no edges |
| KgGraph.KG.AddNode | graph_indexing/kgbuild/graph.py:43-49 | the graph becomes the one with the node added or merged, and stays well formed |
| KgGraph.KG.AddEdge | graph_indexing/kgbuild/graph.py:51-57 | the edge is appended; nodes are unchanged |
| KgGraph.KG.NodeList | graph_indexing/kgbuild/graph.py:71 | `list(self.nodes.values())` in insertion order, one record per id |
| KgGraph.KG.ToDict | graph_indexing/kgbuild/graph.py:62-86 | the export is that of the specification: sanitized nodes and edges, file paths relativised when a root is given; the paths follow the corrected `RelativeFile` of the Findings table, not the code's string-prefix test |
| KgGraph.RelativiseNodes | graph_indexing/kgbuild/graph.py:80-84 | the loop relativises every node's file, or fails at the first node it cannot handle |
| KgGraph.RelNodesFailSticks | graph_indexing/kgbuild/graph.py:80-84 | a failure at some node ends the loop with that failure |
| KgGraph.RelNodes | graph_indexing/kgbuild/graph.py:80-84 | a successful rewrite keeps one entry per node |
| KgGraph.RelNodesFailsOnlyOnNonStringFile | graph_indexing/kgbuild/graph.py:80-84 | relativising fails only because some node cannot be relativised |
| KgGraph.ToDictIsSanitizedRaw | graph_indexing/kgbuild/graph.py:62-86 | without a root the export is the sanitized raw graph |
| KgGraph.ToDictOrder | graph_indexing/kgbuild/graph.py:70-75 | without a root, nodes come out in insertion order and edges in append order, unchanged when already JSON-safe |
| KgGraph.Clean | graph_indexing/kgbuild/graph.py:83-84 | path components drop empty pieces and "." |
| KgGraph.AsWrittenRaisesOnSibling | graph_indexing/kgbuild/graph.py:83-84 | the root "/a/b" lets "/a/bc/x.py" through the prefix test, and `relative_to` then raises |
| KgGraph.RelativeFileCorrect | graph_indexing/kgbuild/graph.py:83-84 | the component-prefix version agrees with the code wherever the code succeeds, rewrites only paths under the root, and yields the remaining components |
| KgGraph.Resolver.constructor | graph_indexing/kgbuild/graph.py:120-121 | a new resolver knows no imports |
| KgGraph.Resolver.AddImport | graph_indexing/kgbuild/graph.py:123-124 | the import table gains (or overrides) exactly the entry for the module and symbol |
| KgGraph.AddImportResolves | graph_indexing/kgbuild/graph.py:123-132 | after `add_import(m, s, fqn)`, resolving (m, s) gives fqn and every other pair resolves as before |
| KgGraph.UnknownResolvesLocally | graph_indexing/kgbuild/graph.py:131-132 | an unknown symbol resolves to "module.symbol" |
| TsExtract.LastDot | graph_indexing/kgbuild/treesitter_extractor.py:19 | the index of the last '.', or none when the name has no dot |
| TsExtract.DropSuffixLast | graph_indexing/kgbuild/treesitter_extractor.py:19 | `with_suffix("")` removes exactly the last extension |
| TsExtract.ComputeModuleFails | graph_indexing/kgbuild/treesitter_extractor.py:18-19 | fails, always with ValueError, exactly when the path is not strictly under the root |
| TsExtract.ComputeModuleHasNoSlash | graph_indexing/kgbuild/treesitter_extractor.py:20 | a module name contains neither kind of slash |
| TsExtract.InitSuffix | graph_indexing/kgbuild/treesitter_extractor.py:21-22 | the dotted name ends in ".__init__" exactly for a package's `__init__` file below the root |
| TsExtract.ComputeModuleDotted | graph_indexing/kgbuild/treesitter_extractor.py:13-23 | the module is the directory names and the file stem joined by dots (the stem dropped for `__init__` in a package), and splitting it on dots gives those names back |
| TsExtract.ComputeModuleName | graph_indexing/kgbuild/treesitter_extractor.py:13-23 | for a file under the root, the module is the dotted directory names and stem, the stem dropped for a package's `__init__` |
| TsExtract.FirstIdentifier | graph_indexing/kgbuild/treesitter_extractor.py:52-55 | the text of an identifier child, and none only when there is no identifier child |
| TsExtract.Walk | graph_indexing/kgbuild/treesitter_extractor.py:47-61 | the graph gains the definitions of the subtree, in pre-order, each with its file |
| TsExtract.AddOwnNode | graph_indexing/kgbuild/treesitter_extractor.py:50-58 | a named function or class definition adds its own node, and nothing else adds one |
| TsExtract.AddOwnDef | graph_indexing/kgbuild/treesitter_extractor.py:50-58 | a definition node with a name adds exactly one graph node |
| TsExtract.ExtractTs | graph_indexing/kgbuild/treesitter_extractor.py:26-63 | grammar or parse failure: nothing happens; module failure: the ValueError escapes with the graph unchanged; otherwise the walk's definitions are added |
| TsExtract.AddDefsConcat | graph_indexing/kgbuild/treesitter_extractor.py:60-61 | adding two lists of definitions is adding them one after the other |
| TsExtract.DefsShape | graph_indexing/kgbuild/treesitter_extractor.py:50-58 | every definition's id is "module.name" with a non-empty name, typed ts_function_definition or ts_class_definition |
| TsExtract.AddDefsValid | graph_indexing/kgbuild/treesitter_extractor.py:58 | the graph stays well formed, gains no edges, keeps its earlier order and gains only definition ids |
| TsExtract.AddDefsKeepsValid | graph_indexing/kgbuild/treesitter_extractor.py:58 | adding definitions keeps the graph well formed, its edges and its earlier node order |
| TsExtract.AddDefsNewIds | graph_indexing/kgbuild/treesitter_extractor.py:58 | every node the definitions add has a definition's id |
| TsExtract.FileNodeStored | graph_indexing/kgbuild/treesitter_extractor.py:58 | one definition node is stored with this file, and every other node is as it was |
| TsExtract.AddDefsStores | graph_indexing/kgbuild/treesitter_extractor.py:58 | every definition is stored with the file property of this path |
| PyExtract.PyExtract.constructor | graph_indexing/kgbuild/python_extractor.py:23-31 | the visitor keeps its path, module, graph and resolver, with an empty stack and no current function |
| PyExtract.PyExtract.Open | graph_indexing/kgbuild/python_extractor.py:23-31 | a path outside the root raises the module computation's ValueError; otherwise the visitor has the relative path and the computed module |
| PyExtract.PyExtract.AddDoc | graph_indexing/kgbuild/python_extractor.py:41-47 | the graph becomes that of the docstring step |
| PyExtract.DocOnlyWhenNonEmpty | graph_indexing/kgbuild/python_extractor.py:41-47 | an empty docstring adds nothing; otherwise "parent::doc" holds the text and one HAS_DOC edge is appended |
| PyExtract.Stripped | graph_indexing/kgbuild/python_extractor.py:56-62 | one stripped comment per comment, in order |
| PyExtract.PyExtract.AddComments | graph_indexing/kgbuild/python_extractor.py:49-67 | the graph becomes that of the comment steps over the stripped comments |
| PyExtract.CommentStepEffect | graph_indexing/kgbuild/python_extractor.py:65-67 | one comment adds the node "parent::c::digest" and one HAS_COMMENT edge, keeping every node |
| PyExtract.CommentsLinked | graph_indexing/kgbuild/python_extractor.py:64-67 | the comments add exactly one HAS_COMMENT edge each, in order, after the existing edges |
| PyExtract.CommentsStored | graph_indexing/kgbuild/python_extractor.py:64-67 | every comment's node is present afterwards and no node is lost |
| PyExtract.CommentsKeepNodes | graph_indexing/kgbuild/python_extractor.py:64-67 | adding comments loses no node |
| PyExtract.PyExtract.VisitModule | graph_indexing/kgbuild/python_extractor.py:72-74 | the visitor's state becomes that of the module-visit step |
| PyExtract.PyExtract.AddDefinition | graph_indexing/kgbuild/python_extractor.py:84-114 | the definition node, its CONTAINS edge from the parent, its docstring and its comments |
| PyExtract.PyExtract.AddInherits | graph_indexing/kgbuild/python_extractor.py:90-95 | the graph becomes that of the INHERITS loop |
| PyExtract.InheritsEdges | graph_indexing/kgbuild/python_extractor.py:90-95 | one INHERITS edge per plain-name base, from the class to the base's resolved name; no node is touched |
| PyExtract.PyExtract.VisitClassDef | graph_indexing/kgbuild/python_extractor.py:79-97 | the visitor's state becomes that of the class-visit step |
| PyExtract.PyExtract.LeaveClassDef | graph_indexing/kgbuild/python_extractor.py:99-100 | the stack loses its last name, or "pop from empty list" is raised with nothing changed |
| PyExtract.PyExtract.VisitFunctionDef | graph_indexing/kgbuild/python_extractor.py:105-117 | the visitor's state becomes that of the function-visit step |
| PyExtract.PyExtract.LeaveFunctionDef | graph_indexing/kgbuild/python_extractor.py:119-121 | the stack is popped and the current function forgotten, or the pop raises with nothing changed |
| PyExtract.PyExtract.VisitCall | graph_indexing/kgbuild/python_extractor.py:126-144 | the visitor's state becomes that of the call step |
| PyExtract.PyExtract.VisitImport | graph_indexing/kgbuild/python_extractor.py:149-155 | the import table and graph become those of the import steps, with the imported name taken as the corrected `ImportName` of the Findings table (the dotted text), not the code's syntax node |
| PyExtract.PyExtract.VisitImportFrom | graph_indexing/kgbuild/python_extractor.py:157-171 | the import table and graph become those of the from-import steps, or the star import raises with nothing changed; the base is the corrected `ImportName` of the Findings table, not the code's syntax node |
| PyExtract.FqNests | graph_indexing/kgbuild/python_extractor.py:36-39 | the qualified name of a nested definition extends its enclosing name by one dotted piece |
| PyExtract.TopLevelNames | graph_indexing/kgbuild/python_extractor.py:36-39 | at top level the parent is the module and names are "module.name" |
| PyExtract.ParentRepeatsName | graph_indexing/kgbuild/python_extractor.py:82-108 | inside a definition the CONTAINS parent is `fq(stack[-1])`, which repeats the enclosing name and is not the enclosing definition's id |
| PyExtract.StepStack | graph_indexing/kgbuild/python_extractor.py:97-166 | an event fails exactly for a star import or a leave on an empty stack; visits push the name, leaves pop, other events keep the stack |
| PyExtract.StackDiscipline | graph_indexing/kgbuild/python_extractor.py:97-121 | a sequence of events that never leaves more than it visited runs without error, and the stack grows by visits minus leaves, keeping its old contents below |
| PyExtract.BalancedRestoresStack | graph_indexing/kgbuild/python_extractor.py:97-121 | a balanced sequence of events gives the starting stack back |
| PyExtract.CallOutsideFunction | graph_indexing/kgbuild/python_extractor.py:127-128 | outside a function a call changes nothing |
| PyExtract.FunctionVisitEnters | graph_indexing/kgbuild/python_extractor.py:105-117 | visiting a function pushes its name and makes it the current function |
| PyExtract.LeaveForgetsFunction | graph_indexing/kgbuild/python_extractor.py:119-128 | leaving any function clears the current function, so a following call in an enclosing function adds no edge |
| PyExtract.CallAddsEdge | graph_indexing/kgbuild/python_extractor.py:126-144 | inside a function a name or attribute call appends one CALLS edge to its target; any other callee changes nothing |
| PyExtract.CallTargets | graph_indexing/kgbuild/python_extractor.py:131-143 | `f()` targets the resolved f; `obj.m()` the resolved obj plus ".m"; any other receiver "?.m"; unknown names resolve in the module |
| PyExtract.ImportThenCall | graph_indexing/kgbuild/python_extractor.py:131-155 | after `import x as a`, a call `a()` in a function targets the imported module's dotted name, as the corrected `ImportName` of the Findings table gives it |
| PyExtract.ImportMapsAlias | graph_indexing/kgbuild/python_extractor.py:149-155 | the alias (or the name) maps to the dotted name, every other entry is kept, and one IMPORTS edge is added; the dotted name is the corrected `ImportName` of the Findings table |
| PyExtract.ImportFromMapsAlias | graph_indexing/kgbuild/python_extractor.py:157-171 | a relative import without a module changes nothing; a star import raises; otherwise the alias maps to "base.name" with one IMPORTS edge, the base being the corrected `ImportName` of the Findings table |
| PyExtract.DottedImportIsNotText | graph_indexing/kgbuild/python_extractor.py:151 | for `import os.path` the code takes a syntax node, where the text "os.path" was meant |
| PyExtract.DottedFromImportIsNotText | graph_indexing/kgbuild/python_extractor.py:161-169 | for `from os.path import join` the code formats the syntax node of `os` followed by ".join", where the text "os.path.join" was meant |
| PyExtract.FromTargetCorrect | graph_indexing/kgbuild/python_extractor.py:161-169 | for a single-piece module the corrected from-import target is exactly the text the code formats |
| PyExtract.ImportNameCorrect | graph_indexing/kgbuild/python_extractor.py:151-161 | the corrected name agrees with the code for a single name and splits back into its pieces |

## Left out

- Reading files is not modelled. This covers `load_kg`, `_load_json` and the JSON files on disk. Parsed contents arrive as parameters, and a file that is missing or unreadable is a failure outcome.
- Logging, tracing, console output and the side effects of `record_retrieval_metrics` and `record_generation_metrics` are not modelled. They do not change any result. The two latencies in the reply's `metrics` come from clock readings, so they are parameters of the backends (`retrievalMs`, `generationMs`).
- Floating point is not modelled. Similarities and distances are plain numbers handed in, and the `:.3f` rendering of a score is a parameter.
- Concurrency is not modelled. The parallel branches of the LangChain pipeline are evaluated one after the other.
- The language model, the embedding model, Chroma, Neo4j and Groq are oracles. Each is a parameter holding its reply or an error outcome.
- `summarize_question` and `clear_cache` are not modelled. They only call oracles already given as parameters. The LCEL chain is modelled by the stages it composes (`GroundSpec`, then the prompt and the LLM). The LLM's streamed fragments and its whole answer are separate oracles; `StreamAgreesWithAnswer` relates them when they agree.
- `llm_overrides` is not modelled. It only chooses which language-model oracle is used.
- The `GroqLLMProvider` constructor and `get_model_info` are not modelled. They only read environment settings.
- `_initialize_services`, `close`, `create_system_from_env`, `importkg` and the command-line `main` loops are not modelled. They are process wiring around the modelled operations.
- `get_node_collection` and `get_cache_collection` are folded into the outcome parameters of the operations that use them.
- Generated identifiers (`uuid`) and JSON serialisation of metadata are parameters.
- `register_defaults` is not modelled because its body is empty. The `inject` decorator is not modelled because it is Python function wrapping.
- Container.DIContainer.Get: a factory that returns `None` is treated as a created instance, like any other value.
- `SemanticCache.__init__` wraps unexpected errors as "Cache initialization failed: …" (core/semantic_cache.py:71-74). That branch is unreachable from `get_cache_collection`, which raises only ChromaError, so the model has no such path.
- Container.DIContainer.Configure: it tests the registered implementation for a `configure` method, where the code tests the cached instance itself (its truthiness and its attributes), so an instance a factory built from another class is not told apart.
- Container.DIContainer.Has: it is a predicate with no lemma of its own. `Register` and `Clear` state what it answers afterwards.
- String handling follows Python on the ASCII range only. `lower`, `strip` and `isspace` treat every character above 0x7F as an ordinary character, so non-ASCII whitespace such as U+00A0 is not stripped and non-ASCII letters are not lower-cased.
- Python `repr` escaping is not modelled. Strings that the source renders with `repr` appear between plain quotes.
- `Path.resolve` is a parameter. A path with a leading `//` is not modelled.
- LoadNeo.Batches: requires a positive batch size. A size of 0 makes Python's `range` raise, and the importer always passes a positive constant.
- A knowledge-graph file whose `nodes` or `edges` entry is not a list is not modelled. The same goes for non-dictionary nodes in `embed_nodes`.
- The exact text of Python's `AttributeError` is not modelled. The model keeps only that an error is raised.
- Context.BuildPromptInjective: assumes the two contexts have the same length. Otherwise a question could contain the prompt's own separator text and two different pairs could give the same prompt.
- LibCST parsing and traversal are abstracted into a sequence of visit/leave events:
  - each event carries the node data the visitor reads, including the md5 digest of the code and the cleaned docstring;
  - the `hasattr` branches of `add_comments` are folded into the event data.
- PyExtract: an `ImportFrom` alias whose name is not a plain `Name` is rendered by `str(alias.name)`, which is not modelled. The leading dots of relative imports are not modelled either.
- TsExtract: Tree-sitter parsing is a parameter. Node bytes are taken as text that is already decoded.
- TsExtract.ComputeModule follows the `with_suffix` rule of Python 3.12 and later. It has no contract of its own: `ComputeModuleFails` and `ComputeModuleDotted` state its behaviour.
- KgGraph.Resolver.Resolve: it has no contract of its own. `AddImportResolves` states what it does inside `add_import`.
- Citations.FormatResponse: formatting twice is not always the same as formatting once. Text holding an opening `[node:` with no closing bracket changes on the second pass. `FormatNotIdempotentOnUnclosedOpening` exhibits this and `FormatIdempotent` proves idempotence otherwise. This is the behaviour of the code as written, so it is not listed as a finding.

## Findings

| source | as written | input that shows it | evidently intended | confidence | as-written member | corrected member |
|---|---|---|---|---|---|---|
| graph_indexing/kgbuild/graph.py:83-84 | the path is tested with a string prefix check against the root before `relative_to` is called | root `/a/b`, file `/a/bc/x.py`: the prefix check passes, then `relative_to` raises ValueError | a file is under the root only when the root's path components are a prefix of the file's; otherwise the path is kept | not executed | KgGraph.RelativeFileAsWritten, KgGraph.AsWrittenRaisesOnSibling | KgGraph.RelativeFile, KgGraph.RelativeFileCorrect |
| graph_indexing/kgbuild/python_extractor.py:151 | the imported name is read as `alias.name.value`, which for a dotted name is the `Attribute`'s left-hand CST node, not a string | `import os.path` records a CST node instead of `"os.path"` | the full dotted name as text | not executed | PyExtract.ImportNameAsWritten, PyExtract.DottedImportIsNotText | PyExtract.ImportName, PyExtract.ImportNameCorrect |
| graph_indexing/kgbuild/python_extractor.py:161-169 | the from-import base is read as `node.module.value` and formatted as `f"{base}.{name}"`; for a dotted module that renders the `Attribute`'s left-hand CST node | `from os.path import join` records the rendering of the node for `os` followed by ".join" instead of `"os.path.join"` | the full dotted module as text, then "." and the name | not executed | PyExtract.FromTargetAsWritten, PyExtract.DottedFromImportIsNotText | PyExtract.ImportName, PyExtract.FromTargetCorrect |
| core/semantic_cache.py:202-210 | a failing `delete_collection` is swallowed whatever the cause, and `get_or_create_collection` then reopens the old collection | a cache with entries whose drop fails: `clear` returns normally and every entry is still there | the failure is ignored only when there is no collection to drop; otherwise `clear` raises ChromaError, since it promises to remove all cached pairs | not executed | SemanticCache.ClearSpec, SemanticCache.ClearAsWrittenKeepsEntries | SemanticCache.ClearIntended, SemanticCache.ClearIntendedAgrees |
