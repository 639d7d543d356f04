/** The answering engine of core/graphrag.py: `answer_question` and its
    streaming twin `stream_answer`.

    Every call into an outside system is an oracle in `Backends`: the
    direct LLM answer (indexed by how many direct calls came before), the
    cache's embedding and query, the node and chunk retrievals, the graph
    expansion, the RAG generation (a function of the prompt), and the
    cache's embedding and upsert on store. The semantic cache is the
    `SemanticCache` object the engine reads and writes.

    Both procedures are a `try` block followed by two handlers. The block
    is modelled on its own (`TrySpec`, `StreamTrySpec`): it either finishes
    or raises an error, and it reports how many direct LLM calls it made, so
    that the handler's own direct call is the next one. */
module Engine {
  import opened Common
  import opened Retrieval
  import opened Citations
  import opened Context
  import opened SemanticCache

  /** Everything the outside world answers during one call. */
  datatype Backends = Backends(
    direct: nat -> Result<string>,
    lookupEmbed: Result<seq<real>>,
    lookupReply: Result<seq<CacheRow>>,
    loads: string -> Option<seq<string>>,
    nodeEmbed: Result<seq<real>>,
    nodeCollection: Outcome,
    nodeReply: Result<QueryReply>,
    chunkEmbed: Result<seq<real>>,
    chunkReply: Result<QueryReply>,
    useNeo4j: bool,
    hasDriver: bool,
    expansion: Result<seq<string>>,
    generate: string -> Result<string>,
    stream: string -> StreamRun,
    retrievalMs: real,
    generationMs: real,
    fmt: real -> string,
    storeEmbed: Result<seq<real>>,
    storeUpsert: Outcome,
    dumps: seq<string> -> string)

  /** The output of `parallel_retrieval`: the question with the retrieved
      nodes and chunks. */
  datatype Retrieved = Retrieved(question: string, nodes: seq<Hit>, chunks: seq<Hit>)

  /** The `metrics` entry: the two latencies read from the clock, and the
      mean similarity of what was retrieved. */
  datatype Metrics = Metrics(retrievalMs: real, generationMs: real, avgSimilarity: real)

  /** The `retrieved_context` and `metrics` entries, which only a RAG
      answer that was not replaced by the fallback carries. */
  datatype Details = Details(retrieved: Retrieved, metrics: Metrics)

  /** The dictionary `answer_question` returns: its answer, references,
      context (when the RAG chain built one) and details. */
  datatype Reply = Reply(answer: string, references: seq<string>, context: Option<string>, details: Option<Details>)

  /** How the `try` block ended: with a reply, or with an error after a
      number of direct LLM calls. */
  datatype Step = Done(reply: Reply) | Raised(error: Error, directCalls: nat)

  const EmptyQuestionReply: string := "Please provide a valid question."
  const DirectErrorPrefix: string := "Direct LLM answer failed: "
  const BothFailedPrefix: string := "Both RAG and direct LLM failed: "
  const StreamErrorPrefix: string := "Error: "
  const TopK: int := 8

  /** `direct_llm_answer(question)` as the `attempt`-th direct call: a failure
      becomes an LLMError. */
  function Direct(b: Backends, attempt: nat): (r: Result<string>)
    ensures r.Success? <==> b.direct(attempt).Success?
    ensures r.Success? ==> r.value == b.direct(attempt).value
    ensures r.Failure? ==> r.error == Error(LlmError, DirectErrorPrefix + b.direct(attempt).error.message)
  {
    match b.direct(attempt)
    case Success(a) => Success(a)
    case Failure(e) => Failure(Error(LlmError, DirectErrorPrefix + e.message))
  }

  /** The ids of retrieved hits, in order. */
  function Ids(hits: seq<Hit>): (r: seq<string>)
    ensures |r| == |hits| && forall i :: 0 <= i < |hits| ==> r[i] == hits[i].id
  {
    seq(|hits|, i requires 0 <= i < |hits| => hits[i].id)
  }

  predicate BackendError(e: Error) {
    e.kind == ChromaError || e.kind == EmbeddingError
  }

  // ---------------------------------------------------------------------
  // The RAG chain
  // ---------------------------------------------------------------------

  /** What the chain holds just before the prompt: the retrieval results
      and the context built from them and the expanded neighbours. */
  datatype Grounding = Grounding(retrieved: Retrieved, context: string)

  /** `parallel_retrieval`, `with_neighbors` and `context_builder`:
      retrieval (nodes, then chunks), neighbour expansion of the node ids
      and the context, or the first error. */
  function GroundSpec(question: string, b: Backends): Result<Grounding> {
    var nodes := SimilarNodesSpec(Text(question), TopK, b.nodeEmbed, b.nodeCollection, b.nodeReply);
    if nodes.Failure? then Failure(nodes.error)
    else
      var chunks := CodeChunksSpec(question, b.chunkEmbed, b.chunkReply);
      if chunks.Failure? then Failure(chunks.error)
      else
        var neighbors := ExpandGraph(Ids(nodes.value), b.useNeo4j, b.hasDriver, b.expansion);
        if neighbors.Failure? then Failure(neighbors.error)
        else
          var context := Join(ContextParts(nodes.value, chunks.value, neighbors.value, b.fmt), "\n");
          Success(Grounding(Retrieved(question, nodes.value, chunks.value), context))
  }

  /** The whole chain: the grounding and the raw generated answer, or the
      first error. */
  function RagSpec(question: string, b: Backends): Result<(Grounding, string)> {
    match GroundSpec(question, b)
    case Failure(e) => Failure(e)
    case Success(g) =>
      match b.generate(BuildPrompt(g.context, question))
      case Success(raw) => Success((g, raw))
      case Failure(e) => Failure(e)
  }

  method Ground(question: string, b: Backends) returns (r: Result<Grounding>)
    ensures r == GroundSpec(question, b)
  {
    var nodes := RetrieveSimilarNodes(Text(question), TopK, b.nodeEmbed, b.nodeCollection, b.nodeReply);
    if nodes.Failure? {
      return Failure(nodes.error);
    }
    var chunks := RetrieveCodeChunks(question, b.chunkEmbed, b.chunkReply);
    if chunks.Failure? {
      return Failure(chunks.error);
    }
    var neighbors := ExpandGraph(Ids(nodes.value), b.useNeo4j, b.hasDriver, b.expansion);
    if neighbors.Failure? {
      return Failure(neighbors.error);
    }
    var context := BuildContext(nodes.value, chunks.value, neighbors.value, b.fmt);
    r := Success(Grounding(Retrieved(question, nodes.value, chunks.value), context));
  }

  method Rag(question: string, b: Backends) returns (r: Result<(Grounding, string)>)
    ensures r == RagSpec(question, b)
  {
    var grounding := Ground(question, b);
    if grounding.Failure? {
      return Failure(grounding.error);
    }
    var g := grounding.value;
    var generated := b.generate(BuildPrompt(g.context, question));
    if generated.Failure? {
      return Failure(generated.error);
    }
    r := Success((g, generated.value));
  }

  /** The sum of the similarities. */
  function SimilaritySum(hits: seq<Hit>): real {
    if hits == [] then 0.0 else SimilaritySum(hits[..|hits| - 1]) + hits[|hits| - 1].similarity
  }

  /** `avg_sim`: the mean similarity, or 0 when nothing was retrieved. */
  function AverageSimilarity(hits: seq<Hit>): real {
    if hits == [] then 0.0 else SimilaritySum(hits) / (|hits| as real)
  }

  /** Bounds on every similarity bound their sum. */
  lemma {:induction false} SimilaritySumBounds(hits: seq<Hit>, lo: real, hi: real)
    requires forall i :: 0 <= i < |hits| ==> lo <= hits[i].similarity <= hi
    ensures lo * (|hits| as real) <= SimilaritySum(hits) <= hi * (|hits| as real)
  {
    if hits != [] {
      var init := hits[..|hits| - 1];
      assert forall i :: 0 <= i < |init| ==> init[i] == hits[i];
      SimilaritySumBounds(init, lo, hi);
      assert (|hits| as real) == (|init| as real) + 1.0;
    }
  }

  /** The mean lies between the least and the greatest similarity bound. */
  lemma AverageWithinBounds(hits: seq<Hit>, lo: real, hi: real)
    requires hits != []
    requires forall i :: 0 <= i < |hits| ==> lo <= hits[i].similarity <= hi
    ensures lo <= AverageSimilarity(hits) <= hi
  {
    SimilaritySumBounds(hits, lo, hi);
    var n := |hits| as real;
    var avg := SimilaritySum(hits) / n;
    assert avg * n == SimilaritySum(hits);
  }

  /** The details of a RAG reply: what was retrieved, the clock readings
      and the mean similarity of the chunks and then the nodes. */
  function DetailsOf(r: Retrieved, b: Backends): Details {
    Details(r, Metrics(b.retrievalMs, b.generationMs, AverageSimilarity(r.chunks + r.nodes)))
  }

  /** The retrieval step of the chain: when no node query is made because
      the node retrieval fails, the chain fails with that error. */
  lemma RagStopsAtFirstFailure(question: string, b: Backends)
    ensures var nodes := SimilarNodesSpec(Text(question), TopK, b.nodeEmbed, b.nodeCollection, b.nodeReply);
            nodes.Failure? ==> RagSpec(question, b) == Failure(nodes.error)
    ensures var nodes := SimilarNodesSpec(Text(question), TopK, b.nodeEmbed, b.nodeCollection, b.nodeReply);
            var chunks := CodeChunksSpec(question, b.chunkEmbed, b.chunkReply);
            nodes.Success? && chunks.Failure? ==> RagSpec(question, b) == Failure(chunks.error)
  {
  }

  // ---------------------------------------------------------------------
  // answer_question
  // ---------------------------------------------------------------------

  /** The cache check of the `try` block: nothing when bypassed. */
  function CheckCache(question: string, bypass: bool, threshold: real, b: Backends)
    : (r: Result<Option<CacheHit>>)
    ensures bypass ==> r == Success(None)
  {
    if bypass then Success(None)
    else LookupSpec(threshold, question, b.lookupEmbed, b.lookupReply, b.loads)
  }

  /** A generated RAG answer after `format_response`, with the context it was
      generated from, what was retrieved, and whether it carries a negative
      marker. */
  datatype Draft = Draft(context: string, retrieved: Retrieved, answer: string, references: seq<string>,
                         negative: bool)

  /** Formats the outcome of the RAG chain (grounding and raw answer). */
  function Drafted(chain: Result<(Grounding, string)>): (r: Result<Draft>)
  {
    match chain
    case Failure(e) => Failure(e)
    case Success((g, raw)) =>
      var (formatted, references) := FormatSpec(raw);
      Success(Draft(g.context, g.retrieved, formatted, references, HasNegativeMarker(formatted)))
  }

  /** A draft's references are distinct citation tags, and its negative flag
      is the marker test on its formatted answer; a failed chain stays the
      same failure. */
  lemma DraftedFacts(chain: Result<(Grounding, string)>)
    ensures var r := Drafted(chain);
            && (chain.Failure? ==> r == Failure(chain.error))
            && (chain.Success? ==>
                  && r.Success? && r.value.context == chain.value.0.context
                  && r.value.retrieved == chain.value.0.retrieved
                  && (r.value.answer, r.value.references) == FormatSpec(chain.value.1)
                  && (r.value.negative <==> HasNegativeMarker(r.value.answer))
                  && NoDuplicates(r.value.references)
                  && forall u :: u in r.value.references ==> IsTag(u))
  {
    if chain.Success? {
      FormatReferencesAreUniqueTags(chain.value.1);
    }
  }

  /** The end of the `try` block once the answer is drafted: fall back on a
      negative marker, otherwise store unless bypassed. */
  function FinishSpec(question: string, bypass: bool, entries: map<string, CacheEntry>, b: Backends, d: Draft)
    : (Step, map<string, CacheEntry>)
  {
    if d.negative then
      match Direct(b, 0)
      case Success(a) => (Done(Reply(a, [], Some(d.context), None)), entries)
      case Failure(e) => (Raised(e, 1), entries)
    else if bypass then (Done(Reply(d.answer, d.references, Some(d.context), Some(DetailsOf(d.retrieved, b)))), entries)
    else
      var (stored, after) := StoreSpec(entries, question, d.answer, d.references,
                                       b.storeEmbed, b.storeUpsert, b.dumps);
      if stored.Fail? then (Raised(stored.error, 0), after)
      else (Done(Reply(d.answer, d.references, Some(d.context), Some(DetailsOf(d.retrieved, b)))), after)
  }

  /** The `try` block of `answer_question` for a non-empty question, given
      whether it is a greeting, the outcome of the cache check and the
      drafted RAG answer: the way it ends and the cache contents
      afterwards. */
  function TrySpec(question: string, bypass: bool, entries: map<string, CacheEntry>, b: Backends,
                   greeting: bool, cached: Result<Option<CacheHit>>, rag: Result<Draft>)
    : (Step, map<string, CacheEntry>)
  {
    if greeting then
      match Direct(b, 0)
      case Success(a) => (Done(Reply(a, [], None, None)), entries)
      case Failure(e) => (Raised(e, 1), entries)
    else if cached.Failure? then (Raised(cached.error, 0), entries)
    else if cached.value.Some? then
      (Done(Reply(cached.value.value.answer, cached.value.value.references, None, None)), entries)
    else if rag.Failure? then (Raised(rag.error, 0), entries)
    else FinishSpec(question, bypass, entries, b, rag.value)
  }

  /** The two handlers: a ChromaError or EmbeddingError falls back to the
      direct answer, whose own failure propagates; any other error falls
      back too, and if that fails an LLMError naming the first error is
      raised. */
  function HandleSpec(e: Error, directCalls: nat, b: Backends): Result<Reply> {
    if BackendError(e) then
      match Direct(b, directCalls)
      case Success(a) => Success(Reply(a, [], None, None))
      case Failure(e2) => Failure(e2)
    else
      match Direct(b, directCalls)
      case Success(a) => Success(Reply(a, [], None, None))
      case Failure(_) => Failure(Error(LlmError, BothFailedPrefix + e.message))
  }

  /** `answer_question` given the question's classification, the outcome of
      the cache check and the drafted RAG answer: the reply (or the raised
      error) and the cache contents afterwards. */
  function AnswerWith(question: string, bypass: bool, entries: map<string, CacheEntry>, b: Backends,
                      greeting: bool, cached: Result<Option<CacheHit>>, rag: Result<Draft>)
    : (Result<Reply>, map<string, CacheEntry>)
  {
    if question == "" then (Success(Reply(EmptyQuestionReply, [], None, None)), entries)
    else
      var (step, after) := TrySpec(question, bypass, entries, b, greeting, cached, rag);
      match step
      case Done(reply) => (Success(reply), after)
      case Raised(e, n) => (HandleSpec(e, n, b), after)
  }

  /** `answer_question(question, bypass_cache)` */
  function AnswerSpec(question: string, bypass: bool, threshold: real,
                      entries: map<string, CacheEntry>, b: Backends)
    : (Result<Reply>, map<string, CacheEntry>)
  {
    AnswerWith(question, bypass, entries, b, IsGreeting(question),
               CheckCache(question, bypass, threshold, b), Drafted(RagSpec(question, b)))
  }

  /** The end of the `try` block, run against the cache object. */
  method RunFinish(question: string, bypass: bool, cache: SemanticCache, b: Backends,
                   context: string, retrieved: Retrieved, formatted: string, references: seq<string>)
    returns (step: Step)
    modifies cache
    ensures (step, cache.entries)
         == FinishSpec(question, bypass, old(cache.entries), b,
                       Draft(context, retrieved, formatted, references, HasNegativeMarker(formatted)))
  {
    if HasNegativeMarker(formatted) {
      var direct := Direct(b, 0);
      if direct.Failure? {
        return Raised(direct.error, 1);
      }
      return Done(Reply(direct.value, [], Some(context), None));
    }
    if !bypass {
      var stored := cache.Store(question, formatted, references, b.storeEmbed, b.storeUpsert, b.dumps);
      if stored.Fail? {
        return Raised(stored.error, 0);
      }
    }
    step := Done(Reply(formatted, references, Some(context), Some(DetailsOf(retrieved, b))));
  }

  /** The `try` block, run against the cache object. */
  method RunTry(question: string, bypass: bool, cache: SemanticCache, b: Backends) returns (step: Step)
    modifies cache
    ensures (step, cache.entries)
         == TrySpec(question, bypass, old(cache.entries), b, IsGreeting(question),
                    CheckCache(question, bypass, cache.threshold, b), Drafted(RagSpec(question, b)))
  {
    if IsGreeting(question) {
      var direct := Direct(b, 0);
      if direct.Failure? {
        return Raised(direct.error, 1);
      }
      return Done(Reply(direct.value, [], None, None));
    }
    if !bypass {
      var cached := cache.Lookup(question, b.lookupEmbed, b.lookupReply, b.loads);
      if cached.Failure? {
        return Raised(cached.error, 0);
      }
      if cached.value.Some? {
        return Done(Reply(cached.value.value.answer, cached.value.value.references, None, None));
      }
    }
    var rag := Rag(question, b);
    if rag.Failure? {
      return Raised(rag.error, 0);
    }
    var (g, raw) := rag.value;
    var formatted, references := FormatResponse(raw);
    step := RunFinish(question, bypass, cache, b, g.context, g.retrieved, formatted, references);
  }

  /** `answer_question(question, bypass_cache)` */
  method AnswerQuestion(question: string, bypass: bool, cache: SemanticCache, b: Backends)
    returns (r: Result<Reply>)
    modifies cache
    ensures (r, cache.entries) == AnswerSpec(question, bypass, cache.threshold, old(cache.entries), b)
  {
    if question == "" {
      return Success(Reply(EmptyQuestionReply, [], None, None));
    }
    var step := RunTry(question, bypass, cache, b);
    match step
    case Done(reply) =>
      r := Success(reply);
    case Raised(e, n) =>
      var direct := Direct(b, n);
      if direct.Success? {
        r := Success(Reply(direct.value, [], None, None));
      } else if BackendError(e) {
        r := Failure(direct.error);
      } else {
        r := Failure(Error(LlmError, BothFailedPrefix + e.message));
      }
  }

  // ---------------------------------------------------------------------
  // Properties of answer_question
  // ---------------------------------------------------------------------

  /** An empty question gets the fixed reply, touching neither the cache nor
      any backend: the outcome is the same whatever they answer. */
  lemma EmptyQuestionIsFixed(bypass: bool, entries: map<string, CacheEntry>, b: Backends,
                             greeting: bool, cached: Result<Option<CacheHit>>, rag: Result<Draft>,
                             b': Backends, greeting': bool, cached': Result<Option<CacheHit>>, rag': Result<Draft>)
    ensures AnswerWith("", bypass, entries, b, greeting, cached, rag)
         == (Success(Reply(EmptyQuestionReply, [], None, None)), entries)
    ensures AnswerWith("", bypass, entries, b, greeting, cached, rag)
         == AnswerWith("", bypass, entries, b', greeting', cached', rag')
  {
  }

  /** A greeting is answered directly with no references; the cache is
      neither read (the cache check and the RAG chain do not matter) nor
      written. */
  lemma GreetingAnswersDirectly(question: string, bypass: bool, entries: map<string, CacheEntry>, b: Backends,
                                cached: Result<Option<CacheHit>>, rag: Result<Draft>,
                                bypass': bool, cached': Result<Option<CacheHit>>, rag': Result<Draft>)
    requires question != ""
    ensures var (r, after) := AnswerWith(question, bypass, entries, b, true, cached, rag);
            && after == entries
            && (b.direct(0).Success? ==> r == Success(Reply(b.direct(0).value, [], None, None)))
            && (r.Success? ==> r.value.references == [])
            && (r, after) == AnswerWith(question, bypass', entries, b, true, cached', rag')
  {
  }

  /** A cache hit is returned verbatim and nothing is stored. */
  lemma CacheHitIsVerbatim(question: string, bypass: bool, entries: map<string, CacheEntry>, b: Backends,
                           hit: CacheHit, rag: Result<Draft>)
    requires question != ""
    ensures AnswerWith(question, bypass, entries, b, false, Success(Some(hit)), rag)
         == (Success(Reply(hit.answer, hit.references, None, None)), entries)
  {
  }

  /** When the drafted answer admits it found nothing, the reply is the
      direct answer with no references, and the cache is not written. */
  lemma NegativeAnswerFallsBack(question: string, bypass: bool, entries: map<string, CacheEntry>, b: Backends,
                                d: Draft)
    requires question != "" && d.negative
    ensures var (r, after) := AnswerWith(question, bypass, entries, b, false, Success(None), Success(d));
            && after == entries
            && (b.direct(0).Success? ==> r == Success(Reply(b.direct(0).value, [], Some(d.context), None)))
            && (r.Success? ==> r.value.references == [])
  {
  }

  /** At the end of the `try` block the cache changes only by storing the
      drafted answer, without a negative marker and without bypass. */
  lemma FinishStoresOnlyClean(question: string, bypass: bool, entries: map<string, CacheEntry>, b: Backends,
                              d: Draft)
    ensures var (step, after) := FinishSpec(question, bypass, entries, b, d);
            after != entries ==>
              && !bypass && !d.negative && b.storeEmbed.Success?
              && step == Done(Reply(d.answer, d.references, Some(d.context), Some(DetailsOf(d.retrieved, b))))
              && after == entries[question := CacheEntry(b.storeEmbed.value, question, d.answer, b.dumps(d.references))]
  {
  }

  /** The cache is written only by a RAG answer that was not bypassed and
      has no negative marker, and what is written is that reply's answer and
      references under the question. */
  lemma StoreOnlyCleanRagAnswers(question: string, bypass: bool, entries: map<string, CacheEntry>, b: Backends,
                                 greeting: bool, cached: Result<Option<CacheHit>>, rag: Result<Draft>)
    ensures var (r, after) := AnswerWith(question, bypass, entries, b, greeting, cached, rag);
            after != entries ==>
              && !bypass && question != "" && !greeting
              && rag.Success? && !rag.value.negative
              && r == Success(Reply(rag.value.answer, rag.value.references, Some(rag.value.context),
                                Some(DetailsOf(rag.value.retrieved, b))))
              && after == entries[question := CacheEntry(b.storeEmbed.value, question, r.value.answer,
                                                          b.dumps(r.value.references))]
  {
    if question != "" && !greeting && cached == Success(None) && rag.Success? {
      FinishStoresOnlyClean(question, bypass, entries, b, rag.value);
    }
  }

  /** Conversely, a clean drafted answer is stored when the cache is not
      bypassed and the store succeeds. */
  lemma CleanRagAnswerIsStored(question: string, entries: map<string, CacheEntry>, b: Backends, d: Draft)
    requires question != "" && !d.negative && d.answer != ""
    requires b.storeEmbed.Success? && b.storeUpsert.Pass?
    ensures var (r, after) := AnswerWith(question, false, entries, b, false, Success(None), Success(d));
            && r == Success(Reply(d.answer, d.references, Some(d.context), Some(DetailsOf(d.retrieved, b))))
            && after == entries[question := CacheEntry(b.storeEmbed.value, question, d.answer, b.dumps(d.references))]
  {
  }

  /** Replies that carry a context come from the drafted RAG answer: the
      formatted answer itself (so its references are distinct citation
      tags) or, on a negative marker, the direct answer with none. */
  lemma ContextRepliesComeFromDraft(question: string, bypass: bool, entries: map<string, CacheEntry>, b: Backends,
                                    greeting: bool, cached: Result<Option<CacheHit>>, rag: Result<Draft>)
    ensures var r := AnswerWith(question, bypass, entries, b, greeting, cached, rag).0;
            r.Success? && r.value.context.Some? ==>
              && rag.Success? && r.value.context == Some(rag.value.context)
              && (rag.value.negative ==> r.value.references == [] && r.value.details.None?)
              && (!rag.value.negative ==> r.value.answer == rag.value.answer
                                           && r.value.references == rag.value.references
                                           && r.value.details == Some(DetailsOf(rag.value.retrieved, b)))
    ensures var r := AnswerWith(question, bypass, entries, b, greeting, cached, rag).0;
            r.Success? && r.value.details.Some? ==> r.value.context.Some?
  {
  }

  /** The references of a reply that went through the RAG chain (the only
      replies that carry a context) are distinct citation tags. */
  lemma RagReferencesAreUniqueTags(question: string, bypass: bool, threshold: real,
                                   entries: map<string, CacheEntry>, b: Backends)
    ensures var r := AnswerSpec(question, bypass, threshold, entries, b).0;
            r.Success? && r.value.context.Some? ==>
              NoDuplicates(r.value.references) && forall u :: u in r.value.references ==> IsTag(u)
  {
    var chain := RagSpec(question, b);
    DraftedFacts(chain);
    ContextRepliesComeFromDraft(question, bypass, entries, b, IsGreeting(question),
                                CheckCache(question, bypass, threshold, b), Drafted(chain));
  }

  /** The `retrieved_context` of a reply is the question with the nodes and
      chunks the two retrievals returned, and its mean similarity is taken
      over those chunks and nodes; only a reply with a context has one. */
  lemma RetrievedContextIsRetrieval(question: string, bypass: bool, threshold: real,
                                    entries: map<string, CacheEntry>, b: Backends)
    ensures var r := AnswerSpec(question, bypass, threshold, entries, b).0;
            var nodes := SimilarNodesSpec(Text(question), TopK, b.nodeEmbed, b.nodeCollection, b.nodeReply);
            var chunks := CodeChunksSpec(question, b.chunkEmbed, b.chunkReply);
            r.Success? && r.value.details.Some? ==>
              && r.value.context.Some? && nodes.Success? && chunks.Success?
              && r.value.details.value == Details(Retrieved(question, nodes.value, chunks.value),
                                                  Metrics(b.retrievalMs, b.generationMs,
                                                          AverageSimilarity(chunks.value + nodes.value)))
  {
    var rag := Drafted(RagSpec(question, b));
    ContextRepliesComeFromDraft(question, bypass, entries, b, IsGreeting(question),
                                CheckCache(question, bypass, threshold, b), rag);
    DraftRetrieved(question, b);
  }

  /** A drafted RAG answer carries the question and what the two
      retrievals returned. */
  lemma DraftRetrieved(question: string, b: Backends)
    ensures var rag := Drafted(RagSpec(question, b));
            rag.Success? ==>
              && SimilarNodesSpec(Text(question), TopK, b.nodeEmbed, b.nodeCollection, b.nodeReply).Success?
              && CodeChunksSpec(question, b.chunkEmbed, b.chunkReply).Success?
              && rag.value.retrieved
                 == Retrieved(question, SimilarNodesSpec(Text(question), TopK, b.nodeEmbed, b.nodeCollection, b.nodeReply).value,
                              CodeChunksSpec(question, b.chunkEmbed, b.chunkReply).value)
  {
    var chain := RagSpec(question, b);
    DraftedFacts(chain);
    if chain.Success? {
      assert GroundSpec(question, b) == Success(chain.value.0);
    }
  }

  /** A ChromaError or EmbeddingError inside the `try` block, including one
      from the cache lookup or store, yields the direct answer with no
      references; if that direct call fails, its LLMError propagates. */
  lemma BackendErrorFallsBack(question: string, bypass: bool, entries: map<string, CacheEntry>, b: Backends,
                              greeting: bool, cached: Result<Option<CacheHit>>, rag: Result<Draft>)
    requires question != ""
    requires var step := TrySpec(question, bypass, entries, b, greeting, cached, rag).0;
             step.Raised? && BackendError(step.error)
    ensures var n := TrySpec(question, bypass, entries, b, greeting, cached, rag).0.directCalls;
            var r := AnswerWith(question, bypass, entries, b, greeting, cached, rag).0;
            && (b.direct(n).Success? ==> r == Success(Reply(b.direct(n).value, [], None, None)))
            && (b.direct(n).Failure? ==>
                  r == Failure(Error(LlmError, DirectErrorPrefix + b.direct(n).error.message)))
  {
  }

  /** Any other error also falls back to the direct answer; only when that
      fails too is an LLMError raised, naming the first error. */
  lemma OtherErrorFallsBack(question: string, bypass: bool, entries: map<string, CacheEntry>, b: Backends,
                            greeting: bool, cached: Result<Option<CacheHit>>, rag: Result<Draft>)
    requires question != ""
    requires var step := TrySpec(question, bypass, entries, b, greeting, cached, rag).0;
             step.Raised? && !BackendError(step.error)
    ensures var step := TrySpec(question, bypass, entries, b, greeting, cached, rag).0;
            var r := AnswerWith(question, bypass, entries, b, greeting, cached, rag).0;
            && (b.direct(step.directCalls).Success? ==>
                  r == Success(Reply(b.direct(step.directCalls).value, [], None, None)))
            && (b.direct(step.directCalls).Failure? ==>
                  r == Failure(Error(LlmError, BothFailedPrefix + step.error.message)))
  {
  }

  /** A cache lookup that fails (a ChromaError) falls back to the direct
      answer without writing the cache. */
  lemma LookupFailureFallsBack(question: string, entries: map<string, CacheEntry>, b: Backends,
                               cached: Result<Option<CacheHit>>, rag: Result<Draft>)
    requires question != "" && cached.Failure? && BackendError(cached.error)
    requires b.direct(0).Success?
    ensures AnswerWith(question, false, entries, b, false, cached, rag)
         == (Success(Reply(b.direct(0).value, [], None, None)), entries)
  {
  }

  /** The cache lookup only ever fails with a ChromaError, so a failing
      lookup reaches the fallback of the first handler. */
  lemma CheckCacheFailsWithChroma(question: string, bypass: bool, threshold: real, b: Backends)
    ensures var c := CheckCache(question, bypass, threshold, b);
            c.Failure? ==> !bypass && BackendError(c.error)
  {
    if !bypass {
      LookupOutcomes(threshold, question, b.lookupEmbed, b.lookupReply, b.loads);
    }
  }

  /** A failing node retrieval on a cache miss falls back to the direct
      answer: node retrieval reports its failures as ChromaError. */
  lemma NodeRetrievalFailureFallsBack(question: string, bypass: bool, entries: map<string, CacheEntry>,
                                      b: Backends)
    requires question != ""
    requires SimilarNodesSpec(Text(question), TopK, b.nodeEmbed, b.nodeCollection, b.nodeReply).Failure?
    requires b.direct(0).Success?
    ensures AnswerWith(question, bypass, entries, b, false, Success(None), Drafted(RagSpec(question, b)))
         == (Success(Reply(b.direct(0).value, [], None, None)), entries)
  {
    var nodes := SimilarNodesSpec(Text(question), TopK, b.nodeEmbed, b.nodeCollection, b.nodeReply);
    BackendErrorsAreChroma(Text(question), TopK, b.nodeEmbed, b.nodeCollection, b.nodeReply);
    RagStopsAtFirstFailure(question, b);
    assert BackendError(nodes.error);
  }

  /** A greeting whose two direct calls both fail raises an LLMError that
      names the first failure. */
  lemma GreetingDoubleFailure(question: string, bypass: bool, entries: map<string, CacheEntry>, b: Backends,
                              cached: Result<Option<CacheHit>>, rag: Result<Draft>)
    requires question != ""
    requires b.direct(0).Failure? && b.direct(1).Failure?
    ensures AnswerWith(question, bypass, entries, b, true, cached, rag).0
         == Failure(Error(LlmError, BothFailedPrefix + DirectErrorPrefix + b.direct(0).error.message))
  {
    assert BothFailedPrefix + (DirectErrorPrefix + b.direct(0).error.message)
        == BothFailedPrefix + DirectErrorPrefix + b.direct(0).error.message;
  }

  // ---------------------------------------------------------------------
  // stream_answer
  // ---------------------------------------------------------------------

  /** What a streaming run produces: the fragments it yields, and the error
      it raises after them, if any. */
  datatype StreamRun = StreamRun(fragments: seq<string>, failure: Option<Error>)

  /** `rag_chain.stream(question)`: the same retrieval, expansion and
      context as `answer_question`, then the LLM's fragments for the
      prompt. A failure before the prompt is raised before any fragment. */
  function StreamChainSpec(question: string, b: Backends): StreamRun {
    match GroundSpec(question, b)
    case Failure(e) => StreamRun([], Some(e))
    case Success(g) => b.stream(BuildPrompt(g.context, question))
  }

  method StreamChain(question: string, b: Backends) returns (run: StreamRun)
    ensures run == StreamChainSpec(question, b)
  {
    var grounding := Ground(question, b);
    if grounding.Failure? {
      return StreamRun([], Some(grounding.error));
    }
    run := b.stream(BuildPrompt(grounding.value.context, question));
  }

  /** What the generator yields, and the error it finally raises, if any. */
  datatype StreamOutput = StreamOutput(yielded: seq<string>, raised: Option<Error>)

  /** `"".join(buf)` */
  function Concat(fragments: seq<string>): string {
    Flatten(fragments)
  }

  /** The end of the streaming `try` block after a complete stream whose
      text is `final` (with its negative-marker test): fall back on a
      negative marker, otherwise format and store unless bypassed. */
  function StreamFinishSpec(question: string, bypass: bool, entries: map<string, CacheEntry>,
                            b: Backends, fragments: seq<string>, final: string, negative: bool)
    : (seq<string>, Option<(Error, nat)>, map<string, CacheEntry>)
  {
    if negative then
      match Direct(b, 0)
      case Success(a) => (fragments + [a], None, entries)
      case Failure(e) => (fragments, Some((e, 1)), entries)
    else if bypass then (fragments, None, entries)
    else
      var (formatted, references) := FormatSpec(final);
      var (stored, after) := StoreSpec(entries, question, formatted, references,
                                       b.storeEmbed, b.storeUpsert, b.dumps);
      if stored.Fail? then (fragments, Some((stored.error, 0)), after)
      else (fragments, None, after)
  }

  /** The `try` block of `stream_answer` for a non-empty question, given
      whether it is a greeting, the outcome of the cache check and whether
      the streamed text carries a negative marker: what it yields, the
      error it raises with the number of direct calls made, and the cache
      contents afterwards. */
  function StreamTrySpec(question: string, bypass: bool, entries: map<string, CacheEntry>, b: Backends,
                         greeting: bool, cached: Result<Option<CacheHit>>, run: StreamRun, negative: bool)
    : (seq<string>, Option<(Error, nat)>, map<string, CacheEntry>)
  {
    if greeting then
      match Direct(b, 0)
      case Success(a) => ([a], None, entries)
      case Failure(e) => ([], Some((e, 1)), entries)
    else if cached.Failure? then ([], Some((cached.error, 0)), entries)
    else if cached.value.Some? then ([cached.value.value.answer], None, entries)
    else if run.failure.Some? then (run.fragments, Some((run.failure.value, 0)), entries)
    else StreamFinishSpec(question, bypass, entries, b, run.fragments, Concat(run.fragments), negative)
  }

  /** `stream_answer` given the question's classification, the outcome of
      the cache check and the negative-marker test on the streamed text:
      everything yielded, the error finally raised, and the cache contents
      afterwards. */
  function StreamWith(question: string, bypass: bool, entries: map<string, CacheEntry>, b: Backends,
                      greeting: bool, cached: Result<Option<CacheHit>>, run: StreamRun, negative: bool)
    : (StreamOutput, map<string, CacheEntry>)
  {
    if question == "" then (StreamOutput([EmptyQuestionReply], None), entries)
    else
      var (yielded, raised, after) := StreamTrySpec(question, bypass, entries, b, greeting, cached, run, negative);
      match raised
      case None => (StreamOutput(yielded, None), after)
      case Some((e, n)) =>
        match Direct(b, n)
        case Success(a) => (StreamOutput(yielded + [a], None), after)
        case Failure(e2) =>
          if BackendError(e) then (StreamOutput(yielded, Some(e2)), after)
          else (StreamOutput(yielded + [StreamErrorPrefix + BothFailedPrefix + e.message], None), after)
  }

  /** `stream_answer(question, bypass_cache)` */
  function StreamSpec(question: string, bypass: bool, threshold: real,
                      entries: map<string, CacheEntry>, b: Backends)
    : (StreamOutput, map<string, CacheEntry>)
  {
    var run := StreamChainSpec(question, b);
    StreamWith(question, bypass, entries, b, IsGreeting(question), CheckCache(question, bypass, threshold, b),
               run, HasNegativeMarker(Concat(run.fragments)))
  }

  /** The streaming loop: each fragment is yielded as it arrives and also
      collected, and the collected text is their concatenation. */
  method Forward(fragments: seq<string>) returns (yielded: seq<string>, final: string)
    ensures yielded == fragments && final == Concat(fragments)
  {
    var buf: seq<string> := [];
    final := "";
    yielded := [];
    var i := 0;
    while i < |fragments|
      invariant 0 <= i <= |fragments|
      invariant buf == fragments[..i] && yielded == buf
      invariant final == Concat(buf)
    {
      var s := fragments[i];
      FlattenAppend(buf, s);
      buf := buf + [s];
      final := final + s;
      yielded := yielded + [s];
      i := i + 1;
    }
    assert buf == fragments;
  }

  /** The end of the streaming `try` block, run against the cache object. */
  method RunStreamFinish(question: string, bypass: bool, cache: SemanticCache, b: Backends,
                         yielded: seq<string>, final: string)
    returns (out: seq<string>, raised: Option<(Error, nat)>)
    modifies cache
    ensures (out, raised, cache.entries)
         == StreamFinishSpec(question, bypass, old(cache.entries), b, yielded, final, HasNegativeMarker(final))
  {
    if HasNegativeMarker(final) {
      var direct := Direct(b, 0);
      if direct.Failure? {
        return yielded, Some((direct.error, 1));
      }
      return yielded + [direct.value], None;
    }
    if !bypass {
      var formatted, references := FormatResponse(final);
      var stored := cache.Store(question, formatted, references, b.storeEmbed, b.storeUpsert, b.dumps);
      if stored.Fail? {
        return yielded, Some((stored.error, 0));
      }
    }
    out, raised := yielded, None;
  }

  /** The `try` block of `stream_answer`, run against the cache object. */
  method RunStreamTry(question: string, bypass: bool, cache: SemanticCache, b: Backends)
    returns (yielded: seq<string>, raised: Option<(Error, nat)>)
    modifies cache
    ensures (yielded, raised, cache.entries)
         == StreamTrySpec(question, bypass, old(cache.entries), b, IsGreeting(question),
                          CheckCache(question, bypass, cache.threshold, b), StreamChainSpec(question, b),
                          HasNegativeMarker(Concat(StreamChainSpec(question, b).fragments)))
  {
    if IsGreeting(question) {
      var direct := Direct(b, 0);
      if direct.Failure? {
        return [], Some((direct.error, 1));
      }
      return [direct.value], None;
    }
    if !bypass {
      var cached := cache.Lookup(question, b.lookupEmbed, b.lookupReply, b.loads);
      if cached.Failure? {
        return [], Some((cached.error, 0));
      }
      if cached.value.Some? {
        return [cached.value.value.answer], None;
      }
    }
    var run := StreamChain(question, b);
    var forwarded, final := Forward(run.fragments);
    if run.failure.Some? {
      return forwarded, Some((run.failure.value, 0));
    }
    yielded, raised := RunStreamFinish(question, bypass, cache, b, forwarded, final);
  }

  /** `stream_answer(question, bypass_cache)` */
  method StreamAnswer(question: string, bypass: bool, cache: SemanticCache, b: Backends)
    returns (out: StreamOutput)
    modifies cache
    ensures (out, cache.entries) == StreamSpec(question, bypass, cache.threshold, old(cache.entries), b)
  {
    if question == "" {
      return StreamOutput([EmptyQuestionReply], None);
    }
    var yielded, raised := RunStreamTry(question, bypass, cache, b);
    if raised.None? {
      return StreamOutput(yielded, None);
    }
    var (e, n) := raised.value;
    var direct := Direct(b, n);
    if direct.Success? {
      out := StreamOutput(yielded + [direct.value], None);
    } else if BackendError(e) {
      out := StreamOutput(yielded, Some(direct.error));
    } else {
      out := StreamOutput(yielded + [StreamErrorPrefix + BothFailedPrefix + e.message], None);
    }
  }

  // ---------------------------------------------------------------------
  // Properties of stream_answer
  // ---------------------------------------------------------------------

  /** An empty question, a greeting answered directly, and a cache hit each
      yield exactly one fragment and write nothing. */
  lemma StreamShortCircuitsYieldOne(question: string, bypass: bool, entries: map<string, CacheEntry>,
                                    b: Backends, greeting: bool, cached: Result<Option<CacheHit>>,
                                    run: StreamRun, negative: bool)
    ensures question == "" ==>
              StreamWith(question, bypass, entries, b, greeting, cached, run, negative)
              == (StreamOutput([EmptyQuestionReply], None), entries)
    ensures question != "" && greeting && b.direct(0).Success? ==>
              StreamWith(question, bypass, entries, b, greeting, cached, run, negative)
              == (StreamOutput([b.direct(0).value], None), entries)
    ensures question != "" && !greeting && cached.Success? && cached.value.Some? ==>
              StreamWith(question, bypass, entries, b, greeting, cached, run, negative)
              == (StreamOutput([cached.value.value.answer], None), entries)
  {
  }

  /** On the RAG path the chain's fragments are yielded first, in order. */
  lemma StreamForwardsFragments(question: string, bypass: bool, entries: map<string, CacheEntry>,
                                b: Backends, run: StreamRun, negative: bool)
    requires question != ""
    ensures var out := StreamWith(question, bypass, entries, b, false, Success(None), run, negative).0;
            run.fragments <= out.yielded
  {
    var (yielded, raised, after) := StreamTrySpec(question, bypass, entries, b, false, Success(None), run, negative);
    assert run.fragments <= yielded;
  }

  /** When the streamed answer admits it found nothing, exactly one more
      fragment, the direct answer, is yielded and nothing is stored. */
  lemma StreamNegativeYieldsOneMore(question: string, bypass: bool, entries: map<string, CacheEntry>,
                                    b: Backends, run: StreamRun)
    requires question != "" && run.failure.None?
    requires b.direct(0).Success?
    ensures StreamWith(question, bypass, entries, b, false, Success(None), run, true)
         == (StreamOutput(run.fragments + [b.direct(0).value], None), entries)
  {
  }

  /** The cache contents after the generator are those after its `try`
      block: the handlers never write the cache. */
  lemma StreamCacheIsTryCache(question: string, bypass: bool, entries: map<string, CacheEntry>,
                              b: Backends, greeting: bool, cached: Result<Option<CacheHit>>,
                              run: StreamRun, negative: bool)
    requires question != ""
    ensures StreamWith(question, bypass, entries, b, greeting, cached, run, negative).1
         == StreamTrySpec(question, bypass, entries, b, greeting, cached, run, negative).2
  {
  }

  /** The end of the streaming `try` block writes the cache only when the
      text has no negative marker and the cache is not bypassed. */
  lemma StreamFinishStores(question: string, bypass: bool, entries: map<string, CacheEntry>,
                           b: Backends, fragments: seq<string>, final: string, negative: bool)
    ensures var after := StreamFinishSpec(question, bypass, entries, b, fragments, final, negative).2;
            after != entries ==>
              && !bypass && !negative && b.storeEmbed.Success?
              && var (formatted, references) := FormatSpec(final);
                 after == entries[question := CacheEntry(b.storeEmbed.value, question, formatted, b.dumps(references))]
  {
    if !negative && !bypass {
      var (formatted, references) := FormatSpec(final);
      var (stored, written) := StoreSpec(entries, question, formatted, references,
                                         b.storeEmbed, b.storeUpsert, b.dumps);
      assert StreamFinishSpec(question, bypass, entries, b, fragments, final, negative).2 == written;
    }
  }

  /** The stream writes the cache only after a complete stream without a
      negative marker and without bypass, and it writes the formatted
      streamed text and its references under the question. */
  lemma StreamStoresOnlyCleanAnswers(question: string, bypass: bool, entries: map<string, CacheEntry>,
                                     b: Backends, greeting: bool, cached: Result<Option<CacheHit>>,
                                     run: StreamRun, negative: bool)
    ensures var after := StreamWith(question, bypass, entries, b, greeting, cached, run, negative).1;
            after != entries ==>
              && !bypass && question != "" && !greeting && cached == Success(None)
              && run.failure.None? && !negative && b.storeEmbed.Success?
              && var (formatted, references) := FormatSpec(Concat(run.fragments));
                 after == entries[question := CacheEntry(b.storeEmbed.value, question, formatted, b.dumps(references))]
  {
    if question != "" {
      StreamCacheIsTryCache(question, bypass, entries, b, greeting, cached, run, negative);
      if !greeting && cached == Success(None) && run.failure.None? {
        StreamFinishStores(question, bypass, entries, b, run.fragments, Concat(run.fragments), negative);
      }
    }
  }

  /** A failure other than a ChromaError or EmbeddingError never escapes the
      generator: when the fallback fails too, an "Error: ..." fragment is
      yielded instead. The only error raised is the LLMError of a failed
      fallback after a ChromaError or EmbeddingError. */
  lemma StreamRaisesOnlyFallbackErrors(question: string, bypass: bool, entries: map<string, CacheEntry>,
                                       b: Backends, greeting: bool, cached: Result<Option<CacheHit>>,
                                       run: StreamRun, negative: bool)
    ensures var out := StreamWith(question, bypass, entries, b, greeting, cached, run, negative).0;
            out.raised.Some? ==>
              && out.raised.value.kind == LlmError
              && (exists n: nat :: b.direct(n).Failure?
                                   && out.raised.value.message == DirectErrorPrefix + b.direct(n).error.message)
  {
    if question != "" {
      var (yielded, raised, after) := StreamTrySpec(question, bypass, entries, b, greeting, cached, run, negative);
      if raised.Some? {
        var n := raised.value.1;
        assert Direct(b, n).Failure? ==> b.direct(n).Failure?;
      }
    }
  }

  /** A failed stream whose fallback also fails ends with the "Error: ..."
      fragment after the fragments already yielded. */
  lemma StreamDoubleFailureYieldsError(question: string, bypass: bool, entries: map<string, CacheEntry>,
                                       b: Backends, run: StreamRun, negative: bool)
    requires question != "" && run.failure.Some? && !BackendError(run.failure.value)
    requires b.direct(0).Failure?
    ensures StreamWith(question, bypass, entries, b, false, Success(None), run, negative)
         == (StreamOutput(run.fragments + [StreamErrorPrefix + BothFailedPrefix + run.failure.value.message], None),
             entries)
  {
    var e := run.failure.value;
    assert StreamTrySpec(question, bypass, entries, b, false, Success(None), run, negative)
        == (run.fragments, Some((e, 0)), entries);
    assert Direct(b, 0).Failure?;
  }

  /** The stream and `answer_question` run the same chain. When the LLM
      streams, for the prompt, exactly the text it returns in one piece, and
      neither negative-marker test fires (the stream tests the raw text,
      `answer_question` the formatted one), both leave the cache the same;
      and when the store succeeds or is bypassed, the stream yields the
      fragments and nothing else, and `answer_question` returns their
      concatenation formatted by `format_response`, with its references. */
  lemma StreamAgreesWithAnswer(question: string, bypass: bool, threshold: real,
                               entries: map<string, CacheEntry>, b: Backends)
    requires question != "" && !IsGreeting(question)
    requires CheckCache(question, bypass, threshold, b) == Success(None)
    requires GroundSpec(question, b).Success?
    requires var prompt := BuildPrompt(GroundSpec(question, b).value.context, question);
             && b.stream(prompt).failure.None?
             && b.generate(prompt) == Success(Concat(b.stream(prompt).fragments))
    requires var final := Concat(StreamChainSpec(question, b).fragments);
             !HasNegativeMarker(final) && !HasNegativeMarker(FormatSpec(final).0)
    ensures StreamSpec(question, bypass, threshold, entries, b).1 == AnswerSpec(question, bypass, threshold, entries, b).1
    ensures var fragments := StreamChainSpec(question, b).fragments;
            var formatted := FormatSpec(Concat(fragments));
            var r := AnswerSpec(question, bypass, threshold, entries, b).0;
            bypass || StoreSpec(entries, question, formatted.0, formatted.1, b.storeEmbed, b.storeUpsert, b.dumps).0.Pass? ==>
              && StreamSpec(question, bypass, threshold, entries, b).0 == StreamOutput(fragments, None)
              && r.Success? && r.value.answer == formatted.0 && r.value.references == formatted.1
  {
    var g := GroundSpec(question, b).value;
    var run := StreamChainSpec(question, b);
    var final := Concat(run.fragments);
    var (formatted, references) := FormatSpec(final);
    var d := Draft(g.context, g.retrieved, formatted, references, false);
    StreamChainIsRag(question, b);
    assert Drafted(RagSpec(question, b)) == Success(d);
    StreamCleanEnd(question, bypass, entries, b, run);
    AnswerCleanEnd(question, bypass, entries, b, d);
  }

  /** With the LLM streaming the text it returns in one piece, the stream's
      run is the chain's generation for the same prompt. */
  lemma StreamChainIsRag(question: string, b: Backends)
    requires GroundSpec(question, b).Success?
    requires var prompt := BuildPrompt(GroundSpec(question, b).value.context, question);
             b.generate(prompt) == Success(Concat(b.stream(prompt).fragments))
    ensures var g := GroundSpec(question, b).value;
            var run := b.stream(BuildPrompt(g.context, question));
            && StreamChainSpec(question, b) == run
            && RagSpec(question, b) == Success((g, Concat(run.fragments)))
  {
  }

  /** After a complete stream without a negative marker, the cache is
      written with the formatted text unless bypassed, and when that store
      succeeds (or is bypassed) the fragments are all that is yielded. */
  lemma StreamCleanEnd(question: string, bypass: bool, entries: map<string, CacheEntry>, b: Backends,
                       run: StreamRun)
    requires question != "" && run.failure.None?
    ensures var formatted := FormatSpec(Concat(run.fragments));
            var stored := StoreSpec(entries, question, formatted.0, formatted.1, b.storeEmbed, b.storeUpsert, b.dumps);
            var out := StreamWith(question, bypass, entries, b, false, Success(None), run, false);
            && out.1 == (if bypass then entries else stored.1)
            && (bypass || stored.0.Pass? ==> out.0 == StreamOutput(run.fragments, None))
  {
    var t := StreamTrySpec(question, bypass, entries, b, false, Success(None), run, false);
    StreamWithKeepsTry(question, bypass, entries, b, false, Success(None), run, false);
    var formatted := FormatSpec(Concat(run.fragments));
    var stored := StoreSpec(entries, question, formatted.0, formatted.1, b.storeEmbed, b.storeUpsert, b.dumps);
    assert t == StreamFinishSpec(question, bypass, entries, b, run.fragments, Concat(run.fragments), false);
    assert t.0 == run.fragments && t.2 == (if bypass then entries else stored.1);
    assert bypass || stored.0.Pass? ==> t.1 == None;
  }

  /** `stream_answer` leaves the cache as its `try` block left it, and when
      the block raises nothing it yields exactly what the block yielded. */
  lemma StreamWithKeepsTry(question: string, bypass: bool, entries: map<string, CacheEntry>, b: Backends,
                           greeting: bool, cached: Result<Option<CacheHit>>, run: StreamRun, negative: bool)
    requires question != ""
    ensures var t := StreamTrySpec(question, bypass, entries, b, greeting, cached, run, negative);
            var out := StreamWith(question, bypass, entries, b, greeting, cached, run, negative);
            && out.1 == t.2
            && (t.1 == None ==> out.0 == StreamOutput(t.0, None))
  {
  }

  /** After a drafted answer without a negative marker, the cache is written
      with it unless bypassed, and when that store succeeds (or is
      bypassed) the reply is the draft with its context and details. */
  lemma AnswerCleanEnd(question: string, bypass: bool, entries: map<string, CacheEntry>, b: Backends, d: Draft)
    requires question != "" && !d.negative
    ensures var stored := StoreSpec(entries, question, d.answer, d.references, b.storeEmbed, b.storeUpsert, b.dumps);
            var out := AnswerWith(question, bypass, entries, b, false, Success(None), Success(d));
            && out.1 == (if bypass then entries else stored.1)
            && (bypass || stored.0.Pass? ==>
                  out.0 == Success(Reply(d.answer, d.references, Some(d.context), Some(DetailsOf(d.retrieved, b)))))
  {
    assert TrySpec(question, bypass, entries, b, false, Success(None), Success(d))
        == FinishSpec(question, bypass, entries, b, d);
  }
}
