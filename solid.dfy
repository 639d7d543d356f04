/** The older dependency-injected pipeline of core/graphrag_solid.py:
    `GraphRAGSystem.answer_question` with its helpers.

    It shares the context layout (`Context.BuildContext`), the prompt
    (`Context.BuildPrompt`) and the citation formatting (the text part of
    `Citations.FormatSpec`) with core/graphrag.py, but differs in its
    control flow: no greeting or negative-marker handling, the
    `SemanticCacheProvider` of core/services.py as cache, and errors either
    re-raised or wrapped in GraphRAGError instead of a direct-answer
    fallback. The services (embedder, vector store, graph database, LLM) are
    oracles in `SolidBackends`. */
module Solid {
  import opened Common
  import opened Retrieval
  import opened Citations
  import opened Context
  import opened Services

  // ---------------------------------------------------------------------
  // _process_query_results
  // ---------------------------------------------------------------------

  /** A Chroma query result dictionary: each key is absent (`None`) or maps
      to one list per query vector. */
  datatype RawResults = RawResults(
    ids: Option<seq<seq<string>>>,
    documents: Option<seq<seq<string>>>,
    distances: Option<seq<seq<real>>>,
    metadatas: Option<seq<seq<Value>>>)

  /** An empty dictionary is falsy. */
  predicate IsEmptyDict(r: RawResults) {
    r.ids.None? && r.documents.None? && r.distances.None? && r.metadatas.None?
  }

  const KeyErrorIds: string := "'ids'"
  const IndexErrorText: string := "list index out of range"

  /** `results.get(key, [[]])[0]`: the first list, the empty list when the
      key is absent, an IndexError when the outer list is empty. */
  function FirstRow<T>(v: Option<seq<seq<T>>>): (r: Result<seq<T>>)
    ensures v.None? ==> r == Success([])
    ensures v.Some? && v.value == [] ==> r == Failure(Error(OtherError, IndexErrorText))
    ensures v.Some? && v.value != [] ==> r == Success(v.value[0])
  {
    match v
    case None => Success([])
    case Some(rows) => if rows == [] then Failure(Error(OtherError, IndexErrorText)) else Success(rows[0])
  }

  /** `_process_query_results(results)` */
  function ProcessSpec(results: Option<RawResults>): Result<seq<Hit>> {
    if results.None? || IsEmptyDict(results.value) then Success([])
    else
      var r := results.value;
      if r.ids.None? then Failure(Error(OtherError, KeyErrorIds))
      else if r.ids.value == [] then Success([])
      else
        var ids := r.ids.value[0];
        match (FirstRow(r.documents), FirstRow(r.distances), FirstRow(r.metadatas))
        case (Success(docs), Success(dists), Success(metas)) =>
          Success(SortDesc(ZipRows(QueryReply(ids, docs, dists, metas))))
        case (Failure(e), _, _) => Failure(e)
        case (_, Failure(e), _) => Failure(e)
        case (_, _, Failure(e)) => Failure(e)
  }

  /** The append loop followed by `sorted(..., reverse=True)`. */
  method ProcessQueryResults(results: Option<RawResults>) returns (r: Result<seq<Hit>>)
    ensures r == ProcessSpec(results)
  {
    if results.None? || IsEmptyDict(results.value) {
      return Success([]);
    }
    var raw := results.value;
    if raw.ids.None? {
      return Failure(Error(OtherError, KeyErrorIds));
    }
    if raw.ids.value == [] {
      return Success([]);
    }
    var docs := FirstRow(raw.documents);
    if docs.Failure? {
      return Failure(docs.error);
    }
    var dists := FirstRow(raw.distances);
    if dists.Failure? {
      return Failure(dists.error);
    }
    var metas := FirstRow(raw.metadatas);
    if metas.Failure? {
      return Failure(metas.error);
    }
    var documents := MapRows(QueryReply(raw.ids.value[0], docs.value, dists.value, metas.value));
    r := Success(SortDesc(documents));
  }

  /** No result, an empty dictionary or an empty id list gives no entry. */
  lemma ProcessEmptyResults(results: Option<RawResults>)
    requires results.None? || IsEmptyDict(results.value) || results.value.ids == Some([])
    ensures ProcessSpec(results) == Success([])
  {
  }

  /** Otherwise the entries are those of the zipped first row, with
      similarity `1 - distance`, sorted by non-increasing similarity. */
  lemma ProcessSortsZippedRows(ids: seq<string>, docs: seq<string>, dists: seq<real>, metas: seq<Value>)
    ensures var r := ProcessSpec(Some(RawResults(Some([ids]), Some([docs]), Some([dists]), Some([metas]))));
            var zipped := ZipRows(QueryReply(ids, docs, dists, metas));
            && r.Success?
            && SortedDesc(r.value)
            && multiset(r.value) == multiset(zipped)
            && |r.value| == RowCount(QueryReply(ids, docs, dists, metas))
            && (forall h :: h in r.value ==>
                  exists k :: 0 <= k < |zipped| && h == Hit(ids[k], docs[k], 1.0 - dists[k], metas[k]))
  {
    var zipped := ZipRows(QueryReply(ids, docs, dists, metas));
    var sorted := SortDesc(zipped);
    forall h | h in sorted
      ensures exists k :: 0 <= k < |zipped| && h == Hit(ids[k], docs[k], 1.0 - dists[k], metas[k])
    {
      assert h in multiset(sorted);
      assert h in multiset(zipped);
      var k :| 0 <= k < |zipped| && zipped[k] == h;
    }
  }

  // ---------------------------------------------------------------------
  // _format_response
  // ---------------------------------------------------------------------

  /** `_format_response(answer)`: the text `format_response` of
      core/graphrag.py produces, without the reference list. */
  function FormatText(answer: string): string {
    FormatSpec(answer).0
  }

  /** The text is unchanged when it already has a References marker or
      cites nothing; otherwise the stripped body is followed by one bullet
      per distinct tag, in first-seen order. */
  lemma FormatTextRules(answer: string)
    ensures HasReferencesMarker(answer) ==> FormatText(answer) == answer
    ensures LinesTags(Split(answer, '\n')) == [] ==> FormatText(answer) == answer
    ensures !HasReferencesMarker(answer) && LinesTags(Split(answer, '\n')) != [] ==>
              var refs := Dedup(LinesTags(Split(answer, '\n')));
              && FormatText(answer) == Strip(answer) + ReferencesHeader + Join(Bullets(refs), "\n")
              && NoDuplicates(refs) && (forall u :: u in refs ==> IsTag(u))
  {
    FormatReferencesAreUniqueTags(answer);
  }

  // ---------------------------------------------------------------------
  // GraphRAGSystem
  // ---------------------------------------------------------------------

  /** Everything the services answer during one `answer_question` call. */
  datatype SolidBackends = SolidBackends(
    embed: Result<seq<real>>,
    nodeQuery: Result<Option<RawResults>>,
    codeQuery: Result<Option<RawResults>>,
    expandNeighbors: seq<string> -> Result<seq<string>>,
    generate: string -> Result<string>,
    fmt: real -> string,
    lookupEmbed: Result<seq<real>>,
    lookupReply: Result<seq<Row>>,
    loads: string -> Option<seq<string>>,
    storeEmbed: Result<seq<real>>,
    freshId: string,
    add: Outcome,
    dumps: seq<string> -> string)

  const EmptyQuestionReply: string := "Please provide a valid question."
  const WrapPrefix: string := "Answer generation failed: "
  const GroqErrorPrefix: string := "LLM generation failed: "
  const QueryResults: nat := 8

  /** `GroqLLMProvider.generate`: a failing model call becomes a plain
      exception (not an LLMError). */
  function GroqGenerate(invoke: Result<string>): (r: Result<string>)
    ensures invoke.Success? ==> r == invoke
    ensures invoke.Failure? ==> r == Failure(Error(OtherError, GroqErrorPrefix + invoke.error.message))
  {
    match invoke
    case Success(text) => Success(text)
    case Failure(e) => Failure(Error(OtherError, GroqErrorPrefix + e.message))
  }

  /** The ids of the retrieved nodes. */
  function NodeIds(nodes: seq<Hit>): (ids: seq<string>)
    ensures |ids| == |nodes| && forall k :: 0 <= k < |nodes| ==> ids[k] == nodes[k].id
  {
    seq(|nodes|, k requires 0 <= k < |nodes| => nodes[k].id)
  }

  /** Neighbours are fetched (depth 1, from the node ids) only when Neo4j is
      enabled. */
  function NeighborsSpec(useNeo4j: bool, nodes: seq<Hit>, b: SolidBackends): Result<seq<string>> {
    if useNeo4j then b.expandNeighbors(NodeIds(nodes)) else Success([])
  }

  /** `_generate_answer(question)`: the first failing call raises. */
  function GenerateSpec(question: string, useNeo4j: bool, b: SolidBackends): Result<string> {
    if b.embed.Failure? then Failure(b.embed.error)
    else if b.nodeQuery.Failure? then Failure(b.nodeQuery.error)
    else
      var nodes := ProcessSpec(b.nodeQuery.value);
      if nodes.Failure? then Failure(nodes.error)
      else if b.codeQuery.Failure? then Failure(b.codeQuery.error)
      else
        var chunks := ProcessSpec(b.codeQuery.value);
        if chunks.Failure? then Failure(chunks.error)
        else
          var neighbors := NeighborsSpec(useNeo4j, nodes.value, b);
          if neighbors.Failure? then Failure(neighbors.error)
          else
            var context := Join(ContextParts(nodes.value, chunks.value, neighbors.value, b.fmt), "\n");
            b.generate(BuildPrompt(context, question))
  }

  /** The two handlers: ChromaError, EmbeddingError and LLMError propagate
      unchanged, anything else becomes a GraphRAGError. */
  function HandleSpec(e: Error): (w: Error) {
    if e.kind == ChromaError || e.kind == EmbeddingError || e.kind == LlmError then e
    else Error(GraphRagError, WrapPrefix + e.message)
  }

  /** `answer_question(question)` given the cache provider's lookup and the
      outcome of `_generate_answer`: the returned text (the cached answer
      may be absent) or the raised error, and the provider's items
      afterwards. */
  function SolidWith(question: string, items: seq<Item>, b: SolidBackends,
                     cached: Option<ProviderHit>, generated: Result<string>)
    : (Result<Option<string>>, seq<Item>)
  {
    if question == "" then (Success(Some(EmptyQuestionReply)), items)
    else if cached.Some? then (Success(cached.value.answer), items)
    else if generated.Failure? then (Failure(HandleSpec(generated.error)), items)
    else
      var formatted := FormatText(generated.value);
      (Success(Some(formatted)),
       ProviderStoreSpec(items, question, formatted, None, b.storeEmbed, b.freshId, b.add, b.dumps))
  }

  /** `answer_question(question)` */
  function SolidSpec(question: string, useNeo4j: bool, threshold: real, items: seq<Item>, b: SolidBackends)
    : (Result<Option<string>>, seq<Item>)
  {
    SolidWith(question, items, b, ProviderLookupSpec(threshold, b.lookupEmbed, b.lookupReply, b.loads),
              GenerateSpec(question, useNeo4j, b))
  }

  class GraphRagSystem {
    const useNeo4j: bool
    const cache: SemanticCacheProvider

    constructor (useNeo4j: bool, cache: SemanticCacheProvider)
      ensures this.useNeo4j == useNeo4j && this.cache == cache
    {
      this.useNeo4j := useNeo4j;
      this.cache := cache;
    }

    /** `_generate_answer(question)` */
    method GenerateAnswer(question: string, b: SolidBackends) returns (r: Result<string>)
      ensures r == GenerateSpec(question, useNeo4j, b)
    {
      if b.embed.Failure? {
        return Failure(b.embed.error);
      }
      if b.nodeQuery.Failure? {
        return Failure(b.nodeQuery.error);
      }
      var nodes := ProcessQueryResults(b.nodeQuery.value);
      if nodes.Failure? {
        return Failure(nodes.error);
      }
      if b.codeQuery.Failure? {
        return Failure(b.codeQuery.error);
      }
      var chunks := ProcessQueryResults(b.codeQuery.value);
      if chunks.Failure? {
        return Failure(chunks.error);
      }
      var neighbors: seq<string> := [];
      if useNeo4j {
        var expanded := b.expandNeighbors(NodeIds(nodes.value));
        if expanded.Failure? {
          return Failure(expanded.error);
        }
        neighbors := expanded.value;
      }
      var context := BuildContext(nodes.value, chunks.value, neighbors, b.fmt);
      r := b.generate(BuildPrompt(context, question));
    }

    /** `answer_question(question)` */
    method AnswerQuestion(question: string, b: SolidBackends) returns (r: Result<Option<string>>)
      modifies cache
      ensures (r, cache.items) == SolidSpec(question, useNeo4j, cache.threshold, old(cache.items), b)
    {
      if question == "" {
        return Success(Some(EmptyQuestionReply));
      }
      var cached := cache.Lookup(b.lookupEmbed, b.lookupReply, b.loads);
      if cached.Some? {
        return Success(cached.value.answer);
      }
      var answer := GenerateAnswer(question, b);
      if answer.Failure? {
        return Failure(HandleSpec(answer.error));
      }
      var formatted, _ := FormatResponse(answer.value);
      cache.Store(question, formatted, None, b.storeEmbed, b.freshId, b.add, b.dumps);
      r := Success(Some(formatted));
    }
  }

  // ---------------------------------------------------------------------
  // Properties
  // ---------------------------------------------------------------------

  /** An empty question gets the fixed reply whatever the cache and the
      services would answer, and nothing is stored. */
  lemma SolidEmptyQuestion(items: seq<Item>, b: SolidBackends, cached: Option<ProviderHit>, generated: Result<string>,
                           b': SolidBackends, cached': Option<ProviderHit>, generated': Result<string>)
    ensures SolidWith("", items, b, cached, generated) == (Success(Some(EmptyQuestionReply)), items)
    ensures SolidWith("", items, b, cached, generated) == SolidWith("", items, b', cached', generated')
  {
  }

  /** A cache hit returns the cached answer: nothing is generated (the
      outcome does not depend on generation) and nothing is stored. */
  lemma SolidCacheHit(question: string, items: seq<Item>, b: SolidBackends, hit: ProviderHit,
                      generated: Result<string>, generated': Result<string>)
    requires question != ""
    ensures SolidWith(question, items, b, Some(hit), generated) == (Success(hit.answer), items)
    ensures SolidWith(question, items, b, Some(hit), generated) == SolidWith(question, items, b, Some(hit), generated')
  {
  }

  /** A miss returns the formatted generated text and stores exactly that
      text under the question (references default to the empty list). */
  lemma SolidMissStores(question: string, items: seq<Item>, b: SolidBackends, raw: string)
    requires question != "" && b.storeEmbed.Success? && b.add.Pass?
    ensures var (r, after) := SolidWith(question, items, b, None, Success(raw));
            && r == Success(Some(FormatText(raw)))
            && after == items + [Item(b.freshId, b.storeEmbed.value, question,
                                      map["answer" := FormatText(raw), "references" := b.dumps([])])]
  {
  }

  /** A failure of generation stores nothing; ChromaError, EmbeddingError
      and LLMError come out unchanged, any other error as a GraphRAGError
      carrying its message. */
  lemma SolidErrors(question: string, items: seq<Item>, b: SolidBackends, e: Error)
    requires question != ""
    ensures var (r, after) := SolidWith(question, items, b, None, Failure(e));
            && after == items && r.Failure?
            && ((e.kind == ChromaError || e.kind == EmbeddingError || e.kind == LlmError) ==> r.error == e)
            && (!(e.kind == ChromaError || e.kind == EmbeddingError || e.kind == LlmError) ==>
                  r.error == Error(GraphRagError, WrapPrefix + e.message))
  {
  }

  /** The Groq provider's failures are plain exceptions, so they reach the
      caller as GraphRAGError, not as LLMError. */
  lemma GroqFailureIsWrapped(question: string, items: seq<Item>, b: SolidBackends, e: Error)
    requires question != ""
    ensures var (r, _) := SolidWith(question, items, b, None, GroqGenerate(Failure(e)));
            r == Failure(Error(GraphRagError, WrapPrefix + GroqErrorPrefix + e.message))
  {
    assert WrapPrefix + (GroqErrorPrefix + e.message) == WrapPrefix + GroqErrorPrefix + e.message;
  }

  /** Without Neo4j the graph database is never consulted: generation does
      not depend on it. */
  lemma NeighborsOnlyWithNeo4j(question: string, b: SolidBackends, expand: seq<string> -> Result<seq<string>>)
    ensures GenerateSpec(question, false, b) == GenerateSpec(question, false, b.(expandNeighbors := expand))
  {
  }

  /** With Neo4j, the neighbours are requested for the retrieved node ids,
      and a failure there is the failure of generation. */
  lemma NeighborsFromNodeIds(question: string, b: SolidBackends)
    requires b.embed.Success? && b.nodeQuery.Success? && b.codeQuery.Success?
    requires ProcessSpec(b.nodeQuery.value).Success? && ProcessSpec(b.codeQuery.value).Success?
    ensures var nodes := ProcessSpec(b.nodeQuery.value).value;
            var expanded := b.expandNeighbors(NodeIds(nodes));
            expanded.Failure? ==> GenerateSpec(question, true, b) == Failure(expanded.error)
  {
  }
}
