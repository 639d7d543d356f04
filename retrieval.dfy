/** Vector retrieval: `retrieve_similar_nodes` of core/retrieval.py and
    `retrieve_code_chunks` / `expand_graph` of core/graphrag.py.

    The embedder, the Chroma collection and the Neo4j session are not
    modelled; each call takes their outcomes as parameters. A Chroma query
    reply is reduced to its first row (the reply for the single query
    vector): ids, documents, distances and metadatas. */
module Retrieval {
  import opened Common

  /** The first row of a Chroma query reply. */
  datatype QueryReply = QueryReply(
    ids: seq<string>,
    documents: seq<string>,
    distances: seq<real>,
    metadatas: seq<Value>)

  /** A retrieved entry: `{"id", "text", "similarity", "metadata"}`. */
  datatype Hit = Hit(id: string, text: string, similarity: real, metadata: Value)

  /** The query argument: a string or some other Python object, of which
      the model keeps the type name and the truthiness. */
  datatype QueryArg = Text(s: string) | NonText(typeName: string, truthy: bool)

  predicate QueryTruthy(q: QueryArg) {
    match q
    case Text(s) => s != ""
    case NonText(_, t) => t
  }

  function Min(a: nat, b: nat): nat { if a <= b then a else b }

  /** Number of tuples `zip(ids, docs, dists, metas)` produces. */
  function RowCount(reply: QueryReply): (n: nat)
    ensures n <= |reply.ids| && n <= |reply.documents|
    ensures n <= |reply.distances| && n <= |reply.metadatas|
    ensures n == |reply.ids| || n == |reply.documents| || n == |reply.distances| || n == |reply.metadatas|
  {
    Min(Min(|reply.ids|, |reply.documents|), Min(|reply.distances|, |reply.metadatas|))
  }

  /** The entries built from the zipped reply: cosine distance becomes
      similarity `1 - distance`, the rest is copied. */
  function ZipRows(reply: QueryReply): (hits: seq<Hit>)
    ensures |hits| == RowCount(reply)
    ensures forall k :: 0 <= k < |hits| ==>
              hits[k] == Hit(reply.ids[k], reply.documents[k], 1.0 - reply.distances[k], reply.metadatas[k])
  {
    seq(RowCount(reply), k requires 0 <= k < RowCount(reply) =>
      Hit(reply.ids[k], reply.documents[k], 1.0 - reply.distances[k], reply.metadatas[k]))
  }

  /** The `for ... in zip(...)` loop that appends one entry per tuple. */
  method MapRows(reply: QueryReply) returns (hits: seq<Hit>)
    ensures hits == ZipRows(reply)
  {
    var n := RowCount(reply);
    hits := [];
    var k := 0;
    while k < n
      invariant 0 <= k <= n
      invariant |hits| == k
      invariant forall j :: 0 <= j < k ==> hits[j] == ZipRows(reply)[j]
    {
      hits := hits + [Hit(reply.ids[k], reply.documents[k], 1.0 - reply.distances[k], reply.metadatas[k])];
      k := k + 1;
    }
  }

  // ---------------------------------------------------------------------
  // list.sort(key=similarity, reverse=True)
  // ---------------------------------------------------------------------

  predicate SortedDesc(s: seq<Hit>) {
    forall i, j :: 0 <= i < j < |s| ==> s[i].similarity >= s[j].similarity
  }

  /** Inserts `x` after every entry at least as similar (which keeps equal
      entries in their original order). */
  function InsertDesc(x: Hit, s: seq<Hit>): (r: seq<Hit>)
    requires SortedDesc(s)
    ensures SortedDesc(r)
    ensures multiset(r) == multiset(s) + multiset{x}
    ensures |r| == |s| + 1
    ensures r[0] == x || (s != [] && r[0] == s[0])
  {
    if s == [] then [x]
    else if s[0].similarity >= x.similarity then
      assert s == [s[0]] + s[1..];
      var rest := InsertDesc(x, s[1..]);
      assert s[0].similarity >= rest[0].similarity;
      assert SortedDesc([s[0]] + rest) by {
        forall i, j | 0 <= i < j < |rest| + 1
          ensures ([s[0]] + rest)[i].similarity >= ([s[0]] + rest)[j].similarity
        {
          if i == 0 && j > 1 {
            assert rest[0].similarity >= rest[j - 1].similarity;
          }
        }
      }
      [s[0]] + rest
    else [x] + s
  }

  /** The entries in non-increasing similarity. */
  function SortDesc(s: seq<Hit>): (r: seq<Hit>)
    ensures SortedDesc(r)
    ensures multiset(r) == multiset(s)
    ensures |r| == |s|
  {
    if s == [] then []
    else
      assert s == s[..|s| - 1] + [s[|s| - 1]];
      InsertDesc(s[|s| - 1], SortDesc(s[..|s| - 1]))
  }

  /** Sorting sorted entries changes nothing. */
  lemma {:induction false} SortDescOfSorted(s: seq<Hit>)
    requires SortedDesc(s)
    ensures SortDesc(s) == s
  {
    if s != [] {
      var init := s[..|s| - 1];
      SortDescOfSorted(init);
      InsertAtEnd(s[|s| - 1], init);
      assert init + [s[|s| - 1]] == s;
    }
  }

  lemma {:induction false} InsertAtEnd(x: Hit, s: seq<Hit>)
    requires SortedDesc(s)
    requires forall i :: 0 <= i < |s| ==> s[i].similarity >= x.similarity
    ensures InsertDesc(x, s) == s + [x]
  {
    if s != [] {
      InsertAtEnd(x, s[1..]);
      assert [s[0]] + (s[1..] + [x]) == s + [x];
    }
  }

  // ---------------------------------------------------------------------
  // Error wrapping
  // ---------------------------------------------------------------------

  /** `except ChromaError: raise` / `except Exception as exc: raise
      ChromaError(prefix + str(exc))` */
  function WrapChroma(prefix: string, e: Error): (w: Error)
    ensures w.kind == ChromaError
    ensures e.kind == ChromaError ==> w == e
    ensures e.kind != ChromaError ==> w.message == prefix + e.message
  {
    if e.kind == ChromaError then e else Error(ChromaError, prefix + e.message)
  }

  /** As `WrapChroma`, but an `EmbeddingError` passes through too. */
  function WrapChromaOrEmbedding(prefix: string, e: Error): (w: Error)
    ensures w.kind == ChromaError || w.kind == EmbeddingError
    ensures e.kind == ChromaError || e.kind == EmbeddingError ==> w == e
    ensures e.kind != ChromaError && e.kind != EmbeddingError ==> w == Error(ChromaError, prefix + e.message)
  {
    if e.kind == ChromaError || e.kind == EmbeddingError then e
    else Error(ChromaError, prefix + e.message)
  }

  // ---------------------------------------------------------------------
  // retrieve_similar_nodes
  // ---------------------------------------------------------------------

  const RetrievalErrorPrefix: string := "Retrieval error: "

  /** What `retrieve_similar_nodes(query, top_k)` returns or raises, given
      the outcome of embedding the query, of opening the node collection
      and of the query. */
  function SimilarNodesSpec(query: QueryArg, topK: int, embed: Result<seq<real>>,
                            collection: Outcome, reply: Result<QueryReply>): Result<seq<Hit>>
  {
    if !QueryTruthy(query) then Success([])
    else if !query.Text? then Failure(Error(ValueError, "Query must be a string, got " + query.typeName))
    else if !(1 <= topK <= 100) then Failure(Error(ValueError, "top_k must be between 1 and 100"))
    else if embed.Failure? then Failure(WrapChroma(RetrievalErrorPrefix, embed.error))
    else if collection.Fail? then Failure(Error(ChromaError, "Node collection error: " + collection.error.message))
    else if reply.Failure? then Failure(WrapChroma(RetrievalErrorPrefix, reply.error))
    else if reply.value.ids == [] then Success([])
    else
      var hits := ZipRows(reply.value);
      // the average-score metric divides by the number of entries
      if hits == [] then Failure(Error(ChromaError, RetrievalErrorPrefix + "division by zero"))
      else Success(SortDesc(hits))
  }

  /** `retrieve_similar_nodes(query, top_k)` */
  method RetrieveSimilarNodes(query: QueryArg, topK: int, embed: Result<seq<real>>,
                              collection: Outcome, reply: Result<QueryReply>)
    returns (r: Result<seq<Hit>>)
    ensures r == SimilarNodesSpec(query, topK, embed, collection, reply)
  {
    if !QueryTruthy(query) {
      return Success([]);
    }
    if !query.Text? {
      return Failure(Error(ValueError, "Query must be a string, got " + query.typeName));
    }
    if !(1 <= topK <= 100) {
      return Failure(Error(ValueError, "top_k must be between 1 and 100"));
    }
    if embed.Failure? {
      return Failure(WrapChroma(RetrievalErrorPrefix, embed.error));
    }
    if collection.Fail? {
      return Failure(Error(ChromaError, "Node collection error: " + collection.error.message));
    }
    if reply.Failure? {
      return Failure(WrapChroma(RetrievalErrorPrefix, reply.error));
    }
    if reply.value.ids == [] {
      return Success([]);
    }
    var nodes := MapRows(reply.value);
    nodes := SortDesc(nodes);
    if |nodes| == 0 {
      return Failure(Error(ChromaError, RetrievalErrorPrefix + "division by zero"));
    }
    return Success(nodes);
  }

  /** An empty query returns `[]` before any validation or backend call,
      whatever the other inputs. */
  lemma EmptyQueryReturnsEmpty(query: QueryArg, topK: int, embed: Result<seq<real>>,
                               collection: Outcome, reply: Result<QueryReply>)
    requires !QueryTruthy(query)
    ensures SimilarNodesSpec(query, topK, embed, collection, reply) == Success([])
  {
  }

  /** Input validation raises `ValueError`, not wrapped as `ChromaError`,
      before any backend call. */
  lemma ValidationErrors(query: QueryArg, topK: int, embed: Result<seq<real>>,
                         collection: Outcome, reply: Result<QueryReply>)
    requires QueryTruthy(query)
    ensures !query.Text? ==>
      SimilarNodesSpec(query, topK, embed, collection, reply).Failure? &&
      SimilarNodesSpec(query, topK, embed, collection, reply).error.kind == ValueError
    ensures query.Text? && !(1 <= topK <= 100) ==>
      SimilarNodesSpec(query, topK, embed, collection, reply)
        == Failure(Error(ValueError, "top_k must be between 1 and 100"))
  {
  }

  /** Past validation, every failure surfaces as a `ChromaError`; one raised
      as `ChromaError` keeps its message. */
  lemma BackendErrorsAreChroma(query: QueryArg, topK: int, embed: Result<seq<real>>,
                               collection: Outcome, reply: Result<QueryReply>)
    requires query.Text? && query.s != "" && 1 <= topK <= 100
    ensures SimilarNodesSpec(query, topK, embed, collection, reply).Failure? ==>
              SimilarNodesSpec(query, topK, embed, collection, reply).error.kind == ChromaError
    ensures embed.Success? && collection.Pass? && reply.Failure? && reply.error.kind == ChromaError ==>
              SimilarNodesSpec(query, topK, embed, collection, reply) == Failure(reply.error)
  {
  }

  /** A successful retrieval is a permutation of the zipped entries in
      non-increasing similarity, each with similarity `1 - distance`. */
  lemma SimilarNodesSorted(query: QueryArg, topK: int, embed: Result<seq<real>>,
                           collection: Outcome, reply: Result<QueryReply>)
    requires SimilarNodesSpec(query, topK, embed, collection, reply).Success?
    requires reply.Success? && QueryTruthy(query)
    ensures var nodes := SimilarNodesSpec(query, topK, embed, collection, reply).value;
            && SortedDesc(nodes)
            && (nodes == [] || multiset(nodes) == multiset(ZipRows(reply.value)))
            && (forall h :: h in nodes ==>
                  (exists k :: 0 <= k < RowCount(reply.value)
                     && h.id == reply.value.ids[k] && h.similarity == 1.0 - reply.value.distances[k]))
  {
    var nodes := SimilarNodesSpec(query, topK, embed, collection, reply).value;
    if nodes != [] {
      var hits := ZipRows(reply.value);
      forall h | h in nodes
        ensures exists k :: (0 <= k < RowCount(reply.value)
                  && h.id == reply.value.ids[k] && h.similarity == 1.0 - reply.value.distances[k])
      {
        assert h in multiset(hits);
        var k :| 0 <= k < |hits| && hits[k] == h;
      }
    }
  }

  /** Non-empty ids whose companion lists are empty make the metric divide
      by zero, which surfaces as a `ChromaError`. */
  lemma ZeroRowsIsChromaError(q: string, embed: Result<seq<real>>)
    requires q != "" && embed.Success?
    ensures SimilarNodesSpec(Text(q), 8, embed, Pass, Success(QueryReply(["n1"], [], [], [])))
         == Failure(Error(ChromaError, "Retrieval error: division by zero"))
  {
  }

  // ---------------------------------------------------------------------
  // retrieve_code_chunks (core/graphrag.py)
  // ---------------------------------------------------------------------

  const ChunkErrorPrefix: string := "Code chunk retrieval failed: "

  /** What `retrieve_code_chunks(q, top_k)` returns or raises: no input
      validation, no sorting. */
  function CodeChunksSpec(q: string, embed: Result<seq<real>>, reply: Result<QueryReply>): Result<seq<Hit>>
  {
    if q == "" then Success([])
    else if embed.Failure? then Failure(WrapChromaOrEmbedding(ChunkErrorPrefix, embed.error))
    else if reply.Failure? then Failure(WrapChromaOrEmbedding(ChunkErrorPrefix, reply.error))
    else if reply.value.ids == [] then Success([])
    else Success(ZipRows(reply.value))
  }

  /** `retrieve_code_chunks(q, top_k)` */
  method RetrieveCodeChunks(q: string, embed: Result<seq<real>>, reply: Result<QueryReply>)
    returns (r: Result<seq<Hit>>)
    ensures r == CodeChunksSpec(q, embed, reply)
  {
    if q == "" {
      return Success([]);
    }
    if embed.Failure? {
      return Failure(WrapChromaOrEmbedding(ChunkErrorPrefix, embed.error));
    }
    if reply.Failure? {
      return Failure(WrapChromaOrEmbedding(ChunkErrorPrefix, reply.error));
    }
    if reply.value.ids == [] {
      return Success([]);
    }
    var out := MapRows(reply.value);
    return Success(out);
  }

  /** Code chunks keep the order of the reply; embedding and Chroma errors
      pass through and everything else becomes a `ChromaError`. */
  lemma CodeChunksInReplyOrder(q: string, embed: Result<seq<real>>, reply: Result<QueryReply>)
    ensures CodeChunksSpec(q, embed, reply).Success? && q != "" && reply.Success? && reply.value.ids != [] ==>
              CodeChunksSpec(q, embed, reply).value == ZipRows(reply.value)
    ensures CodeChunksSpec(q, embed, reply).Failure? ==>
              CodeChunksSpec(q, embed, reply).error.kind in {ChromaError, EmbeddingError}
    ensures q != "" && embed.Failure? && embed.error.kind == EmbeddingError ==>
              CodeChunksSpec(q, embed, reply) == Failure(embed.error)
  {
  }

  // ---------------------------------------------------------------------
  // expand_graph (core/graphrag.py)
  // ---------------------------------------------------------------------

  /** The module-level `USE_NEO4J` switch as the source sets it. */
  const UseNeo4j: bool := false

  /** `expand_graph(node_ids, depth)` given the switch, whether a driver
      exists, and the outcome of the neighbour query. */
  function ExpandGraph(nodeIds: seq<string>, useNeo4j: bool, hasDriver: bool,
                       run: Result<seq<string>>): (r: Result<seq<string>>)
    ensures !useNeo4j ==> r == Success([])
    ensures useNeo4j && !hasDriver ==> r == Failure(Error(Neo4jError, "Neo4j driver not initialized"))
    ensures useNeo4j && hasDriver ==>
              (r.Success? <==> run.Success?) &&
              (r.Success? ==> r.value == run.value) &&
              (r.Failure? ==> r.error == Error(Neo4jError, "Graph expansion failed: " + run.error.message))
  {
    if !useNeo4j then Success([])
    else if !hasDriver then Failure(Error(Neo4jError, "Neo4j driver not initialized"))
    else match run
      case Success(ids) => Success(ids)
      case Failure(e) => Failure(Error(Neo4jError, "Graph expansion failed: " + e.message))
  }

  /** With the switch as shipped, expansion never fails and finds nothing. */
  lemma ExpansionDisabled(nodeIds: seq<string>, hasDriver: bool, run: Result<seq<string>>)
    ensures ExpandGraph(nodeIds, UseNeo4j, hasDriver, run) == Success([])
  {
  }
}
