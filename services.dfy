/** The service layer of core/services.py used by the dependency-injected
    pipeline: `SemanticCacheProvider`, a second semantic cache over the same
    kind of Chroma collection, and the JSON document processor.

    Unlike `SemanticCache`, the provider decides a hit on the similarity
    threshold alone (no lexical check), swallows every error, and stores
    with `add` under a fresh id instead of upserting under the question.

    The collection is the sequence of items added to it; the embedder, the
    query, the fresh id (`uuid4`) and JSON encoding are parameters. */
module Services {
  import opened Common
  import SemanticCache

  /** An item of the collection: id, embedding, document and string
      metadata. */
  datatype Item = Item(id: string, embedding: seq<real>, document: string, metadata: map<string, string>)

  /** One row of the query reply: id, cosine distance and metadata. */
  datatype Row = Row(id: string, distance: real, metadata: map<string, string>)

  /** What `lookup` returns on a hit: `{"answer", "references"}`; the answer
      is `metadata.get("answer")`, absent when the item has none. */
  datatype ProviderHit = ProviderHit(answer: Option<string>, references: seq<string>)

  /** The threshold when the configuration has no cache section. */
  const DefaultThreshold: real := 0.9

  /** `self._config.cache.threshold if hasattr(self._config, "cache") else 0.9` */
  function ThresholdOf(configured: Option<real>): (t: real)
    ensures configured.None? ==> t == DefaultThreshold
    ensures configured.Some? ==> t == configured.value
  {
    match configured
    case None => DefaultThreshold
    case Some(t) => t
  }

  /** `metadata.get(key)` */
  function MetaGet(m: map<string, string>, key: string): Option<string> {
    if key in m then Some(m[key]) else None
  }

  /** `lookup(question)`: every failure (embedding, query, malformed
      references JSON) is swallowed into a miss. */
  function ProviderLookupSpec(threshold: real, embed: Result<seq<real>>, reply: Result<seq<Row>>,
                              loads: string -> Option<seq<string>>)
    : Option<ProviderHit>
  {
    if embed.Failure? || reply.Failure? || reply.value == [] then None
    else
      var row := reply.value[0];
      if 1.0 - row.distance >= threshold then
        var text := if "references" in row.metadata then row.metadata["references"] else "[]";
        match loads(text)
        case None => None
        case Some(refs) => Some(ProviderHit(MetaGet(row.metadata, "answer"), refs))
      else None
  }

  /** The metadata `store` writes. */
  function StoredMetadata(answer: string, references: Option<seq<string>>, dumps: seq<string> -> string)
    : map<string, string>
  {
    var refs := match references case None => [] case Some(r) => r;
    map["answer" := answer, "references" := dumps(refs)]
  }

  /** `store(question, answer, references)`: one new item under the fresh
      id, or nothing when the embedding or the `add` fails (the failure is
      logged, not raised). */
  function ProviderStoreSpec(items: seq<Item>, question: string, answer: string, references: Option<seq<string>>,
                             embed: Result<seq<real>>, freshId: string, add: Outcome,
                             dumps: seq<string> -> string)
    : seq<Item>
  {
    if embed.Failure? || add.Fail? then items
    else items + [Item(freshId, embed.value, question, StoredMetadata(answer, references, dumps))]
  }

  class SemanticCacheProvider {
    const threshold: real
    var items: seq<Item>

    /** `__init__` over the collection `_init_collection` opened. */
    constructor (configured: Option<real>, existing: seq<Item>)
      ensures threshold == ThresholdOf(configured) && items == existing
    {
      threshold := ThresholdOf(configured);
      items := existing;
    }

    /** `lookup(question)` */
    method Lookup(embed: Result<seq<real>>, reply: Result<seq<Row>>, loads: string -> Option<seq<string>>)
      returns (r: Option<ProviderHit>)
      ensures r == ProviderLookupSpec(threshold, embed, reply, loads)
    {
      if embed.Failure? || reply.Failure? || reply.value == [] {
        return None;
      }
      var row := reply.value[0];
      var similarity := 1.0 - row.distance;
      if similarity < threshold {
        return None;
      }
      var text := if "references" in row.metadata then row.metadata["references"] else "[]";
      var refs := loads(text);
      if refs.None? {
        return None;
      }
      r := Some(ProviderHit(MetaGet(row.metadata, "answer"), refs.value));
    }

    /** `store(question, answer, references)` */
    method Store(question: string, answer: string, references: Option<seq<string>>,
                 embed: Result<seq<real>>, freshId: string, add: Outcome, dumps: seq<string> -> string)
      modifies this
      ensures items == ProviderStoreSpec(old(items), question, answer, references, embed, freshId, add, dumps)
    {
      if embed.Failure? || add.Fail? {
        return;
      }
      items := items + [Item(freshId, embed.value, question, StoredMetadata(answer, references, dumps))];
    }
  }

  // ---------------------------------------------------------------------
  // Properties of the provider
  // ---------------------------------------------------------------------

  /** A hit happens exactly when the query returns a row whose similarity
      reaches the threshold and whose references decode; no lexical guard
      is applied. */
  lemma ProviderHitRule(threshold: real, embed: Result<seq<real>>, reply: Result<seq<Row>>,
                        loads: string -> Option<seq<string>>)
    ensures var r := ProviderLookupSpec(threshold, embed, reply, loads);
            r.Some? <==>
              && embed.Success? && reply.Success? && reply.value != []
              && 1.0 - reply.value[0].distance >= threshold
              && loads(if "references" in reply.value[0].metadata
                       then reply.value[0].metadata["references"] else "[]").Some?
    ensures var r := ProviderLookupSpec(threshold, embed, reply, loads);
            r.Some? ==> r.value.answer == MetaGet(reply.value[0].metadata, "answer")
  {
  }

  /** No row, or any failure, is a miss and never an error. */
  lemma ProviderFailuresMiss(threshold: real, embed: Result<seq<real>>, reply: Result<seq<Row>>,
                             loads: string -> Option<seq<string>>)
    requires embed.Failure? || reply.Failure? || reply == Success([])
    ensures ProviderLookupSpec(threshold, embed, reply, loads) == None
  {
  }

  /** A missing "references" key reads as the JSON text "[]". */
  lemma MissingReferencesReadEmpty(threshold: real, vec: seq<real>, row: Row,
                                   loads: string -> Option<seq<string>>)
    requires "references" !in row.metadata && loads("[]") == Some([])
    requires 1.0 - row.distance >= threshold
    ensures ProviderLookupSpec(threshold, Success(vec), Success([row]), loads)
         == Some(ProviderHit(MetaGet(row.metadata, "answer"), []))
  {
  }

  /** `store` adds exactly one item at the end and never replaces one, even
      for a question already stored. */
  lemma ProviderStoreAppends(items: seq<Item>, question: string, answer: string, references: Option<seq<string>>,
                             embed: Result<seq<real>>, freshId: string, add: Outcome, dumps: seq<string> -> string)
    requires embed.Success? && add.Pass?
    ensures var after := ProviderStoreSpec(items, question, answer, references, embed, freshId, add, dumps);
            && |after| == |items| + 1
            && after[..|items|] == items
            && after[|items|].id == freshId && after[|items|].document == question
            && MetaGet(after[|items|].metadata, "answer") == Some(answer)
  {
    var after := ProviderStoreSpec(items, question, answer, references, embed, freshId, add, dumps);
    assert after[..|items|] == items;
  }

  /** Storing the same question twice leaves two items for it. */
  lemma ProviderStoreTwiceKeepsBoth(items: seq<Item>, question: string, a1: string, a2: string,
                                    vec: seq<real>, id1: string, id2: string, dumps: seq<string> -> string)
    ensures var once := ProviderStoreSpec(items, question, a1, None, Success(vec), id1, Pass, dumps);
            var twice := ProviderStoreSpec(once, question, a2, None, Success(vec), id2, Pass, dumps);
            && |twice| == |items| + 2
            && twice[|items|].document == question && twice[|items| + 1].document == question
            && MetaGet(twice[|items|].metadata, "answer") == Some(a1)
            && MetaGet(twice[|items| + 1].metadata, "answer") == Some(a2)
  {
  }

  /** Round trip: after a successful store, a lookup whose query returns the
      new item at distance 0 answers with the stored answer and references,
      whatever the (at most 1) threshold. */
  lemma ProviderStoreThenLookup(threshold: real, items: seq<Item>, question: string, answer: string,
                                references: seq<string>, vec: seq<real>, freshId: string,
                                dumps: seq<string> -> string, loads: string -> Option<seq<string>>)
    requires threshold <= 1.0
    requires loads(dumps(references)) == Some(references)
    ensures var after := ProviderStoreSpec(items, question, answer, Some(references), Success(vec), freshId, Pass, dumps);
            var item := after[|after| - 1];
            ProviderLookupSpec(threshold, Success(vec), Success([Row(item.id, 0.0, item.metadata)]), loads)
            == Some(ProviderHit(Some(answer), references))
  {
  }

  /** The difference with `SemanticCache`: a close embedding whose question
      shares no token with the cached one is a hit for the provider and a
      miss for the semantic cache. */
  lemma ProviderIgnoresWording(threshold: real, question: string, distance: real, vec: seq<real>,
                               meta: map<string, string>, entry: SemanticCache.CacheEntry,
                               loads: string -> Option<seq<string>>)
    requires SemanticCache.Tokens(question) * SemanticCache.Tokens(entry.document) == {}
    requires 1.0 - distance >= threshold
    requires "references" in meta && loads(meta["references"]).Some?
    ensures ProviderLookupSpec(threshold, Success(vec), Success([Row(entry.document, distance, meta)]), loads).Some?
    ensures var r := SemanticCache.LookupSpec(threshold, question, Success(vec),
                                              Success([SemanticCache.CacheRow(entry.document, distance, entry)]), loads);
            r == Success(None)
  {
    SemanticCacheMissesDisjoint(threshold, question, distance, vec, entry, loads);
  }

  lemma SemanticCacheMissesDisjoint(threshold: real, question: string, distance: real, vec: seq<real>,
                                    entry: SemanticCache.CacheEntry, loads: string -> Option<seq<string>>)
    requires SemanticCache.Tokens(question) * SemanticCache.Tokens(entry.document) == {}
    ensures var r := SemanticCache.LookupSpec(threshold, question, Success(vec),
                                              Success([SemanticCache.CacheRow(entry.document, distance, entry)]), loads);
            r == Success(None)
  {
    var reply := Success([SemanticCache.CacheRow(entry.document, distance, entry)]);
    SemanticCache.DisjointTokensMiss(threshold, question, Success(vec), reply, loads);
    SemanticCache.LookupOutcomes(threshold, question, Success(vec), reply, loads);
  }

  // ---------------------------------------------------------------------
  // JSONDocumentProcessor
  // ---------------------------------------------------------------------

  /** `load_documents(path)` given the parsed file: the "nodes" value of a
      dictionary that has it, a list as it is, anything else wrapped in a
      one-element list. A read or parse failure is re-raised. */
  function LoadDocuments(data: Result<Value>): (r: Result<Value>)
    ensures data.Failure? ==> r == data
    ensures data.Success? && data.value.VDict? && Get(data.value.entries, "nodes").Some? ==>
              r == Success(Get(data.value.entries, "nodes").value)
    ensures data.Success? && data.value.VList? ==> r == data
    ensures data.Success? && !data.value.VList? && !(data.value.VDict? && Get(data.value.entries, "nodes").Some?) ==>
              r == Success(VList([data.value]))
  {
    match data
    case Failure(e) => Failure(e)
    case Success(v) =>
      if v.VDict? && Get(v.entries, "nodes").Some? then Success(Get(v.entries, "nodes").value)
      else if v.VList? then Success(v)
      else Success(VList([v]))
  }

  /** The documents of a file without a "nodes" dictionary are always a
      list, and loading is stable on such a list. */
  lemma LoadDocumentsIsList(data: Value)
    requires !(data.VDict? && Get(data.entries, "nodes").Some?)
    ensures var r := LoadDocuments(Success(data));
            && r.Success? && r.value.VList?
            && LoadDocuments(r) == r
  {
  }

  /** `process_document(document)`: the document unchanged. */
  function ProcessDocument(document: Value): (r: Value)
    ensures r == document
  {
    document
  }
}
