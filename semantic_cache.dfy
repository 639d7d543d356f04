/** The semantic answer cache of core/semantic_cache.py.

    The vector index is not modelled: a query is an oracle that returns the
    stored rows nearest to the question, each with its distance. The cache
    itself is the collection's contents, a map from id (the question text)
    to the stored entry. JSON encoding of the reference list is the pair of
    functions `dumps`/`loads` handed to `Store` and `Lookup`. */
module SemanticCache {
  import opened Common

  // ---------------------------------------------------------------------
  // Tokens
  // ---------------------------------------------------------------------

  predicate IsWordChar(c: char) {
    ('a' <= c <= 'z') || ('0' <= c <= '9')
  }

  /** `re.sub(r"[^a-z0-9 ]+", " ", s)`, one character at a time: every
      character outside `[a-z0-9 ]` becomes a space. Replacing a whole run by
      one space, as the source does, gives the same words after splitting. */
  function Clean(s: string): (r: string)
    ensures |r| == |s|
    ensures forall i :: 0 <= i < |s| ==> r[i] == (if IsWordChar(s[i]) then s[i] else ' ')
  {
    seq(|s|, i requires 0 <= i < |s| => if IsWordChar(s[i]) then s[i] else ' ')
  }

  const StopWords: set<string> := {
    "the", "a", "an", "and", "or", "of", "to", "in", "on", "for", "with", "by",
    "how", "does", "is", "are", "be", "from", "this", "that", "it", "as", "about"}

  /** Every character of a piece of a split comes from the split text. */
  lemma {:induction false} SplitPiecesFrom(s: string, sep: char)
    ensures forall k, i :: 0 <= k < |Split(s, sep)| && 0 <= i < |Split(s, sep)[k]| ==>
              Split(s, sep)[k][i] in s
  {
    if s != [] {
      SplitPiecesFrom(s[1..], sep);
      var rest := Split(s[1..], sep);
      forall k, i | 0 <= k < |Split(s, sep)| && 0 <= i < |Split(s, sep)[k]|
        ensures Split(s, sep)[k][i] in s
      {
        if s[0] == sep {
          assert Split(s, sep)[k] == rest[k - 1];
          assert rest[k - 1][i] in s[1..];
        } else if k == 0 {
          assert Split(s, sep)[0] == [s[0]] + rest[0];
          if i > 0 {
            assert rest[0][i - 1] in s[1..];
          }
        } else {
          assert Split(s, sep)[k] == rest[k];
          assert rest[k][i] in s[1..];
        }
      }
    }
  }

  /** `_tokens(text)`: the set of words of the cleaned, lower-cased text,
      stop words removed. */
  function Tokens(text: string): (r: set<string>)
    ensures forall w :: w in r ==>
              && w != ""
              && w !in StopWords
              && (forall i :: 0 <= i < |w| ==> IsWordChar(w[i]))
  {
    var cleaned := Clean(Lower(text));
    var parts := Split(cleaned, ' ');
    SplitPiecesFrom(cleaned, ' ');
    set k | 0 <= k < |parts| && parts[k] != "" && parts[k] !in StopWords :: parts[k]
  }

  /** A single word that is not a stop word is its own token set. */
  lemma SingleWordTokens(w: string)
    requires w != "" && w !in StopWords
    requires forall i :: 0 <= i < |w| ==> IsWordChar(w[i])
    ensures Tokens(w) == {w}
  {
    assert Lower(w) == w;
    assert Clean(w) == w;
    SplitNoSep(w, ' ');
    var parts := Split(Clean(Lower(w)), ' ');
    assert parts == [w];
    var t := set k | 0 <= k < |parts| && parts[k] != "" && parts[k] !in StopWords :: parts[k];
    assert Tokens(w) == t;
    assert parts[0] in t;
    assert forall x :: x in t ==> x == w;
  }

  /** The token set does not depend on letter case. */
  lemma TokensIgnoreCase(text: string)
    ensures Tokens(Lower(text)) == Tokens(text)
  {
    assert Lower(Lower(text)) == Lower(text);
  }

  // ---------------------------------------------------------------------
  // The hit rule
  // ---------------------------------------------------------------------

  /** Jaccard overlap of two token sets, 0 when either is empty. */
  function Overlap(a: set<string>, b: set<string>): (r: real)
    ensures 0.0 <= r <= 1.0
  {
    if a == {} || b == {} then 0.0
    else
      assert a <= a + b;
      assert |a * b| <= |a + b| by { assert a * b <= a + b; SubsetCard(a * b, a + b); }
      (|a * b| as real) / (|a + b| as real)
  }

  lemma SubsetCard(x: set<string>, y: set<string>)
    requires x <= y
    ensures |x| <= |y|
  {
    assert y == x + (y - x);
  }

  /** `overlap >= 0.3` as an integer inequality. */
  predicate LexicalMatch(a: set<string>, b: set<string>) {
    a != {} && b != {} && 10 * |a * b| >= 3 * |a + b|
  }

  /** The integer form agrees with the source's division. */
  lemma LexicalMatchIsOverlapBound(a: set<string>, b: set<string>)
    ensures LexicalMatch(a, b) <==> Overlap(a, b) >= 0.3
  {
    if a != {} && b != {} {
      assert |a + b| > 0 by { assert a <= a + b; SubsetCard(a, a + b); }
      var i, u := |a * b| as real, |a + b| as real;
      assert Overlap(a, b) == i / u;
      var q := i / u;
      assert q * u == i;
      assert (q - 0.3) * u == i - 0.3 * u;
      if q >= 0.3 {
        assert (q - 0.3) * u >= 0.0;
      } else {
        assert (0.3 - q) * u > 0.0;
      }
    }
  }

  /** Token sets with nothing in common never pass the lexical guard. */
  lemma DisjointNeverMatches(a: set<string>, b: set<string>)
    requires a * b == {}
    ensures !LexicalMatch(a, b)
  {
    if a != {} {
      var w :| w in a;
      assert w in a + b;
    }
  }

  /** A non-empty token set passes the guard against itself. */
  lemma SameTokensMatch(a: set<string>)
    requires a != {}
    ensures LexicalMatch(a, a)
  {
    assert a * a == a && a + a == a;
  }

  /** The hit rule: similarity at least the threshold and enough lexical
      overlap between the question and the cached question. */
  predicate IsHit(threshold: real, similarity: real, question: string, cached: string) {
    similarity >= threshold && LexicalMatch(Tokens(question), Tokens(cached))
  }

  // ---------------------------------------------------------------------
  // The cache
  // ---------------------------------------------------------------------

  /** One stored row: the question's embedding, the question as document, and
      the metadata `answer` and `references_json`. */
  datatype CacheEntry = CacheEntry(embedding: seq<real>, document: string, answer: string, referencesJson: string)

  /** A row returned by the nearest-neighbour query. */
  datatype CacheRow = CacheRow(id: string, distance: real, entry: CacheEntry)

  /** The dictionary `lookup` returns on a hit. */
  datatype CacheHit = CacheHit(question: string, answer: string, references: seq<string>, similarity: real)

  const ThresholdError: string := "Threshold must be between 0.0 and 1.0"
  const LookupErrorPrefix: string := "Cache lookup error: "
  const StoreErrorPrefix: string := "Cache store error: "
  const ClearErrorPrefix: string := "Cache clear error: "
  const CollectionErrorPrefix: string := "Cache collection error: "

  /** `lookup(question)` given the embedding call and the index query. */
  function LookupSpec(threshold: real, question: string, embed: Result<seq<real>>,
                      reply: Result<seq<CacheRow>>, loads: string -> Option<seq<string>>)
    : Result<Option<CacheHit>>
  {
    if question == "" then Success(None)
    else if embed.Failure? then Failure(Error(ChromaError, LookupErrorPrefix + embed.error.message))
    else if reply.Failure? then Failure(Error(ChromaError, LookupErrorPrefix + reply.error.message))
    else if reply.value == [] then Success(None)
    else Success(RowHit(threshold, question, reply.value[0], loads))
  }

  /** The verdict on the nearest row: a hit carries the cached question,
      its answer, the decoded references (none when they do not decode)
      and the similarity `1 - distance`. */
  function RowHit(threshold: real, question: string, row: CacheRow, loads: string -> Option<seq<string>>)
    : Option<CacheHit>
  {
    var similarity := 1.0 - row.distance;
    var references := match loads(row.entry.referencesJson)
      case Some(refs) => refs
      case None => [];
    if IsHit(threshold, similarity, question, row.entry.document)
    then Some(CacheHit(row.entry.document, row.entry.answer, references, similarity))
    else None
  }

  /** `store(question, answer, references)`: the outcome and the new
      contents, given the embedding call and the upsert. */
  function StoreSpec(entries: map<string, CacheEntry>, question: string, answer: string,
                     references: seq<string>, embed: Result<seq<real>>, upsert: Outcome,
                     dumps: seq<string> -> string)
    : (Outcome, map<string, CacheEntry>)
  {
    if question == "" || answer == "" then (Pass, entries)
    else if embed.Failure? then (Fail(Error(ChromaError, StoreErrorPrefix + embed.error.message)), entries)
    else if upsert.Fail? then (Fail(Error(ChromaError, StoreErrorPrefix + upsert.error.message)), entries)
    else (Pass, entries[question := CacheEntry(embed.value, question, answer, dumps(references))])
  }

  class SemanticCache {
    const threshold: real
    var entries: map<string, CacheEntry>

    predicate Valid()
    {
      0.0 <= threshold <= 1.0
    }

    constructor (threshold: real, existing: map<string, CacheEntry>)
      requires 0.0 <= threshold <= 1.0
      ensures Valid()
      ensures this.threshold == threshold && entries == existing
    {
      this.threshold := threshold;
      entries := existing;
    }

    /** `lookup`: reads the cache and changes nothing. */
    method Lookup(question: string, embed: Result<seq<real>>, reply: Result<seq<CacheRow>>,
                  loads: string -> Option<seq<string>>)
      returns (r: Result<Option<CacheHit>>)
      ensures r == LookupSpec(threshold, question, embed, reply, loads)
    {
      if question == "" {
        return Success(None);
      }
      if embed.Failure? {
        return Failure(Error(ChromaError, LookupErrorPrefix + embed.error.message));
      }
      if reply.Failure? {
        return Failure(Error(ChromaError, LookupErrorPrefix + reply.error.message));
      }
      if reply.value == [] {
        return Success(None);
      }
      var hit := Verdict(question, reply.value[0], loads);
      r := Success(hit);
    }

    /** The end of `lookup`: the similarity of the nearest row, its decoded
        references, and the hit test. */
    method Verdict(question: string, row: CacheRow, loads: string -> Option<seq<string>>)
      returns (hit: Option<CacheHit>)
      ensures hit == RowHit(threshold, question, row, loads)
    {
      var similarity := 1.0 - row.distance;
      var references: seq<string> := [];
      var decoded := loads(row.entry.referencesJson);
      if decoded.Some? {
        references := decoded.value;
      }
      if IsHit(threshold, similarity, question, row.entry.document) {
        hit := Some(CacheHit(row.entry.document, row.entry.answer, references, similarity));
      } else {
        hit := None;
      }
    }

    /** `store`: upserts the entry under the question text. */
    method Store(question: string, answer: string, references: seq<string>,
                 embed: Result<seq<real>>, upsert: Outcome, dumps: seq<string> -> string)
      returns (r: Outcome)
      modifies this
      ensures (r, entries) == StoreSpec(old(entries), question, answer, references, embed, upsert, dumps)
    {
      if question == "" || answer == "" {
        return Pass;
      }
      if embed.Failure? {
        return Fail(Error(ChromaError, StoreErrorPrefix + embed.error.message));
      }
      if upsert.Fail? {
        return Fail(Error(ChromaError, StoreErrorPrefix + upsert.error.message));
      }
      entries := entries[question := CacheEntry(embed.value, question, answer, dumps(references))];
      r := Pass;
    }

    /** `clear`: connect, drop the collection (any failure of the drop is
        ignored), and create it afresh. `get_or_create_collection` opens the
        old collection when the drop failed, so its entries survive. */
    method Clear(connect: Outcome, drop: Outcome, recreate: Outcome) returns (r: Outcome)
      modifies this
      ensures (r, entries) == ClearSpec(old(entries), connect, drop, recreate)
      ensures r.Pass? <==> connect.Pass? && recreate.Pass?
      ensures entries == (if connect.Pass? && drop.Pass? then map[] else old(entries))
    {
      if connect.Fail? {
        return Fail(Error(ChromaError, ClearErrorPrefix + connect.error.message));
      }
      if drop.Pass? {
        entries := map[];
      }
      if recreate.Fail? {
        return Fail(Error(ChromaError, ClearErrorPrefix + recreate.error.message));
      }
      r := Pass;
    }
  }

  /** `clear` as written: a failure to connect or to recreate is a
      ChromaError "Cache clear error: …"; the drop empties the collection
      when it succeeds, and its failure is swallowed. */
  function ClearSpec(entries: map<string, CacheEntry>, connect: Outcome, drop: Outcome, recreate: Outcome)
    : (Outcome, map<string, CacheEntry>)
  {
    if connect.Fail? then (Fail(Error(ChromaError, ClearErrorPrefix + connect.error.message)), entries)
    else
      var after := if drop.Pass? then map[] else entries;
      if recreate.Fail? then (Fail(Error(ChromaError, ClearErrorPrefix + recreate.error.message)), after)
      else (Pass, after)
  }

  /** As written, a drop that fails on a non-empty collection leaves every
      entry in place and `clear` still reports success. */
  lemma ClearAsWrittenKeepsEntries(entries: map<string, CacheEntry>, e: Error)
    requires entries != map[]
    ensures ClearSpec(entries, Pass, Fail(e), Pass) == (Pass, entries)
    ensures ClearSpec(entries, Pass, Fail(e), Pass).1 != map[]
  {
  }

  /** `clear` as its documentation promises: the drop's failure is ignored
      only when there was nothing to drop; on a non-empty collection it is
      reported as the clear's ChromaError and nothing changes. */
  function ClearIntended(entries: map<string, CacheEntry>, connect: Outcome, drop: Outcome, recreate: Outcome)
    : (r: (Outcome, map<string, CacheEntry>))
    ensures r.0.Pass? ==> r.1 == map[]
    ensures r.0.Pass? <==> connect.Pass? && (drop.Pass? || entries == map[]) && recreate.Pass?
  {
    if connect.Fail? then (Fail(Error(ChromaError, ClearErrorPrefix + connect.error.message)), entries)
    else if drop.Fail? && entries != map[] then (Fail(Error(ChromaError, ClearErrorPrefix + drop.error.message)), entries)
    else if recreate.Fail? then (Fail(Error(ChromaError, ClearErrorPrefix + recreate.error.message)), map[])
    else (Pass, map[])
  }

  /** The corrected clear agrees with the code whenever the drop succeeds
      or there is nothing to drop. */
  lemma ClearIntendedAgrees(entries: map<string, CacheEntry>, connect: Outcome, drop: Outcome, recreate: Outcome)
    requires drop.Pass? || entries == map[]
    ensures ClearIntended(entries, connect, drop, recreate) == ClearSpec(entries, connect, drop, recreate)
  {
  }

  /** `SemanticCache(threshold)`: the threshold check comes first, then the
      collection is opened (an existing collection keeps its contents). */
  method NewCache(threshold: real, collection: Result<map<string, CacheEntry>>)
    returns (r: Result<SemanticCache>)
    ensures !(0.0 <= threshold <= 1.0) ==> r == Failure(Error(ValueError, ThresholdError))
    ensures 0.0 <= threshold <= 1.0 && collection.Failure? ==>
              r == Failure(Error(ChromaError, CollectionErrorPrefix + collection.error.message))
    ensures 0.0 <= threshold <= 1.0 && collection.Success? ==>
              && r.Success? && fresh(r.value) && r.value.Valid()
              && r.value.threshold == threshold && r.value.entries == collection.value
  {
    if !(0.0 <= threshold <= 1.0) {
      return Failure(Error(ValueError, ThresholdError));
    }
    if collection.Failure? {
      return Failure(Error(ChromaError, CollectionErrorPrefix + collection.error.message));
    }
    var c := new SemanticCache(threshold, collection.value);
    r := Success(c);
  }

  // ---------------------------------------------------------------------
  // Properties
  // ---------------------------------------------------------------------

  /** An empty question is never a hit and needs no embedding. */
  lemma EmptyQuestionMisses(threshold: real, embed: Result<seq<real>>, reply: Result<seq<CacheRow>>,
                            loads: string -> Option<seq<string>>)
    ensures LookupSpec(threshold, "", embed, reply, loads) == Success(None)
  {
  }

  /** A hit needs the similarity threshold and the lexical guard; a failed
      embedding or query surfaces as a ChromaError. */
  lemma LookupOutcomes(threshold: real, question: string, embed: Result<seq<real>>,
                       reply: Result<seq<CacheRow>>, loads: string -> Option<seq<string>>)
    ensures var r := LookupSpec(threshold, question, embed, reply, loads);
            && (r.Failure? <==> question != "" && (embed.Failure? || reply.Failure?))
            && (r.Failure? ==> r.error.kind == ChromaError)
            && (r.Success? && r.value.Some? <==>
                  && question != "" && embed.Success? && reply.Success? && reply.value != []
                  && 1.0 - reply.value[0].distance >= threshold
                  && LexicalMatch(Tokens(question), Tokens(reply.value[0].entry.document)))
            && (r.Success? && r.value.Some? ==>
                  && r.value.value.question == reply.value[0].entry.document
                  && r.value.value.answer == reply.value[0].entry.answer
                  && r.value.value.similarity == 1.0 - reply.value[0].distance)
  {
  }

  /** A cached question sharing no token with the question never hits,
      however close the embeddings are. */
  lemma DisjointTokensMiss(threshold: real, question: string, embed: Result<seq<real>>,
                           reply: Result<seq<CacheRow>>, loads: string -> Option<seq<string>>)
    requires reply.Success? && reply.value != []
    requires Tokens(question) * Tokens(reply.value[0].entry.document) == {}
    ensures var r := LookupSpec(threshold, question, embed, reply, loads);
            r.Success? ==> r.value == None
  {
    DisjointNeverMatches(Tokens(question), Tokens(reply.value[0].entry.document));
  }

  /** `store` changes nothing for an empty question or answer, and otherwise
      either fails with a ChromaError leaving the contents alone, or sets the
      entry under the question text and touches no other id. */
  lemma StoreUpserts(entries: map<string, CacheEntry>, question: string, answer: string,
                     references: seq<string>, embed: Result<seq<real>>, upsert: Outcome,
                     dumps: seq<string> -> string)
    ensures var (r, after) := StoreSpec(entries, question, answer, references, embed, upsert, dumps);
            && (question == "" || answer == "" ==> r == Pass && after == entries)
            && (r.Fail? ==> r.error.kind == ChromaError && after == entries)
            && (r.Pass? && question != "" && answer != "" ==>
                  && question in after
                  && after[question].document == question
                  && after[question].answer == answer
                  && after[question].referencesJson == dumps(references)
                  && after.Keys == entries.Keys + {question}
                  && (forall id :: id in entries && id != question ==> after[id] == entries[id]))
  {
  }

  /** Storing the same question twice keeps only the second answer. */
  lemma StoreTwiceKeepsLast(entries: map<string, CacheEntry>, question: string, a1: string, a2: string,
                            refs1: seq<string>, refs2: seq<string>, vec: seq<real>,
                            dumps: seq<string> -> string)
    requires question != "" && a1 != "" && a2 != ""
    ensures var once := StoreSpec(entries, question, a1, refs1, Success(vec), Pass, dumps).1;
            var twice := StoreSpec(once, question, a2, refs2, Success(vec), Pass, dumps).1;
            twice == StoreSpec(entries, question, a2, refs2, Success(vec), Pass, dumps).1
  {
  }

  /** Round trip: after storing `(question, answer, references)`, a lookup
      of the same question whose query returns that entry at distance 0 is a
      hit returning the stored answer and references, exactly when the
      question has at least one token. */
  lemma StoreThenLookup(threshold: real, entries: map<string, CacheEntry>, question: string,
                        answer: string, references: seq<string>, vec: seq<real>,
                        embed: Result<seq<real>>, dumps: seq<string> -> string,
                        loads: string -> Option<seq<string>>)
    requires 0.0 <= threshold <= 1.0
    requires question != "" && answer != ""
    requires loads(dumps(references)) == Some(references)
    requires embed.Success?
    ensures var stored := StoreSpec(entries, question, answer, references, Success(vec), Pass, dumps).1;
            var r := LookupSpec(threshold, question, embed, Success([CacheRow(question, 0.0, stored[question])]), loads);
            && r.Success?
            && (r.value.Some? <==> Tokens(question) != {})
            && (r.value.Some? ==> r.value.value == CacheHit(question, answer, references, 1.0))
  {
    var t := Tokens(question);
    if t != {} {
      SameTokensMatch(t);
    }
  }
}
