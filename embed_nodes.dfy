/** Node embedding of core/embed_nodes.py: `build_text_blob`, the text a
    knowledge-graph node is embedded by, and `embed_nodes`, the loop that
    embeds every node and upserts it into the `node_embeddings` collection,
    counting what it stores and what it skips.

    Nodes are ordered dictionaries of values. The embedder, opening the
    collection and each upsert are parameters giving their outcome; the
    collection is the map from node id to what was upserted under it. */
module EmbedNodes {
  import opened Common

  // ---------------------------------------------------------------------
  // str() of a value
  // ---------------------------------------------------------------------

  function DigitChar(d: nat): char
    requires d < 10
  {
    "0123456789"[d]
  }

  /** The decimal digits of a natural number. */
  function NatText(n: nat): (s: string)
    ensures |s| >= 1
    decreases n
  {
    if n < 10 then [DigitChar(n)] else NatText(n / 10) + [DigitChar(n % 10)]
  }

  /** `str(value)` for the values a JSON node holds. Strings inside a
      container are quoted with single quotes; escape sequences are not
      rendered. */
  function Str(v: Value): string {
    match v
    case VStr(s) => s
    case VList(_) => Repr(v)
    case VTuple(_) => Repr(v)
    case VSet(_) => Repr(v)
    case VDict(_) => Repr(v)
    case _ => ScalarText(v)
  }

  /** `str(value)` of a value that is neither a string nor a container. */
  function ScalarText(v: Value): string {
    match v
    case VBool(b) => if b then "True" else "False"
    case VInt(i) => if i < 0 then "-" + NatText(-i) else NatText(i)
    case VFloat(_, text) => text
    case VObject(text) => text
    case _ => "None"
  }

  /** `repr(value)` */
  function Repr(v: Value): string {
    match v
    case VStr(s) => "'" + s + "'"
    case VList(items) => "[" + Join(seq(|items|, i requires 0 <= i < |items| => Repr(items[i])), ", ") + "]"
    case VTuple(items) =>
      if |items| == 1 then "(" + Repr(items[0]) + ",)"
      else "(" + Join(seq(|items|, i requires 0 <= i < |items| => Repr(items[i])), ", ") + ")"
    case VSet(items) =>
      if items == [] then "set()"
      else "{" + Join(seq(|items|, i requires 0 <= i < |items| => Repr(items[i])), ", ") + "}"
    case VDict(entries) =>
      "{" + Join(seq(|entries|, i requires 0 <= i < |entries| =>
                       assert entries[i] in entries;
                       "'" + entries[i].0 + "': " + Repr(entries[i].1)), ", ") + "}"
    case _ => ScalarText(v)
  }

  /** The name of a value's Python type. */
  function TypeName(v: Value): string {
    match v
    case VNone => "NoneType"
    case VBool(_) => "bool"
    case VInt(_) => "int"
    case VFloat(_, _) => "float"
    case VStr(_) => "str"
    case VList(_) => "list"
    case VTuple(_) => "tuple"
    case VSet(_) => "set"
    case VDict(_) => "dict"
    case VObject(_) => "object"
  }

  // ---------------------------------------------------------------------
  // build_text_blob
  // ---------------------------------------------------------------------

  type Dict = seq<(string, Value)>

  /** `d.get(k, default)` */
  function GetOr(d: Dict, k: string, default: Value): Value {
    match Get(d, k)
    case None => default
    case Some(v) => v
  }

  /** `node.get("props", {}) or node.get("properties", {}) or {}`: the
      chosen value, which `build_text_blob` then reads as a dictionary. */
  function PropsValue(node: Dict): (v: Value)
    ensures Truthy(GetOr(node, "props", VDict([]))) ==> v == GetOr(node, "props", VDict([]))
    ensures !Truthy(GetOr(node, "props", VDict([]))) && Truthy(GetOr(node, "properties", VDict([]))) ==>
              v == GetOr(node, "properties", VDict([]))
    ensures !Truthy(GetOr(node, "props", VDict([]))) && !Truthy(GetOr(node, "properties", VDict([]))) ==>
              v == VDict([])
  {
    var a := GetOr(node, "props", VDict([]));
    if Truthy(a) then a
    else
      var b := GetOr(node, "properties", VDict([]));
      if Truthy(b) then b else VDict([])
  }

  /** The keys that have a part of their own or none at all. */
  predicate Excluded(k: string) {
    k == "name" || k == "file" || k == "file_path" || k == "text"
  }

  /** The "Name: …", "File: …" and text parts, those present. */
  function LeadParts(props: Dict): seq<string> {
    var name := GetOr(props, "name", VNone);
    var file := if Truthy(GetOr(props, "file", VNone)) then GetOr(props, "file", VNone)
                else GetOr(props, "file_path", VNone);
    var text := GetOr(props, "text", VNone);
    (if Truthy(name) then ["Name: " + Str(name)] else [])
    + (if Truthy(file) then ["File: " + Str(file)] else [])
    + (if Truthy(text) then [Str(text)] else [])
  }

  /** One "k: v" part per remaining property, in insertion order. */
  function OtherParts(props: Dict): seq<string> {
    if props == [] then []
    else (if Excluded(props[0].0) then [] else [props[0].0 + ": " + Str(props[0].1)]) + OtherParts(props[1..])
  }

  /** `[str(p) for p in parts if p]` */
  function NonEmpty(parts: seq<string>): seq<string> {
    if parts == [] then [] else (if parts[0] == "" then [] else [parts[0]]) + NonEmpty(parts[1..])
  }

  /** `build_text_blob(node)`: the parts joined by newlines and stripped, or
      the `AttributeError` of a chosen value that is not a dictionary. */
  function BuildTextBlob(node: Dict): (r: Result<string>)
    ensures r.Failure? <==> !PropsValue(node).VDict?
    ensures r.Success? ==> r.value == Strip(Join(NonEmpty(LeadParts(PropsValue(node).entries)
                                                          + OtherParts(PropsValue(node).entries)), "\n"))
  {
    var props := PropsValue(node);
    if !props.VDict? then
      Failure(Error(OtherError, "'" + TypeName(props) + "' object has no attribute 'get'"))
    else
      Success(Strip(Join(NonEmpty(LeadParts(props.entries) + OtherParts(props.entries)), "\n")))
  }

  // ---------------------------------------------------------------------
  // Properties of the blob
  // ---------------------------------------------------------------------

  /** Every property other than name, file, file_path and text gets exactly
      its own "k: v" part, and nothing else is listed. */
  lemma {:induction false} OtherPartsListKeys(props: Dict)
    ensures forall i :: 0 <= i < |props| && !Excluded(props[i].0) ==>
              props[i].0 + ": " + Str(props[i].1) in OtherParts(props)
    ensures forall line :: line in OtherParts(props) ==>
              exists i :: 0 <= i < |props| && !Excluded(props[i].0) && line == props[i].0 + ": " + Str(props[i].1)
  {
    if props != [] {
      OtherPartsListKeys(props[1..]);
      var head := if Excluded(props[0].0) then [] else [props[0].0 + ": " + Str(props[0].1)];
      assert OtherParts(props) == head + OtherParts(props[1..]);
      forall i | 0 <= i < |props| && !Excluded(props[i].0)
        ensures props[i].0 + ": " + Str(props[i].1) in OtherParts(props)
      {
        if i > 0 {
          assert props[1..][i - 1] == props[i];
        }
      }
      forall line | line in OtherParts(props)
        ensures exists i :: 0 <= i < |props| && !Excluded(props[i].0) && line == props[i].0 + ": " + Str(props[i].1)
      {
        if line !in head {
          var j :| 0 <= j < |props[1..]| && !Excluded(props[1..][j].0)
                   && line == props[1..][j].0 + ": " + Str(props[1..][j].1);
          assert props[1..][j] == props[j + 1];
        }
      }
    }
  }

  /** The file part falls back to `file_path` when `file` is missing or
      falsy; the name part, when present, comes first. */
  lemma LeadPartsOrder(props: Dict)
    ensures var name := GetOr(props, "name", VNone);
            Truthy(name) ==> LeadParts(props)[0] == "Name: " + Str(name)
    ensures var file := GetOr(props, "file", VNone);
            var path := GetOr(props, "file_path", VNone);
            var parts := LeadParts(props);
            && (Truthy(file) ==> "File: " + Str(file) in parts)
            && (!Truthy(file) && Truthy(path) ==> "File: " + Str(path) in parts)
            && |parts| <= 3
  {
  }

  predicate AllSpace(s: string) {
    forall i :: 0 <= i < |s| ==> IsSpace(s[i])
  }

  lemma StripEmpty(s: string)
    ensures Strip(s) == "" <==> AllSpace(s)
  {
    var r := Strip(s);
    var i, j :| 0 <= i <= j <= |s| && r == s[i..j]
                && (forall k :: 0 <= k < i ==> IsSpace(s[k]))
                && (forall k :: j <= k < |s| ==> IsSpace(s[k]));
    if r != "" {
      assert r[0] == s[i] && !IsSpace(r[0]);
    } else {
      assert i == j;
    }
  }

  /** Some part has a visible (non-whitespace) character. */
  predicate AnyVisible(parts: seq<string>) {
    parts != [] && (!AllSpace(parts[0]) || AnyVisible(parts[1..]))
  }

  lemma {:induction false} AnyVisibleAt(parts: seq<string>, k: nat)
    requires k < |parts| && !AllSpace(parts[k])
    ensures AnyVisible(parts)
  {
    if k > 0 {
      assert parts[1..][k - 1] == parts[k];
      AnyVisibleAt(parts[1..], k - 1);
    }
  }

  lemma AllSpaceConcat(a: string, b: string)
    ensures AllSpace(a + b) <==> AllSpace(a) && AllSpace(b)
  {
    if AllSpace(a + b) {
      assert forall i :: 0 <= i < |a| ==> (a + b)[i] == a[i];
      assert forall i :: 0 <= i < |b| ==> (a + b)[|a| + i] == b[i];
    }
  }

  lemma {:induction false} JoinAllSpace(parts: seq<string>)
    ensures AllSpace(Join(parts, "\n")) <==> !AnyVisible(parts)
  {
    if |parts| == 1 {
      assert parts[1..] == [];
    } else if |parts| > 1 {
      JoinAllSpace(parts[1..]);
      AllSpaceConcat(parts[0], "\n");
      AllSpaceConcat(parts[0] + "\n", Join(parts[1..], "\n"));
    }
  }

  lemma {:induction false} NonEmptyKeepsVisible(parts: seq<string>)
    ensures AnyVisible(NonEmpty(parts)) <==> AnyVisible(parts)
  {
    if parts != [] {
      NonEmptyKeepsVisible(parts[1..]);
      if parts[0] != "" {
        assert NonEmpty(parts) == [parts[0]] + NonEmpty(parts[1..]);
        assert NonEmpty(parts)[1..] == NonEmpty(parts[1..]);
      } else {
        assert AllSpace(parts[0]);
        assert NonEmpty(parts) == NonEmpty(parts[1..]);
      }
    }
  }

  /** The blob is empty exactly when no part has a visible character. */
  lemma BlobEmptyIff(node: Dict)
    requires PropsValue(node).VDict?
    ensures (BuildTextBlob(node) == Success(""))
            <==> !AnyVisible(LeadParts(PropsValue(node).entries) + OtherParts(PropsValue(node).entries))
  {
    var parts := LeadParts(PropsValue(node).entries) + OtherParts(PropsValue(node).entries);
    StripEmpty(Join(NonEmpty(parts), "\n"));
    JoinAllSpace(NonEmpty(parts));
    NonEmptyKeepsVisible(parts);
  }

  /** A "k: v" part always has a visible character (the colon), so a node
      with a property besides name, file, file_path and text is never
      skipped for an empty blob. */
  lemma ExtraPropertyMakesBlob(node: Dict, i: nat)
    requires PropsValue(node).VDict?
    requires i < |PropsValue(node).entries| && !Excluded(PropsValue(node).entries[i].0)
    ensures BuildTextBlob(node).Success? && BuildTextBlob(node).value != ""
  {
    var props := PropsValue(node).entries;
    var lead := LeadParts(props);
    var parts := lead + OtherParts(props);
    OtherPartsListKeys(props);
    var line := props[i].0 + ": " + Str(props[i].1);
    var k :| 0 <= k < |OtherParts(props)| && OtherParts(props)[k] == line;
    assert parts[|lead| + k] == line;
    assert line[|props[i].0|] == ':';
    AnyVisibleAt(parts, |lead| + k);
    BlobEmptyIff(node);
  }

  // ---------------------------------------------------------------------
  // embed_nodes
  // ---------------------------------------------------------------------

  /** What is upserted for a node: embedding, blob and type metadata. */
  datatype Entry = Entry(embedding: seq<real>, document: string, nodeType: Value)

  /** What the loop does with one node. */
  datatype NodeStep = Skip | Store(id: Value, entry: Entry) | Raise(error: Error)

  /** One iteration of the loop, given the embedder and whether the upsert
      raises. */
  function StepSpec(node: Dict, embed: string -> Result<seq<real>>, upsert: Outcome): NodeStep {
    var nid := GetOr(node, "id", VNone);
    if !Truthy(nid) then Skip
    else
      match BuildTextBlob(node)
      case Failure(e) => Raise(e)
      case Success(blob) =>
        if blob == "" then Skip
        else
          match embed(blob)
          case Failure(e) => if e.kind == EmbeddingError then Skip else Raise(e)
          case Success(vec) =>
            if vec == [] then Skip
            else if upsert.Fail? then (if upsert.error.kind == EmbeddingError then Skip else Raise(upsert.error))
            else Store(nid, Entry(vec, blob, GetOr(node, "type", VStr("unknown"))))
  }

  /** The counters and the collection after a run of the loop, or the
      error that ended it. */
  datatype Tally = Tally(count: nat, skipped: nat, entries: map<Value, Entry>, raised: Option<Error>)

  /** The counters and collection after one more step. */
  function Advance(t: Tally, step: NodeStep): Tally {
    if t.raised.Some? then t
    else
      match step
      case Skip => t.(skipped := t.skipped + 1)
      case Store(id, e) => t.(count := t.count + 1, entries := t.entries[id := e])
      case Raise(e) => t.(raised := Some(e))
  }

  /** The loop over a sequence of steps, from the collection `entries`. */
  function RunSteps(steps: seq<NodeStep>, entries: map<Value, Entry>): Tally {
    if steps == [] then Tally(0, 0, entries, None)
    else Advance(RunSteps(steps[..|steps| - 1], entries), steps[|steps| - 1])
  }

  /** The step of each node, the upsert of node `i` having outcome
      `upsert(i)`. */
  function Steps(nodes: seq<Dict>, embed: string -> Result<seq<real>>, upsert: nat -> Outcome): (steps: seq<NodeStep>)
    ensures |steps| == |nodes|
    ensures forall i :: 0 <= i < |nodes| ==> steps[i] == StepSpec(nodes[i], embed, upsert(i))
  {
    seq(|nodes|, i requires 0 <= i < |nodes| => StepSpec(nodes[i], embed, upsert(i)))
  }

  /** `kg.get("nodes", [])` of the loaded file. */
  datatype KgFile = KgFile(nodes: Option<seq<Dict>>)

  /** What reaches the caller of `embed_nodes`: a `ChromaError` or
      `EmbeddingError` as raised, anything else as a `ChromaError`. */
  function Classify(e: Error): (r: Error)
    ensures r.kind == ChromaError || r.kind == EmbeddingError
    ensures e.kind == ChromaError || e.kind == EmbeddingError ==> r == e
  {
    if e.kind == ChromaError || e.kind == EmbeddingError then e
    else Error(ChromaError, "Node embedding failed: " + e.message)
  }

  /** `embed_nodes(kg_path)`: the counters it logs, or the error it raises,
      and the collection afterwards. `open` is the outcome of opening the
      collection. */
  function EmbedNodesSpec(load: Result<KgFile>, open: Outcome, embed: string -> Result<seq<real>>,
                          upsert: nat -> Outcome, entries: map<Value, Entry>)
    : (Result<(nat, nat)>, map<Value, Entry>)
  {
    match load
    case Failure(e) => (Failure(Classify(e)), entries)
    case Success(kg) =>
      var nodes := match kg.nodes case None => [] case Some(ns) => ns;
      if nodes == [] then (Success((0, 0)), entries)
      else if open.Fail? then (Failure(Classify(open.error)), entries)
      else
        var t := RunSteps(Steps(nodes, embed, upsert), entries);
        match t.raised
        case Some(e) => (Failure(Classify(e)), t.entries)
        case None => (Success((t.count, t.skipped)), t.entries)
  }

  /** The `node_embeddings` collection. */
  class NodeCollection {
    var entries: map<Value, Entry>

    constructor (existing: map<Value, Entry>)
      ensures entries == existing
    {
      entries := existing;
    }

    /** `collection.upsert(ids=[id], …)` when it succeeds. */
    method Upsert(id: Value, e: Entry)
      modifies this
      ensures entries == old(entries)[id := e]
    {
      entries := entries[id := e];
    }
  }

  /** `embed_nodes(kg_path)`, returning the counters it logs. */
  method EmbedNodes(collection: NodeCollection, load: Result<KgFile>, open: Outcome,
                    embed: string -> Result<seq<real>>, upsert: nat -> Outcome)
    returns (r: Result<(nat, nat)>)
    modifies collection
    ensures (r, collection.entries) == EmbedNodesSpec(load, open, embed, upsert, old(collection.entries))
  {
    if load.Failure? {
      return Failure(Classify(load.error));
    }
    var nodes := match load.value.nodes case None => [] case Some(ns) => ns;
    if nodes == [] {
      return Success((0, 0));
    }
    if open.Fail? {
      return Failure(Classify(open.error));
    }
    var t := RunLoop(collection, nodes, embed, upsert);
    r := if t.raised.Some? then Failure(Classify(t.raised.value)) else Success((t.count, t.skipped));
  }

  /** The `for node in nodes` loop: the counters, the collection, and the
      error that ended the loop early, if any. */
  method RunLoop(collection: NodeCollection, nodes: seq<Dict>, embed: string -> Result<seq<real>>,
                 upsert: nat -> Outcome)
    returns (t: Tally)
    modifies collection
    ensures t == RunSteps(Steps(nodes, embed, upsert), old(collection.entries))
    ensures collection.entries == t.entries
  {
    ghost var steps := Steps(nodes, embed, upsert);
    var count, skipped := 0, 0;
    var i := 0;
    while i < |nodes|
      invariant 0 <= i <= |nodes|
      invariant RunSteps(steps[..i], old(collection.entries)) == Tally(count, skipped, collection.entries, None)
    {
      RunStepsSnoc(steps, i, old(collection.entries));
      var step := StepSpec(nodes[i], embed, upsert(i));
      assert step == steps[i];
      if step.Raise? {
        RaisedSticks(steps, i + 1, old(collection.entries));
        return Tally(count, skipped, collection.entries, Some(step.error));
      } else if step.Store? {
        collection.Upsert(step.id, step.entry);
        count := count + 1;
      } else {
        skipped := skipped + 1;
      }
      i := i + 1;
    }
    assert steps[..i] == steps;
    t := Tally(count, skipped, collection.entries, None);
  }

  /** The run of one more step advances the run of the steps before it. */
  lemma RunStepsSnoc(steps: seq<NodeStep>, i: nat, entries: map<Value, Entry>)
    requires i < |steps|
    ensures RunSteps(steps[..i + 1], entries) == Advance(RunSteps(steps[..i], entries), steps[i])
  {
    assert steps[..i + 1][..i] == steps[..i];
  }

  /** Once a step raises, the later ones change nothing. */
  lemma {:induction false} RaisedSticks(steps: seq<NodeStep>, k: nat, entries: map<Value, Entry>)
    requires k <= |steps| && RunSteps(steps[..k], entries).raised.Some?
    ensures RunSteps(steps, entries) == RunSteps(steps[..k], entries)
    decreases |steps| - k
  {
    if k < |steps| {
      assert steps[..k + 1][..k] == steps[..k];
      RaisedSticks(steps, k + 1, entries);
    } else {
      assert steps[..k] == steps;
    }
  }

  // ---------------------------------------------------------------------
  // Properties of the loop
  // ---------------------------------------------------------------------

  /** Every node is either counted or skipped: when the loop completes,
      count + skipped is the number of nodes, and the collection gains at
      most one id per counted node. */
  lemma {:induction false} EveryNodeAccounted(steps: seq<NodeStep>, entries: map<Value, Entry>)
    ensures var t := RunSteps(steps, entries);
            t.raised.None? ==> t.count + t.skipped == |steps| && |t.entries.Keys| <= |entries.Keys| + t.count
  {
    if steps != [] {
      EveryNodeAccounted(steps[..|steps| - 1], entries);
      var t0 := RunSteps(steps[..|steps| - 1], entries);
      if steps[|steps| - 1].Store? && t0.raised.None? {
        var id := steps[|steps| - 1].id;
        assert t0.entries[id := steps[|steps| - 1].entry].Keys == t0.entries.Keys + {id};
      }
    }
  }

  /** A node is stored only with a truthy id, under that id, with its
      non-empty blob as document and its type ("unknown" when absent) as
      metadata. */
  lemma StoreStep(node: Dict, embed: string -> Result<seq<real>>, upsert: Outcome)
    ensures var step := StepSpec(node, embed, upsert);
            step.Store? ==>
              && step.id == GetOr(node, "id", VNone) && Truthy(step.id)
              && BuildTextBlob(node) == Success(step.entry.document) && step.entry.document != ""
              && step.entry.embedding != [] && upsert.Pass?
              && step.entry.nodeType == GetOr(node, "type", VStr("unknown"))
  {
    var nid := GetOr(node, "id", VNone);
    var blob := BuildTextBlob(node);
    if Truthy(nid) && blob.Success? && blob.value != "" && embed(blob.value).Success? {
      var vec := embed(blob.value).value;
      assert StepSpec(node, embed, upsert)
          == if vec == [] then Skip
             else if upsert.Fail? then (if upsert.error.kind == EmbeddingError then Skip else Raise(upsert.error))
             else Store(nid, Entry(vec, blob.value, GetOr(node, "type", VStr("unknown"))));
    }
  }

  /** Whatever the loop stores or replaces, it stores as the step of some
      node. */
  lemma {:induction false} StoredEntriesComeFromSteps(steps: seq<NodeStep>, entries: map<Value, Entry>)
    ensures var t := RunSteps(steps, entries);
            forall id :: id in t.entries && (id !in entries || t.entries[id] != entries[id]) ==>
              exists i :: 0 <= i < |steps| && steps[i] == Store(id, t.entries[id])
  {
    if steps != [] {
      var init := steps[..|steps| - 1];
      StoredEntriesComeFromSteps(init, entries);
      var t0 := RunSteps(init, entries);
      var t := RunSteps(steps, entries);
      forall id | id in t.entries && (id !in entries || t.entries[id] != entries[id])
        ensures exists i :: 0 <= i < |steps| && steps[i] == Store(id, t.entries[id])
      {
        if id in t0.entries && t.entries[id] == t0.entries[id] && (id !in entries || t0.entries[id] != entries[id]) {
          var i :| 0 <= i < |init| && init[i] == Store(id, t0.entries[id]);
          assert steps[i] == init[i];
        } else {
          assert steps[|steps| - 1] == Store(id, t.entries[id]);
        }
      }
    }
  }

  /** An empty node list returns before the collection is opened: no
      error, whatever opening it would do, and nothing stored. */
  lemma EmptyNodesReturnEarly(kg: KgFile, open: Outcome, embed: string -> Result<seq<real>>,
                              upsert: nat -> Outcome, entries: map<Value, Entry>)
    requires kg.nodes.None? || kg.nodes == Some([])
    ensures EmbedNodesSpec(Success(kg), open, embed, upsert, entries) == (Success((0, 0)), entries)
  {
  }

  /** A failed embedding skips the node instead of ending the loop. */
  lemma EmbeddingErrorSkips(node: Dict, embed: string -> Result<seq<real>>, upsert: Outcome)
    requires Truthy(GetOr(node, "id", VNone))
    requires BuildTextBlob(node).Success? && BuildTextBlob(node).value != ""
    requires embed(BuildTextBlob(node).value).Failure?
    ensures (StepSpec(node, embed, upsert) == Skip) <==> (embed(BuildTextBlob(node).value).error.kind == EmbeddingError)
  {
  }

  /** `embed_nodes` raises only `ChromaError` or `EmbeddingError`. */
  lemma EmbedNodesErrors(load: Result<KgFile>, open: Outcome, embed: string -> Result<seq<real>>,
                         upsert: nat -> Outcome, entries: map<Value, Entry>)
    ensures var r := EmbedNodesSpec(load, open, embed, upsert, entries).0;
            r.Failure? ==> r.error.kind == ChromaError || r.error.kind == EmbeddingError
  {
  }
}
