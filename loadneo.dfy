/** The bulk importer of core/loadneo.py: `Neo4jImporter` splits the node
    and edge lists of a knowledge-graph file into batches of 500, sends one
    query per batch, counts what was sent, and brackets the whole import
    between `connect` and `close`.

    The graph database is the sequence of calls it receives; whether each
    call raises is a parameter (the outcome of the n-th batch query is
    `execute(n)`). The JSON file arrives already parsed, or as the error
    reading it raised. */
module LoadNeo {
  import opened Common

  /** The default `size` of `_batch_chunks`. */
  const BatchSize: nat := 500

  function Min(a: int, b: int): int {
    if a <= b then a else b
  }

  // ---------------------------------------------------------------------
  // _batch_chunks
  // ---------------------------------------------------------------------

  /** `_batch_chunks(data, size)`: the slices `data[i:i + size]` for `i` in
      `range(0, len(data), size)`, taken here one slice at a time from the
      front. */
  function Batches<T>(data: seq<T>, size: nat): seq<seq<T>>
    requires size > 0
    decreases |data|
  {
    if |data| == 0 then []
    else if |data| <= size then [data]
    else [data[..size]] + Batches(data[size..], size)
  }

  /** The batches put back together are the input. */
  lemma {:induction false} BatchesConcat<T>(data: seq<T>, size: nat)
    requires size > 0
    ensures Flatten(Batches(data, size)) == data
    decreases |data|
  {
    if |data| == 0 {
    } else if |data| <= size {
      assert Flatten([data]) == data + Flatten([data][1..]);
    } else {
      var bs := Batches(data, size);
      BatchesConcat(data[size..], size);
      assert bs[0] == data[..size] && bs[1..] == Batches(data[size..], size);
      assert data == data[..size] + data[size..];
    }
  }

  /** Every batch is non-empty and holds at most `size` items; all but the
      last hold exactly `size`. */
  lemma {:induction false} BatchesShape<T>(data: seq<T>, size: nat)
    requires size > 0
    ensures forall k :: 0 <= k < |Batches(data, size)| ==> 0 < |Batches(data, size)[k]| <= size
    ensures forall k :: 0 <= k < |Batches(data, size)| - 1 ==> |Batches(data, size)[k]| == size
    decreases |data|
  {
    if |data| > size {
      BatchesShape(data[size..], size);
      var bs := Batches(data, size);
      var rest := Batches(data[size..], size);
      assert bs == [data[..size]] + rest;
      forall k | 0 <= k < |bs|
        ensures 0 < |bs[k]| <= size && (k < |bs| - 1 ==> |bs[k]| == size)
      {
        if k == 0 {
          assert bs[k] == data[..size];
          assert |bs[k]| == size;
        } else {
          assert bs[k] == rest[k - 1];
          assert 0 <= k - 1 < |rest|;
          assert 0 < |rest[k - 1]| <= size;
          assert k - 1 < |rest| - 1 ==> |rest[k - 1]| == size;
        }
      }
    }
  }

  /** There are ceil(len / size) batches: the fewest batches of `size`
      items that hold the input, and none for an empty input. */
  lemma {:induction false} BatchesCount<T>(data: seq<T>, size: nat)
    requires size > 0
    ensures Batches(data, size) == [] <==> data == []
    ensures var n := |Batches(data, size)|;
            data != [] ==> (n - 1) * size < |data| <= n * size
    decreases |data|
  {
    if |data| > size {
      BatchesCount(data[size..], size);
      var m := |Batches(data[size..], size)|;
      assert |Batches(data, size)| == m + 1;
      assert (m + 1) * size == m * size + size;
    }
  }

  /** Batch `k` is exactly the slice `data[k*size : (k+1)*size]` of the
      `range` loop. */
  lemma {:induction false} BatchAt<T>(data: seq<T>, size: nat, k: nat)
    requires size > 0 && k < |Batches(data, size)|
    ensures k * size < |data|
    ensures Batches(data, size)[k] == data[k * size .. Min((k + 1) * size, |data|)]
    decreases |data|
  {
    if k > 0 {
      var rest := data[size..];
      assert Batches(data, size)[k] == Batches(rest, size)[k - 1];
      BatchAt(rest, size, k - 1);
      assert (k - 1) * size + size == k * size;
      assert k * size + size == (k + 1) * size;
      assert rest[(k - 1) * size .. Min(k * size, |rest|)] == data[k * size .. Min((k + 1) * size, |data|)];
    }
  }

  // ---------------------------------------------------------------------
  // The graph database and the batch loops
  // ---------------------------------------------------------------------

  /** Which list a batch query inserts. */
  datatype Kind = NodeKind | EdgeKind

  /** The calls the importer makes on the graph database. */
  datatype Call = Connect | Constraint | Insert(kind: Kind, batch: seq<Value>) | Close

  /** The prefix of the `Neo4jError` a failing batch raises. */
  function FailurePrefix(kind: Kind): string {
    match kind
    case NodeKind => "Node insertion failed: "
    case EdgeKind => "Edge insertion failed: "
  }

  /** The first batch index in `[i, n)` whose query raises. */
  function FirstFailure(execute: nat -> Outcome, i: nat, n: nat): (r: Option<nat>)
    ensures r.None? ==> forall j :: i <= j < n ==> execute(j).Pass?
    ensures r.Some? ==> i <= r.value < n && execute(r.value).Fail?
                        && forall j :: i <= j < r.value ==> execute(j).Pass?
    decreases n - i
  {
    if i >= n then None
    else if execute(i).Fail? then Some(i)
    else FirstFailure(execute, i + 1, n)
  }

  /** One insertion call per batch, in order. */
  function InsertCalls(kind: Kind, bs: seq<seq<Value>>): (calls: seq<Call>)
    ensures |calls| == |bs|
    ensures forall j :: 0 <= j < |bs| ==> calls[j] == Insert(kind, bs[j])
  {
    seq(|bs|, j requires 0 <= j < |bs| => Insert(kind, bs[j]))
  }

  /** One more batch adds its insertion call at the end. */
  lemma InsertCallsSnoc(kind: Kind, bs: seq<seq<Value>>, i: nat)
    requires i < |bs|
    ensures InsertCalls(kind, bs[..i + 1]) == InsertCalls(kind, bs[..i]) + [Insert(kind, bs[i])]
  {
    assert InsertCalls(kind, bs[..i + 1])[i] == Insert(kind, bs[i]);
  }

  /** The items sent grow by one batch at a time. */
  lemma FlattenPrefix(bs: seq<seq<Value>>, i: nat)
    requires i < |bs|
    ensures |Flatten(bs[..i + 1])| == |Flatten(bs[..i])| + |bs[i]|
  {
    assert bs[..i + 1] == bs[..i] + [bs[i]];
    FlattenAppend(bs[..i], bs[i]);
  }

  /** `_import_nodes` / `_import_edges`: the count they reach or the error
      they raise, and the calls they make. The failing batch was sent; the
      ones before it stay sent. */
  function ImportSpec(kind: Kind, items: seq<Value>, execute: nat -> Outcome): (Result<nat>, seq<Call>) {
    var bs := Batches(items, BatchSize);
    match FirstFailure(execute, 0, |bs|)
    case None => (Success(|items|), InsertCalls(kind, bs))
    case Some(j) =>
      (Failure(Error(Neo4jError, FailurePrefix(kind) + execute(j).error.message)), InsertCalls(kind, bs[..j + 1]))
  }

  /** The parsed knowledge-graph file: its "nodes" and "edges" lists, when
      present. */
  datatype KgFile = KgFile(nodes: Option<seq<Value>>, edges: Option<seq<Value>>)

  /** `kg.get(key, [])` */
  function OrEmpty(list: Option<seq<Value>>): seq<Value> {
    match list
    case None => []
    case Some(items) => items
  }

  /** What reaches the caller of `import_knowledge_graph`: a missing or
      malformed file and a `Neo4jError` as raised, anything else wrapped
      in a `Neo4jError`. */
  function Classify(e: Error): (r: Error)
    ensures r.kind in {FileNotFound, JsonDecodeError, Neo4jError}
    ensures e.kind in {FileNotFound, JsonDecodeError, Neo4jError} ==> r == e
  {
    if e.kind in {FileNotFound, JsonDecodeError, Neo4jError} then e
    else Error(Neo4jError, "Import failed: " + e.message)
  }

  /** `if items: self._import_…(items)` */
  function SkipOrImport(kind: Kind, items: seq<Value>, execute: nat -> Outcome): (Result<nat>, seq<Call>) {
    if items == [] then (Success(0), []) else ImportSpec(kind, items, execute)
  }

  /** The import between `connect` and `close`: nodes then edges, each
      skipped when empty; the constraint query's failure is swallowed. */
  function BodySpec(nodes: seq<Value>, edges: seq<Value>, nodeExec: nat -> Outcome, edgeExec: nat -> Outcome)
    : (Outcome, seq<Call>)
  {
    var n := SkipOrImport(NodeKind, nodes, nodeExec);
    if n.0.Failure? then (Fail(n.0.error), [Constraint] + n.1)
    else
      var e := SkipOrImport(EdgeKind, edges, edgeExec);
      (if e.0.Failure? then Fail(e.0.error) else Pass, [Constraint] + n.1 + e.1)
  }

  /** `import_knowledge_graph(json_path)`: the outcome and the calls made,
      given the loaded file and the outcome of each database call. An
      error raised by `close` replaces the one pending from the body. */
  function ImportGraphSpec(load: Result<KgFile>, connect: Outcome, nodeExec: nat -> Outcome,
                           edgeExec: nat -> Outcome, close: Outcome): (Outcome, seq<Call>)
  {
    match load
    case Failure(e) => (Fail(Classify(e)), [])
    case Success(kg) =>
      if connect.Fail? then (Fail(Classify(connect.error)), [Connect])
      else
        var (body, calls) := BodySpec(OrEmpty(kg.nodes), OrEmpty(kg.edges), nodeExec, edgeExec);
        var outcome := if close.Fail? then Fail(Classify(close.error))
                       else if body.Fail? then Fail(Classify(body.error))
                       else Pass;
        (outcome, [Connect] + calls + [Close])
  }

  /** The `GraphDatabase` service, as the calls it has received. */
  class GraphDatabase {
    var calls: seq<Call>

    constructor ()
      ensures calls == []
    {
      calls := [];
    }

    /** Sends one call; whether it raises is the caller's parameter. */
    method Execute(c: Call)
      modifies this
      ensures calls == old(calls) + [c]
    {
      calls := calls + [c];
    }
  }

  class Neo4jImporter {
    const graphDb: GraphDatabase

    constructor (db: GraphDatabase)
      ensures graphDb == db
    {
      graphDb := db;
    }

    /** `_import_nodes(items)` / `_import_edges(items)` */
    method ImportItems(kind: Kind, items: seq<Value>, execute: nat -> Outcome) returns (r: Result<nat>)
      modifies graphDb
      ensures r == ImportSpec(kind, items, execute).0
      ensures graphDb.calls == old(graphDb.calls) + ImportSpec(kind, items, execute).1
    {
      var bs := Batches(items, BatchSize);
      ghost var calls0 := graphDb.calls;
      var count := 0;
      var i := 0;
      while i < |bs|
        invariant 0 <= i <= |bs|
        invariant count == |Flatten(bs[..i])|
        invariant graphDb.calls == calls0 + InsertCalls(kind, bs[..i])
        invariant FirstFailure(execute, 0, |bs|) == FirstFailure(execute, i, |bs|)
      {
        graphDb.Execute(Insert(kind, bs[i]));
        InsertCallsSnoc(kind, bs, i);
        ConcatAssoc(calls0, InsertCalls(kind, bs[..i]), [Insert(kind, bs[i])]);
        var outcome := execute(i);
        if outcome.Fail? {
          assert FirstFailure(execute, 0, |bs|) == Some(i);
          return Failure(Error(Neo4jError, FailurePrefix(kind) + outcome.error.message));
        }
        FlattenPrefix(bs, i);
        count := count + |bs[i]|;
        i := i + 1;
      }
      assert bs[..i] == bs;
      BatchesConcat(items, BatchSize);
      r := Success(count);
    }

    /** `if items: self._import_…(items)` */
    method ImportIfAny(kind: Kind, items: seq<Value>, execute: nat -> Outcome) returns (r: Result<nat>)
      modifies graphDb
      ensures r == SkipOrImport(kind, items, execute).0
      ensures graphDb.calls == old(graphDb.calls) + SkipOrImport(kind, items, execute).1
    {
      r := Success(0);
      if items != [] {
        r := ImportItems(kind, items, execute);
      } else {
        assert graphDb.calls == old(graphDb.calls) + [];
      }
    }

    /** The inner `try` of `import_knowledge_graph`. */
    method RunBody(nodes: seq<Value>, edges: seq<Value>, nodeExec: nat -> Outcome, edgeExec: nat -> Outcome)
      returns (body: Outcome)
      modifies graphDb
      ensures body == BodySpec(nodes, edges, nodeExec, edgeExec).0
      ensures graphDb.calls == old(graphDb.calls) + BodySpec(nodes, edges, nodeExec, edgeExec).1
    {
      ghost var calls0 := graphDb.calls;
      ghost var n := SkipOrImport(NodeKind, nodes, nodeExec);
      graphDb.Execute(Constraint);
      var rn := ImportIfAny(NodeKind, nodes, nodeExec);
      ConcatAssoc(calls0, [Constraint], n.1);
      if rn.Failure? {
        return Fail(rn.error);
      }
      ghost var e := SkipOrImport(EdgeKind, edges, edgeExec);
      var re := ImportIfAny(EdgeKind, edges, edgeExec);
      ConcatAssoc(calls0, [Constraint] + n.1, e.1);
      body := if re.Failure? then Fail(re.error) else Pass;
    }

    /** `import_knowledge_graph(json_path)` */
    method ImportKnowledgeGraph(load: Result<KgFile>, connect: Outcome, nodeExec: nat -> Outcome,
                                edgeExec: nat -> Outcome, close: Outcome) returns (r: Outcome)
      modifies graphDb
      ensures r == ImportGraphSpec(load, connect, nodeExec, edgeExec, close).0
      ensures graphDb.calls == old(graphDb.calls) + ImportGraphSpec(load, connect, nodeExec, edgeExec, close).1
    {
      if load.Failure? {
        return Fail(Classify(load.error));
      }
      var nodes := OrEmpty(load.value.nodes);
      var edges := OrEmpty(load.value.edges);
      ghost var calls0 := graphDb.calls;
      graphDb.Execute(Connect);
      if connect.Fail? {
        return Fail(Classify(connect.error));
      }
      ghost var b := BodySpec(nodes, edges, nodeExec, edgeExec);
      var body := RunBody(nodes, edges, nodeExec, edgeExec);
      graphDb.Execute(Close);
      ConcatAssoc(calls0, [Connect], b.1);
      ConcatAssoc(calls0, [Connect] + b.1, [Close]);
      if close.Fail? {
        r := Fail(Classify(close.error));
      } else if body.Fail? {
        r := Fail(Classify(body.error));
      } else {
        r := Pass;
      }
    }
  }

  // ---------------------------------------------------------------------
  // Properties of the import
  // ---------------------------------------------------------------------

  /** A successful batch loop counts every item and has sent the items,
      batch by batch, in order. */
  lemma ImportCountsAll(kind: Kind, items: seq<Value>, execute: nat -> Outcome)
    ensures var (r, calls) := ImportSpec(kind, items, execute);
            r.Success? ==>
              && r.value == |items|
              && (forall c :: c in calls ==> c.Insert? && c.kind == kind && 0 < |c.batch| <= BatchSize)
              && Flatten(Batches(items, BatchSize)) == items
  {
    BatchesConcat(items, BatchSize);
    BatchesShape(items, BatchSize);
  }

  /** A failing batch raises a `Neo4jError`; the batches before it have
      been sent and passed, and nothing after it is sent. */
  lemma FailingBatchKeepsEarlier(kind: Kind, items: seq<Value>, execute: nat -> Outcome)
    ensures var (r, calls) := ImportSpec(kind, items, execute);
            var bs := Batches(items, BatchSize);
            r.Failure? ==>
              && r.error.kind == Neo4jError
              && 0 < |calls| <= |bs|
              && calls == InsertCalls(kind, bs[..|calls|])
              && execute(|calls| - 1).Fail?
              && (forall j :: 0 <= j < |calls| - 1 ==> execute(j).Pass?)
  {
  }

  /** `close` is called exactly once, last, whenever `connect` succeeded,
      and never otherwise. */
  lemma CloseAfterConnect(load: Result<KgFile>, connect: Outcome, nodeExec: nat -> Outcome,
                          edgeExec: nat -> Outcome, close: Outcome)
    ensures var (_, calls) := ImportGraphSpec(load, connect, nodeExec, edgeExec, close);
            && (load.Success? && connect.Pass? <==> Close in calls)
            && (Close in calls ==> calls[0] == Connect && calls[|calls| - 1] == Close
                                   && Close !in calls[..|calls| - 1])
  {
    var (_, calls) := ImportGraphSpec(load, connect, nodeExec, edgeExec, close);
    if load.Success? && connect.Pass? {
      var (body, inner) := BodySpec(OrEmpty(load.value.nodes), OrEmpty(load.value.edges), nodeExec, edgeExec);
      assert calls == [Connect] + inner + [Close];
      assert calls[..|calls| - 1] == [Connect] + inner;
      assert Close !in inner by {
        BodyHasNoClose(OrEmpty(load.value.nodes), OrEmpty(load.value.edges), nodeExec, edgeExec);
      }
    }
  }

  lemma BodyHasNoClose(nodes: seq<Value>, edges: seq<Value>, nodeExec: nat -> Outcome, edgeExec: nat -> Outcome)
    ensures forall c :: c in BodySpec(nodes, edges, nodeExec, edgeExec).1 ==> c == Constraint || c.Insert?
  {
  }

  /** An empty node (edge) list sends no node (edge) batch. */
  lemma EmptyListsAreSkipped(kg: KgFile, nodeExec: nat -> Outcome, edgeExec: nat -> Outcome, close: Outcome)
    ensures var (_, calls) := ImportGraphSpec(Success(kg), Pass, nodeExec, edgeExec, close);
            && (OrEmpty(kg.nodes) == [] ==> forall c :: c in calls && c.Insert? ==> c.kind == EdgeKind)
            && (OrEmpty(kg.edges) == [] ==> forall c :: c in calls && c.Insert? ==> c.kind == NodeKind)
  {
    var nodes, edges := OrEmpty(kg.nodes), OrEmpty(kg.edges);
    var n := SkipOrImport(NodeKind, nodes, nodeExec);
    var e := SkipOrImport(EdgeKind, edges, edgeExec);
    InsertsOfKind(NodeKind, nodes, nodeExec);
    InsertsOfKind(EdgeKind, edges, edgeExec);
    var body := BodySpec(nodes, edges, nodeExec, edgeExec).1;
    assert body == [Constraint] + n.1 || body == [Constraint] + n.1 + e.1;
    var calls := ImportGraphSpec(Success(kg), Pass, nodeExec, edgeExec, close).1;
    assert calls == [Connect] + body + [Close];
    forall c | c in calls && c.Insert?
      ensures c in n.1 || c in e.1
    {
      assert c in body;
    }
  }

  /** A batch loop sends only insertions of its own kind, and none at all
      for an empty list. */
  lemma InsertsOfKind(kind: Kind, items: seq<Value>, execute: nat -> Outcome)
    ensures forall c :: c in SkipOrImport(kind, items, execute).1 ==> c.Insert? && c.kind == kind
    ensures items == [] ==> SkipOrImport(kind, items, execute).1 == []
  {
  }

  /** When nothing fails, every node and edge reaches the database in
      order, nodes first. */
  lemma SuccessfulImportSendsAll(kg: KgFile, nodeExec: nat -> Outcome, edgeExec: nat -> Outcome)
    requires forall j :: nodeExec(j).Pass?
    requires forall j :: edgeExec(j).Pass?
    ensures var (r, calls) := ImportGraphSpec(Success(kg), Pass, nodeExec, edgeExec, Pass);
            && r == Pass
            && calls == [Connect, Constraint]
                        + InsertCalls(NodeKind, Batches(OrEmpty(kg.nodes), BatchSize))
                        + InsertCalls(EdgeKind, Batches(OrEmpty(kg.edges), BatchSize))
                        + [Close]
  {
    var nodes, edges := OrEmpty(kg.nodes), OrEmpty(kg.edges);
    var ni := InsertCalls(NodeKind, Batches(nodes, BatchSize));
    var ei := InsertCalls(EdgeKind, Batches(edges, BatchSize));
    ImportAllPass(NodeKind, nodes, nodeExec);
    ImportAllPass(EdgeKind, edges, edgeExec);
    assert BodySpec(nodes, edges, nodeExec, edgeExec) == (Pass, [Constraint] + ni + ei);
    CallsShape([Constraint] + ni + ei, ni, ei);
  }

  /** A batch loop whose queries all succeed sends every batch. */
  lemma ImportAllPass(kind: Kind, items: seq<Value>, execute: nat -> Outcome)
    requires forall j :: execute(j).Pass?
    ensures SkipOrImport(kind, items, execute) == (Success(|items|), InsertCalls(kind, Batches(items, BatchSize)))
  {
    assert FirstFailure(execute, 0, |Batches(items, BatchSize)|).None?;
    if items == [] {
      assert InsertCalls(kind, Batches(items, BatchSize)) == [];
    }
  }

  /** The calls of a successful import, regrouped. */
  lemma CallsShape(body: seq<Call>, ni: seq<Call>, ei: seq<Call>)
    requires body == [Constraint] + ni + ei
    ensures [Connect] + body + [Close] == [Connect, Constraint] + ni + ei + [Close]
  {
  }

  /** The import raises only `FileNotFoundError`, `JSONDecodeError` or
      `Neo4jError`, and whether the constraint could be created never
      matters. */
  lemma ImportErrors(load: Result<KgFile>, connect: Outcome, nodeExec: nat -> Outcome,
                     edgeExec: nat -> Outcome, close: Outcome)
    ensures var r := ImportGraphSpec(load, connect, nodeExec, edgeExec, close).0;
            r.Fail? ==> r.error.kind in {FileNotFound, JsonDecodeError, Neo4jError}
  {
  }
}
