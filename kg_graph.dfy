/** The knowledge-graph store of graph_indexing/kgbuild/graph.py: `KG`
    (nodes keyed by id in insertion order, edges in append order, the
    recursive JSON sanitizer, and the export with file paths made relative
    to a root) and `Resolver` (imported names per module).

    Paths are POSIX paths; `Path(root).resolve()` touches the file system,
    so the export takes the resolved root as a parameter. */
module KgGraph {
  import opened Common

  // ---------------------------------------------------------------------
  // _sanitize
  // ---------------------------------------------------------------------

  /** JSON-safe: only strings, numbers, booleans, None, lists and
      dictionaries, all the way down. */
  predicate JsonSafe(v: Value) {
    match v
    case VTuple(_) => false
    case VSet(_) => false
    case VObject(_) => false
    case VList(items) => forall i :: 0 <= i < |items| ==> JsonSafe(items[i])
    case VDict(entries) => forall i :: 0 <= i < |entries| ==> (assert entries[i] in entries; JsonSafe(entries[i].1))
    case _ => true
  }

  /** `_sanitize(value)`: primitives unchanged, lists, tuples and sets to
      lists and dictionaries to dictionaries (both recursively), anything
      else to its `str()`. */
  function Sanitize(v: Value): Value {
    match v
    case VList(items) => VList(seq(|items|, i requires 0 <= i < |items| => Sanitize(items[i])))
    case VTuple(items) => VList(seq(|items|, i requires 0 <= i < |items| => Sanitize(items[i])))
    case VSet(items) => VList(seq(|items|, i requires 0 <= i < |items| => Sanitize(items[i])))
    case VDict(entries) =>
      VDict(seq(|entries|, i requires 0 <= i < |entries| =>
                  assert entries[i] in entries;
                  (entries[i].0, Sanitize(entries[i].1))))
    case VObject(text) => VStr(text)
    case _ => v
  }

  /** The result of `_sanitize` is JSON-safe. */
  lemma {:induction false} SanitizeIsJsonSafe(v: Value)
    ensures JsonSafe(Sanitize(v))
    decreases v
  {
    match v
    case VList(items) =>
      forall i | 0 <= i < |items| { SanitizeIsJsonSafe(items[i]); }
    case VTuple(items) =>
      forall i | 0 <= i < |items| { SanitizeIsJsonSafe(items[i]); }
    case VSet(items) =>
      forall i | 0 <= i < |items| { SanitizeIsJsonSafe(items[i]); }
    case VDict(entries) =>
      var r := Sanitize(v).entries;
      forall i | 0 <= i < |r|
        ensures JsonSafe(r[i].1)
      {
        assert entries[i] in entries;
        SanitizeIsJsonSafe(entries[i].1);
      }
    case _ =>
  }

  /** A JSON-safe value is left exactly as it is. */
  lemma {:induction false} SanitizeFixesJsonSafe(v: Value)
    requires JsonSafe(v)
    ensures Sanitize(v) == v
    decreases v
  {
    match v
    case VList(items) =>
      forall i | 0 <= i < |items| { SanitizeFixesJsonSafe(items[i]); }
      assert Sanitize(v).items == items;
    case VDict(entries) =>
      forall i | 0 <= i < |entries|
        ensures Sanitize(v).entries[i] == entries[i]
      {
        assert entries[i] in entries;
        SanitizeFixesJsonSafe(entries[i].1);
      }
      assert Sanitize(v).entries == entries;
    case _ =>
  }

  /** Sanitizing twice is sanitizing once. */
  lemma SanitizeIdempotent(v: Value)
    ensures Sanitize(Sanitize(v)) == Sanitize(v)
  {
    SanitizeIsJsonSafe(v);
    SanitizeFixesJsonSafe(Sanitize(v));
  }

  /** `_sanitize_props(props)` */
  function SanitizeProps(props: seq<(string, Value)>): (r: seq<(string, Value)>)
    ensures |r| == |props|
    ensures forall i :: 0 <= i < |props| ==> r[i] == (props[i].0, Sanitize(props[i].1))
  {
    seq(|props|, i requires 0 <= i < |props| => (props[i].0, Sanitize(props[i].1)))
  }

  // ---------------------------------------------------------------------
  // Nodes and edges
  // ---------------------------------------------------------------------

  /** A node: `{"id": …, "type": …, "props": {…}}`. */
  datatype NodeRec = NodeRec(id: string, ntype: string, props: seq<(string, Value)>)

  /** An edge: `{"src": …, "dst": …, "type": …}`. */
  datatype Edge = Edge(src: string, dst: string, etype: string)

  /** The node after `add_node(nid, ntype, **props)`, given the node
      already stored under `nid`, if any. */
  function AddNodeTo(existing: Option<NodeRec>, nid: string, ntype: string, props: seq<(string, Value)>): NodeRec {
    var base := match existing case None => NodeRec(nid, ntype, []) case Some(n) => n;
    base.(props := Update(base.props, SanitizeProps(props)))
  }

  function NodeValue(n: NodeRec): Value {
    VDict([("id", VStr(n.id)), ("type", VStr(n.ntype)), ("props", VDict(n.props))])
  }

  function EdgeValue(e: Edge): Value {
    VDict([("src", VStr(e.src)), ("dst", VStr(e.dst)), ("type", VStr(e.etype))])
  }

  /** `{"nodes": list(self.nodes.values()), "edges": self.edges}` */
  function RawGraph(nodes: seq<NodeRec>, edges: seq<Edge>): Value {
    VDict([("nodes", VList(seq(|nodes|, i requires 0 <= i < |nodes| => NodeValue(nodes[i])))),
           ("edges", VList(seq(|edges|, i requires 0 <= i < |edges| => EdgeValue(edges[i]))))])
  }

  // ---------------------------------------------------------------------
  // Paths
  // ---------------------------------------------------------------------

  /** `Path(p).is_absolute()` on POSIX. */
  predicate IsAbsolute(p: string) {
    |p| > 0 && p[0] == '/'
  }

  /** The pieces of `Path(p).parts` after the root: empty pieces and "."
      are dropped. */
  function Clean(pieces: seq<string>): (r: seq<string>)
    ensures forall k :: 0 <= k < |r| ==> r[k] != "" && r[k] != "." && r[k] in pieces
  {
    if pieces == [] then []
    else (if pieces[0] == "" || pieces[0] == "." then [] else [pieces[0]]) + Clean(pieces[1..])
  }

  function Components(p: string): seq<string> {
    Clean(Split(p, '/'))
  }

  /** `str(Path(p).relative_to(root))` when `root`'s components start
      `p`'s: the remaining components, or "." when none remain. */
  function RelativeText(p: string, root: string): string
    requires |Components(root)| <= |Components(p)|
  {
    var rest := Components(p)[|Components(root)|..];
    if rest == [] then "." else Join(rest, "/")
  }

  /** `Path(p).is_relative_to(root)` */
  predicate UnderRoot(p: string, root: string) {
    var pc, rc := Components(p), Components(root);
    |rc| <= |pc| && pc[..|rc|] == rc
  }

  /** The relativisation of a file path as written: absolute paths that
      start with the root string are passed to `relative_to`, which raises
      `ValueError` when the root is a string prefix without being a
      component prefix. */
  function RelativeFileAsWritten(p: string, root: string): Result<string> {
    if IsAbsolute(p) && StartsWith(p, root) then
      if UnderRoot(p, root) then Success(RelativeText(p, root))
      else Failure(Error(ValueError, "'" + p + "' is not in the subpath of '" + root + "'"))
    else Success(p)
  }

  /** The relativisation the export uses: as written, except that a path
      that merely shares a string prefix with the root is left unchanged. */
  function RelativeFile(p: string, root: string): string {
    if IsAbsolute(p) && StartsWith(p, root) && UnderRoot(p, root) then RelativeText(p, root) else p
  }

  /** The string-prefix check lets "/a/bc/x.py" through for the root "/a/b",
      and `relative_to` then raises. */
  lemma AsWrittenRaisesOnSibling()
    ensures RelativeFileAsWritten("/a/bc/x.py", "/a/b").Failure?
  {
    RootComponents();
    FileComponents();
    SiblingStartsWith();
    RaisesWhenNotUnder("/a/bc/x.py", "/a/b");
  }

  /** A root that is a string prefix of an absolute path but not a
      component prefix makes the relativisation raise. */
  lemma RaisesWhenNotUnder(p: string, root: string)
    requires IsAbsolute(p) && StartsWith(p, root)
    requires Components(root) == ["a", "b"] && Components(p) == ["a", "bc", "x.py"]
    ensures RelativeFileAsWritten(p, root).Failure?
  {
    assert Components(p)[..2] != Components(root) by {
      assert Components(p)[..2][1] == "bc";
    }
  }

  lemma SiblingStartsWith()
    ensures IsAbsolute("/a/bc/x.py") && StartsWith("/a/bc/x.py", "/a/b")
  {
    assert "/a/bc/x.py"[..4] == "/a/b";
  }

  lemma RootComponents()
    ensures Components("/a/b") == ["a", "b"]
  {
    SplitJoin(["", "a", "b"], '/');
    assert Join(["", "a", "b"], "/") == "/a/b";
  }

  lemma FileComponents()
    ensures Components("/a/bc/x.py") == ["a", "bc", "x.py"]
  {
    SplitJoin(["", "a", "bc", "x.py"], '/');
    assert Join(["", "a", "bc", "x.py"], "/") == "/a/bc/x.py";
  }

  /** The relativisation the export uses never raises, agrees with the
      code wherever the code does not raise, changes only absolute paths
      under the root, and leaves exactly the components below the root. */
  lemma RelativeFileCorrect(p: string, root: string)
    ensures RelativeFileAsWritten(p, root).Success? ==> RelativeFile(p, root) == RelativeFileAsWritten(p, root).value
    ensures RelativeFile(p, root) != p ==> IsAbsolute(p) && StartsWith(p, root) && UnderRoot(p, root)
    ensures IsAbsolute(p) && StartsWith(p, root) && UnderRoot(p, root) ==>
              Components(RelativeFile(p, root)) == Components(p)[|Components(root)|..]
  {
    if IsAbsolute(p) && StartsWith(p, root) && UnderRoot(p, root) {
      var rest := Components(p)[|Components(root)|..];
      if rest == [] {
        SplitNoSep(".", '/');
      } else {
        SplitJoin(rest, '/');
        CleanKeeps(rest);
      }
    }
  }

  /** Splitting text that starts with a separator-free piece. */
  lemma {:induction false} SplitAfterPiece(a: string, t: string, sep: char)
    requires sep !in a
    ensures Split(a + t, sep) == [a + Split(t, sep)[0]] + Split(t, sep)[1..]
  {
    if a == [] {
      assert a + t == t;
      assert a + Split(t, sep)[0] == Split(t, sep)[0];
      assert [Split(t, sep)[0]] + Split(t, sep)[1..] == Split(t, sep);
    } else {
      SplitAfterPiece(a[1..], t, sep);
      assert (a + t)[1..] == a[1..] + t;
      assert (a + t)[0] == a[0] != sep;
      assert [a[0]] + (a[1..] + Split(t, sep)[0]) == a + Split(t, sep)[0];
    }
  }

  /** Splitting a join of separator-free, non-empty pieces gives the
      pieces back. */
  lemma {:induction false} SplitJoin(parts: seq<string>, sep: char)
    requires |parts| >= 1
    requires forall k :: 0 <= k < |parts| ==> sep !in parts[k]
    ensures Split(Join(parts, [sep]), sep) == parts
  {
    if |parts| == 1 {
      SplitNoSep(parts[0], sep);
    } else {
      SplitJoin(parts[1..], sep);
      var rest := Join(parts[1..], [sep]);
      SplitAfterPiece(parts[0], [sep] + rest, sep);
      assert ([sep] + rest)[1..] == rest;
      assert Split([sep] + rest, sep) == [""] + Split(rest, sep);
      assert Join(parts, [sep]) == parts[0] + ([sep] + rest);
      assert parts[0] + "" == parts[0];
      assert [parts[0]] + parts[1..] == parts;
    }
  }

  /** Pieces without empty ones or "." are kept as they are. */
  lemma {:induction false} CleanKeeps(pieces: seq<string>)
    requires forall k :: 0 <= k < |pieces| ==> pieces[k] != "" && pieces[k] != "."
    ensures Clean(pieces) == pieces
  {
    if pieces != [] {
      CleanKeeps(pieces[1..]);
    }
  }

  /** The export's rewrite of one sanitized node: a string "file" prop is
      relativised; a non-string one makes `Path` raise `TypeError`. */
  function RelNode(node: Value, root: string): Result<Value> {
    if !node.VDict? then Success(node)
    else
      match Get(node.entries, "props")
      case None => Success(node)
      case Some(props) =>
        if !props.VDict? then Success(node)
        else
          match Get(props.entries, "file")
          case None => Success(node)
          case Some(file) =>
            if !file.VStr? then
              Failure(Error(OtherError, "expected str, bytes or os.PathLike object"))
            else
              Success(VDict(Put(node.entries, "props",
                                VDict(Put(props.entries, "file", VStr(RelativeFile(file.s, root)))))))
  }

  /** The rewrite of the node list, node by node in order. */
  function RelNodes(nodes: seq<Value>, root: string): (r: Result<seq<Value>>)
    ensures r.Success? ==> |r.value| == |nodes|
  {
    if nodes == [] then Success([])
    else
      match RelNodes(nodes[..|nodes| - 1], root)
      case Failure(e) => Failure(e)
      case Success(done) =>
        match RelNode(nodes[|nodes| - 1], root)
        case Failure(e) => Failure(e)
        case Success(n) => Success(done + [n])
  }

  /** `to_dict(root_path)`, given `str(Path(root_path).resolve())`. */
  function ToDictSpec(nodes: seq<NodeRec>, edges: seq<Edge>, root: Option<string>, resolvedRoot: string)
    : Result<Value>
  {
    var list := SanitizedNodes(nodes);
    var edgeList := VList(SanitizedEdges(edges));
    if root.None? || root.value == "" then Success(VDict([("nodes", VList(list)), ("edges", edgeList)]))
    else
      match RelNodes(list, resolvedRoot)
      case Failure(e) => Failure(e)
      case Success(rel) => Success(VDict([("nodes", VList(rel)), ("edges", edgeList)]))
  }

  function SanitizedNodes(nodes: seq<NodeRec>): seq<Value> {
    seq(|nodes|, i requires 0 <= i < |nodes| => Sanitize(NodeValue(nodes[i])))
  }

  function SanitizedEdges(edges: seq<Edge>): seq<Value> {
    seq(|edges|, i requires 0 <= i < |edges| => Sanitize(EdgeValue(edges[i])))
  }

  /** Without a root, the export is `_sanitize` of the raw graph. */
  lemma ToDictIsSanitizedRaw(nodes: seq<NodeRec>, edges: seq<Edge>, root: Option<string>)
    requires root.None? || root == Some("")
    ensures ToDictSpec(nodes, edges, root, "") == Success(Sanitize(RawGraph(nodes, edges)))
  {
    var raw := RawGraph(nodes, edges);
    var s := Sanitize(raw);
    assert Sanitize(raw.entries[0].1).items == SanitizedNodes(nodes);
    assert Sanitize(raw.entries[1].1).items == SanitizedEdges(edges);
    assert s.entries == [("nodes", VList(SanitizedNodes(nodes))), ("edges", VList(SanitizedEdges(edges)))];
  }

  // ---------------------------------------------------------------------
  // KG
  // ---------------------------------------------------------------------

  /** The contents of a `KG`: node ids in insertion order, the nodes by
      id, and the edges. */
  datatype Graph = Graph(order: seq<string>, nodes: map<string, NodeRec>, edges: seq<Edge>)

  /** The order lists each stored id once, and each node sits under its
      own id. */
  ghost predicate GraphValid(g: Graph) {
    && (forall i, j :: 0 <= i < j < |g.order| ==> g.order[i] != g.order[j])
    && (forall k :: k in g.nodes <==> k in g.order)
    && (forall k :: k in g.nodes ==> g.nodes[k].id == k)
  }

  /** The graph after `add_node(nid, ntype, **props)`. */
  function WithNode(g: Graph, nid: string, ntype: string, props: seq<(string, Value)>): Graph {
    var existing := if nid in g.nodes then Some(g.nodes[nid]) else None;
    Graph(if nid in g.nodes then g.order else g.order + [nid],
          g.nodes[nid := AddNodeTo(existing, nid, ntype, props)],
          g.edges)
  }

  /** The graph after `add_edge(src, dst, etype)`. */
  function WithEdge(g: Graph, src: string, dst: string, etype: string): Graph {
    g.(edges := g.edges + [Edge(src, dst, etype)])
  }

  /** `add_node` keeps the graph well formed, and the id is then stored,
      listed once, with every other node as it was. */
  lemma WithNodeValid(g: Graph, nid: string, ntype: string, props: seq<(string, Value)>)
    requires GraphValid(g)
    ensures var after := WithNode(g, nid, ntype, props);
            && GraphValid(after)
            && nid in after.nodes && after.nodes[nid].id == nid
            && (forall k :: k != nid && k in g.nodes ==> k in after.nodes && after.nodes[k] == g.nodes[k])
            && after.order[..|g.order|] == g.order
  {
    var after := WithNode(g, nid, ntype, props);
    var existing := if nid in g.nodes then Some(g.nodes[nid]) else None;
    assert after.nodes == g.nodes[nid := AddNodeTo(existing, nid, ntype, props)];
    forall k | k in after.nodes
      ensures after.nodes[k].id == k
    {
      if k != nid {
        assert after.nodes[k] == g.nodes[k];
      }
    }
    if nid in g.nodes {
      assert after.order == g.order;
    } else {
      assert after.order == g.order + [nid];
      forall k
        ensures k in after.nodes <==> k in after.order
      {
        assert k in after.order <==> k in g.order || k == nid;
      }
      forall i, j | 0 <= i < j < |after.order|
        ensures after.order[i] != after.order[j]
      {
        if j == |g.order| {
          assert after.order[i] == g.order[i] && g.order[i] in g.nodes;
        } else {
          assert after.order[i] == g.order[i] && after.order[j] == g.order[j];
        }
      }
    }
  }

  class KG {
    /** The node ids in insertion order, and the nodes by id. */
    var order: seq<string>
    var nodes: map<string, NodeRec>
    var edges: seq<Edge>

    function State(): Graph
      reads this
    {
      Graph(order, nodes, edges)
    }

    ghost predicate Valid()
      reads this
    {
      GraphValid(State())
    }

    /** `list(self.nodes.values())` */
    function NodeList(): (r: seq<NodeRec>)
      reads this
      requires Valid()
      ensures |r| == |order|
    {
      seq(|order|, i requires 0 <= i < |order| && Valid() reads this => nodes[order[i]])
    }

    constructor ()
      ensures Valid() && order == [] && nodes == map[] && edges == []
    {
      order := [];
      nodes := map[];
      edges := [];
    }

    /** `add_node(nid, ntype, **props)` */
    method AddNode(nid: string, ntype: string, props: seq<(string, Value)>)
      requires Valid()
      modifies this
      ensures Valid()
      ensures State() == WithNode(old(State()), nid, ntype, props)
    {
      WithNodeValid(State(), nid, ntype, props);
      var existing := if nid in nodes then Some(nodes[nid]) else None;
      if nid !in nodes {
        order := order + [nid];
      }
      nodes := nodes[nid := AddNodeTo(existing, nid, ntype, props)];
    }

    /** `add_edge(src, dst, etype)` */
    method AddEdge(src: string, dst: string, etype: string)
      requires Valid()
      modifies this
      ensures Valid()
      ensures State() == WithEdge(old(State()), src, dst, etype)
    {
      edges := edges + [Edge(src, dst, etype)];
    }

    /** `to_dict(root_path)`, given `str(Path(root_path).resolve())`. */
    method ToDict(root: Option<string>, resolvedRoot: string) returns (r: Result<Value>)
      requires Valid()
      ensures r == ToDictSpec(NodeList(), edges, root, resolvedRoot)
    {
      var list := SanitizedNodes(NodeList());
      var edgeList := VList(SanitizedEdges(edges));
      if root.None? || root.value == "" {
        return Success(VDict([("nodes", VList(list)), ("edges", edgeList)]));
      }
      var rel := RelativiseNodes(list, resolvedRoot);
      if rel.Failure? {
        return Failure(rel.error);
      }
      r := Success(VDict([("nodes", VList(rel.value)), ("edges", edgeList)]));
    }
  }

  /** The loop of `to_dict` that rewrites each node's "file" prop. */
  method RelativiseNodes(list: seq<Value>, root: string) returns (r: Result<seq<Value>>)
    ensures r == RelNodes(list, root)
  {
    var rel: seq<Value> := [];
    for i := 0 to |list|
      invariant RelNodes(list[..i], root) == Success(rel)
    {
      assert list[..i + 1][..i] == list[..i];
      var n := RelNode(list[i], root);
      if n.Failure? {
        RelNodesFailSticks(list, i + 1, root);
        return Failure(n.error);
      }
      rel := rel + [n.value];
    }
    assert list[..|list|] == list;
    r := Success(rel);
  }

  /** Once a node's rewrite raises, the whole rewrite raises that error. */
  lemma {:induction false} RelNodesFailSticks(nodes: seq<Value>, k: nat, root: string)
    requires k <= |nodes| && RelNodes(nodes[..k], root).Failure?
    ensures RelNodes(nodes, root) == RelNodes(nodes[..k], root)
    decreases |nodes| - k
  {
    if k < |nodes| {
      assert nodes[..k + 1][..k] == nodes[..k];
      RelNodesFailSticks(nodes, k + 1, root);
    } else {
      assert nodes[..k] == nodes;
    }
  }

  // ---------------------------------------------------------------------
  // Properties of KG
  // ---------------------------------------------------------------------

  /** Sanitizing keeps the keys of the props, so kwargs stay unique. */
  lemma SanitizePropsKeys(props: seq<(string, Value)>, k: string)
    ensures Get(SanitizeProps(props), k).Some? <==> Get(props, k).Some?
    ensures UniqueKeys(props) ==> UniqueKeys(SanitizeProps(props))
  {
    var r := SanitizeProps(props);
    if Get(props, k).Some? {
      var i :| 0 <= i < |props| && props[i].0 == k;
      assert r[i].0 == k;
    }
    if Get(r, k).Some? {
      var i :| 0 <= i < |r| && r[i].0 == k;
      assert props[i].0 == k;
    }
  }

  /** The first `add_node` of an id creates it with the given type and
      the sanitized props; a later one keeps the original id and type and
      merges the props, new values overwriting old ones under the same
      key and other keys keeping theirs. */
  lemma AddNodeMerges(existing: Option<NodeRec>, nid: string, ntype: string, props: seq<(string, Value)>, k: string)
    requires UniqueKeys(props)
    ensures var n := AddNodeTo(existing, nid, ntype, props);
            && (existing.None? ==> n.id == nid && n.ntype == ntype)
            && (existing.Some? ==> n.id == existing.value.id && n.ntype == existing.value.ntype)
            && Get(n.props, k) == if Get(props, k).Some? then Some(Sanitize(Get(props, k).value))
                                 else if existing.Some? then Get(existing.value.props, k) else None
  {
    SanitizePropsKeys(props, k);
    var base := match existing case None => NodeRec(nid, ntype, []) case Some(n) => n;
    UpdateGet(base.props, SanitizeProps(props), k);
    if Get(props, k).Some? {
      SanitizedGet(props, k);
    }
  }

  lemma {:induction false} SanitizedGet(props: seq<(string, Value)>, k: string)
    requires Get(props, k).Some?
    ensures Get(SanitizeProps(props), k) == Some(Sanitize(Get(props, k).value))
  {
    if props[0].0 != k {
      SanitizedGet(props[1..], k);
      assert SanitizeProps(props)[1..] == SanitizeProps(props[1..]);
    }
  }

  /** Without a root, the export lists the nodes in insertion order and
      the edges in append order; nodes whose props are JSON-safe come out
      exactly as stored. */
  lemma ToDictOrder(nodes: seq<NodeRec>, edges: seq<Edge>, root: Option<string>)
    requires root.None? || root == Some("")
    requires forall i :: 0 <= i < |nodes| ==> JsonSafe(VDict(nodes[i].props))
    ensures ToDictSpec(nodes, edges, root, "") == Success(RawGraph(nodes, edges))
  {
    var raw := RawGraph(nodes, edges);
    forall i | 0 <= i < |nodes|
      ensures JsonSafe(NodeValue(nodes[i]))
    {
      var d := NodeValue(nodes[i]).entries;
      assert d[2].1 == VDict(nodes[i].props);
    }
    assert JsonSafe(raw.entries[0].1);
    assert JsonSafe(raw.entries[1].1);
    SanitizeFixesJsonSafe(raw);
    ToDictIsSanitizedRaw(nodes, edges, root);
  }

  /** With a root, the export fails only on a node whose "file" prop is
      not a string; the relativisation itself never raises. */
  lemma {:induction false} RelNodesFailsOnlyOnNonStringFile(nodes: seq<Value>, root: string)
    ensures RelNodes(nodes, root).Failure? ==>
              exists i :: 0 <= i < |nodes| && RelNode(nodes[i], root).Failure?
  {
    if nodes != [] {
      RelNodesFailsOnlyOnNonStringFile(nodes[..|nodes| - 1], root);
      if RelNodes(nodes[..|nodes| - 1], root).Failure? {
        var i :| 0 <= i < |nodes[..|nodes| - 1]| && RelNode(nodes[..|nodes| - 1][i], root).Failure?;
        assert nodes[..|nodes| - 1][i] == nodes[i];
      }
    }
  }

  // ---------------------------------------------------------------------
  // Resolver
  // ---------------------------------------------------------------------

  /** `resolve(module, symbol)` over an import table. */
  function ResolveIn(imports: map<string, map<string, string>>, mod: string, symbol: string): string {
    if mod in imports && symbol in imports[mod] then imports[mod][symbol] else mod + "." + symbol
  }

  /** `add_import(module, symbol, fqn)` over an import table. */
  function AddImportTo(imports: map<string, map<string, string>>, mod: string, symbol: string, fqn: string)
    : map<string, map<string, string>>
  {
    var table := if mod in imports then imports[mod] else map[];
    imports[mod := table[symbol := fqn]]
  }

  class Resolver {
    var imports: map<string, map<string, string>>

    constructor ()
      ensures imports == map[]
    {
      imports := map[];
    }

    method AddImport(mod: string, symbol: string, fqn: string)
      modifies this
      ensures imports == AddImportTo(old(imports), mod, symbol, fqn)
    {
      var table := if mod in imports then imports[mod] else map[];
      imports := imports[mod := table[symbol := fqn]];
    }

    function Resolve(mod: string, symbol: string): string
      reads this
    {
      ResolveIn(imports, mod, symbol)
    }
  }

  /** `add_import` makes that (module, symbol) pair resolve to the given
      name and changes the resolution of no other pair. */
  lemma AddImportResolves(imports: map<string, map<string, string>>, mod: string, symbol: string, fqn: string,
                          m: string, s: string)
    ensures ResolveIn(AddImportTo(imports, mod, symbol, fqn), m, s)
            == if m == mod && s == symbol then fqn else ResolveIn(imports, m, s)
  {
  }

  /** An unregistered name resolves to "module.symbol". */
  lemma UnknownResolvesLocally(mod: string, symbol: string)
    ensures ResolveIn(map[], mod, symbol) == mod + "." + symbol
  {
  }
}
