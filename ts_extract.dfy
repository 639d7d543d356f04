/** The Tree-sitter pass of graph_indexing/kgbuild/treesitter_extractor.py:
    `compute_module` (a dotted module name from a file path under a root)
    and `extract_ts` (one "ts_" node per named function or class
    definition of the syntax tree).

    Loading the grammar, reading the file and parsing it are I/O: their
    outcomes are parameters, and the syntax tree is a value whose nodes
    carry their kind, their source text and their children. */
module TsExtract {
  import opened Common
  import opened KgGraph

  // ---------------------------------------------------------------------
  // compute_module
  // ---------------------------------------------------------------------

  /** `s.replace(c, d)` for single characters. */
  function Replace(s: string, c: char, d: char): string {
    seq(|s|, i requires 0 <= i < |s| => if s[i] == c then d else s[i])
  }

  /** `name.rfind('.')`, or None when there is no dot. */
  function LastDot(name: string): (r: Option<nat>)
    ensures r.Some? ==> r.value < |name| && name[r.value] == '.' && '.' !in name[r.value + 1..]
    ensures r.None? ==> '.' !in name
  {
    if name == [] then None
    else if name[|name| - 1] == '.' then Some(|name| - 1)
    else
      var r := LastDot(name[..|name| - 1]);
      assert r.Some? ==> name[r.value + 1..] == name[..|name| - 1][r.value + 1..] + [name[|name| - 1]];
      assert r.None? ==> name == name[..|name| - 1] + [name[|name| - 1]];
      r
  }

  /** The name with its last suffix removed, as `with_suffix("")` does: a
      suffix starts at the last dot, which must be neither the first nor
      the last character. */
  function DropSuffix(name: string): string {
    match LastDot(name)
    case None => name
    case Some(i) => if 0 < i < |name| - 1 then name[..i] else name
  }

  /** `compute_module(path, root)`: the path relative to the root, without
      the last suffix, with both kinds of slash turned into dots, and with
      a trailing ".__init__" removed. `relative_to` raises when the path
      is not under the root, and `with_suffix` when the path is the root
      itself ("." has an empty name). */
  function ComputeModule(path: string, root: string): Result<string> {
    if IsAbsolute(path) != IsAbsolute(root) || !UnderRoot(path, root) then
      Failure(Error(ValueError, "'" + path + "' is not in the subpath of '" + root + "'"))
    else
      var rest := Components(path)[|Components(root)|..];
      if rest == [] then Failure(Error(ValueError, "PosixPath('.') has an empty name"))
      else
        var pieces := rest[..|rest| - 1] + [DropSuffix(rest[|rest| - 1])];
        var dotted := Replace(Replace(Join(pieces, "/"), '\\', '.'), '/', '.');
        if EndsWith(dotted, ".__init__") then Success(dotted[..|dotted| - 9]) else Success(dotted)
  }

  // ---------------------------------------------------------------------
  // Properties of compute_module
  // ---------------------------------------------------------------------

  /** `compute_module` raises exactly for a path outside the root (or of
      the other kind, absolute against relative) and for the root itself. */
  lemma ComputeModuleFails(path: string, root: string)
    ensures ComputeModule(path, root).Failure? <==>
              !(IsAbsolute(path) == IsAbsolute(root) && UnderRoot(path, root)
                && |Components(root)| < |Components(path)|)
    ensures ComputeModule(path, root).Failure? ==> ComputeModule(path, root).error.kind == ValueError
  {
  }

  /** A module name contains no slash of either kind. */
  lemma ComputeModuleHasNoSlash(path: string, root: string)
    requires ComputeModule(path, root).Success?
    ensures '/' !in ComputeModule(path, root).value && '\\' !in ComputeModule(path, root).value
  {
    var rest := Components(path)[|Components(root)|..];
    var pieces := rest[..|rest| - 1] + [DropSuffix(rest[|rest| - 1])];
    var dotted := Replace(Replace(Join(pieces, "/"), '\\', '.'), '/', '.');
    var r := ComputeModule(path, root).value;
    assert forall i :: 0 <= i < |dotted| ==> dotted[i] != '/' && dotted[i] != '\\';
    assert r == dotted || r == dotted[..|dotted| - 9];
  }

  /** `with_suffix("")` removes exactly the last suffix. */
  lemma DropSuffixLast(base: string, ext: string)
    requires base != "" && ext != "" && '.' !in ext
    ensures DropSuffix(base + "." + ext) == base
  {
    var name := base + "." + ext;
    assert name[|base|] == '.';
    assert name[|base| + 1..] == ext;
    var i := LastDot(name).value;
    forall t | i < t < |name|
      ensures name[t] != '.'
    {
      assert name[t] == name[i + 1..][t - i - 1];
    }
    forall t | |base| < t < |name|
      ensures name[t] != '.'
    {
      assert name[t] == ext[t - |base| - 1];
    }
    assert i == |base|;
    assert name[..|base|] == base;
  }

  /** Replacing a character that does not occur changes nothing. */
  lemma ReplaceAbsent(s: string, c: char, d: char)
    requires c !in s
    ensures Replace(s, c, d) == s
  {
  }

  /** Joining pieces with a separator adds no character that neither the
      separator nor a piece has. */
  lemma {:induction false} JoinAvoids(xs: seq<string>, sep: string, c: char)
    requires c !in sep && forall k :: 0 <= k < |xs| ==> c !in xs[k]
    ensures c !in Join(xs, sep)
  {
    if |xs| > 1 {
      JoinAvoids(xs[1..], sep, c);
    }
  }

  /** Replacing the separator of a join, when no piece holds it, is
      joining with the new separator. */
  lemma {:induction false} ReplaceJoin(xs: seq<string>, a: char, b: char)
    requires forall k :: 0 <= k < |xs| ==> a !in xs[k]
    ensures Replace(Join(xs, [a]), a, b) == Join(xs, [b])
  {
    if |xs| == 1 {
      ReplaceAbsent(xs[0], a, b);
    } else if |xs| > 1 {
      ReplaceJoin(xs[1..], a, b);
      var tail := Join(xs[1..], [a]);
      ReplaceAbsent(xs[0], a, b);
      assert Replace(xs[0] + [a] + tail, a, b) == Replace(xs[0], a, b) + [b] + Replace(tail, a, b);
    }
  }

  /** `sep.join(xs + [y])` is `sep.join(xs) + sep + y`. */
  lemma {:induction false} JoinSnoc(xs: seq<string>, y: string, sep: string)
    requires |xs| >= 1
    ensures Join(xs + [y], sep) == Join(xs, sep) + sep + y
  {
    if |xs| > 1 {
      JoinSnoc(xs[1..], y, sep);
      assert (xs + [y])[1..] == xs[1..] + [y];
    }
  }

  /** A dotted name whose last piece has no dot ends with ".__init__"
      only when that piece is "__init__" and is not the only one. */
  lemma InitSuffix(dirs: seq<string>, stem: string)
    requires '.' !in stem
    ensures EndsWith(Join(dirs + [stem], "."), ".__init__") <==> stem == "__init__" && dirs != []
  {
    var j := Join(dirs + [stem], ".");
    var e := ".__init__";
    if dirs == [] {
      assert j == stem;
      if |j| >= 9 {
        EndsWithAt(j, e, 0);
        assert j[|j| - 9] in stem;
      }
    } else {
      JoinSnoc(dirs, stem, ".");
      var a := Join(dirs, ".");
      assert j == a + "." + stem;
      assert j[|j| - |stem| - 1] == '.';
      if |stem| >= 9 {
        EndsWithAt(j, e, 0);
        assert j[|j| - 9] == stem[|stem| - 9];
      } else if |stem| < 8 {
        EndsWithAt(j, e, 8 - |stem|);
      } else {
        assert j[|j| - 9..] == "." + stem;
        assert ("." + stem)[1..] == stem && e[1..] == "__init__";
        assert EndsWith(j, e) <==> "." + stem == e;
      }
    }
  }

  /** A character of a text that ends with `e`, counted from where `e`
      starts, is that character of `e`. */
  lemma EndsWithAt(s: string, e: string, t: nat)
    requires t < |e|
    ensures EndsWith(s, e) ==> s[|s| - |e| + t] == e[t]
  {
    if EndsWith(s, e) {
      assert s[|s| - |e|..][t] == e[t];
    }
  }

  /** For a file `d1/…/dn/stem.ext` under the root (no dots or slashes in
      the pieces), the dotted text before the `.__init__` test is
      "d1.….dn.stem". */
  lemma ComputeModuleJoin(path: string, root: string, dirs: seq<string>, stem: string, ext: string)
    requires IsAbsolute(path) == IsAbsolute(root) && UnderRoot(path, root)
    requires Components(path)[|Components(root)|..] == dirs + [stem + "." + ext]
    requires stem != "" && ext != "" && '.' !in ext && '.' !in stem && '\\' !in stem
    requires forall k :: 0 <= k < |dirs| ==> '.' !in dirs[k] && '\\' !in dirs[k]
    ensures var dotted := Join(dirs + [stem], ".");
            ComputeModule(path, root)
            == if EndsWith(dotted, ".__init__") then Success(dotted[..|dotted| - 9]) else Success(dotted)
  {
    var rest := dirs + [stem + "." + ext];
    DropSuffixLast(stem, ext);
    var pieces := dirs + [stem];
    assert rest[..|rest| - 1] + [DropSuffix(rest[|rest| - 1])] == pieces;
    forall k | 0 <= k < |pieces|
      ensures '/' !in pieces[k] && '\\' !in pieces[k] && '.' !in pieces[k]
    {
      if k < |dirs| {
        assert dirs[k] == Components(path)[|Components(root)| + k];
      }
    }
    JoinAvoids(pieces, "/", '\\');
    ReplaceAbsent(Join(pieces, "/"), '\\', '.');
    ReplaceJoin(pieces, '/', '.');
  }

  /** Dropping ".__init__" from a package's dotted `__init__` name leaves
      the package's name. */
  lemma InitDrop(dirs: seq<string>)
    requires dirs != []
    ensures var d := Join(dirs + ["__init__"], ".");
            |d| >= 9 && d[..|d| - 9] == Join(dirs, ".")
  {
    JoinSnoc(dirs, "__init__", ".");
    var a := Join(dirs, ".");
    assert Join(dirs + ["__init__"], ".") == a + ".__init__";
  }

  /** The module name of a file `d1/…/dn/stem.ext` under the root. */
  lemma ComputeModuleName(path: string, root: string, dirs: seq<string>, stem: string, ext: string)
    requires IsAbsolute(path) == IsAbsolute(root) && UnderRoot(path, root)
    requires Components(path)[|Components(root)|..] == dirs + [stem + "." + ext]
    requires stem != "" && ext != "" && '.' !in ext && '.' !in stem && '\\' !in stem
    requires forall k :: 0 <= k < |dirs| ==> '.' !in dirs[k] && '\\' !in dirs[k]
    ensures ComputeModule(path, root)
            == Success(Join(if stem == "__init__" && dirs != [] then dirs else dirs + [stem], "."))
  {
    ComputeModuleJoin(path, root, dirs, stem, ext);
    InitSuffix(dirs, stem);
    if stem == "__init__" && dirs != [] {
      InitDrop(dirs);
    }
  }

  /** For a file `d1/…/dn/stem.ext` under the root (no dots or backslashes
      in the directory names and the stem), the module is "d1.….dn.stem";
      for a package's `__init__` file it is the package "d1.….dn"; a
      top-level `__init__` file gives "__init__". Splitting the module at
      the dots gives the pieces back. */
  lemma ComputeModuleDotted(path: string, root: string, dirs: seq<string>, stem: string, ext: string)
    requires IsAbsolute(path) == IsAbsolute(root) && UnderRoot(path, root)
    requires Components(path)[|Components(root)|..] == dirs + [stem + "." + ext]
    requires stem != "" && ext != "" && '.' !in ext && '.' !in stem && '\\' !in stem
    requires forall k :: 0 <= k < |dirs| ==> '.' !in dirs[k] && '\\' !in dirs[k]
    ensures var parts := if stem == "__init__" && dirs != [] then dirs else dirs + [stem];
            && ComputeModule(path, root) == Success(Join(parts, "."))
            && Split(ComputeModule(path, root).value, '.') == parts
  {
    var parts := if stem == "__init__" && dirs != [] then dirs else dirs + [stem];
    ComputeModuleName(path, root, dirs, stem, ext);
    forall k | 0 <= k < |parts|
      ensures '.' !in parts[k]
    {
      if k < |dirs| {
        assert parts[k] == dirs[k];
      }
    }
    SplitJoin(parts, '.');
  }

  // ---------------------------------------------------------------------
  // extract_ts
  // ---------------------------------------------------------------------

  /** A syntax-tree node: its type, the decoded source text it spans, and
      its children. */
  datatype TsNode = TsNode(kind: string, text: string, children: seq<TsNode>)

  /** The text of the first "identifier" child. */
  function FirstIdentifier(children: seq<TsNode>): (r: Option<string>)
    ensures r.Some? ==> exists i :: 0 <= i < |children| && children[i].kind == "identifier" && children[i].text == r.value
    ensures r.None? ==> forall i :: 0 <= i < |children| ==> children[i].kind != "identifier"
  {
    if children == [] then None
    else if children[0].kind == "identifier" then Some(children[0].text)
    else
      var r := FirstIdentifier(children[1..]);
      assert r.Some? ==> exists i :: 0 <= i < |children| && children[i].kind == "identifier" && children[i].text == r.value by {
        if r.Some? {
          var i :| 0 <= i < |children[1..]| && children[1..][i].kind == "identifier" && children[1..][i].text == r.value;
          assert children[i + 1] == children[1..][i];
        }
      }
      assert r.None? ==> forall i :: 0 <= i < |children| ==> children[i].kind != "identifier" by {
        if r.None? {
          forall i | 0 <= i < |children|
            ensures children[i].kind != "identifier"
          {
            if i > 0 {
              assert children[i] == children[1..][i - 1];
            }
          }
        }
      }
      r
  }

  /** The graph type of a definition node: "ts_" followed by its syntax type. */
  function NodeType(kind: string): string {
    "ts_" + kind
  }

  predicate IsDefinition(kind: string) {
    kind == "function_definition" || kind == "class_definition"
  }

  /** The (id, type) that `walk` adds for this node itself, if any. */
  function OwnDef(node: TsNode, mod: string): seq<(string, string)> {
    if IsDefinition(node.kind) then
      match FirstIdentifier(node.children)
      case Some(name) => if name != "" then [(mod + "." + name, NodeType(node.kind))] else []
      case None => []
    else []
  }

  /** The (id, type) pairs `walk` adds for a subtree, in pre-order. */
  function Defs(node: TsNode, mod: string): seq<(string, string)>
    decreases node
  {
    OwnDef(node, mod) + Flatten(ChildDefs(node, mod))
  }

  function ChildDefs(node: TsNode, mod: string): (r: seq<seq<(string, string)>>)
    decreases node, 0
  {
    seq(|node.children|, i requires 0 <= i < |node.children| =>
          assert node.children[i] in node.children;
          Defs(node.children[i], mod))
  }

  /** The graph after adding the nodes `defs` in order, each carrying the
      relative file path. */
  function AddDefs(g: Graph, defs: seq<(string, string)>, file: string): Graph {
    if defs == [] then g
    else
      var last := defs[|defs| - 1];
      WithNode(AddDefs(g, defs[..|defs| - 1], file), last.0, last.1, [("file", VStr(file))])
  }

  /** The recursive `walk(node)`. */
  method Walk(node: TsNode, mod: string, file: string, kg: KG)
    requires kg.Valid()
    modifies kg
    ensures kg.Valid()
    ensures kg.State() == AddDefs(old(kg.State()), Defs(node, mod), file)
    decreases node
  {
    ghost var start := kg.State();
    ghost var own := OwnDef(node, mod);
    AddOwnNode(node, mod, file, kg);
    var children := node.children;
    ghost var parts := ChildDefs(node, mod);
    for i := 0 to |children|
      invariant kg.Valid()
      invariant kg.State() == AddDefs(start, own + Flatten(parts[..i]), file)
    {
      assert children[i] in node.children;
      Walk(children[i], mod, file, kg);
      WalkStep(start, own, parts, i, file);
    }
    assert parts[..|children|] == parts;
  }

  /** The node `walk` adds for a definition itself, before its children. */
  method AddOwnNode(node: TsNode, mod: string, file: string, kg: KG)
    requires kg.Valid()
    modifies kg
    ensures kg.Valid()
    ensures kg.State() == AddDefs(old(kg.State()), OwnDef(node, mod), file)
  {
    ghost var start := kg.State();
    if node.kind == "function_definition" || node.kind == "class_definition" {
      var name := FirstIdentifier(node.children);
      if name.Some? && name.value != "" {
        kg.AddNode(mod + "." + name.value, "ts_" + node.kind, [("file", VStr(file))]);
      }
    }
    AddOwnDef(start, node, mod, file);
  }

  /** The graph after the node's own definition, if any. */
  lemma AddOwnDef(g: Graph, node: TsNode, mod: string, file: string)
    ensures var own := OwnDef(node, mod);
            AddDefs(g, own, file) == if own == [] then g else WithNode(g, own[0].0, own[0].1, [("file", VStr(file))])
  {
    var own := OwnDef(node, mod);
    if own != [] {
      assert own[..0] == [];
    }
  }

  /** One more child subtree walked. */
  lemma WalkStep(g: Graph, own: seq<(string, string)>, parts: seq<seq<(string, string)>>, i: nat, file: string)
    requires i < |parts|
    ensures AddDefs(g, own + Flatten(parts[..i + 1]), file)
            == AddDefs(AddDefs(g, own + Flatten(parts[..i]), file), parts[i], file)
  {
    var before := own + Flatten(parts[..i]);
    assert own + Flatten(parts[..i + 1]) == before + parts[i] by {
      assert parts[..i + 1] == parts[..i] + [parts[i]];
      FlattenAppend(parts[..i], parts[i]);
    }
    AddDefsConcat(g, before, parts[i], file);
  }

  /** `extract_ts(path, root, kg)`, given whether the grammar loads and
      the result of reading and parsing the file. A failure in either is
      logged and ends the extraction quietly; `compute_module` raising is
      not caught. */
  method ExtractTs(path: string, root: string, kg: KG, grammar: Outcome, parsed: Result<TsNode>)
    returns (r: Outcome)
    requires kg.Valid()
    modifies kg
    ensures kg.Valid()
    ensures grammar.Fail? || parsed.Failure? ==> r == Pass && kg.State() == old(kg.State())
    ensures grammar.Pass? && parsed.Success? ==>
              match ComputeModule(path, root)
              case Failure(e) => r == Fail(e) && kg.State() == old(kg.State())
              case Success(m) =>
                && |Components(root)| <= |Components(path)|
                && r == Pass
                && kg.State() == AddDefs(old(kg.State()), Defs(parsed.value, m), RelativeText(path, root))
  {
    if grammar.Fail? || parsed.Failure? {
      return Pass;
    }
    var m := ComputeModule(path, root);
    if m.Failure? {
      return Fail(m.error);
    }
    Walk(parsed.value, m.value, RelativeText(path, root), kg);
    r := Pass;
  }

  // ---------------------------------------------------------------------
  // Properties of extract_ts
  // ---------------------------------------------------------------------

  /** Adding `a + b` is adding `a`, then `b`. */
  lemma {:induction false} AddDefsConcat(g: Graph, a: seq<(string, string)>, b: seq<(string, string)>, file: string)
    ensures AddDefs(g, a + b, file) == AddDefs(AddDefs(g, a, file), b, file)
    decreases |b|
  {
    if b == [] {
      assert a + b == a;
    } else {
      assert (a + b)[..|a + b| - 1] == a + b[..|b| - 1];
      AddDefsConcat(g, a, b[..|b| - 1], file);
    }
  }

  /** Every node `walk` adds has the id "module.name" of a named
      definition and the type "ts_" followed by the definition's type. */
  lemma {:induction false} DefsShape(node: TsNode, mod: string)
    ensures forall k :: 0 <= k < |Defs(node, mod)| ==> DefShaped(Defs(node, mod)[k], mod)
    decreases node
  {
    var parts := ChildDefs(node, mod);
    forall i | 0 <= i < |parts|
      ensures forall k :: 0 <= k < |parts[i]| ==> DefShaped(parts[i][k], mod)
    {
      assert node.children[i] in node.children;
      DefsShape(node.children[i], mod);
      assert parts[i] == Defs(node.children[i], mod);
    }
    FlattenShape(parts, mod);
    OwnDefShaped(node, mod);
    var own := OwnDef(node, mod);
    var flat := Flatten(parts);
    forall k | 0 <= k < |Defs(node, mod)|
      ensures DefShaped(Defs(node, mod)[k], mod)
    {
      if k < |own| {
        assert Defs(node, mod)[k] == own[k];
      } else {
        assert Defs(node, mod)[k] == flat[k - |own|];
      }
    }
  }

  /** The node's own definition, if any, is definition-shaped. */
  lemma OwnDefShaped(node: TsNode, mod: string)
    ensures forall k :: 0 <= k < |OwnDef(node, mod)| ==> DefShaped(OwnDef(node, mod)[k], mod)
  {
    var own := OwnDef(node, mod);
    if own != [] {
      var id := mod + "." + FirstIdentifier(node.children).value;
      assert own[0].0 == id;
      assert id[..|mod + "."|] == mod + ".";
    }
  }

  /** A definition-shaped pair: its id starts with "module." and names
      something, and its type is one of the two "ts_" types. */
  predicate DefShaped(d: (string, string), mod: string) {
    StartsWith(d.0, mod + ".") && (d.1 == NodeType("function_definition") || d.1 == NodeType("class_definition"))
    && |d.0| > |mod| + 1
  }

  lemma {:induction false} FlattenShape(parts: seq<seq<(string, string)>>, mod: string)
    requires forall i, k :: 0 <= i < |parts| && 0 <= k < |parts[i]| ==> DefShaped(parts[i][k], mod)
    ensures forall k :: 0 <= k < |Flatten(parts)| ==> DefShaped(Flatten(parts)[k], mod)
  {
    if parts != [] {
      FlattenShape(parts[1..], mod);
      forall k | 0 <= k < |Flatten(parts)|
        ensures DefShaped(Flatten(parts)[k], mod)
      {
        if k >= |parts[0]| {
          assert Flatten(parts)[k] == Flatten(parts[1..])[k - |parts[0]|];
        } else {
          assert Flatten(parts)[k] == parts[0][k];
        }
      }
    }
  }

  /** Adding keeps the graph well formed and its edges, keeps the earlier
      order as a prefix, and adds no id that is not among `defs`. */
  lemma AddDefsValid(g: Graph, defs: seq<(string, string)>, file: string)
    requires GraphValid(g)
    ensures var after := AddDefs(g, defs, file);
            && GraphValid(after)
            && after.edges == g.edges
            && |after.order| >= |g.order| && after.order[..|g.order|] == g.order
            && (forall id :: id in after.nodes && id !in g.nodes ==> exists k :: 0 <= k < |defs| && defs[k].0 == id)
  {
    AddDefsKeepsValid(g, defs, file);
    AddDefsNewIds(g, defs, file);
  }

  /** The well-formedness, edge and order half of `AddDefsValid`. */
  lemma {:induction false} AddDefsKeepsValid(g: Graph, defs: seq<(string, string)>, file: string)
    requires GraphValid(g)
    ensures var after := AddDefs(g, defs, file);
            && GraphValid(after)
            && after.edges == g.edges
            && |after.order| >= |g.order| && after.order[..|g.order|] == g.order
  {
    if defs != [] {
      var init := defs[..|defs| - 1];
      var last := defs[|defs| - 1];
      AddDefsKeepsValid(g, init, file);
      var mid := AddDefs(g, init, file);
      var after := AddDefs(g, defs, file);
      assert after == WithNode(mid, last.0, last.1, [("file", VStr(file))]);
      WithNodeValid(mid, last.0, last.1, [("file", VStr(file))]);
      PrefixOfPrefix(g.order, mid.order, after.order);
    }
  }

  /** The new-ids half of `AddDefsValid`. */
  lemma {:induction false} AddDefsNewIds(g: Graph, defs: seq<(string, string)>, file: string)
    ensures var after := AddDefs(g, defs, file);
            forall id :: id in after.nodes && id !in g.nodes ==> exists k :: 0 <= k < |defs| && defs[k].0 == id
  {
    if defs != [] {
      var init := defs[..|defs| - 1];
      var last := defs[|defs| - 1];
      AddDefsNewIds(g, init, file);
      var mid := AddDefs(g, init, file);
      var after := AddDefs(g, defs, file);
      assert after.nodes.Keys == mid.nodes.Keys + {last.0};
      forall id | id in after.nodes && id !in g.nodes
        ensures exists k :: 0 <= k < |defs| && defs[k].0 == id
      {
        if id != last.0 {
          var k :| 0 <= k < |init| && init[k].0 == id;
          assert defs[k] == init[k];
        } else {
          assert defs[|defs| - 1].0 == id;
        }
      }
    }
  }

  /** Adding one definition node stores it with the file path and leaves
      every other node alone. */
  lemma FileNodeStored(g: Graph, id: string, ntype: string, file: string)
    ensures var after := WithNode(g, id, ntype, [("file", VStr(file))]);
            && id in after.nodes && Get(after.nodes[id].props, "file") == Some(VStr(file))
            && forall x :: x in g.nodes && x != id ==> x in after.nodes && after.nodes[x] == g.nodes[x]
  {
    var props := [("file", VStr(file))];
    var existing := if id in g.nodes then Some(g.nodes[id]) else None;
    AddNodeMerges(existing, id, ntype, props, "file");
    assert Get(props, "file") == Some(VStr(file));
  }

  /** A prefix of a prefix is a prefix. */
  lemma PrefixOfPrefix(a: seq<string>, b: seq<string>, c: seq<string>)
    requires |a| <= |b| <= |c| && b[..|a|] == a && c[..|b|] == b
    ensures c[..|a|] == a
  {
    assert c[..|a|] == c[..|b|][..|a|];
  }

  /** After adding, every added id is stored and carries the relative
      file path. */
  lemma {:induction false} AddDefsStores(g: Graph, defs: seq<(string, string)>, file: string)
    ensures var after := AddDefs(g, defs, file);
            forall k :: 0 <= k < |defs| ==>
              defs[k].0 in after.nodes && Get(after.nodes[defs[k].0].props, "file") == Some(VStr(file))
  {
    if defs != [] {
      var init := defs[..|defs| - 1];
      var last := defs[|defs| - 1];
      AddDefsStores(g, init, file);
      var mid := AddDefs(g, init, file);
      var after := AddDefs(g, defs, file);
      FileNodeStored(mid, last.0, last.1, file);
      forall k | 0 <= k < |defs|
        ensures defs[k].0 in after.nodes && Get(after.nodes[defs[k].0].props, "file") == Some(VStr(file))
      {
        if k < |defs| - 1 {
          assert defs[k] == init[k];
        }
      }
    }
  }
}
