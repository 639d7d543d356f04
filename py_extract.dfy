/** The LibCST visitor of graph_indexing/kgbuild/python_extractor.py:
    `PyExtract`, which walks one file's syntax tree and adds module, class,
    function, docstring and comment nodes and CONTAINS, INHERITS, CALLS,
    IMPORTS, HAS_DOC and HAS_COMMENT edges to the graph, and import aliases
    to the resolver.

    The tree walk itself belongs to LibCST: the visitor sees a sequence of
    visit and leave events, one per callback, each carrying what the
    callback reads from its node. The six-character md5 digest of a
    comment is carried with the comment. */
module PyExtract {
  import opened Common
  import opened KgGraph
  import opened TsExtract

  // ---------------------------------------------------------------------
  // Events
  // ---------------------------------------------------------------------

  /** A base class expression: a plain name, or anything else. */
  datatype Base = NameBase(name: string) | OtherBase

  /** What is called: `f(...)`, `obj.m(...)` (with `obj` when it is a plain
      name), or anything else. */
  datatype Callee = NameCallee(name: string) | AttributeCallee(obj: Option<string>, attr: string) | OtherCallee

  /** A comment line: its text and the md5 digest prefix of its stripped
      text. */
  datatype Comment = Comment(value: string, digest: string)

  /** `import a.b.c as x`: the dotted name's pieces and the alias. */
  datatype ImportAlias = ImportAlias(pieces: seq<string>, asname: Option<string>)

  /** `from m import n as x`: the imported name and the alias. */
  datatype FromAlias = FromAlias(name: string, asname: Option<string>)

  /** One visitor callback. `ImportFromVisit` carries the dotted module
      pieces (None for `from . import x`) and the names (None for `*`). */
  datatype Event =
    | ModuleVisit(doc: string)
    | ClassVisit(name: string, doc: string, comments: seq<Comment>, bases: seq<Base>)
    | ClassLeave
    | FunctionVisit(name: string, doc: string, comments: seq<Comment>)
    | FunctionLeave
    | CallVisit(callee: Callee)
    | ImportVisit(aliases: seq<ImportAlias>)
    | ImportFromVisit(base: Option<seq<string>>, names: Option<seq<FromAlias>>)

  /** What the visitor has built: its nesting stack, the current
      function, the resolver's import table and the graph. */
  datatype Walker = Walker(stack: seq<string>, currentFn: Option<string>,
                           imports: map<string, map<string, string>>, graph: Graph)

  // ---------------------------------------------------------------------
  // Names
  // ---------------------------------------------------------------------

  /** `fq(name)`: the module, the nesting stack and the name, joined with
      dots. */
  function Fq(mod: string, stack: seq<string>, name: string): string {
    Join([mod] + stack + [name], ".")
  }

  /** The CONTAINS parent: the module at top level, otherwise `fq` of the
      innermost enclosing name. */
  function Parent(mod: string, stack: seq<string>): string {
    if stack == [] then mod else Fq(mod, stack, stack[|stack| - 1])
  }

  /** The CALLS target of a call, or None when no edge is added. */
  function CallTarget(imports: map<string, map<string, string>>, mod: string, callee: Callee): Option<string> {
    match callee
    case NameCallee(f) => Some(ResolveIn(imports, mod, f))
    case AttributeCallee(obj, m) =>
      if obj.Some? then Some(ResolveIn(imports, mod, obj.value) + "." + m) else Some("?." + m)
    case OtherCallee => None
  }

  /** The name `visit_Import` reads for `import a.b.c` as written:
      `alias.name.value`, which is text for a plain name but, for a dotted
      name, the syntax node of everything before the last dot. */
  datatype ImportedName = Text(s: string) | CstNode(pieces: seq<string>)

  function ImportNameAsWritten(pieces: seq<string>): ImportedName
    requires |pieces| >= 1
  {
    if |pieces| == 1 then Text(pieces[0]) else CstNode(pieces[..|pieces| - 1])
  }

  /** The target `visit_ImportFrom` records for `from a.b import n` as
      written: the base is `node.module.value`, formatted into
      `f"{base}.{name}"`. For a dotted module that is the rendering of the
      syntax node of everything before the last dot, followed by ".n". */
  datatype FromTarget = TargetText(s: string) | NodeThen(node: seq<string>, suffix: string)

  function FromTargetAsWritten(base: seq<string>, name: string): FromTarget
    requires |base| >= 1
  {
    match ImportNameAsWritten(base)
    case Text(s) => TargetText(s + "." + name)
    case CstNode(node) => NodeThen(node, "." + name)
  }

  /** The name the model uses: the dotted text of the whole name. */
  function ImportName(pieces: seq<string>): string {
    Join(pieces, ".")
  }

  // ---------------------------------------------------------------------
  // What each callback adds
  // ---------------------------------------------------------------------

  /** `add_doc(node, parent_id)`: a non-empty docstring becomes the node
      "parent::doc" with a HAS_DOC edge. */
  function DocStep(g: Graph, doc: string, parent: string): Graph {
    if doc == "" then g
    else WithEdge(WithNode(g, parent + "::doc", "docstring", [("text", VStr(doc))]), parent, parent + "::doc", "HAS_DOC")
  }

  /** The comments as `add_comments` collects them: each text stripped. */
  function Stripped(comments: seq<Comment>): (r: seq<Comment>)
    ensures |r| == |comments|
  {
    seq(|comments|, k requires 0 <= k < |comments| => Comment(Strip(comments[k].value), comments[k].digest))
  }

  /** The id of a comment node: "parent::c::" followed by the comment's
      md5 digest. */
  function CommentId(parent: string, digest: string): string {
    parent + "::c::" + digest
  }

  /** One collected comment of `add_comments`. */
  function CommentStep(g: Graph, c: Comment, parent: string): Graph {
    var cid := CommentId(parent, c.digest);
    WithEdge(WithNode(g, cid, "comment", [("text", VStr(c.value))]), parent, cid, "HAS_COMMENT")
  }

  /** The loop of `add_comments(node, parent_id)`, comment by comment. */
  function CommentSteps(g: Graph, comments: seq<Comment>, parent: string): Graph {
    if comments == [] then g
    else CommentStep(CommentSteps(g, comments[..|comments| - 1], parent), comments[|comments| - 1], parent)
  }

  /** One more comment extends the loop by one step. */
  lemma CommentStepsSnoc(g: Graph, comments: seq<Comment>, i: nat, parent: string)
    requires i < |comments|
    ensures CommentSteps(g, comments[..i + 1], parent) == CommentStep(CommentSteps(g, comments[..i], parent), comments[i], parent)
  {
    assert comments[..i + 1][..i] == comments[..i];
  }

  /** The INHERITS loop of `visit_ClassDef`, base by base. */
  function InheritSteps(g: Graph, imports: map<string, map<string, string>>, mod: string, cid: string,
                        bases: seq<Base>): Graph
  {
    if bases == [] then g
    else
      var before := InheritSteps(g, imports, mod, cid, bases[..|bases| - 1]);
      match bases[|bases| - 1]
      case NameBase(b) => WithEdge(before, cid, ResolveIn(imports, mod, b), "INHERITS")
      case OtherBase => before
  }

  /** What `visit_ClassDef` and `visit_FunctionDef` share: the node, the
      CONTAINS edge, the docstring and the comments. */
  function DefGraph(g: Graph, parent: string, id: string, kind: string, path: string, name: string,
                    doc: string, comments: seq<Comment>): Graph
  {
    var withNode := WithNode(g, id, kind, [("file", VStr(path)), ("name", VStr(name))]);
    CommentSteps(DocStep(WithEdge(withNode, parent, id, "CONTAINS"), doc, id), Stripped(comments), id)
  }

  /** The loop of `visit_Import`, alias by alias. */
  function ImportSteps(imports: map<string, map<string, string>>, g: Graph, mod: string, aliases: seq<ImportAlias>)
    : (map<string, map<string, string>>, Graph)
  {
    if aliases == [] then (imports, g)
    else
      var (imps, g1) := ImportSteps(imports, g, mod, aliases[..|aliases| - 1]);
      var a := aliases[|aliases| - 1];
      var name := ImportName(a.pieces);
      var asname := if a.asname.Some? then a.asname.value else name;
      (AddImportTo(imps, mod, asname, name), WithEdge(g1, mod, name, "IMPORTS"))
  }

  /** The loop of `visit_ImportFrom`, alias by alias. */
  function FromSteps(imports: map<string, map<string, string>>, g: Graph, mod: string, base: string,
                     names: seq<FromAlias>): (map<string, map<string, string>>, Graph)
  {
    if names == [] then (imports, g)
    else
      var (imps, g1) := FromSteps(imports, g, mod, base, names[..|names| - 1]);
      var a := names[|names| - 1];
      var asname := if a.asname.Some? then a.asname.value else a.name;
      var resolved := base + "." + a.name;
      (AddImportTo(imps, mod, asname, resolved), WithEdge(g1, mod, resolved, "IMPORTS"))
  }

  /** The error of `list.pop()` on an empty list. */
  const PopError := Error(OtherError, "pop from empty list")

  /** The error of iterating over `*` in `from m import *`. */
  const StarError := Error(OtherError, "'ImportStar' object is not iterable")

  /** One callback of the visitor for module `mod` in file `path`. */
  function Step(w: Walker, mod: string, path: string, e: Event): Result<Walker> {
    match e
    case ModuleVisit(doc) =>
      Success(w.(graph := DocStep(WithNode(w.graph, mod, "module", [("file", VStr(path))]), doc, mod)))
    case ClassVisit(name, doc, comments, bases) =>
      var cid := Fq(mod, w.stack, name);
      var g := DefGraph(w.graph, Parent(mod, w.stack), cid, "class", path, name, doc, comments);
      Success(w.(graph := InheritSteps(g, w.imports, mod, cid, bases), stack := w.stack + [name]))
    case ClassLeave =>
      if w.stack == [] then Failure(PopError) else Success(w.(stack := w.stack[..|w.stack| - 1]))
    case FunctionVisit(name, doc, comments) =>
      var fid := Fq(mod, w.stack, name);
      var g := DefGraph(w.graph, Parent(mod, w.stack), fid, "function", path, name, doc, comments);
      Success(w.(graph := g, stack := w.stack + [name], currentFn := Some(fid)))
    case FunctionLeave =>
      if w.stack == [] then Failure(PopError)
      else Success(w.(stack := w.stack[..|w.stack| - 1], currentFn := None))
    case CallVisit(callee) =>
      if w.currentFn.None? || w.currentFn.value == "" then Success(w)
      else
        var target := CallTarget(w.imports, mod, callee);
        if target.None? then Success(w)
        else Success(w.(graph := WithEdge(w.graph, w.currentFn.value, target.value, "CALLS")))
    case ImportVisit(aliases) =>
      var (imps, g) := ImportSteps(w.imports, w.graph, mod, aliases);
      Success(w.(imports := imps, graph := g))
    case ImportFromVisit(base, names) =>
      if base.None? then Success(w)
      else if names.None? then Failure(StarError)
      else
        var (imps, g) := FromSteps(w.imports, w.graph, mod, Join(base.value, "."), names.value);
        Success(w.(imports := imps, graph := g))
  }

  /** The effect of `visit_FunctionDef` on the walker. */
  lemma FunctionVisitStep(w: Walker, mod: string, path: string, name: string, doc: string, comments: seq<Comment>)
    ensures var fid := Fq(mod, w.stack, name);
            Step(w, mod, path, FunctionVisit(name, doc, comments))
            == Success(w.(graph := DefGraph(w.graph, Parent(mod, w.stack), fid, "function", path, name, doc, comments),
                          stack := w.stack + [name], currentFn := Some(fid)))
  {
  }

  /** A run of callbacks; the first one that raises ends the run. */
  function Run(w: Walker, mod: string, path: string, events: seq<Event>): Result<Walker> {
    if events == [] then Success(w)
    else
      match Run(w, mod, path, events[..|events| - 1])
      case Failure(e) => Failure(e)
      case Success(v) => Step(v, mod, path, events[|events| - 1])
  }

  // ---------------------------------------------------------------------
  // PyExtract
  // ---------------------------------------------------------------------

  class PyExtract {
    const path: string
    const mod: string
    const kg: KG
    const resolver: Resolver
    var stack: seq<string>
    var currentFn: Option<string>

    function State(): Walker
      reads this, kg, resolver
    {
      Walker(stack, currentFn, resolver.imports, kg.State())
    }

    constructor (path: string, mod: string, kg: KG, resolver: Resolver)
      ensures this.path == path && this.mod == mod && this.kg == kg && this.resolver == resolver
      ensures stack == [] && currentFn == None
    {
      this.path := path;
      this.mod := mod;
      this.kg := kg;
      this.resolver := resolver;
      stack := [];
      currentFn := None;
    }

    /** `PyExtract(path, root, kg, resolver)`: the file path relative to the
        root and the module name; either raises `ValueError` for a file
        that is not under the root or is the root. */
    static method Open(path: string, root: string, kg: KG, resolver: Resolver) returns (r: Result<PyExtract>)
      ensures ComputeModule(path, root).Failure? ==> r == Failure(ComputeModule(path, root).error)
      ensures ComputeModule(path, root).Success? ==>
                && |Components(root)| <= |Components(path)|
                && r.Success? && fresh(r.value)
                && r.value.path == RelativeText(path, root) && r.value.mod == ComputeModule(path, root).value
                && r.value.kg == kg && r.value.resolver == resolver
                && r.value.stack == [] && r.value.currentFn == None
    {
      var m := ComputeModule(path, root);
      if m.Failure? {
        return Failure(m.error);
      }
      var x := new PyExtract(RelativeText(path, root), m.value, kg, resolver);
      r := Success(x);
    }

    /** `fq(name)` */
    function FqName(name: string): string
      reads this
    {
      Fq(mod, stack, name)
    }

    /** `add_doc(node, parent_id)` */
    method AddDoc(doc: string, parent: string)
      requires kg.Valid()
      modifies kg
      ensures kg.Valid()
      ensures kg.State() == DocStep(old(kg.State()), doc, parent)
    {
      if doc == "" {
        return;
      }
      var did := parent + "::doc";
      kg.AddNode(did, "docstring", [("text", VStr(doc))]);
      kg.AddEdge(parent, did, "HAS_DOC");
    }

    /** `add_comments(node, parent_id)`: collects the stripped comment
        texts, then adds a node and a HAS_COMMENT edge for each. */
    method AddComments(comments: seq<Comment>, parent: string)
      requires kg.Valid()
      modifies kg
      ensures kg.Valid()
      ensures kg.State() == CommentSteps(old(kg.State()), Stripped(comments), parent)
    {
      var collected := Stripped(comments);
      for i := 0 to |collected|
        invariant kg.Valid()
        invariant kg.State() == CommentSteps(old(kg.State()), collected[..i], parent)
      {
        CommentStepsSnoc(old(kg.State()), collected, i, parent);
        ghost var before := kg.State();
        var c := collected[i];
        var cid := CommentId(parent, c.digest);
        kg.AddNode(cid, "comment", [("text", VStr(c.value))]);
        kg.AddEdge(parent, cid, "HAS_COMMENT");
        assert kg.State() == CommentStep(before, c, parent);
      }
      assert collected[..|collected|] == collected;
    }

    /** `visit_Module(node)` */
    method VisitModule(doc: string)
      requires kg.Valid()
      modifies kg
      ensures kg.Valid()
      ensures Step(old(State()), mod, path, ModuleVisit(doc)) == Success(State())
    {
      kg.AddNode(mod, "module", [("file", VStr(path))]);
      AddDoc(doc, mod);
    }

    /** The node, CONTAINS edge, docstring and comments of a definition. */
    method AddDefinition(id: string, kind: string, name: string, doc: string, comments: seq<Comment>)
      requires kg.Valid()
      modifies kg
      ensures kg.Valid()
      ensures kg.State() == DefGraph(old(kg.State()), Parent(mod, stack), id, kind, path, name, doc, comments)
    {
      ghost var g0 := kg.State();
      var parent := if stack == [] then mod else FqName(stack[|stack| - 1]);
      assert parent == Parent(mod, stack);
      kg.AddNode(id, kind, [("file", VStr(path)), ("name", VStr(name))]);
      kg.AddEdge(parent, id, "CONTAINS");
      ghost var g1 := kg.State();
      assert g1 == WithEdge(WithNode(g0, id, kind, [("file", VStr(path)), ("name", VStr(name))]), parent, id, "CONTAINS");
      AddDoc(doc, id);
      assert kg.State() == DocStep(g1, doc, id);
      AddComments(comments, id);
    }

    /** The INHERITS loop of `visit_ClassDef`. */
    method AddInherits(cid: string, bases: seq<Base>)
      requires kg.Valid()
      modifies kg
      ensures kg.Valid()
      ensures kg.State() == InheritSteps(old(kg.State()), resolver.imports, mod, cid, bases)
    {
      for i := 0 to |bases|
        invariant kg.Valid()
        invariant kg.State() == InheritSteps(old(kg.State()), resolver.imports, mod, cid, bases[..i])
      {
        assert bases[..i + 1][..i] == bases[..i];
        if bases[i].NameBase? {
          var resolved := resolver.Resolve(mod, bases[i].name);
          kg.AddEdge(cid, resolved, "INHERITS");
        }
      }
      assert bases[..|bases|] == bases;
    }

    /** `visit_ClassDef(node)` */
    method VisitClassDef(name: string, doc: string, comments: seq<Comment>, bases: seq<Base>)
      requires kg.Valid()
      modifies this, kg
      ensures kg.Valid()
      ensures Step(old(State()), mod, path, ClassVisit(name, doc, comments, bases)) == Success(State())
    {
      ghost var w := State();
      var cid := FqName(name);
      AddDefinition(cid, "class", name, doc, comments);
      ghost var afterDef := kg.State();
      AddInherits(cid, bases);
      stack := stack + [name];
      assert State() == w.(graph := InheritSteps(afterDef, w.imports, mod, cid, bases), stack := w.stack + [name]);
    }

    /** `leave_ClassDef(node)` */
    method LeaveClassDef() returns (r: Outcome)
      modifies this
      ensures r.Pass? ==> Step(old(State()), mod, path, ClassLeave) == Success(State())
      ensures r.Fail? ==> Step(old(State()), mod, path, ClassLeave) == Failure(r.error) && State() == old(State())
    {
      if stack == [] {
        return Fail(PopError);
      }
      stack := stack[..|stack| - 1];
      r := Pass;
    }

    /** `visit_FunctionDef(node)` */
    method VisitFunctionDef(name: string, doc: string, comments: seq<Comment>)
      requires kg.Valid()
      modifies this, kg
      ensures kg.Valid()
      ensures Step(old(State()), mod, path, FunctionVisit(name, doc, comments)) == Success(State())
    {
      ghost var w := State();
      var fid := FqName(name);
      AddDefinition(fid, "function", name, doc, comments);
      ghost var afterDef := kg.State();
      stack := stack + [name];
      currentFn := Some(fid);
      FunctionVisitStep(w, mod, path, name, doc, comments);
      assert State() == w.(graph := afterDef, stack := w.stack + [name], currentFn := Some(fid));
    }

    /** `leave_FunctionDef(node)` */
    method LeaveFunctionDef() returns (r: Outcome)
      modifies this
      ensures r.Pass? ==> Step(old(State()), mod, path, FunctionLeave) == Success(State())
      ensures r.Fail? ==> Step(old(State()), mod, path, FunctionLeave) == Failure(r.error) && State() == old(State())
    {
      if stack == [] {
        return Fail(PopError);
      }
      stack := stack[..|stack| - 1];
      currentFn := None;
      r := Pass;
    }

    /** `visit_Call(node)` */
    method VisitCall(callee: Callee)
      requires kg.Valid()
      modifies kg
      ensures kg.Valid()
      ensures Step(old(State()), mod, path, CallVisit(callee)) == Success(State())
    {
      if currentFn.None? || currentFn.value == "" {
        return;
      }
      match callee {
        case NameCallee(f) =>
          var target := resolver.Resolve(mod, f);
          kg.AddEdge(currentFn.value, target, "CALLS");
        case AttributeCallee(obj, m) =>
          var target: string;
          if obj.Some? {
            var resolvedObj := resolver.Resolve(mod, obj.value);
            target := resolvedObj + "." + m;
          } else {
            target := "?." + m;
          }
          kg.AddEdge(currentFn.value, target, "CALLS");
        case OtherCallee =>
      }
    }

    /** `visit_Import(node)` */
    method VisitImport(aliases: seq<ImportAlias>)
      requires kg.Valid()
      modifies kg, resolver
      ensures kg.Valid()
      ensures Step(old(State()), mod, path, ImportVisit(aliases)) == Success(State())
    {
      for i := 0 to |aliases|
        invariant kg.Valid()
        invariant (resolver.imports, kg.State()) == ImportSteps(old(resolver.imports), old(kg.State()), mod, aliases[..i])
      {
        assert aliases[..i + 1][..i] == aliases[..i];
        var name := ImportName(aliases[i].pieces);
        var asname := if aliases[i].asname.Some? then aliases[i].asname.value else name;
        resolver.AddImport(mod, asname, name);
        kg.AddEdge(mod, name, "IMPORTS");
      }
      assert aliases[..|aliases|] == aliases;
    }

    /** `visit_ImportFrom(node)` */
    method VisitImportFrom(base: Option<seq<string>>, names: Option<seq<FromAlias>>) returns (r: Outcome)
      requires kg.Valid()
      modifies kg, resolver
      ensures kg.Valid()
      ensures r.Pass? ==> Step(old(State()), mod, path, ImportFromVisit(base, names)) == Success(State())
      ensures r.Fail? ==> Step(old(State()), mod, path, ImportFromVisit(base, names)) == Failure(r.error)
                          && State() == old(State())
    {
      if base.None? {
        return Pass;
      }
      if names.None? {
        return Fail(StarError);
      }
      var b := Join(base.value, ".");
      var ns := names.value;
      for i := 0 to |ns|
        invariant kg.Valid()
        invariant (resolver.imports, kg.State()) == FromSteps(old(resolver.imports), old(kg.State()), mod, b, ns[..i])
      {
        assert ns[..i + 1][..i] == ns[..i];
        var asname := if ns[i].asname.Some? then ns[i].asname.value else ns[i].name;
        var resolved := b + "." + ns[i].name;
        resolver.AddImport(mod, asname, resolved);
        kg.AddEdge(mod, resolved, "IMPORTS");
      }
      assert ns[..|ns|] == ns;
      r := Pass;
    }
  }

  // ---------------------------------------------------------------------
  // Properties: names
  // ---------------------------------------------------------------------

  /** A name inside `a` is `a`'s qualified name, a dot and the name. */
  lemma FqNests(mod: string, stack: seq<string>, a: string, name: string)
    ensures Fq(mod, stack + [a], name) == Fq(mod, stack, a) + "." + name
  {
    assert [mod] + (stack + [a]) + [name] == ([mod] + stack + [a]) + [name];
    JoinSnoc([mod] + stack + [a], name, ".");
  }

  /** Inside a class or function, the CONTAINS parent is not the
      enclosing definition's id but that id followed by its own name
      again: for a method `f` of a top-level class `C` in module `m` the
      edge runs from "m.C.C" while the class is "m.C". */
  lemma ParentRepeatsName(mod: string, stack: seq<string>)
    requires stack != []
    ensures var enclosing := Fq(mod, stack[..|stack| - 1], stack[|stack| - 1]);
            && Parent(mod, stack) == enclosing + "." + stack[|stack| - 1]
            && Parent(mod, stack) != enclosing
  {
    var last := stack[|stack| - 1];
    assert stack == stack[..|stack| - 1] + [last];
    FqNests(mod, stack[..|stack| - 1], last, last);
  }

  /** At top level the parent is the module, and a definition's id is the
      module, a dot and its name. */
  lemma TopLevelNames(mod: string, name: string)
    ensures Parent(mod, []) == mod && Fq(mod, [], name) == mod + "." + name
  {
    assert [mod] + [] + [name] == [mod, name];
    assert [mod, name][1..] == [name];
    assert Join([mod, name], ".") == mod + "." + Join([name], ".");
  }

  // ---------------------------------------------------------------------
  // Properties: the stack
  // ---------------------------------------------------------------------

  /** How an event moves the nesting depth. */
  function Delta(e: Event): int {
    if e.ClassVisit? || e.FunctionVisit? then 1
    else if e.ClassLeave? || e.FunctionLeave? then -1
    else 0
  }

  /** Visits minus leaves. */
  function Depth(events: seq<Event>): int {
    if events == [] then 0 else Depth(events[..|events| - 1]) + Delta(events[|events| - 1])
  }

  /** No prefix leaves more often than it visits, as LibCST guarantees. */
  predicate NeverBelow(events: seq<Event>) {
    forall i :: 0 <= i <= |events| ==> Depth(events[..i]) >= 0
  }

  /** `from m import *`, whose names the visitor cannot iterate. */
  predicate StarImport(e: Event) {
    e.ImportFromVisit? && e.base.Some? && e.names.None?
  }

  /** One event: a visit pushes its name, a leave pops the top, and every
      other event keeps the stack; only a leave on an empty stack and a
      star import raise. */
  lemma StepStack(w: Walker, mod: string, path: string, e: Event)
    ensures Step(w, mod, path, e).Failure? <==>
              StarImport(e) || ((e.ClassLeave? || e.FunctionLeave?) && w.stack == [])
    ensures Step(w, mod, path, e).Success? ==>
              Step(w, mod, path, e).value.stack ==
                if e.ClassVisit? || e.FunctionVisit? then w.stack + [e.name]
                else if e.ClassLeave? || e.FunctionLeave? then w.stack[..|w.stack| - 1]
                else w.stack
  {
  }

  /** In a run whose leaves never outnumber its visits and that has no
      star import, the visitor never raises, and the stack it ends with is
      the stack it started with plus one name per still-open definition. */
  lemma {:induction false} StackDiscipline(w: Walker, mod: string, path: string, events: seq<Event>)
    requires NeverBelow(events)
    requires forall i :: 0 <= i < |events| ==> !StarImport(events[i])
    ensures Run(w, mod, path, events).Success?
    ensures var st := Run(w, mod, path, events).value.stack;
            |st| == |w.stack| + Depth(events) && |w.stack| <= |st| && st[..|w.stack|] == w.stack
  {
    if events != [] {
      var n := |events|;
      var init := events[..n - 1];
      forall i | 0 <= i <= |init|
        ensures Depth(init[..i]) >= 0
      {
        assert init[..i] == events[..i];
      }
      StackDiscipline(w, mod, path, init);
      var v := Run(w, mod, path, init).value;
      StepStack(v, mod, path, events[n - 1]);
      assert events[..n] == events;
      var after := Step(v, mod, path, events[n - 1]).value;
      assert after.stack[..|w.stack|] == w.stack by {
        if events[n - 1].ClassVisit? || events[n - 1].FunctionVisit? {
          assert after.stack[..|w.stack|] == v.stack[..|w.stack|];
        } else if events[n - 1].ClassLeave? || events[n - 1].FunctionLeave? {
          assert after.stack[..|w.stack|] == v.stack[..|w.stack|];
        }
      }
    }
  }

  /** A run with as many leaves as visits restores the stack. */
  lemma BalancedRestoresStack(w: Walker, mod: string, path: string, events: seq<Event>)
    requires NeverBelow(events) && Depth(events) == 0
    requires forall i :: 0 <= i < |events| ==> !StarImport(events[i])
    ensures Run(w, mod, path, events).Success? && Run(w, mod, path, events).value.stack == w.stack
  {
    StackDiscipline(w, mod, path, events);
  }

  // ---------------------------------------------------------------------
  // Properties: calls
  // ---------------------------------------------------------------------

  /** Outside a function a call adds nothing. */
  lemma CallOutsideFunction(w: Walker, mod: string, path: string, callee: Callee)
    requires w.currentFn.None?
    ensures Step(w, mod, path, CallVisit(callee)) == Success(w)
  {
  }

  /** `visit_FunctionDef` pushes the name and makes the function current. */
  lemma FunctionVisitEnters(w: Walker, mod: string, path: string, name: string, doc: string, comments: seq<Comment>)
    ensures var v := Step(w, mod, path, FunctionVisit(name, doc, comments));
            && v.Success? && v.value.stack == w.stack + [name] && v.value.currentFn == Some(Fq(mod, w.stack, name))
            && v.value.imports == w.imports
  {
  }

  /** `leave_FunctionDef` pops the stack and forgets the current
      function even when it leaves a def nested in another function, so a
      call that follows in the outer body adds no edge. */
  lemma LeaveForgetsFunction(v: Walker, mod: string, path: string, callee: Callee)
    requires v.stack != []
    ensures var left := Step(v, mod, path, FunctionLeave).value;
            && left.currentFn == None
            && left.stack == v.stack[..|v.stack| - 1]
            && left.graph == v.graph && left.imports == v.imports
            && Step(left, mod, path, CallVisit(callee)) == Success(left)
  {
  }

  /** Inside a function, a call adds one CALLS edge from the function to
      its target and changes nothing else; a call of anything other than a
      name or an attribute adds nothing. */
  lemma CallAddsEdge(w: Walker, mod: string, path: string, callee: Callee)
    requires w.currentFn.Some? && w.currentFn.value != ""
    ensures var after := Step(w, mod, path, CallVisit(callee)).value;
            && after.stack == w.stack && after.currentFn == w.currentFn && after.imports == w.imports
            && after.graph.nodes == w.graph.nodes
            && (callee.OtherCallee? ==> after.graph == w.graph)
            && (!callee.OtherCallee? ==>
                  after.graph.edges == w.graph.edges
                    + [Edge(w.currentFn.value, CallTarget(w.imports, mod, callee).value, "CALLS")])
  {
  }

  /** The targets: a plain name resolves through the imports, an
      attribute of a name resolves the name and appends the attribute,
      any other attribute is "?.attr". */
  lemma CallTargets(imports: map<string, map<string, string>>, mod: string, f: string, obj: string, m: string)
    ensures CallTarget(imports, mod, NameCallee(f)) == Some(ResolveIn(imports, mod, f))
    ensures CallTarget(imports, mod, AttributeCallee(Some(obj), m)) == Some(ResolveIn(imports, mod, obj) + "." + m)
    ensures CallTarget(imports, mod, AttributeCallee(None, m)) == Some("?." + m)
    ensures CallTarget(map[], mod, NameCallee(f)) == Some(mod + "." + f)
  {
  }

  /** A call of an imported alias targets the imported name. */
  lemma ImportThenCall(w: Walker, mod: string, path: string, pieces: seq<string>, alias: string)
    requires w.currentFn.Some? && w.currentFn.value != ""
    ensures var imported := Step(w, mod, path, ImportVisit([ImportAlias(pieces, Some(alias))])).value;
            var called := Step(imported, mod, path, CallVisit(NameCallee(alias))).value;
            called.graph.edges[|called.graph.edges| - 1] == Edge(w.currentFn.value, ImportName(pieces), "CALLS")
  {
    var aliases := [ImportAlias(pieces, Some(alias))];
    assert aliases[..0] == [];
    var imported := Step(w, mod, path, ImportVisit(aliases)).value;
    AddImportResolves(w.imports, mod, alias, ImportName(pieces), mod, alias);
    assert ResolveIn(imported.imports, mod, alias) == ImportName(pieces);
  }

  // ---------------------------------------------------------------------
  // Properties: imports
  // ---------------------------------------------------------------------

  /** `import a.b as x` maps x to "a.b" and adds the IMPORTS edge from the
      module; without `as` the name maps to itself. */
  lemma ImportMapsAlias(imports: map<string, map<string, string>>, g: Graph, mod: string, a: ImportAlias,
                        m: string, sym: string)
    ensures var (imps, g1) := ImportSteps(imports, g, mod, [a]);
            var asname := if a.asname.Some? then a.asname.value else ImportName(a.pieces);
            && ResolveIn(imps, m, sym) == (if m == mod && sym == asname then ImportName(a.pieces)
                                          else ResolveIn(imports, m, sym))
            && g1 == WithEdge(g, mod, ImportName(a.pieces), "IMPORTS")
  {
    assert [a][..0] == [];
    var asname := if a.asname.Some? then a.asname.value else ImportName(a.pieces);
    AddImportResolves(imports, mod, asname, ImportName(a.pieces), m, sym);
  }

  /** `from b import n as x` maps x to "b.n" and adds the IMPORTS edge;
      `from . import n` (no module) adds nothing; `from b import *`
      raises. */
  lemma ImportFromMapsAlias(w: Walker, mod: string, path: string, base: seq<string>, a: FromAlias,
                            m: string, sym: string)
    ensures Step(w, mod, path, ImportFromVisit(None, Some([a]))) == Success(w)
    ensures Step(w, mod, path, ImportFromVisit(Some(base), None)) == Failure(StarError)
    ensures var after := Step(w, mod, path, ImportFromVisit(Some(base), Some([a]))).value;
            var asname := if a.asname.Some? then a.asname.value else a.name;
            var resolved := ImportName(base) + "." + a.name;
            && ResolveIn(after.imports, m, sym) == (if m == mod && sym == asname then resolved
                                                   else ResolveIn(w.imports, m, sym))
            && after.graph == WithEdge(w.graph, mod, resolved, "IMPORTS")
            && after.stack == w.stack && after.currentFn == w.currentFn
  {
    assert [a][..0] == [];
    var asname := if a.asname.Some? then a.asname.value else a.name;
    var resolved := ImportName(base) + "." + a.name;
    assert FromSteps(w.imports, w.graph, mod, ImportName(base), [a])
           == (AddImportTo(w.imports, mod, asname, resolved), WithEdge(w.graph, mod, resolved, "IMPORTS"));
    AddImportResolves(w.imports, mod, asname, resolved, m, sym);
  }

  /** As written, `import os.path` hands the syntax node of `os` to the
      resolver and to the IMPORTS edge instead of the text "os.path". */
  lemma DottedImportIsNotText()
    ensures ImportNameAsWritten(["os", "path"]) == CstNode(["os"])
    ensures ImportName(["os", "path"]) == "os.path"
  {
  }

  /** As written, `from os.path import join` records the syntax node of
      `os` followed by ".join" instead of the text "os.path.join". */
  lemma DottedFromImportIsNotText()
    ensures FromTargetAsWritten(["os", "path"], "join") == NodeThen(["os"], ".join")
    ensures ImportName(["os", "path"]) + "." + "join" == "os.path.join"
  {
    assert ImportName(["os", "path"]) == "os.path";
  }

  /** For a single-piece module the corrected target is the text the code
      formats. */
  lemma FromTargetCorrect(base: seq<string>, name: string)
    requires |base| == 1
    ensures FromTargetAsWritten(base, name) == TargetText(ImportName(base) + "." + name)
  {
  }

  /** The dotted text agrees with the code for a plain name and, for
      dotted names, splits back into the name's pieces. */
  lemma ImportNameCorrect(pieces: seq<string>)
    requires |pieces| >= 1 && forall k :: 0 <= k < |pieces| ==> '.' !in pieces[k]
    ensures |pieces| == 1 ==> ImportNameAsWritten(pieces) == Text(ImportName(pieces))
    ensures Split(ImportName(pieces), '.') == pieces
  {
    SplitJoin(pieces, '.');
  }

  // ---------------------------------------------------------------------
  // Properties: docstrings, comments and bases
  // ---------------------------------------------------------------------

  /** An empty docstring adds nothing; a non-empty one adds the node
      "parent::doc" holding the text and one HAS_DOC edge. */
  lemma DocOnlyWhenNonEmpty(g: Graph, doc: string, parent: string)
    requires GraphValid(g)
    ensures doc == "" ==> DocStep(g, doc, parent) == g
    ensures doc != "" ==>
              var after := DocStep(g, doc, parent);
              && parent + "::doc" in after.nodes
              && Get(after.nodes[parent + "::doc"].props, "text") == Some(VStr(doc))
              && after.edges == g.edges + [Edge(parent, parent + "::doc", "HAS_DOC")]
  {
    if doc != "" {
      var did := parent + "::doc";
      var props := [("text", VStr(doc))];
      AddNodeMerges(if did in g.nodes then Some(g.nodes[did]) else None, did, "docstring", props, "text");
    }
  }

  /** The number of plain-name bases. */
  function NameBases(bases: seq<Base>): nat {
    if bases == [] then 0 else NameBases(bases[..|bases| - 1]) + (if bases[|bases| - 1].NameBase? then 1 else 0)
  }

  /** The INHERITS loop adds one edge per plain-name base, from the class
      to the base's resolved name, and touches no node. */
  lemma {:induction false} InheritsEdges(g: Graph, imports: map<string, map<string, string>>, mod: string, cid: string,
                                         bases: seq<Base>)
    ensures var after := InheritSteps(g, imports, mod, cid, bases);
            && after.nodes == g.nodes && after.order == g.order
            && |after.edges| == |g.edges| + NameBases(bases)
            && after.edges[..|g.edges|] == g.edges
            && forall k :: |g.edges| <= k < |after.edges| ==>
                 after.edges[k].src == cid && after.edges[k].etype == "INHERITS"
                 && exists i :: 0 <= i < |bases| && bases[i].NameBase?
                                  && after.edges[k].dst == ResolveIn(imports, mod, bases[i].name)
  {
    if bases != [] {
      var init := bases[..|bases| - 1];
      InheritsEdges(g, imports, mod, cid, init);
      var before := InheritSteps(g, imports, mod, cid, init);
      var after := InheritSteps(g, imports, mod, cid, bases);
      forall k | |g.edges| <= k < |after.edges|
        ensures after.edges[k].src == cid && after.edges[k].etype == "INHERITS"
                && exists i :: 0 <= i < |bases| && bases[i].NameBase?
                                 && after.edges[k].dst == ResolveIn(imports, mod, bases[i].name)
      {
        if k < |before.edges| {
          assert after.edges[k] == before.edges[k];
          var i :| 0 <= i < |init| && init[i].NameBase? && before.edges[k].dst == ResolveIn(imports, mod, init[i].name);
          assert bases[i] == init[i];
        } else {
          var last := |bases| - 1;
          assert bases[last].NameBase?;
          assert after == WithEdge(before, cid, ResolveIn(imports, mod, bases[last].name), "INHERITS");
          assert after.edges[k] == Edge(cid, ResolveIn(imports, mod, bases[last].name), "INHERITS");
        }
      }
    }
  }

  /** One comment adds its node and one HAS_COMMENT edge, and keeps
      every stored node. */
  lemma CommentStepEffect(g: Graph, c: Comment, parent: string)
    ensures var after := CommentStep(g, c, parent);
            && after.edges == g.edges + [Edge(parent, CommentId(parent, c.digest), "HAS_COMMENT")]
            && CommentId(parent, c.digest) in after.nodes
            && forall id :: id in g.nodes ==> id in after.nodes
  {
  }

  /** The HAS_COMMENT edges of a run of comments. */
  function CommentEdges(comments: seq<Comment>, parent: string): seq<Edge> {
    seq(|comments|, k requires 0 <= k < |comments| => Edge(parent, CommentId(parent, comments[k].digest), "HAS_COMMENT"))
  }

  /** Every comment is linked to the parent by a HAS_COMMENT edge to
      "parent::c::digest", in order, after the edges already there. */
  lemma {:induction false} CommentsLinked(g: Graph, comments: seq<Comment>, parent: string)
    ensures CommentSteps(g, comments, parent).edges == g.edges + CommentEdges(comments, parent)
  {
    if comments != [] {
      var init := comments[..|comments| - 1];
      var last := comments[|comments| - 1];
      var before := CommentSteps(g, init, parent);
      var e := Edge(parent, CommentId(parent, last.digest), "HAS_COMMENT");
      assert before.edges == g.edges + CommentEdges(init, parent) by {
        CommentsLinked(g, init, parent);
      }
      assert CommentSteps(g, comments, parent).edges == before.edges + [e] by {
        CommentStepEffect(before, last, parent);
      }
      CommentEdgesSnoc(comments, parent);
      ConcatAssoc(g.edges, CommentEdges(init, parent), [e]);
    }
  }

  /** One more comment adds its edge at the end. */
  lemma CommentEdgesSnoc(comments: seq<Comment>, parent: string)
    requires comments != []
    ensures var last := comments[|comments| - 1];
            CommentEdges(comments, parent)
            == CommentEdges(comments[..|comments| - 1], parent) + [Edge(parent, CommentId(parent, last.digest), "HAS_COMMENT")]
  {
  }

  /** Every comment's node "parent::c::digest" is stored, and no stored
      node is lost. */
  lemma {:induction false} CommentsStored(g: Graph, comments: seq<Comment>, parent: string)
    ensures var after := CommentSteps(g, comments, parent);
            && (forall id :: id in g.nodes ==> id in after.nodes)
            && forall k :: 0 <= k < |comments| ==> CommentId(parent, comments[k].digest) in after.nodes
  {
    CommentsKeepNodes(g, comments, parent);
    if comments != [] {
      var init := comments[..|comments| - 1];
      var last := comments[|comments| - 1];
      CommentsStored(g, init, parent);
      var before := CommentSteps(g, init, parent);
      CommentStepEffect(before, last, parent);
      var after := CommentSteps(g, comments, parent);
      assert after == CommentStep(before, last, parent);
      forall k | 0 <= k < |comments|
        ensures CommentId(parent, comments[k].digest) in after.nodes
      {
        if k < |init| {
          assert comments[k] == init[k];
          assert CommentId(parent, init[k].digest) in before.nodes;
        }
      }
    }
  }

  /** No stored node is lost while comments are added. */
  lemma {:induction false} CommentsKeepNodes(g: Graph, comments: seq<Comment>, parent: string)
    ensures forall id :: id in g.nodes ==> id in CommentSteps(g, comments, parent).nodes
  {
    if comments != [] {
      var init := comments[..|comments| - 1];
      CommentsKeepNodes(g, init, parent);
      CommentStepEffect(CommentSteps(g, init, parent), comments[|comments| - 1], parent);
    }
  }
}
