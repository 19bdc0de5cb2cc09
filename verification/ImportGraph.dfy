// The Python import graph of src/llm_harness/language_audit.py.

module ImportGraph {
  import opened Prelude
  import opened DottedNames

  type Path = string

  /** One import statement: `import a.b, c` or `from ..m import x, y`. */
  datatype Import =
    | Import(names: seq<string>)
    | ImportFrom(level: nat, from: Option<string>, names: seq<string>)

  /** What the analyser knows of one file: its dotted module name, its file-name shape and its
      parsed imports (`None` when the file does not parse). */
  datatype Source = Source(
    name: string, isInit: bool, isMain: bool, privateStem: bool, inTests: bool,
    tree: Option<seq<Import>>)

  type Sources = Path -> Source

  function PackageParts(source: Source): seq<string> {
    var parts := Split(source.name);
    if source.isInit then parts else parts[..|parts| - 1]
  }

  function BaseParts(package: seq<string>, level: nat): seq<string> {
    if level == 0 then package
    else
      var keep := |package| - level + 1;
      package[..if keep < 0 then 0 else keep]
  }

  function FromPrefix(package: seq<string>, node: Import): string
    requires node.ImportFrom?
  {
    var base := BaseParts(package, node.level);
    if node.from.Some? && node.from.value != "" then Join(base + [node.from.value]) else Join(base)
  }

  function AliasTargets(prefix: string, names: seq<string>): seq<string> {
    if names == [] then []
    else
      var alias := names[|names| - 1];
      AliasTargets(prefix, names[..|names| - 1]) +
      (if alias == "*" then [] else [if prefix != "" then prefix + "." + alias else alias])
  }

  /** The dotted names one import statement asks for. */
  function ImportTargets(package: seq<string>, node: Import): seq<string> {
    match node
    case Import(names) => names
    case ImportFrom(_, _, names) =>
      var prefix := FromPrefix(package, node);
      (if prefix != "" then [prefix] else []) + AliasTargets(prefix, names)
  }

  /** All dotted names a file asks for. */
  function Targets(source: Source): seq<string> {
    if source.tree.None? then [] else TreeTargets(PackageParts(source), source.tree.value)
  }

  function TreeTargets(package: seq<string>, nodes: seq<Import>): seq<string> {
    if nodes == [] then []
    else TreeTargets(package, nodes[..|nodes| - 1]) + ImportTargets(package, nodes[|nodes| - 1])
  }

  /** Module name to file; a later file with the same module name wins. */
  function Modules(files: seq<Path>, src: Sources): map<string, Path> {
    if files == [] then map[]
    else
      var last := files[|files| - 1];
      Modules(files[..|files| - 1], src)[src(last).name := last]
  }

  /** The file that answers for a dotted name: `target` itself, else its closest enclosing package. */
  function Resolve(target: string, modules: map<string, Path>): Option<Path>
    decreases |target|
  {
    if target == "" then None
    else if target in modules then Some(modules[target])
    else Resolve(Parent(target), modules)
  }

  /** `candidate` is the longest non-empty name enclosing `target` that `modules` knows. */
  ghost predicate LongestMatch(candidate: string, target: string, modules: map<string, Path>) {
    candidate != "" && Encloses(candidate, target) && candidate in modules &&
    forall longer | longer in modules && longer != "" && Encloses(longer, target) :: |longer| <= |candidate|
  }

  /** Resolution is longest-prefix match, and fails only when no prefix is known. */
  lemma {:induction false} ResolveIsLongestMatch(target: string, modules: map<string, Path>)
    ensures Resolve(target, modules).None? <==>
            forall c | c in modules && c != "" :: !Encloses(c, target)
    ensures Resolve(target, modules).Some? ==>
            exists c :: LongestMatch(c, target, modules) && Resolve(target, modules).value == modules[c]
    decreases |target|
  {
    if target == "" {
    } else if target in modules {
      assert LongestMatch(target, target, modules);
    } else {
      var parent := Parent(target);
      ResolveIsLongestMatch(parent, modules);
      forall c | c in modules && c != "" ensures Encloses(c, target) <==> Encloses(c, parent) {
        ParentEncloses(c, target);
      }
      if c :| LongestMatch(c, parent, modules) && Resolve(target, modules) == Some(modules[c]) {
        assert LongestMatch(c, target, modules);
      }
    }
  }

  method LongestModuleMatch(target: string, modules: map<string, Path>) returns (resolved: Option<Path>)
    ensures resolved == Resolve(target, modules)
  {
    var candidate := target;
    while candidate != ""
      invariant Resolve(candidate, modules) == Resolve(target, modules)
      decreases |candidate|
    {
      if candidate in modules {
        return Some(modules[candidate]);
      }
      candidate := Parent(candidate);
    }
    return None;
  }

  /** `importer` asks for some name that resolves to `imported`, another file. */
  predicate Imports(importer: Path, imported: Path, src: Sources, modules: map<string, Path>) {
    imported != importer &&
    exists target :: target in Targets(src(importer)) && Resolve(target, modules) == Some(imported)
  }

  ghost predicate IsGraph(graph: map<Path, set<Path>>, files: seq<Path>, src: Sources) {
    && (forall p :: p in graph <==> p in files)
    && forall p, q | p in graph :: q in graph[p] <==> Imports(p, q, src, Modules(files, src))
  }

  method CollectModules(files: seq<Path>, src: Sources) returns (modules: map<string, Path>)
    ensures modules == Modules(files, src)
  {
    modules := map[];
    for k := 0 to |files|
      invariant modules == Modules(files[..k], src)
    {
      assert files[..k + 1][..k] == files[..k];
      modules := modules[src(files[k]).name := files[k]];
    }
    assert files[..|files|] == files;
  }

  method PythonImportGraph(files: seq<Path>, src: Sources) returns (graph: map<Path, set<Path>>)
    ensures IsGraph(graph, files, src)
  {
    var modules := CollectModules(files, src);
    graph := map[];
    for k := 0 to |files|
      invariant forall p :: p in graph <==> p in files[..k]
      invariant forall p, q | p in graph :: q in graph[p] <==> Imports(p, q, src, modules)
    {
      var edges := FileEdges(files[k], src, modules);
      graph := graph[files[k] := edges];
    }
  }

  method FileEdges(path: Path, src: Sources, modules: map<string, Path>) returns (edges: set<Path>)
    ensures forall q :: q in edges <==> Imports(path, q, src, modules)
  {
    hide Targets, Resolve;
    edges := {};
    var targets := Targets(src(path));
    for k := 0 to |targets|
      invariant forall q :: q in edges <==>
        q != path && exists j :: 0 <= j < k && Resolve(targets[j], modules) == Some(q)
    {
      var resolved := LongestModuleMatch(targets[k], modules);
      if resolved.Some? && resolved.value != path {
        edges := edges + {resolved.value};
      }
    }
  }
}
