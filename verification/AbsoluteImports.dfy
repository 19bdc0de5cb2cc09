/** The code prefixes the package also to absolute imports, which Python looks up from the top. */
module AbsoluteImports {
  import opened Prelude
  import opened Reachability
  import opened UnusedFiles
  import opened DottedNames
  import opened ImportGraph

  lemma {:induction false} JoinAppendLength(parts: seq<string>, last: string)
    ensures |Join(parts + [last])| >= |last|
    ensures parts != [] ==> |Join(parts + [last])| > |last|
  {
    if parts != [] {
      assert (parts + [last])[1..] == parts[1..] + [last];
      JoinAppendLength(parts[1..], last);
    }
  }

  /** An absolute `from m import ...` asks for `m` exactly when the importing file is in no package. */
  lemma AbsoluteFromIsExactAtTopLevel(package: seq<string>, node: Import)
    requires node.ImportFrom? && node.level == 0 && node.from.Some? && node.from.value != ""
    ensures FromPrefix(package, node) == node.from.value <==> package == []
  {
    JoinAppendLength(package, node.from.value);
    if package == [] {
      assert package + [node.from.value] == [node.from.value];
    }
  }

  /** What Python accepts: a relative import does not go above the top-level package, and an absolute one
      names a module. */
  predicate Importable(package: seq<string>, node: Import) {
    node.ImportFrom? ==>
      node.level <= |package| && (node.level == 0 ==> node.from.Some? && node.from.value != "")
  }

  /** Where Python starts: at the top for an absolute import, and for a relative one at the package, less
      one level for each dot after the first. */
  function PythonBase(package: seq<string>, level: nat): seq<string>
    requires level <= |package|
  {
    if level == 0 then [] else package[..|package| - level + 1]
  }

  /** `name` looked up in the module `prefix`, or at the top. */
  function Dotted(prefix: string, name: string): string {
    if prefix == "" then name else prefix + "." + name
  }

  /** The names a from-import asks for, given the module it names: the module, if there is one, and in it each
      imported name but the star. */
  function NamesIn(prefix: string, names: seq<string>): set<string> {
    (if prefix == "" then {} else {prefix}) + set x | x in names && x != "*" :: Dotted(prefix, x)
  }

  /** The dotted names the import asks for by the rules of Python. */
  function PythonNames(package: seq<string>, node: Import): set<string>
    requires Importable(package, node)
  {
    match node
    case Import(names) => Members(names)
    case ImportFrom(level, from, names) =>
      var base := PythonBase(package, level);
      NamesIn(Join(if from.Some? && from.value != "" then base + [from.value] else base), names)
  }

  lemma {:induction false} AliasTargetsAre(prefix: string, names: seq<string>)
    ensures Members(AliasTargets(prefix, names)) == set x | x in names && x != "*" :: Dotted(prefix, x)
  {
    if names != [] {
      var init, last := names[..|names| - 1], names[|names| - 1];
      AliasTargetsAre(prefix, init);
      var own := if last == "*" then [] else [Dotted(prefix, last)];
      assert names == init + [last];
      assert AliasTargets(prefix, names) == AliasTargets(prefix, init) + own;
      MembersConcat(AliasTargets(prefix, init), own);
      assert (set x | x in names && x != "*" :: Dotted(prefix, x)) ==
             (set x | x in init && x != "*" :: Dotted(prefix, x)) + Members(own);
    }
  }

  /** The names a from-import asks for, one by one: its prefix if that is not empty, below it each name but
      the star, and nothing else. */
  lemma FromImportNames(package: seq<string>, node: Import)
    requires node.ImportFrom?
    ensures Members(ImportTargets(package, node)) == NamesIn(FromPrefix(package, node), node.names)
  {
    AliasTargetsAre(FromPrefix(package, node), node.names);
    var prefix := FromPrefix(package, node);
    MembersConcat(if prefix != "" then [prefix] else [], AliasTargets(prefix, node.names));
    hide AliasTargets, FromPrefix;
  }

  /** The code asks for the names Python would look up exactly if the import is no absolute from-import, or
      the importing file is in no package; relative imports are exact. */
  lemma ImportIsExactExactlyWhen(package: seq<string>, node: Import)
    requires Importable(package, node)
    ensures Members(ImportTargets(package, node)) == PythonNames(package, node)
       <==> !(node.ImportFrom? && node.level == 0) || package == []
  {
    if node.ImportFrom? {
      FromImportNames(package, node);
      if node.level == 0 {
        var m, prefix := node.from.value, FromPrefix(package, node);
        AbsoluteFromIsExactAtTopLevel(package, node);
        JoinAppendLength(package, m);
        assert [] + [m] == [m];
        assert m in NamesIn(m, node.names);
        if package != [] {
          forall t | t in NamesIn(prefix, node.names) ensures |t| > |m| {
          }
        }
      }
    }
  }

  /** With more dots than enclosing packages, which Python refuses, the code looks names up from the top. */
  lemma TooManyDots(package: seq<string>, node: Import)
    requires node.ImportFrom? && node.level > |package|
    ensures Members(ImportTargets(package, node)) ==
      NamesIn(if node.from.Some? then node.from.value else "", node.names)
  {
    FromImportNames(package, node);
    if node.from.Some? {
      assert [] + [node.from.value] == [node.from.value];
    }
  }

  /** The package of a module with these parts in its name. */
  lemma PackageOf(source: Source, package: seq<string>, last: string)
    requires forall p | p in package + [last] :: '.' !in p
    ensures !source.isInit && source.name == Join(package + [last]) ==> PackageParts(source) == package
    ensures source.isInit && source.name == Join(package + [last]) ==> PackageParts(source) == package + [last]
  {
    SplitJoin(package + [last]);
  }

  lemma AskedIsImported(importer: Path, imported: Path, src: Sources, modules: map<string, Path>, i: nat, target: string)
    requires src(importer).tree.Some? && i < |src(importer).tree.value| && importer != imported
    requires target in ImportTargets(PackageParts(src(importer)), src(importer).tree.value[i])
    requires target != "" && target in modules && modules[target] == imported
    ensures Imports(importer, imported, src, modules)
  {
    TreeTargetsMembers(PackageParts(src(importer)), src(importer).tree.value, target);
    assert target in Targets(src(importer)) && Resolve(target, modules) == Some(imported);
  }

  /** A file in no package that says `from m import x` imports the file of module `m.x`. */
  lemma TopLevelFromImport(importer: Path, imported: Path, src: Sources, modules: map<string, Path>, i: nat, m: string, x: string)
    requires src(importer).tree.Some? && i < |src(importer).tree.value| && importer != imported
    requires var node := src(importer).tree.value[i];
      node.ImportFrom? && node.level == 0 && node.from == Some(m) && x in node.names
    requires '.' !in src(importer).name && !src(importer).isInit && m != "" && x != "*"
    requires m + "." + x in modules && modules[m + "." + x] == imported
    ensures Imports(importer, imported, src, modules)
  {
    var source, node := src(importer), src(importer).tree.value[i];
    assert [] + [source.name] == [source.name];
    PackageOf(source, [], source.name);
    FromImportNames([], node);
    assert [] + [m] == [m];
    assert Dotted(m, x) in Members(ImportTargets([], node));
    AskedIsImported(importer, imported, src, modules, i, m + "." + x);
  }

  /** A module of a package that says `from . import x` imports the file of its sibling `x`, and the package's
      own `__init__` the file of its child `x`. */
  lemma SiblingImport(importer: Path, imported: Path, src: Sources, modules: map<string, Path>, i: nat,
                      package: seq<string>, last: string, x: string)
    requires src(importer).tree.Some? && i < |src(importer).tree.value| && importer != imported
    requires src(importer).tree.value[i].ImportFrom? && src(importer).tree.value[i].level == 1
    requires src(importer).tree.value[i].from.None? && x in src(importer).tree.value[i].names && x != "*"
    requires package != [] && package[0] != "" && forall p | p in package + [last] :: '.' !in p
    requires src(importer).name == if src(importer).isInit then Join(package) else Join(package + [last])
    requires Join(package) + "." + x in modules && modules[Join(package) + "." + x] == imported
    ensures Imports(importer, imported, src, modules)
  {
    var source, node := src(importer), src(importer).tree.value[i];
    if source.isInit {
      var n := |package| - 1;
      assert package[..n] + [package[n]] == package;
      PackageOf(source, package[..n], package[n]);
    } else {
      PackageOf(source, package, last);
    }
    assert PackageParts(source) == package;
    assert package[..|package| - 1 + 1] == package;
    FromImportNames(package, node);
    assert Join(package) != "";
    assert Dotted(Join(package), x) in Members(ImportTargets(package, node));
    AskedIsImported(importer, imported, src, modules, i, Join(package) + "." + x);
  }

  ghost predicate NoAbsoluteFrom(package: seq<string>, nodes: seq<Import>) {
    forall i | 0 <= i < |nodes| ::
      Importable(package, nodes[i]) && (!(nodes[i].ImportFrom? && nodes[i].level == 0) || package == [])
  }

  /** The names all imports of a file ask for by the rules of Python. */
  ghost predicate PythonImports(source: Source, target: string) {
    && source.tree.Some?
    && exists i | 0 <= i < |source.tree.value| ::
         Importable(PackageParts(source), source.tree.value[i]) && target in PythonNames(PackageParts(source), source.tree.value[i])
  }

  lemma {:induction false} TreeTargetsMembers(package: seq<string>, nodes: seq<Import>, target: string)
    ensures target in TreeTargets(package, nodes) <==> exists i :: 0 <= i < |nodes| && target in ImportTargets(package, nodes[i])
  {
    hide ImportTargets;
    if nodes != [] {
      var n := |nodes| - 1;
      var init := nodes[..n];
      TreeTargetsMembers(package, init, target);
      assert TreeTargets(package, nodes) == TreeTargets(package, init) + ImportTargets(package, nodes[n]);
      hide TreeTargets;
      if i :| 0 <= i < |init| && target in ImportTargets(package, init[i]) {
        assert target in ImportTargets(package, nodes[i]);
      }
      if i :| 0 <= i < |nodes| && target in ImportTargets(package, nodes[i]) {
        assert i < n ==> init[i] == nodes[i];
      }
    }
  }

  /** The edges of a file in no package, or without absolute from-imports, are those of the modules it
      imports by the rules of Python. */
  lemma EdgesAreExact(importer: Path, imported: Path, src: Sources, modules: map<string, Path>)
    requires src(importer).tree.Some? ==> NoAbsoluteFrom(PackageParts(src(importer)), src(importer).tree.value)
    ensures Imports(importer, imported, src, modules)
       <==> imported != importer && exists target :: PythonImports(src(importer), target) && Resolve(target, modules) == Some(imported)
  {
    var source := src(importer);
    forall target ensures target in Targets(source) <==> PythonImports(source, target) {
      TargetsArePython(source, target);
    }
  }

  lemma TargetsArePython(source: Source, target: string)
    requires source.tree.Some? ==> NoAbsoluteFrom(PackageParts(source), source.tree.value)
    ensures target in Targets(source) <==> PythonImports(source, target)
  {
    if source.tree.Some? {
      var package, nodes := PackageParts(source), source.tree.value;
      TreeTargetsMembers(package, nodes, target);
      hide ImportTargets, PythonNames, TreeTargets;
      forall i | 0 <= i < |nodes| ensures target in ImportTargets(package, nodes[i]) <==> target in PythonNames(package, nodes[i]) {
        ImportIsExactExactlyWhen(package, nodes[i]);
      }
    }
  }

  lemma CliPackage(source: Source)
    requires source.name == "pkg.cli" && !source.isInit
    ensures PackageParts(source) == ["pkg"]
  {
    assert ["pkg", "cli"][1..] == ["cli"];
    assert Join(["pkg", "cli"]) == "pkg.cli";
    SplitJoin(["pkg", "cli"]);
  }

  lemma CliPrefix(node: Import)
    requires node == ImportFrom(0, Some("pkg.config"), ["*"])
    ensures ImportTargets(["pkg"], node) == ["pkg.pkg.config"]
  {
    assert ["pkg"] + ["pkg.config"] == ["pkg", "pkg.config"];
    assert ["pkg", "pkg.config"][1..] == ["pkg.config"];
    assert FromPrefix(["pkg"], node) == "pkg.pkg.config";
    assert ["*"][..0] == [];
  }

  lemma CliTargets(source: Source)
    requires source.name == "pkg.cli" && !source.isInit
    requires source.tree == Some([ImportFrom(0, Some("pkg.config"), ["*"])])
    ensures Targets(source) == ["pkg.pkg.config"]
  {
    var node := ImportFrom(0, Some("pkg.config"), ["*"]);
    CliPackage(source);
    CliPrefix(node);
    assert [node][..0] == [] && TreeTargets(["pkg"], []) == [];
  }

  lemma NoEdges(files: seq<Path>, src: Sources, graph: map<Path, set<Path>>, p: Path)
    requires IsGraph(graph, files, src) && p in files
    requires forall target | target in Targets(src(p)) :: Resolve(target, Modules(files, src)).None?
    ensures Succ(graph, p) == {}
  {
    forall q ensures q in graph[p] <==> Imports(p, q, src, Modules(files, src)) {
    }
    assert graph[p] == {};
  }

  lemma Unresolved(target: string, modules: map<string, Path>)
    requires modules.Keys == {"pkg.cli", "pkg.config"}
    requires |target| > 4 && target[4] == 'p'
    ensures Resolve(target, modules).None?
  {
    ResolveIsLongestMatch(target, modules);
    assert "pkg.cli"[4] != 'p' && "pkg.config"[4] != 'p';
  }

  lemma TwoModules(a: Path, b: Path, src: Sources)
    ensures Modules([a, b], src).Keys == {src(a).name, src(b).name}
  {
    assert [a, b] == ([] + [a]) + [b];
    ModulesAppend([], a, src);
    ModulesAppend([] + [a], b, src);
  }

  lemma NothingReachable(graph: map<Path, set<Path>>, root: Path, other: Path)
    requires Succ(graph, root) == {} && root != other
    ensures !Reaches(graph, {root}, other)
  {
    if Reaches(graph, {root}, other) {
      var walk :| Walk(graph, {root}, walk) && walk[|walk| - 1] == other;
      ClosedSetHoldsWalks(graph, {root}, {root}, walk);
    }
  }

  lemma SingleRoot(files: seq<Path>, src: Sources, entry: Path -> bool, graph: map<Path, set<Path>>, root: Path, other: Path)
    requires root in files && root != other && forall p :: entry(p) <==> p == root
    requires Succ(graph, root) == {}
    ensures Unused(files, src, entry, graph, other)
  {
    assert entry(root);
    assert Roots(files, src, entry) == {root};
    NothingReachable(graph, root, other);
  }

  /** So a file that another imports absolutely, from inside the package, is reported as unused:
      the only entry point `pkg/cli.py` says `from pkg.config import *`. */
  lemma ImportedFileReported(src: Sources, entry: Path -> bool, graph: map<Path, set<Path>>, cli: Path, config: Path)
    requires src(cli).name == "pkg.cli" && !src(cli).isInit
    requires src(cli).tree == Some([ImportFrom(0, Some("pkg.config"), ["*"])])
    requires src(config).name == "pkg.config" && cli != config
    requires forall p :: entry(p) <==> p == cli
    requires IsGraph(graph, [cli, config], src)
    ensures Unused([cli, config], src, entry, graph, config)
  {
    hide Targets, Resolve, Unused, Modules;
    CliTargets(src(cli));
    TwoModules(cli, config, src);
    Unresolved("pkg.pkg.config", Modules([cli, config], src));
    NoEdges([cli, config], src, graph, cli);
    SingleRoot([cli, config], src, entry, graph, cli, config);
  }
}
