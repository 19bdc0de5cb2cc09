// The unused-file findings of src/llm_harness/language_audit.py.

module UnusedFiles {
  import opened Prelude
  import opened DottedNames
  import opened ImportGraph
  import opened Reachability

  /** `_inferred_entry_points` for Python. */
  predicate InferredRoot(source: Source) {
    source.isMain || source.inTests || !source.privateStem
  }

  /** A file whose stem starts with an underscore, other than `__init__.py` and `__main__.py`. */
  predicate PrivateOrphan(source: Source) {
    source.privateStem && !source.isInit && !source.isMain
  }

  predicate Strict(files: seq<Path>, entry: Path -> bool) {
    exists p :: p in files && entry(p)
  }

  /** The configured entry points among the files, or the inferred ones when there are none. */
  function Roots(files: seq<Path>, src: Sources, entry: Path -> bool): set<Path> {
    if Strict(files, entry) then set p | p in files && entry(p)
    else set p | p in files && InferredRoot(src(p))
  }

  function Importers(graph: map<Path, set<Path>>, p: Path): set<Path> {
    set q | q in graph && p in graph[q]
  }

  /** When a file is reported. */
  ghost predicate Unused(files: seq<Path>, src: Sources, entry: Path -> bool, graph: map<Path, set<Path>>, p: Path) {
    && !Reaches(graph, Roots(files, src, entry), p)
    && (Strict(files, entry) || (PrivateOrphan(src(p)) && Importers(graph, p) == {}))
  }

  lemma OneMoreImporter(graph: map<Path, set<Path>>, q: Path, targets: set<Path>, p: Path)
    requires q !in graph
    ensures |Importers(graph[q := targets], p)| == |Importers(graph, p)| + if p in targets then 1 else 0
  {
    assert q !in Importers(graph, p);
    assert Importers(graph[q := targets], p) == Importers(graph, p) + if p in targets then {q} else {};
  }

  method CountIncoming(files: seq<Path>, graph: map<Path, set<Path>>) returns (incoming: map<Path, nat>)
    ensures forall p | p in files :: p in incoming
    ensures forall p | p in incoming :: incoming[p] == |Importers(graph, p)|
  {
    incoming := map p | p in files :: 0;
    ghost var counted: map<Path, set<Path>> := map[];
    var rest := graph.Keys;
    while rest != {}
      invariant rest <= graph.Keys && counted == graph - rest
      invariant forall p | p in files :: p in incoming
      invariant forall p | p in incoming :: incoming[p] == |Importers(counted, p)|
      invariant forall p | p !in incoming :: |Importers(counted, p)| == 0
      decreases rest
    {
      var q :| q in rest;
      var targets := graph[q];
      forall p ensures |Importers(counted[q := targets], p)| == |Importers(counted, p)| + if p in targets then 1 else 0 {
        OneMoreImporter(counted, q, targets, p);
      }
      incoming := map p | p in incoming.Keys + targets ::
        (if p in incoming then incoming[p] else 0) + (if p in targets then 1 else 0);
      counted := counted[q := targets];
      rest := rest - {q};
    }
    assert counted == graph;
  }

  /** The reported files among `part`, in order. */
  ghost function UnusedAmong(part: seq<Path>, files: seq<Path>, src: Sources, entry: Path -> bool,
                             graph: map<Path, set<Path>>): seq<Path> {
    if part == [] then []
    else
      var n := |part| - 1;
      UnusedAmong(part[..n], files, src, entry, graph) +
      if Unused(files, src, entry, graph, part[n]) then [part[n]] else []
  }

  method UnusedFileFindings(files: seq<Path>, src: Sources, graph: map<Path, set<Path>>, entry: Path -> bool)
    returns (findings: seq<Path>)
    ensures findings == UnusedAmong(files, files, src, entry, graph)
  {
    var explicitRoots := set p | p in files && entry(p);
    var inferredRoots := set p | p in files && InferredRoot(src(p));
    var roots := if explicitRoots != {} then explicitRoots else inferredRoots;
    if explicitRoots != {} {
      var p :| p in explicitRoots;
      assert Strict(files, entry);
    }
    if Strict(files, entry) {
      ghost var p :| p in files && entry(p);
      assert p in explicitRoots;
    }
    var reachable := Reachable(graph, roots);
    var incoming := CountIncoming(files, graph);
    findings := [];
    var strict := explicitRoots != {};
    for k := 0 to |files|
      invariant findings == UnusedAmong(files[..k], files, src, entry, graph)
    {
      var path := files[k];
      if path !in reachable && (strict || (PrivateOrphan(src(path)) && incoming[path] == 0)) {
        findings := findings + [path];
      }
      assert files[..k + 1][..k] == files[..k];
    }
    assert files[..|files|] == files;
  }

  /** The files of `files` that are in `kept`, in order. */
  function Keep(files: seq<Path>, kept: set<Path>): (rest: seq<Path>) {
    if files == [] then []
    else
      var n := |files| - 1;
      Keep(files[..n], kept) + if files[n] in kept then [files[n]] else []
  }

  lemma {:induction false} KeepMembers(files: seq<Path>, kept: set<Path>, p: Path)
    ensures p in Keep(files, kept) <==> p in files && p in kept
  {
    if files != [] {
      var n := |files| - 1;
      assert files == files[..n] + [files[n]];
      KeepMembers(files[..n], kept, p);
    }
  }

  lemma ModulesAppend(files: seq<Path>, p: Path, src: Sources)
    ensures Modules(files + [p], src) == Modules(files, src)[src(p).name := p]
  {
    assert (files + [p])[..|files|] == files;
  }

  /** Deleting files hides no module whose file is kept and invents none. */
  lemma {:induction false} ModulesKept(files: seq<Path>, kept: set<Path>, src: Sources, name: string)
    ensures name !in Modules(files, src) ==> name !in Modules(Keep(files, kept), src)
    ensures name in Modules(files, src) && Modules(files, src)[name] in kept ==>
            name in Modules(Keep(files, kept), src) &&
            Modules(Keep(files, kept), src)[name] == Modules(files, src)[name]
  {
    if files != [] {
      var n := |files| - 1;
      var init, last := files[..n], files[n];
      ModulesKept(init, kept, src, name);
      if last in kept {
        assert Keep(files, kept) == Keep(init, kept) + [last];
        ModulesAppend(Keep(init, kept), last, src);
      } else {
        assert Keep(files, kept) == Keep(init, kept);
      }
    }
  }

  lemma {:induction false} ResolveKept(target: string, files: seq<Path>, kept: set<Path>, src: Sources)
    requires Resolve(target, Modules(files, src)).Some? && Resolve(target, Modules(files, src)).value in kept
    ensures Resolve(target, Modules(Keep(files, kept), src)) == Resolve(target, Modules(files, src))
    decreases |target|
  {
    ModulesKept(files, kept, src, target);
    if target !in Modules(files, src) {
      ResolveKept(Parent(target), files, kept, src);
    }
  }

  lemma {:induction false} ModulesAreFiles(files: seq<Path>, src: Sources, name: string)
    requires name in Modules(files, src)
    ensures Modules(files, src)[name] in files
  {
    var n := |files| - 1;
    if src(files[n]).name != name {
      ModulesAreFiles(files[..n], src, name);
    }
  }

  /** An edge between kept files survives the deletion of the others. */
  lemma EdgeKept(files: seq<Path>, src: Sources, kept: set<Path>,
                 graph: map<Path, set<Path>>, after: map<Path, set<Path>>, p: Path, q: Path)
    requires IsGraph(graph, files, src) && IsGraph(after, Keep(files, kept), src)
    requires p in kept && q in kept && q in Succ(graph, p)
    ensures q in Succ(after, p)
  {
    assert Imports(p, q, src, Modules(files, src));
    var target :| target in Targets(src(p)) && Resolve(target, Modules(files, src)) == Some(q);
    ResolveKept(target, files, kept, src);
    assert Imports(p, q, src, Modules(Keep(files, kept), src));
    KeepMembers(files, kept, p);
  }

  /** Every walk of the old graph survives the deletion of the unreachable files. */
  lemma {:induction false} WalkKept(files: seq<Path>, src: Sources, roots: set<Path>, kept: set<Path>,
                                    graph: map<Path, set<Path>>, after: map<Path, set<Path>>, walk: seq<Path>)
    requires IsGraph(graph, files, src) && IsGraph(after, Keep(files, kept), src)
    requires forall p :: p in kept <==> Reaches(graph, roots, p)
    requires Walk(graph, roots, walk)
    ensures Walk(after, roots, walk)
  {
    if |walk| > 1 {
      var init, n := walk[..|walk| - 1], |walk| - 1;
      WalkKept(files, src, roots, kept, graph, after, init);
      assert Walk(graph, roots, init) && init[|init| - 1] == walk[n - 1];
      EdgeKept(files, src, kept, graph, after, walk[n - 1], walk[n]);
      forall i | 0 < i < |walk| ensures walk[i] in Succ(after, walk[i - 1]) {
        if i < n {
          assert init[i] in Succ(after, init[i - 1]);
        }
      }
    }
  }

  lemma {:induction false} NoneUnused(part: seq<Path>, files: seq<Path>, src: Sources, entry: Path -> bool,
                                      graph: map<Path, set<Path>>)
    requires forall p | p in part :: !Unused(files, src, entry, graph, p)
    ensures UnusedAmong(part, files, src, entry, graph) == []
  {
    if part != [] {
      NoneUnused(part[..|part| - 1], files, src, entry, graph);
    }
  }

  /** With configured entry points, deleting every reported file and running the analysis again,
      imports resolved afresh, reports nothing: no deletion exposes another. */
  lemma DeletionIsFinal(files: seq<Path>, src: Sources, entry: Path -> bool, kept: set<Path>,
                        graph: map<Path, set<Path>>, after: map<Path, set<Path>>)
    requires Strict(files, entry)
    requires IsGraph(graph, files, src) && IsGraph(after, Keep(files, kept), src)
    requires forall p :: p in kept <==> Reaches(graph, Roots(files, src, entry), p)
    ensures UnusedAmong(Keep(files, kept), Keep(files, kept), src, entry, after) == []
  {
    var roots, rest := Roots(files, src, entry), Keep(files, kept);
    RootsKept(files, src, entry, kept, graph);
    forall p | p in rest ensures !Unused(rest, src, entry, after, p) {
      KeepMembers(files, kept, p);
      var walk :| Walk(graph, roots, walk) && walk[|walk| - 1] == p;
      WalkKept(files, src, roots, kept, graph, after, walk);
      assert Reaches(after, roots, p);
    }
    NoneUnused(rest, rest, src, entry, after);
  }

  lemma RootsKept(files: seq<Path>, src: Sources, entry: Path -> bool, kept: set<Path>, graph: map<Path, set<Path>>)
    requires Strict(files, entry)
    requires forall p :: p in kept <==> Reaches(graph, Roots(files, src, entry), p)
    ensures Strict(Keep(files, kept), entry)
    ensures Roots(Keep(files, kept), src, entry) == Roots(files, src, entry)
  {
    var roots := Roots(files, src, entry);
    forall p ensures p in Keep(files, kept) && entry(p) <==> p in files && entry(p) {
      KeepMembers(files, kept, p);
      if p in roots {
        RootReaches(graph, roots, p);
      }
    }
  }

  /** Without configured entry points the reachability test is redundant: a file is reported
      exactly when it is no inferred root, has a private name and nothing imports it. */
  lemma NonStrictMeaning(files: seq<Path>, src: Sources, entry: Path -> bool, graph: map<Path, set<Path>>, p: Path)
    requires !Strict(files, entry) && p in files
    ensures Unused(files, src, entry, graph, p) <==>
            !InferredRoot(src(p)) && PrivateOrphan(src(p)) && Importers(graph, p) == {}
  {
    var roots := Roots(files, src, entry);
    if InferredRoot(src(p)) {
      RootReaches(graph, roots, p);
    } else if Reaches(graph, roots, p) {
      var walk :| Walk(graph, roots, walk) && walk[|walk| - 1] == p;
      if |walk| > 1 {
        assert walk[|walk| - 2] in Importers(graph, p);
      }
    }
  }

  lemma {:induction false} ModulesOfKept(files: seq<Path>, kept: set<Path>, src: Sources, name: string)
    requires name in Modules(Keep(files, kept), src)
    ensures name in Modules(files, src)
  {
    if files != [] {
      var n := |files| - 1;
      var init, last := files[..n], files[n];
      if last in kept {
        assert Keep(files, kept) == Keep(init, kept) + [last];
        ModulesAppend(Keep(init, kept), last, src);
      } else {
        assert Keep(files, kept) == Keep(init, kept);
      }
      if name != src(last).name {
        ModulesOfKept(init, kept, src, name);
      }
    }
  }

  /** What resolves after a deletion resolved before it. */
  lemma {:induction false} ResolvedBefore(target: string, files: seq<Path>, kept: set<Path>, src: Sources)
    requires Resolve(target, Modules(Keep(files, kept), src)).Some?
    ensures Resolve(target, Modules(files, src)).Some?
    decreases |target|
  {
    if target !in Modules(files, src) {
      if target in Modules(Keep(files, kept), src) {
        ModulesOfKept(files, kept, src, target);
      }
      ResolvedBefore(Parent(target), files, kept, src);
    }
  }

  /** The files that are not reported. */
  ghost predicate KeepsTheUnreported(files: seq<Path>, src: Sources, entry: Path -> bool, graph: map<Path, set<Path>>, kept: set<Path>) {
    forall p :: p in kept <==> p in files && !Unused(files, src, entry, graph, p)
  }

  lemma NotStrictAfter(files: seq<Path>, entry: Path -> bool, kept: set<Path>)
    requires !Strict(files, entry)
    ensures !Strict(Keep(files, kept), entry)
  {
    if p :| p in Keep(files, kept) && entry(p) {
      KeepMembers(files, kept, p);
    }
  }

  /** No edge appears: an import that resolves to a kept file after the deletion did so before, since no
      kept file imported a deleted one. */
  lemma NoNewEdge(files: seq<Path>, src: Sources, entry: Path -> bool, kept: set<Path>,
                  graph: map<Path, set<Path>>, after: map<Path, set<Path>>, q: Path, p: Path)
    requires !Strict(files, entry) && KeepsTheUnreported(files, src, entry, graph, kept)
    requires IsGraph(graph, files, src) && IsGraph(after, Keep(files, kept), src)
    requires q in after && p in after[q]
    ensures q in kept && q in graph && p in graph[q]
  {
    var rest := Keep(files, kept);
    KeepMembers(files, kept, q);
    assert Imports(q, p, src, Modules(rest, src));
    var target :| target in Targets(src(q)) && Resolve(target, Modules(rest, src)) == Some(p);
    ResolvedBefore(target, files, kept, src);
    var r := Resolve(target, Modules(files, src)).value;
    ResolvesToFile(target, files, src);
    if r != q {
      assert Imports(q, r, src, Modules(files, src));
      ImportedIsKept(files, src, entry, kept, graph, q, r);
    }
    ResolveKept(target, files, kept, src);
    assert Imports(q, p, src, Modules(files, src));
  }

  /** What anything imports is not reported. */
  lemma ImportedIsKept(files: seq<Path>, src: Sources, entry: Path -> bool, kept: set<Path>, graph: map<Path, set<Path>>, q: Path, r: Path)
    requires !Strict(files, entry) && KeepsTheUnreported(files, src, entry, graph, kept)
    requires q in graph && r in graph[q] && r in files
    ensures r in kept
  {
    NonStrictMeaning(files, src, entry, graph, r);
    assert q in Importers(graph, r);
  }

  lemma {:induction false} ResolvesToFile(target: string, files: seq<Path>, src: Sources)
    requires Resolve(target, Modules(files, src)).Some?
    ensures Resolve(target, Modules(files, src)).value in files
    decreases |target|
  {
    if target in Modules(files, src) {
      ModulesAreFiles(files, src, target);
    } else {
      ResolvesToFile(Parent(target), files, src);
    }
  }

  lemma ImportersLeft(files: seq<Path>, src: Sources, entry: Path -> bool, kept: set<Path>,
                      graph: map<Path, set<Path>>, after: map<Path, set<Path>>, p: Path)
    requires !Strict(files, entry) && KeepsTheUnreported(files, src, entry, graph, kept)
    requires IsGraph(graph, files, src) && IsGraph(after, Keep(files, kept), src) && p in kept
    ensures Importers(after, p) == Importers(graph, p) * kept
  {
    forall q ensures q in Importers(after, p) <==> q in Importers(graph, p) * kept {
      if q in Importers(after, p) {
        NoNewEdge(files, src, entry, kept, graph, after, q, p);
      }
      if q in Importers(graph, p) * kept {
        EdgeKept(files, src, kept, graph, after, q, p);
      }
    }
  }

  lemma {:induction false} SomeUnused(part: seq<Path>, files: seq<Path>, src: Sources, entry: Path -> bool,
                                      graph: map<Path, set<Path>>, p: Path)
    requires p in part && Unused(files, src, entry, graph, p)
    ensures UnusedAmong(part, files, src, entry, graph) != []
  {
    if p in part[..|part| - 1] {
      SomeUnused(part[..|part| - 1], files, src, entry, graph, p);
    }
  }

  /** The file has another importer than those to be deleted. */
  predicate StaysImported(graph: map<Path, set<Path>>, kept: set<Path>, p: Path) {
    Importers(graph, p) * kept != {}
  }

  /** Without configured entry points, deleting every reported file and running the analysis again, imports
      resolved afresh, reports nothing if and only if every private file that is kept, and is no inferred
      root, is imported by a file that is kept. */
  lemma NonStrictDeletionIsFinalExactlyWhen(files: seq<Path>, src: Sources, entry: Path -> bool, kept: set<Path>,
                                            graph: map<Path, set<Path>>, after: map<Path, set<Path>>)
    requires !Strict(files, entry) && KeepsTheUnreported(files, src, entry, graph, kept)
    requires IsGraph(graph, files, src) && IsGraph(after, Keep(files, kept), src)
    ensures UnusedAmong(Keep(files, kept), Keep(files, kept), src, entry, after) == []
       <==> forall p | p in kept && !InferredRoot(src(p)) && PrivateOrphan(src(p)) :: StaysImported(graph, kept, p)
  {
    var rest := Keep(files, kept);
    NotStrictAfter(files, entry, kept);
    forall p | p in kept
      ensures p in rest
      ensures Unused(rest, src, entry, after, p) <==>
        !InferredRoot(src(p)) && PrivateOrphan(src(p)) && !StaysImported(graph, kept, p)
    {
      KeepMembers(files, kept, p);
      ImportersLeft(files, src, entry, kept, graph, after, p);
      NonStrictMeaning(rest, src, entry, after, p);
    }
    forall p | p in rest ensures p in kept {
      KeepMembers(files, kept, p);
    }
    if p :| p in kept && Unused(rest, src, entry, after, p) {
      SomeUnused(rest, rest, src, entry, after, p);
    } else {
      NoneUnused(rest, rest, src, entry, after);
    }
  }

  /** So deletion is not always final: of two private files, one importing the other, only the importer
      is reported, and once it is deleted, so is the other. */
  lemma NonStrictDeletionExposes(src: Sources, entry: Path -> bool, a: Path, b: Path,
                                 graph: map<Path, set<Path>>, after: map<Path, set<Path>>)
    requires (forall p :: !entry(p)) && a != b
    requires src(a) == Source("_a", false, false, true, false, Some([Import(["_b"])]))
    requires src(b) == Source("_b", false, false, true, false, Some([]))
    requires IsGraph(graph, [a, b], src) && IsGraph(after, [b], src)
    ensures UnusedAmong([a, b], [a, b], src, entry, graph) == [a]
    ensures UnusedAmong([b], [b], src, entry, after) == [b]
  {
    var files := [a, b];
    TwoNames(src, a, b);
    assert Imports(a, b, src, Modules(files, src));
    assert graph[a] == {b} by {
      forall q ensures q in graph[a] <==> q == b {
        assert q in graph[a] <==> Imports(a, q, src, Modules(files, src));
      }
    }
    assert graph[b] == {} && after[b] == {};
    assert graph.Keys == {a, b} && after.Keys == {b};
    assert a in Importers(graph, b);
    assert Importers(graph, a) == {} && Importers(after, b) == {};
    NonStrictMeaning(files, src, entry, graph, a);
    NonStrictMeaning(files, src, entry, graph, b);
    NonStrictMeaning([b], src, entry, after, b);
    hide Unused;
    assert files[..1] == [a] && [a][..0] == [] && [b][..0] == [];
    assert UnusedAmong([a], files, src, entry, graph) == [a];
  }

  lemma TwoNames(src: Sources, a: Path, b: Path)
    requires a != b
    requires src(a) == Source("_a", false, false, true, false, Some([Import(["_b"])]))
    requires src(b) == Source("_b", false, false, true, false, Some([]))
    ensures Targets(src(a)) == ["_b"] && Targets(src(b)) == []
    ensures Resolve("_b", Modules([a, b], src)) == Some(b)
  {
    assert [Import(["_b"])][..0] == [];
    assert TreeTargets(PackageParts(src(a)), [Import(["_b"])]) == [] + ["_b"];
    assert [a, b] == [a] + [b];
    ModulesAppend([a], b, src);
  }
}
