/** The analyser: for each statement list it reports the first statement after an unconditional exit. */
module UnreachableFindings {
  import opened Syntax

  /** The statement a list is reported for, if any: the one right after the first exit. */
  function FirstAfterExit(b: seq<Node>): multiset<Id>
  {
    if |b| <= 1 then multiset{}
    else if b[0].IsExit() then multiset{b[1].id}
    else FirstAfterExit(b[1..])
  }

  /** Everything reported for a tree, as a multiset of statements. */
  function Reported(n: Node): multiset<Id>
    decreases n, 1
  {
    match n
    case Module(_, b) => FirstAfterExit(b) + AllReported(b)
    case If(_, b, o) => (FirstAfterExit(b) + FirstAfterExit(o)) + (AllReported(b) + AllReported(o))
    case While(_, b, o) => (FirstAfterExit(b) + FirstAfterExit(o)) + (AllReported(b) + AllReported(o))
    case Try(_, b, h, o, f) =>
      (FirstAfterExit(b) + (FirstAfterExit(o) + FirstAfterExit(f))) +
      (AllReported(b) + AllReported(h) + AllReported(o) + AllReported(f))
    case Handler(_, b) => FirstAfterExit(b) + AllReported(b)
    case _ => multiset{}
  }

  function AllReported(ns: seq<Node>): multiset<Id>
    decreases ns, 0
  {
    if ns == [] then multiset{} else Reported(ns[0]) + AllReported(ns[1..])
  }

  function OwnReports(fields: seq<seq<Node>>): multiset<Id>
  {
    if fields == [] then multiset{} else FirstAfterExit(fields[0]) + OwnReports(fields[1..])
  }

  lemma {:induction false} AllConcat(xs: seq<Node>, ys: seq<Node>)
    ensures AllReported(xs + ys) == AllReported(xs) + AllReported(ys)
  {
    if xs == [] {
      assert xs + ys == ys;
    } else {
      assert (xs + ys)[1..] == xs[1..] + ys;
      AllConcat(xs[1..], ys);
    }
  }

  lemma OwnReportsOf(b: seq<Node>, rest: seq<seq<Node>>)
    ensures OwnReports([b] + rest) == FirstAfterExit(b) + OwnReports(rest)
  {
    assert ([b] + rest)[1..] == rest;
  }

  lemma ReportedSplits(n: Node)
    ensures Reported(n) == OwnReports(n.Fields()) + AllReported(n.Children())
  {
    hide FirstAfterExit, AllReported, OwnReports;
    match n
    case Module(_, b) => OneList(b);
    case Handler(_, b) => OneList(b);
    case If(_, b, o) => ReportedPair(b, o);
    case While(_, b, o) => ReportedPair(b, o);
    case Try(_, b, h, o, f) => ReportedTry(b, h, o, f);
    case _ => NothingReported();
  }

  lemma OneList(b: seq<Node>)
    ensures OwnReports([b]) == FirstAfterExit(b)
  {
    assert [b] == [b] + [];
    OwnReportsOf(b, []);
  }

  lemma NothingReported()
    ensures OwnReports([]) == multiset{} && AllReported([]) == multiset{}
  {
  }

  lemma ReportedTry(b: seq<Node>, h: seq<Node>, o: seq<Node>, f: seq<Node>)
    ensures OwnReports([b, o, f]) == FirstAfterExit(b) + (FirstAfterExit(o) + FirstAfterExit(f))
    ensures AllReported(b + h + o + f) == AllReported(b) + AllReported(h) + AllReported(o) + AllReported(f)
  {
    hide FirstAfterExit, AllReported, OwnReports;
    AllConcat(b, h);
    AllConcat(b + h, o);
    AllConcat(b + h + o, f);
    assert [b, o, f] == [b] + [o, f];
    OwnReportsOf(b, [o, f]);
    ReportedPair(o, f);
  }

  lemma ReportedPair(b: seq<Node>, o: seq<Node>)
    ensures OwnReports([b, o]) == FirstAfterExit(b) + FirstAfterExit(o)
    ensures AllReported(b + o) == AllReported(b) + AllReported(o)
  {
    NothingReported();
    hide *;
    AllConcat(b, o);
    assert [b, o] == [b] + [o];
    OwnReportsOf(b, [o]);
    OwnReportsOf(o, []);
    assert [o] == [o] + [];
  }

  /** The findings of one list, of some lists, and of a queue of nodes, in the order they are made. */
  function FirstFound(b: seq<Node>): seq<Id> {
    if |b| <= 1 then [] else if b[0].IsExit() then [b[1].id] else FirstFound(b[1..])
  }

  function FieldsFound(fields: seq<seq<Node>>): seq<Id> {
    if fields == [] then [] else FirstFound(fields[0]) + FieldsFound(fields[1..])
  }

  function WalkFound(todo: seq<Node>): seq<Id>
    decreases SizeAll(todo)
  {
    if todo == [] then []
    else
      WalkShrinks(todo);
      FieldsFound(todo[0].Fields()) + WalkFound(todo[1..] + todo[0].Children())
  }

  lemma {:induction false} FirstFoundIsReported(b: seq<Node>)
    ensures multiset(FirstFound(b)) == FirstAfterExit(b)
  {
    if |b| > 1 && !b[0].IsExit() {
      FirstFoundIsReported(b[1..]);
    }
  }

  lemma {:induction false} FieldsFoundAreReported(fields: seq<seq<Node>>)
    ensures multiset(FieldsFound(fields)) == OwnReports(fields)
  {
    if fields != [] {
      FirstFoundIsReported(fields[0]);
      FieldsFoundAreReported(fields[1..]);
      hide FirstFound, FirstAfterExit;
    }
  }

  lemma WalkShrinks(todo: seq<Node>)
    requires todo != []
    ensures SizeAll(todo[1..] + todo[0].Children()) < SizeAll(todo)
  {
    assert todo == [todo[0]] + todo[1..];
    WalkStep(todo[0], todo[1..]);
  }

  /** In whatever order they are made, the findings are those the lists call for. */
  lemma {:induction false} WalkFindsReported(todo: seq<Node>)
    ensures multiset(WalkFound(todo)) == AllReported(todo)
    decreases SizeAll(todo)
  {
    if todo == [] {
    } else {
      WalkShrinks(todo);
      WalkFindsReported(todo[1..] + todo[0].Children());
      FieldsFoundAreReported(todo[0].Fields());
      assert todo == [todo[0]] + todo[1..];
      WalkStep(todo[0], todo[1..]);
      assert WalkFound(todo) == FieldsFound(todo[0].Fields()) + WalkFound(todo[1..] + todo[0].Children());
      hide FieldsFound, AllReported, OwnReports;
    }
  }

  /** The inner loop over one statement list, with its `terminal_seen` flag. */
  method ScanBlock(statements: seq<Node>) returns (finding: seq<Id>)
    ensures finding == FirstFound(statements)
  {
    finding := [];
    var terminalSeen := false;
    for k := 0 to |statements|
      invariant finding == []
      invariant !terminalSeen ==> FirstFound(statements) == FirstFound(statements[k..])
      invariant terminalSeen ==>
        FirstFound(statements) == if k < |statements| then [statements[k].id] else []
    {
      if terminalSeen {
        finding := finding + [statements[k].id];
        break;
      }
      terminalSeen := statements[k].IsExit();
      assert statements[k..][1..] == statements[k + 1..];
    }
  }

  /** The statement-list fields of one node, scanned in turn. */
  method ScanNode(node: Node) returns (found: seq<Id>)
    ensures found == FieldsFound(node.Fields())
  {
    found := ScanFields(node.Fields());
  }

  method ScanFields(fields: seq<seq<Node>>) returns (found: seq<Id>)
    ensures found == FieldsFound(fields)
  {
    hide FirstFound;
    found := [];
    assert fields[0..] == fields && fields[|fields|..] == [];
    for k := 0 to |fields|
      invariant found + FieldsFound(fields[k..]) == FieldsFound(fields)
    {
      var finding := ScanBlock(fields[k]);
      found := found + finding;
      assert fields[k..][1..] == fields[k + 1..];
    }
  }

  /** `ast.walk`: a queue of nodes, each scanned as it leaves and its children appended. The findings come
      in the order of the walk, and are those the statement lists of the tree call for. */
  method FindUnreachable(tree: Node) returns (findings: seq<Id>)
    ensures findings == WalkFound([tree])
    ensures multiset(findings) == Reported(tree)
  {
    findings := [];
    var todo := [tree];
    WalkFindsReported([tree]);
    OnlyTree(tree);
    hide *;
    while todo != []
      invariant findings + WalkFound(todo) == WalkFound([tree])
      decreases SizeAll(todo)
    {
      var node := todo[0];
      WalkNext(todo);
      var found := ScanNode(node);
      findings, todo := findings + found, todo[1..] + node.Children();
    }
  }

  lemma WalkNext(todo: seq<Node>)
    requires todo != []
    ensures WalkFound(todo) == FieldsFound(todo[0].Fields()) + WalkFound(todo[1..] + todo[0].Children())
    ensures SizeAll(todo[1..] + todo[0].Children()) < SizeAll(todo)
  {
    WalkShrinks(todo);
  }

  lemma OnlyTree(tree: Node)
    ensures AllReported([tree]) == Reported(tree) && WalkFound([]) == []
  {
    assert [tree][1..] == [];
  }

  lemma WalkStep(node: Node, rest: seq<Node>)
    ensures AllReported([node] + rest) == OwnReports(node.Fields()) + AllReported(rest + node.Children())
    ensures SizeAll(rest + node.Children()) < SizeAll([node] + rest)
  {
    assert ([node] + rest)[1..] == rest;
    ReportedSplits(node);
    AllConcat(rest, node.Children());
    ChildrenSize(node);
    SizeAllConcat(rest, node.Children());
  }
}
