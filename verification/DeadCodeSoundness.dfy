/** Reported code is dead: cutting every statement list after its first exit changes no run. */
module DeadCodeSoundness {
  import opened Syntax
  import opened Semantics
  import opened UnreachableFindings

  function Cut(n: Node): Node
    decreases n, 1
  {
    match n
    case Module(i, b) => Module(i, CutBlock(b))
    case If(i, b, o) => If(i, CutBlock(b), CutBlock(o))
    case While(i, b, o) => While(i, CutBlock(b), CutBlock(o))
    case Try(i, b, h, o, f) => Try(i, CutBlock(b), CutEach(h), CutBlock(o), CutBlock(f))
    case Handler(i, b) => Handler(i, CutBlock(b))
    case _ => n
  }

  /** Keeps a list up to and including its first exit. */
  function CutBlock(b: seq<Node>): seq<Node>
    decreases b, 0
  {
    if b == [] then []
    else if b[0].IsExit() then [b[0]]
    else [Cut(b[0])] + CutBlock(b[1..])
  }

  /** Handlers are alternatives, not a sequence: each is cut, none is dropped. */
  function CutEach(hs: seq<Node>): (cut: seq<Node>)
    ensures |cut| == |hs|
    decreases hs, 0
  {
    if hs == [] then [] else [Cut(hs[0])] + CutEach(hs[1..])
  }

  lemma {:induction false} CutEachAt(hs: seq<Node>, k: nat)
    requires k < |hs|
    ensures CutEach(hs)[k] == Cut(hs[k])
  {
    if 0 < k {
      CutEachAt(hs[1..], k - 1);
    }
  }

  /** Cutting preserves meaning: same outcome, same final state, same trace, at every fuel, so
      also for runs that never end. */
  lemma {:induction false} CutPreservesRuns<S>(env: Env<S>, n: Node, state: S, trace: seq<Id>, fuel: nat)
    ensures RunNode(env, Cut(n), state, trace, fuel) == RunNode(env, n, state, trace, fuel)
    decreases fuel, n, 1
  {
    match n
    case Module(i, b) => CutPreservesBlocks(env, b, state, trace + [i], fuel);
    case Handler(i, b) => CutPreservesBlocks(env, b, state, trace + [i], fuel);
    case If(i, b, o) =>
      var a := env(Evaluate(i), state);
      CutPreservesBlocks(env, b, a.state, trace + [i], fuel);
      CutPreservesBlocks(env, o, a.state, trace + [i], fuel);
    case While(i, b, o) =>
      var a := env(Evaluate(i), state);
      CutPreservesBlocks(env, b, a.state, trace + [i], fuel);
      CutPreservesBlocks(env, o, a.state, trace + [i], fuel);
      if 0 < fuel {
        var r := RunBlock(env, b, a.state, trace + [i], fuel);
        CutPreservesRuns(env, n, r.state, r.trace, fuel - 1);
      }
    case Try(i, b, h, o, f) =>
      CutPreservesBlocks(env, b, state, trace + [i], fuel);
      var r := RunBlock(env, b, state, trace + [i], fuel);
      var guarded := r;
      match r.outcome {
        case Normal =>
          CutPreservesBlocks(env, o, r.state, r.trace, fuel);
          guarded := RunBlock(env, o, r.state, r.trace, fuel);
        case Raised(e) =>
          match env(MatchHandler(i, e), r.state) {
            case Throw(s, e') => guarded := Run(Raised(e'), s, r.trace);
            case Value(s, k) =>
              guarded := r.(state := s);
              if k < |h| {
                CutEachAt(h, k);
                CutPreservesRuns(env, h[k], s, r.trace, fuel);
                guarded := RunNode(env, h[k], s, r.trace, fuel);
              }
          }
        case _ =>
      }
      CutPreservesBlocks(env, f, guarded.state, guarded.trace, fuel);
    case _ =>
  }

  lemma {:induction false} CutPreservesBlocks<S>(env: Env<S>, b: seq<Node>, state: S, trace: seq<Id>, fuel: nat)
    ensures RunBlock(env, CutBlock(b), state, trace, fuel) == RunBlock(env, b, state, trace, fuel)
    decreases fuel, b, 0
  {
    if b != [] {
      var r := RunNode(env, b[0], state, trace, fuel);
      if b[0].IsExit() {
        assert !r.outcome.Normal?;
      } else {
        CutPreservesRuns(env, b[0], state, trace, fuel);
        assert CutBlock(b)[1..] == CutBlock(b[1..]);
        CutPreservesBlocks(env, b[1..], r.state, r.trace, fuel);
      }
    }
  }

  /** Every statement that is run is in the trace, first of all that the run adds. */
  lemma {:induction false} RunIsTraced<S>(env: Env<S>, n: Node, state: S, trace: seq<Id>, fuel: nat)
    ensures trace + [n.id] <= RunNode(env, n, state, trace, fuel).trace
    decreases fuel, n, 1
  {
    match n
    case Module(i, b) => BlockIsTraced(env, b, state, trace + [i], fuel);
    case Handler(i, b) => BlockIsTraced(env, b, state, trace + [i], fuel);
    case If(i, b, o) =>
      var a := env(Evaluate(i), state);
      BlockIsTraced(env, b, a.state, trace + [i], fuel);
      BlockIsTraced(env, o, a.state, trace + [i], fuel);
    case While(i, b, o) =>
      var a := env(Evaluate(i), state);
      BlockIsTraced(env, b, a.state, trace + [i], fuel);
      BlockIsTraced(env, o, a.state, trace + [i], fuel);
      if 0 < fuel {
        var r := RunBlock(env, b, a.state, trace + [i], fuel);
        RunIsTraced(env, n, r.state, r.trace, fuel - 1);
      }
    case Try(i, b, h, o, f) => TryIsTraced(env, n, state, trace, fuel);
    case _ =>
  }

  lemma {:induction false} TryIsTraced<S>(env: Env<S>, n: Node, state: S, trace: seq<Id>, fuel: nat)
    requires n.Try?
    ensures trace + [n.id] <= RunNode(env, n, state, trace, fuel).trace
    decreases fuel, n, 0
  {
    var Try(i, b, h, o, f) := n;
    BlockIsTraced(env, b, state, trace + [i], fuel);
    var r := RunBlock(env, b, state, trace + [i], fuel);
    var guarded := r;
    match r.outcome {
      case Normal =>
        BlockIsTraced(env, o, r.state, r.trace, fuel);
        guarded := RunBlock(env, o, r.state, r.trace, fuel);
      case Raised(e) =>
        match env(MatchHandler(i, e), r.state) {
          case Throw(s, e') => guarded := Run(Raised(e'), s, r.trace);
          case Value(s, k) =>
            guarded := r.(state := s);
            if k < |h| {
              RunIsTraced(env, h[k], s, r.trace, fuel);
              guarded := RunNode(env, h[k], s, r.trace, fuel);
            }
        }
      case _ =>
    }
    BlockIsTraced(env, f, guarded.state, guarded.trace, fuel);
  }

  lemma {:induction false} BlockIsTraced<S>(env: Env<S>, b: seq<Node>, state: S, trace: seq<Id>, fuel: nat)
    ensures trace <= RunBlock(env, b, state, trace, fuel).trace
    ensures b != [] ==> trace + [b[0].id] <= RunBlock(env, b, state, trace, fuel).trace
    decreases fuel, b, 0
  {
    if b != [] {
      var r := RunNode(env, b[0], state, trace, fuel);
      RunIsTraced(env, b[0], state, trace, fuel);
      if r.outcome.Normal? {
        BlockIsTraced(env, b[1..], r.state, r.trace, fuel);
      }
    }
  }

  /** A run only ever begins statements of the program it runs. */
  lemma {:induction false} TraceWithin<S>(env: Env<S>, n: Node, state: S, trace: seq<Id>, fuel: nat, x: Id)
    ensures x in RunNode(env, n, state, trace, fuel).trace ==> x in trace || 0 < Count(n, x)
    decreases fuel, n, 1
  {
    match n
    case Module(i, b) => BlockTraceWithin(env, b, state, trace + [i], fuel, x);
    case Handler(i, b) => BlockTraceWithin(env, b, state, trace + [i], fuel, x);
    case If(i, b, o) =>
      var a := env(Evaluate(i), state);
      BlockTraceWithin(env, b, a.state, trace + [i], fuel, x);
      BlockTraceWithin(env, o, a.state, trace + [i], fuel, x);
    case While(i, b, o) =>
      var a := env(Evaluate(i), state);
      BlockTraceWithin(env, b, a.state, trace + [i], fuel, x);
      BlockTraceWithin(env, o, a.state, trace + [i], fuel, x);
      if 0 < fuel {
        var r := RunBlock(env, b, a.state, trace + [i], fuel);
        TraceWithin(env, n, r.state, r.trace, fuel - 1, x);
      }
    case Try(i, b, h, o, f) => TryTraceWithin(env, n, state, trace, fuel, x);
    case _ =>
  }

  lemma {:induction false} TryTraceWithin<S>(env: Env<S>, n: Node, state: S, trace: seq<Id>, fuel: nat, x: Id)
    requires n.Try?
    ensures x in RunNode(env, n, state, trace, fuel).trace ==> x in trace || 0 < Count(n, x)
    decreases fuel, n, 0
  {
    var Try(i, b, h, o, f) := n;
    BlockTraceWithin(env, b, state, trace + [i], fuel, x);
    var r := RunBlock(env, b, state, trace + [i], fuel);
    var guarded := r;
    match r.outcome {
      case Normal =>
        BlockTraceWithin(env, o, r.state, r.trace, fuel, x);
        guarded := RunBlock(env, o, r.state, r.trace, fuel);
      case Raised(e) =>
        match env(MatchHandler(i, e), r.state) {
          case Throw(s, e') => guarded := Run(Raised(e'), s, r.trace);
          case Value(s, k) =>
            guarded := r.(state := s);
            if k < |h| {
              MemberCount(h, k, x);
              TraceWithin(env, h[k], s, r.trace, fuel, x);
              guarded := RunNode(env, h[k], s, r.trace, fuel);
            }
        }
      case _ =>
    }
    BlockTraceWithin(env, f, guarded.state, guarded.trace, fuel, x);
  }

  lemma {:induction false} BlockTraceWithin<S>(env: Env<S>, b: seq<Node>, state: S, trace: seq<Id>, fuel: nat, x: Id)
    ensures x in RunBlock(env, b, state, trace, fuel).trace ==> x in trace || 0 < CountAll(b, x)
    decreases fuel, b, 0
  {
    if b != [] {
      var r := RunNode(env, b[0], state, trace, fuel);
      TraceWithin(env, b[0], state, trace, fuel, x);
      if r.outcome.Normal? {
        BlockTraceWithin(env, b[1..], r.state, r.trace, fuel, x);
      }
    }
  }

  lemma {:induction false} MemberCount(ns: seq<Node>, k: nat, i: Id)
    requires k < |ns|
    ensures Count(ns[k], i) <= CountAll(ns, i)
  {
    if 0 < k {
      MemberCount(ns[1..], k - 1, i);
    }
  }

  /** Cutting never adds a statement. */
  lemma {:induction false} CutCount(n: Node, i: Id)
    ensures Count(Cut(n), i) <= Count(n, i)
    decreases n, 1
  {
    match n
    case Module(_, b) => CutBlockCount(b, i);
    case Handler(_, b) => CutBlockCount(b, i);
    case If(_, b, o) => CutBlockCount(b, i); CutBlockCount(o, i);
    case While(_, b, o) => CutBlockCount(b, i); CutBlockCount(o, i);
    case Try(_, b, h, o, f) => CutBlockCount(b, i); CutEachCount(h, i); CutBlockCount(o, i); CutBlockCount(f, i);
    case _ =>
  }

  lemma {:induction false} CutBlockCount(b: seq<Node>, i: Id)
    ensures CountAll(CutBlock(b), i) <= CountAll(b, i)
    decreases b, 0
  {
    if b != [] {
      if b[0].IsExit() {
        assert [b[0]][1..] == [];
      } else {
        CutCount(b[0], i);
        CutBlockCount(b[1..], i);
        assert CutBlock(b)[1..] == CutBlock(b[1..]);
      }
    }
  }

  lemma {:induction false} CutEachCount(hs: seq<Node>, i: Id)
    ensures CountAll(CutEach(hs), i) <= CountAll(hs, i)
    decreases hs, 0
  {
    if hs != [] {
      CutCount(hs[0], i);
      CutEachCount(hs[1..], i);
      assert CutEach(hs)[1..] == CutEach(hs[1..]);
    }
  }

  lemma {:induction false} InnerBlock(n: Node, block: seq<Node>, i: Id)
    requires HasBlock(n, block) && 0 < CountAll(block, i)
    ensures 0 < Count(n, i)
    decreases n, 1
  {
    if block !in n.Fields() {
      match n
      case Module(_, b) => InnerBlockOf(b, block, i);
      case Handler(_, b) => InnerBlockOf(b, block, i);
      case If(_, b, o) => InnerBlockOf(if AnyHasBlock(b, block) then b else o, block, i);
      case While(_, b, o) => InnerBlockOf(if AnyHasBlock(b, block) then b else o, block, i);
      case Try(_, b, h, o, f) =>
        InnerBlockOf(
          if AnyHasBlock(b, block) then b else if AnyHasBlock(h, block) then h
          else if AnyHasBlock(o, block) then o else f, block, i);
    }
  }

  lemma {:induction false} InnerBlockOf(ns: seq<Node>, block: seq<Node>, i: Id)
    requires AnyHasBlock(ns, block) && 0 < CountAll(block, i)
    ensures 0 < CountAll(ns, i)
    decreases ns, 0
  {
    if HasBlock(ns[0], block) {
      InnerBlock(ns[0], block, i);
    } else {
      InnerBlockOf(ns[1..], block, i);
    }
  }

  lemma {:induction false} TailDropped(b: seq<Node>, x: nat, y: nat, i: Id)
    requires After(b, x, y) && 0 < Count(b[y], i)
    ensures CountAll(CutBlock(b), i) < CountAll(b, i)
  {
    if b[0].IsExit() {
      MemberCount(b[1..], y - 1, i);
      assert [b[0]][1..] == [];
    } else {
      CutCount(b[0], i);
      TailDropped(b[1..], x - 1, y - 1, i);
      assert CutBlock(b)[1..] == CutBlock(b[1..]);
    }
  }

  /** Cutting drops at least one copy of every statement that stands after an exit in some list,
      at any depth, and of everything nested in such a statement. */
  lemma {:induction false} CutDrops(n: Node, block: seq<Node>, x: nat, y: nat, i: Id)
    requires HasBlock(n, block) && After(block, x, y) && 0 < Count(block[y], i)
    ensures Count(Cut(n), i) < Count(n, i)
    decreases n, 1
  {
    hide CutBlock, CutEach, CountAll, AnyHasBlock, After;
    match n
    case Module(_, b) => CutDropsField(b, block, x, y, i);
    case Handler(_, b) => CutDropsField(b, block, x, y, i);
    case If(_, b, o) =>
      CutBlockCount(b, i); CutBlockCount(o, i);
      CutDropsField(if block == b || AnyHasBlock(b, block) then b else o, block, x, y, i);
    case While(_, b, o) =>
      CutBlockCount(b, i); CutBlockCount(o, i);
      CutDropsField(if block == b || AnyHasBlock(b, block) then b else o, block, x, y, i);
    case Try(_, b, h, o, f) =>
      CutBlockCount(b, i); CutEachCount(h, i); CutBlockCount(o, i); CutBlockCount(f, i);
      if AnyHasBlock(h, block) {
        CutDropsHandlers(h, block, x, y, i);
      } else {
        CutDropsField(
          if block == b || AnyHasBlock(b, block) then b
          else if block == o || AnyHasBlock(o, block) then o else f, block, x, y, i);
      }
  }

  lemma {:induction false} CutDropsField(b: seq<Node>, block: seq<Node>, x: nat, y: nat, i: Id)
    requires block == b || AnyHasBlock(b, block)
    requires After(block, x, y) && 0 < Count(block[y], i)
    ensures CountAll(CutBlock(b), i) < CountAll(b, i)
    decreases b, 0
  {
    if block == b {
      TailDropped(b, x, y, i);
    } else {
      assert !b[0].IsExit() ==> CutBlock(b)[1..] == CutBlock(b[1..]);
      if HasBlock(b[0], block) {
        CutDrops(b[0], block, x, y, i);
        CutBlockCount(b[1..], i);
      } else if b[0].IsExit() {
        MemberCount(block, y, i);
        InnerBlockOf(b[1..], block, i);
        assert [b[0]][1..] == [];
      } else {
        CutCount(b[0], i);
        CutDropsField(b[1..], block, x, y, i);
      }
    }
  }

  lemma {:induction false} CutDropsHandlers(hs: seq<Node>, block: seq<Node>, x: nat, y: nat, i: Id)
    requires AnyHasBlock(hs, block)
    requires After(block, x, y) && 0 < Count(block[y], i)
    ensures CountAll(CutEach(hs), i) < CountAll(hs, i)
    decreases hs, 0
  {
    CutCount(hs[0], i);
    CutEachCount(hs[1..], i);
    assert CutEach(hs)[1..] == CutEach(hs[1..]);
    if HasBlock(hs[0], block) {
      CutDrops(hs[0], block, x, y, i);
    } else {
      CutDropsHandlers(hs[1..], block, x, y, i);
    }
  }

  /** Soundness: in any environment, from any state, no statement that stands after an exit in its
      list, and nothing nested in it, is ever begun. Statements are told apart by their ids. */
  lemma NothingAfterAnExitRuns<S>(env: Env<S>, tree: Node, state: S, fuel: nat,
                                  block: seq<Node>, x: nat, y: nat, i: Id)
    requires Count(tree, i) == 1
    requires HasBlock(tree, block) && After(block, x, y) && 0 < Count(block[y], i)
    ensures i !in RunNode(env, tree, state, [], fuel).trace
  {
    CutPreservesRuns(env, tree, state, [], fuel);
    TraceWithin(env, Cut(tree), state, [], fuel, i);
    CutDrops(tree, block, x, y, i);
  }

  /** What a report means: `i` is reported exactly when it is the statement right after the first
      exit of some list of the tree. */
  ghost predicate FirstDead(block: seq<Node>, x: nat, i: Id) {
    After(block, x, x + 1) && block[x + 1].id == i && forall k | 0 <= k < x :: !block[k].IsExit()
  }

  lemma {:induction false} FirstAfterExitMeaning(b: seq<Node>, i: Id)
    ensures i in FirstAfterExit(b) <==> exists x: nat :: FirstDead(b, x, i)
  {
    if |b| > 1 && !b[0].IsExit() {
      FirstAfterExitMeaning(b[1..], i);
      if x: nat :| FirstDead(b[1..], x, i) {
        assert FirstDead(b, x + 1, i);
      }
      if x: nat :| FirstDead(b, x, i) {
        assert FirstDead(b[1..], x - 1, i);
      }
    } else if |b| > 1 && i == b[1].id {
      assert FirstDead(b, 0, i);
    }
  }

  ghost predicate ReportedFor(n: Node, i: Id) {
    exists block: seq<Node>, x: nat :: HasBlock(n, block) && FirstDead(block, x, i)
  }

  ghost predicate AnyReportedFor(ns: seq<Node>, i: Id) {
    exists block: seq<Node>, x: nat :: AnyHasBlock(ns, block) && FirstDead(block, x, i)
  }

  /** The report, list by list: exactly the statements that come first after the first exit of
      some statement list, at any depth, dead code included. */
  lemma {:induction false} ReportMeaning(n: Node, i: Id)
    ensures i in Reported(n) <==> ReportedFor(n, i)
    decreases n, 1
  {
    match n
    case Module(_, b) => ReportMeaningAll(b, i); FirstAfterExitMeaning(b, i);
    case Handler(_, b) => ReportMeaningAll(b, i); FirstAfterExitMeaning(b, i);
    case If(_, b, o) =>
      ReportMeaningAll(b, i); ReportMeaningAll(o, i); FirstAfterExitMeaning(b, i); FirstAfterExitMeaning(o, i);
    case While(_, b, o) =>
      ReportMeaningAll(b, i); ReportMeaningAll(o, i); FirstAfterExitMeaning(b, i); FirstAfterExitMeaning(o, i);
    case Try(_, b, h, o, f) =>
      ReportMeaningAll(b, i); ReportMeaningAll(h, i); ReportMeaningAll(o, i); ReportMeaningAll(f, i);
      FirstAfterExitMeaning(b, i); FirstAfterExitMeaning(o, i); FirstAfterExitMeaning(f, i);
    case _ =>
  }

  lemma {:induction false} ReportMeaningAll(ns: seq<Node>, i: Id)
    ensures i in AllReported(ns) <==> AnyReportedFor(ns, i)
    decreases ns, 0
  {
    if ns != [] {
      ReportMeaning(ns[0], i);
      ReportMeaningAll(ns[1..], i);
    }
  }

  /** A reported statement is never begun. */
  lemma ReportedNeverRuns<S>(env: Env<S>, tree: Node, state: S, fuel: nat, i: Id)
    requires Count(tree, i) == 1 && i in Reported(tree)
    ensures i !in RunNode(env, tree, state, [], fuel).trace
  {
    ReportMeaning(tree, i);
    var block: seq<Node>, x: nat :| HasBlock(tree, block) && FirstDead(block, x, i);
    NothingAfterAnExitRuns(env, tree, state, fuel, block, x, x + 1, i);
  }

  /** Nothing is reported exactly when there is nothing to cut. */
  lemma {:induction false} CleanMeansUncut(n: Node)
    ensures Reported(n) == multiset{} <==> Cut(n) == n
    decreases n, 1
  {
    match n
    case Module(_, b) => CleanListMeansUncut(b);
    case Handler(_, b) => CleanListMeansUncut(b);
    case If(_, b, o) => CleanListMeansUncut(b); CleanListMeansUncut(o);
    case While(_, b, o) => CleanListMeansUncut(b); CleanListMeansUncut(o);
    case Try(_, b, h, o, f) =>
      CleanListMeansUncut(b); CleanHandlersMeansUncut(h); CleanListMeansUncut(o); CleanListMeansUncut(f);
    case _ =>
  }

  lemma {:induction false} CleanListMeansUncut(b: seq<Node>)
    ensures FirstAfterExit(b) == multiset{} && AllReported(b) == multiset{} <==> CutBlock(b) == b
    decreases b, 0
  {
    if b != [] {
      assert b == [b[0]] + b[1..];
      CleanMeansUncut(b[0]);
      CleanListMeansUncut(b[1..]);
      if b[0].IsExit() {
        assert |CutBlock(b)| == 1;
      } else {
        assert CutBlock(b)[1..] == CutBlock(b[1..]);
      }
    }
  }

  lemma {:induction false} CleanHandlersMeansUncut(hs: seq<Node>)
    ensures AllReported(hs) == multiset{} <==> CutEach(hs) == hs
    decreases hs, 0
  {
    if hs != [] {
      assert hs == [hs[0]] + hs[1..];
      CleanMeansUncut(hs[0]);
      CleanHandlersMeansUncut(hs[1..]);
      assert CutEach(hs)[1..] == CutEach(hs[1..]);
    }
  }

  lemma {:induction false} CutTwice(n: Node)
    ensures Cut(Cut(n)) == Cut(n)
    decreases n, 1
  {
    match n
    case Module(_, b) => CutBlockTwice(b);
    case Handler(_, b) => CutBlockTwice(b);
    case If(_, b, o) => CutBlockTwice(b); CutBlockTwice(o);
    case While(_, b, o) => CutBlockTwice(b); CutBlockTwice(o);
    case Try(_, b, h, o, f) => CutBlockTwice(b); CutEachTwice(h); CutBlockTwice(o); CutBlockTwice(f);
    case _ =>
  }

  lemma {:induction false} CutBlockTwice(b: seq<Node>)
    ensures CutBlock(CutBlock(b)) == CutBlock(b)
    decreases b, 0
  {
    if b != [] && !b[0].IsExit() {
      CutTwice(b[0]);
      CutBlockTwice(b[1..]);
      assert CutBlock(b)[1..] == CutBlock(b[1..]);
      assert !Cut(b[0]).IsExit();
    }
  }

  lemma {:induction false} CutEachTwice(hs: seq<Node>)
    ensures CutEach(CutEach(hs)) == CutEach(hs)
    decreases hs, 0
  {
    if hs != [] {
      CutTwice(hs[0]);
      CutEachTwice(hs[1..]);
      assert CutEach(hs)[1..] == CutEach(hs[1..]);
    }
  }

  /** After cutting, the analyser has nothing left to report. */
  lemma CutIsClean(n: Node)
    ensures Reported(Cut(n)) == multiset{}
  {
    CutTwice(n);
    CleanMeansUncut(Cut(n));
  }
}
