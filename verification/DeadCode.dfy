// The unreachable-statement analysis of src/llm_harness/language_audit.py, lines 142-166,
// against a semantics of structured statements.

/** Statements as Python's `ast` module presents them: compound statements hold lists of
    statements, and exception handlers and the module are nodes of the same kind. */
module Syntax {

  type Id = nat

  datatype Node =
    | Module(id: Id, body: seq<Node>)
    | Act(id: Id)
    | If(id: Id, body: seq<Node>, orelse: seq<Node>)
    | While(id: Id, body: seq<Node>, orelse: seq<Node>)
    | Try(id: Id, body: seq<Node>, handlers: seq<Node>, orelse: seq<Node>, finalbody: seq<Node>)
    | Handler(id: Id, body: seq<Node>)
    | Return(id: Id)
    | Raise(id: Id)
    | Break(id: Id)
    | Continue(id: Id)
  {
    predicate IsExit() {
      Return? || Raise? || Break? || Continue?
    }

    /** The statement lists held in the fields `body`, `orelse` and `finalbody`, in that order. */
    function Fields(): seq<seq<Node>> {
      match this
      case Module(_, b) => [b]
      case If(_, b, o) => [b, o]
      case While(_, b, o) => [b, o]
      case Try(_, b, _, o, f) => [b, o, f]
      case Handler(_, b) => [b]
      case _ => []
    }

    /** What `ast.iter_child_nodes` yields, expressions left out. */
    function Children(): seq<Node> {
      match this
      case Module(_, b) => b
      case If(_, b, o) => b + o
      case While(_, b, o) => b + o
      case Try(_, b, h, o, f) => b + h + o + f
      case Handler(_, b) => b
      case _ => []
    }
  }

  /** How many statements of a tree carry the id `i`. */
  function Count(n: Node, i: Id): nat
    decreases n, 1
  {
    (if n.id == i then 1 else 0) +
    match n
    case Module(_, b) => CountAll(b, i)
    case If(_, b, o) => CountAll(b, i) + CountAll(o, i)
    case While(_, b, o) => CountAll(b, i) + CountAll(o, i)
    case Try(_, b, h, o, f) => CountAll(b, i) + CountAll(h, i) + CountAll(o, i) + CountAll(f, i)
    case Handler(_, b) => CountAll(b, i)
    case _ => 0
  }

  function CountAll(ns: seq<Node>, i: Id): nat
    decreases ns, 0
  {
    if ns == [] then 0 else Count(ns[0], i) + CountAll(ns[1..], i)
  }

  /** `block` is a statement list somewhere in `n`, at any depth. */
  predicate HasBlock(n: Node, block: seq<Node>)
    decreases n, 1
  {
    block in n.Fields() ||
    match n
    case Module(_, b) => AnyHasBlock(b, block)
    case If(_, b, o) => AnyHasBlock(b, block) || AnyHasBlock(o, block)
    case While(_, b, o) => AnyHasBlock(b, block) || AnyHasBlock(o, block)
    case Try(_, b, h, o, f) =>
      AnyHasBlock(b, block) || AnyHasBlock(h, block) || AnyHasBlock(o, block) || AnyHasBlock(f, block)
    case Handler(_, b) => AnyHasBlock(b, block)
    case _ => false
  }

  predicate AnyHasBlock(ns: seq<Node>, block: seq<Node>)
    decreases ns, 0
  {
    ns != [] && (HasBlock(ns[0], block) || AnyHasBlock(ns[1..], block))
  }

  /** `block[i]` leaves the block unconditionally and `block[j]` comes after it. */
  predicate After(block: seq<Node>, i: nat, j: nat) {
    i < j < |block| && block[i].IsExit()
  }

  function Size(n: Node): nat
    decreases n, 1
  {
    1 +
    match n
    case Module(_, b) => SizeAll(b)
    case If(_, b, o) => SizeAll(b) + SizeAll(o)
    case While(_, b, o) => SizeAll(b) + SizeAll(o)
    case Try(_, b, h, o, f) => SizeAll(b) + SizeAll(h) + SizeAll(o) + SizeAll(f)
    case Handler(_, b) => SizeAll(b)
    case _ => 0
  }

  function SizeAll(ns: seq<Node>): nat
    decreases ns, 0
  {
    if ns == [] then 0 else Size(ns[0]) + SizeAll(ns[1..])
  }

  lemma {:induction false} SizeAllConcat(xs: seq<Node>, ys: seq<Node>)
    ensures SizeAll(xs + ys) == SizeAll(xs) + SizeAll(ys)
  {
    if xs == [] {
      assert xs + ys == ys;
    } else {
      assert (xs + ys)[1..] == xs[1..] + ys;
      SizeAllConcat(xs[1..], ys);
    }
  }

  lemma ChildrenSize(n: Node)
    ensures Size(n) == 1 + SizeAll(n.Children())
  {
    match n
    case If(_, b, o) => SizeAllConcat(b, o);
    case While(_, b, o) => SizeAllConcat(b, o);
    case Try(_, b, h, o, f) =>
      SizeAllConcat(b, h);
      SizeAllConcat(b + h, o);
      SizeAllConcat(b + h + o, f);
    case _ =>
  }
}

/** What running a statement does. Evaluating anything may raise; conditions, loop tests and the
    choice of an `except` clause are answered by an environment, so one run is one environment. */
module Semantics {
  import opened Syntax

  type Exn = nat

  /** A question a running statement puts to its environment. */
  datatype Query = Evaluate(id: Id) | MatchHandler(id: Id, exn: Exn)

  datatype Answer<S> = Value(state: S, n: nat) | Throw(state: S, exn: Exn)

  type Env<!S> = (Query, S) -> Answer<S>

  datatype Outcome = Normal | Returned(n: nat) | Raised(exn: Exn) | Broke | Continued | OutOfFuel

  /** The trace holds the id of every statement begun, in order. */
  datatype Run<S> = Run(outcome: Outcome, state: S, trace: seq<Id>)

  function RunNode<S>(env: Env<S>, n: Node, state: S, trace: seq<Id>, fuel: nat): Run<S>
    decreases fuel, n, 1
  {
    match n
    case Module(i, b) => RunBlock(env, b, state, trace + [i], fuel)
    case Handler(l, b) => RunBlock(env, b, state, trace + [l], fuel)
    case Break(l) => Run(Broke, state, trace + [l])
    case Continue(l) => Run(Continued, state, trace + [l])
    case Act(l) =>
      (match env(Evaluate(l), state)
       case Throw(s, e) => Run(Raised(e), s, trace + [l])
       case Value(s, _) => Run(Normal, s, trace + [l]))
    case Return(l) =>
      (match env(Evaluate(l), state)
       case Throw(s, e) => Run(Raised(e), s, trace + [l])
       case Value(s, v) => Run(Returned(v), s, trace + [l]))
    case Raise(l) =>
      // `raise` always raises: what evaluating its operand raised, or the operand itself.
      (match env(Evaluate(l), state)
       case Throw(s, e) => Run(Raised(e), s, trace + [l])
       case Value(s, v) => Run(Raised(v), s, trace + [l]))
    case If(l, b, o) =>
      (match env(Evaluate(l), state)
       case Throw(s, e) => Run(Raised(e), s, trace + [l])
       case Value(s, v) => RunBlock(env, if v != 0 then b else o, s, trace + [l], fuel))
    case While(l, b, o) =>
      (match env(Evaluate(l), state)
       case Throw(s, e) => Run(Raised(e), s, trace + [l])
       case Value(s, v) =>
         if v == 0 then RunBlock(env, o, s, trace + [l], fuel) else
         var r := RunBlock(env, b, s, trace + [l], fuel);
         match r.outcome
         case Broke => r.(outcome := Normal)
         case Normal => if fuel == 0 then r.(outcome := OutOfFuel) else RunNode(env, n, r.state, r.trace, fuel - 1)
         case Continued => if fuel == 0 then r.(outcome := OutOfFuel) else RunNode(env, n, r.state, r.trace, fuel - 1)
         case _ => r)
    case Try(l, b, h, o, f) =>
      var r := RunBlock(env, b, state, trace + [l], fuel);
      var guarded :=
        match r.outcome
        case Normal => RunBlock(env, o, r.state, r.trace, fuel)
        case Raised(e) =>
          (match env(MatchHandler(l, e), r.state)
           case Throw(s, e') => Run(Raised(e'), s, r.trace)
           case Value(s, k) => if k < |h| then RunNode(env, h[k], s, r.trace, fuel) else r.(state := s))
        case _ => r;
      if guarded.outcome.OutOfFuel? then guarded else
      var last := RunBlock(env, f, guarded.state, guarded.trace, fuel);
      if last.outcome.Normal? then last.(outcome := guarded.outcome) else last
  }

  /** Conditions choose as in Python: any number but zero is true. */
  lemma ConditionsAsPython<S>(env: Env<S>, i: Id, b: seq<Node>, o: seq<Node>, state: S, trace: seq<Id>, fuel: nat)
    requires env(Evaluate(i), state).Value?
    ensures var a := env(Evaluate(i), state);
      && (a.n == 0 ==> RunNode(env, If(i, b, o), state, trace, fuel) == RunBlock(env, o, a.state, trace + [i], fuel))
      && (a.n > 0 ==> RunNode(env, If(i, b, o), state, trace, fuel) == RunBlock(env, b, a.state, trace + [i], fuel))
  {
  }

  /** Loops go on as in Python: `else` runs when the test fails, `break` skips it, `continue` and the end of the body
      go back to the test, and everything else leaves the loop. */
  lemma LoopsAsPython<S>(env: Env<S>, i: Id, b: seq<Node>, o: seq<Node>, state: S, trace: seq<Id>, fuel: nat)
    requires env(Evaluate(i), state).Value?
    ensures var a := env(Evaluate(i), state);
      var run, body := RunNode(env, While(i, b, o), state, trace, fuel), RunBlock(env, b, a.state, trace + [i], fuel);
      && (a.n == 0 ==> run == RunBlock(env, o, a.state, trace + [i], fuel))
      && (a.n > 0 && body.outcome.Broke? ==> run == Run(Normal, body.state, body.trace))
      && (a.n > 0 && (body.outcome.Normal? || body.outcome.Continued?) && fuel > 0 ==>
            run == RunNode(env, While(i, b, o), body.state, body.trace, fuel - 1))
      && (a.n > 0 && (body.outcome.Normal? || body.outcome.Continued?) && fuel == 0 ==> run == body.(outcome := OutOfFuel))
      && (a.n > 0 && (body.outcome.Returned? || body.outcome.Raised?) ==> run == body)
  {
  }

  /** A loop is left by `break` and goes on after `continue`. */
  lemma JumpsAsPython<S>(env: Env<S>, i: Id, state: S, trace: seq<Id>, fuel: nat)
    ensures RunNode(env, Break(i), state, trace, fuel).outcome == Broke
    ensures RunNode(env, Continue(i), state, trace, fuel).outcome == Continued
  {
  }

  /** `finally` always runs, unless the run is cut short; if it ends normally, what was to happen happens. */
  lemma FinallyAsPython<S>(env: Env<S>, i: Id, b: seq<Node>, f: seq<Node>, state: S, trace: seq<Id>, fuel: nat)
    ensures var run, body := RunNode(env, Try(i, b, [], [], f), state, trace, fuel), RunBlock(env, b, state, trace + [i], fuel);
      var last := RunBlock(env, f, body.state, body.trace, fuel);
      && (body.outcome.OutOfFuel? ==> run.outcome == OutOfFuel)
      && (!body.outcome.OutOfFuel? && !body.outcome.Raised? ==>
            run == if last.outcome.Normal? then Run(body.outcome, last.state, last.trace) else last)
  {
    assert RunBlock(env, [], state, trace, fuel) == Run(Normal, state, trace);
  }

  function RunBlock<S>(env: Env<S>, b: seq<Node>, state: S, trace: seq<Id>, fuel: nat): Run<S>
    decreases fuel, b, 0
  {
    if b == [] then Run(Normal, state, trace) else
    var r := RunNode(env, b[0], state, trace, fuel);
    if r.outcome.Normal? then RunBlock(env, b[1..], r.state, r.trace, fuel) else r
  }
}
