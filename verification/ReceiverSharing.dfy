/** Entries and exits of any calls, in any order. */
module ReceiverSharing {
  import opened Prelude
  import opened ManagedReceivers

  /** A call inside the context manager, with its local variables. */
  datatype Hold = Hold(key: Key, id: nat)

  datatype World = World(pool: Pool, live: map<nat, Hold>)

  datatype Step = Enter(call: nat, key: Key, starts: bool) | Leave(call: nat)

  predicate Enabled(world: World, step: Step) {
    match step
    case Enter(call, _, _) => call !in world.live
    case Leave(call) => call in world.live
  }

  function Apply(world: World, step: Step): World
    requires Enabled(world, step)
  {
    match step
    case Enter(call, key, starts) =>
      var handle := Handle(world.pool, key, starts);
      World(Entered(world.pool, key, starts), if handle.Some? then world.live[call := Hold(key, handle.value)] else world.live)
    case Leave(call) =>
      var hold := world.live[call];
      World(Left(world.pool, hold.key, hold.id), world.live - {call})
  }

  ghost predicate Possible(steps: seq<Step>)
    decreases |steps|, 0
  {
    steps == [] || (Possible(steps[..|steps| - 1]) && Enabled(Run(steps[..|steps| - 1]), steps[|steps| - 1]))
  }

  ghost function Run(steps: seq<Step>): World
    requires Possible(steps)
    decreases |steps|, 1
  {
    if steps == [] then World(Pool(map[], map[], {}, 0), map[])
    else Apply(Run(steps[..|steps| - 1]), steps[|steps| - 1])
  }

  /** The calls that hold a receiver. */
  function Holders(live: map<nat, Hold>, id: nat): set<nat> {
    set call | call in live && live[call].id == id
  }

  /** The receivers running are those in the dictionary, one for each key. */
  ghost predicate OneForEachKey(pool: Pool) {
    && (forall key | key in pool.table :: pool.table[key] in pool.running)
    && (forall id | id in pool.running :: id < pool.next && InTable(pool, id))
    && (forall key, other | key in pool.table && other in pool.table && key != other :: pool.table[key] != pool.table[other])
  }

  ghost predicate InTable(pool: Pool, id: nat) {
    exists key :: key in pool.table && pool.table[key] == id
  }

  /** The count of a running receiver is the number of calls holding it, and is positive. */
  ghost predicate Counted(world: World) {
    forall id | id in world.pool.running ::
      id in world.pool.references && world.pool.references[id] == |Holders(world.live, id)| > 0
  }

  /** A call holds the receiver that the dictionary has for its key. */
  ghost predicate HeldFromTable(world: World) {
    forall call | call in world.live ::
      world.live[call].key in world.pool.table && world.pool.table[world.live[call].key] == world.live[call].id
  }

  ghost predicate Shared(world: World) {
    OneForEachKey(world.pool) && Counted(world) && HeldFromTable(world)
  }

  lemma HoldersJoin(live: map<nat, Hold>, call: nat, hold: Hold)
    requires call !in live
    ensures forall id | id != hold.id :: Holders(live[call := hold], id) == Holders(live, id)
    ensures |Holders(live[call := hold], hold.id)| == |Holders(live, hold.id)| + 1
  {
    assert Holders(live[call := hold], hold.id) == Holders(live, hold.id) + {call};
  }

  lemma HoldersPart(live: map<nat, Hold>, call: nat)
    requires call in live
    ensures forall id | id != live[call].id :: Holders(live - {call}, id) == Holders(live, id)
    ensures |Holders(live - {call}, live[call].id)| == |Holders(live, live[call].id)| - 1
  {
    assert Holders(live, live[call].id) == Holders(live - {call}, live[call].id) + {call};
  }

  lemma EnteredKeepsTable(pool: Pool, key: Key, starts: bool)
    requires OneForEachKey(pool)
    ensures OneForEachKey(Entered(pool, key, starts))
  {
    var after := Entered(pool, key, starts);
    forall id | id in after.running ensures InTable(after, id) {
      if id in pool.running {
        var k :| k in pool.table && pool.table[k] == id;
        assert k in after.table && after.table[k] == id;
      } else {
        assert key in after.table && after.table[key] == id;
      }
    }
  }

  lemma LeftKeepsTable(pool: Pool, key: Key, id: nat)
    requires OneForEachKey(pool) && key in pool.table && pool.table[key] == id
    ensures OneForEachKey(Left(pool, key, id))
  {
    var after := Left(pool, key, id);
    forall other | other in after.running ensures InTable(after, other) {
      var k :| k in pool.table && pool.table[k] == other;
      assert k in after.table && after.table[k] == other;
    }
  }

  lemma InTableRuns(pool: Pool, key: Key)
    requires OneForEachKey(pool) && key in pool.table
    ensures pool.table[key] in pool.running
  {
  }

  lemma NobodyHolds(world: World, id: nat)
    requires Shared(world) && id !in world.pool.running
    ensures Holders(world.live, id) == {}
  {
    if call :| call in Holders(world.live, id) {
      InTableRuns(world.pool, world.live[call].key);
    }
  }

  lemma EnterKeepsCounts(world: World, step: Step)
    requires Shared(world) && Enabled(world, step) && step.Enter? && Handle(world.pool, step.key, step.starts).Some?
    ensures Counted(Apply(world, step))
  {
    var id := Handle(world.pool, step.key, step.starts).value;
    var after := Apply(world, step);
    HoldersJoin(world.live, step.call, Hold(step.key, id));
    if step.key in world.pool.table {
      InTableRuns(world.pool, step.key);
    } else {
      assert id !in world.pool.running;
      NobodyHolds(world, id);
    }
    assert after.live == world.live[step.call := Hold(step.key, id)];
    hide Shared, Holders, OneForEachKey, HeldFromTable, Apply;
    assert after.pool.references == world.pool.references[id := |Holders(after.live, id)|];
    assert after.pool.running == world.pool.running + {id};
  }

  lemma EnterKeepsShared(world: World, step: Step)
    requires Shared(world) && Enabled(world, step) && step.Enter?
    ensures Shared(Apply(world, step))
  {
    EnteredKeepsTable(world.pool, step.key, step.starts);
    if Handle(world.pool, step.key, step.starts).Some? {
      EnterKeepsCounts(world, step);
      hide Counted, OneForEachKey;
      assert HeldFromTable(Apply(world, step));
    }
  }

  lemma LeaveKeepsCounts(world: World, step: Step)
    requires Shared(world) && Enabled(world, step) && step.Leave?
    ensures Counted(Apply(world, step))
  {
    var after, id := Apply(world, step), world.live[step.call].id;
    InTableRuns(world.pool, world.live[step.call].key);
    HoldersPart(world.live, step.call);
    hide Shared, Holders, OneForEachKey, HeldFromTable;
    assert after.live == world.live - {step.call};
    assert after.pool.references == world.pool.references[id := |Holders(after.live, id)|];
  }

  lemma LeaveKeepsShared(world: World, step: Step)
    requires Shared(world) && Enabled(world, step) && step.Leave?
    ensures Shared(Apply(world, step))
  {
    var after, hold := Apply(world, step), world.live[step.call];
    InTableRuns(world.pool, hold.key);
    LeftKeepsTable(world.pool, hold.key, hold.id);
    LeaveKeepsCounts(world, step);
    HoldersPart(world.live, step.call);
    assert after.live == world.live - {step.call};
    hide OneForEachKey;
    if |Holders(after.live, hold.id)| == 0 {
      forall call | call in after.live ensures after.live[call].key != hold.key {
        assert call !in Holders(after.live, hold.id);
      }
    }
    assert Left(world.pool, hold.key, hold.id).table
        == if |Holders(after.live, hold.id)| == 0 then world.pool.table - {hold.key} else world.pool.table;
    hide Holders, Counted;
    assert HeldFromTable(after);
  }

  lemma {:induction false} AlwaysShared(steps: seq<Step>)
    requires Possible(steps)
    ensures Shared(Run(steps))
  {
    if steps != [] {
      AlwaysShared(steps[..|steps| - 1]);
      if steps[|steps| - 1].Enter? {
        EnterKeepsShared(Run(steps[..|steps| - 1]), steps[|steps| - 1]);
      } else {
        LeaveKeepsShared(Run(steps[..|steps| - 1]), steps[|steps| - 1]);
      }
    }
  }

  /** Over any interleaving: a receiver runs exactly while some call holds it, its reference count is the
      number of such calls, and two calls hold the same receiver, and so the same inbox, exactly when they
      asked for the same key. */
  lemma RunsWhileHeld(steps: seq<Step>)
    requires Possible(steps)
    ensures var world := Run(steps);
      && (forall id :: id in world.pool.running <==> Holders(world.live, id) != {})
      && (forall id | id in world.pool.running :: Count(world.pool, id) == |Holders(world.live, id)|)
      && (forall a, b | a in world.live && b in world.live :: world.live[a].id == world.live[b].id <==> world.live[a].key == world.live[b].key)
  {
    AlwaysShared(steps);
    var world := Run(steps);
    forall id ensures id in world.pool.running <==> Holders(world.live, id) != {} {
      if id !in world.pool.running {
        NobodyHolds(world, id);
      }
    }
  }

  /** A receiver stops in exactly one kind of step: the one in which its last holder leaves. */
  lemma StopsWithTheLastHolder(steps: seq<Step>, step: Step, id: nat)
    requires Possible(steps + [step]) && Possible(steps)
    requires id in Run(steps).pool.running
    ensures id !in Run(steps + [step]).pool.running
       <==> step.Leave? && Holders(Run(steps).live, id) == {step.call}
  {
    assert (steps + [step])[..|steps|] == steps;
    RunsWhileHeld(steps);
    RunsWhileHeld(steps + [step]);
    var world, after := Run(steps), Run(steps + [step]);
    var held := Holders(world.live, id);
    if step.Leave? {
      assert Holders(after.live, id) == held - {step.call};
    } else {
      assert forall call | call in held :: call in Holders(after.live, id);
    }
  }

  /** Once every call has left nothing is running, however many failed to start a receiver. */
  lemma AllLeftAllStopped(steps: seq<Step>)
    requires Possible(steps) && Run(steps).live == map[]
    ensures Run(steps).pool.running == {} && Run(steps).pool.table == map[]
  {
    AlwaysShared(steps);
    RunsWhileHeld(steps);
    var world := Run(steps);
    assert forall id :: Holders(world.live, id) == {};
    assert forall key | key in world.pool.table :: world.pool.table[key] in world.pool.running;
  }
}
