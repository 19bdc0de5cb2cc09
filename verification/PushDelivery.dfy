/** Every run of an inbox with one reader, who always asks for what comes after the events received. */
module PushDelivery {
  import opened Prelude
  import opened Json
  import opened PushInbox

  datatype Step = Recorded(task: string, event: Json) | Discarded(task: string) | Looked

  datatype World = World(shelf: Shelf, received: seq<Json>)

  datatype Setup = Setup(cap: int, room: int, reader: string)

  function Apply(setup: Setup, world: World, step: Step): World {
    match step
    case Recorded(task, event) => world.(shelf := Put(world.shelf, setup.cap, setup.room, task, event))
    case Discarded(task) => world.(shelf := Take(world.shelf, task))
    case Looked => world.(received := world.received + New(setup, world))
  }

  /** What a look returns. */
  function New(setup: Setup, world: World): seq<Json> {
    var list := List(world.shelf, setup.reader);
    if |world.received| < |list| then list[|world.received|..] else []
  }

  function Run(setup: Setup, steps: seq<Step>): World {
    if steps == [] then World(Shelf([], map[]), [])
    else Apply(setup, Run(setup, steps[..|steps| - 1]), steps[|steps| - 1])
  }

  predicate Accepted(setup: Setup, shelf: Shelf, step: Step, task: string) {
    step.Recorded? && step.task == task && !Refused(shelf, setup.room, task)
  }

  /** The events accepted for a task over the whole run. */
  function All(setup: Setup, steps: seq<Step>, task: string): seq<Json> {
    if steps == [] then []
    else
      var init, last := steps[..|steps| - 1], steps[|steps| - 1];
      All(setup, init, task) + if Accepted(setup, Run(setup, init).shelf, last, task) then [last.event] else []
  }

  /** The events accepted for a task since its list was last created. */
  function Since(setup: Setup, steps: seq<Step>, task: string): seq<Json> {
    if steps == [] || task !in Run(setup, steps).shelf.lists then []
    else
      var init, last := steps[..|steps| - 1], steps[|steps| - 1];
      Since(setup, init, task) + if Accepted(setup, Run(setup, init).shelf, last, task) then [last.event] else []
  }

  /** The step that created the list of a task. */
  function Created(setup: Setup, steps: seq<Step>, task: string): nat {
    if steps == [] then 0
    else
      var init := steps[..|steps| - 1];
      if task in Run(setup, init).shelf.lists then Created(setup, init, task) else |steps|
  }

  function Bound(limit: int): nat {
    if limit < 0 then 0 else limit
  }

  ghost predicate Faithful(setup: Setup, steps: seq<Step>) {
    var shelf := Run(setup, steps).shelf;
    && Tidy(shelf)
    && |shelf.order| <= Bound(setup.room)
    && (forall task :: List(shelf, task) == Latest(Since(setup, steps, task), setup.cap))
    && (forall task :: Created(setup, steps, task) <= |steps|)
    && (forall i, j | 0 <= i < j < |shelf.order| ::
          Created(setup, steps, shelf.order[i]) < Created(setup, steps, shelf.order[j]))
  }

  lemma LatestNext(items: seq<Json>, event: Json, cap: int)
    ensures Latest(Latest(items, cap) + [event], cap) == Latest(items + [event], cap)
  {
  }

  lemma {:induction false} WithoutOrder(order: seq<string>, task: string, i: nat, j: nat) returns (k: nat, l: nat)
    requires i < j < |Without(order, task)|
    ensures k < l < |order| && Without(order, task)[i] == order[k] && Without(order, task)[j] == order[l]
  {
    if order[0] == task {
      k, l := i + 1, j + 1;
    } else if i == 0 {
      k := 0;
      var m := WithoutAt(order[1..], task, j - 1);
      l := m + 1;
    } else {
      k, l := WithoutOrder(order[1..], task, i - 1, j - 1);
      k, l := k + 1, l + 1;
    }
  }

  lemma {:induction false} WithoutAt(order: seq<string>, task: string, j: nat) returns (l: nat)
    requires j < |Without(order, task)|
    ensures l < |order| && Without(order, task)[j] == order[l]
  {
    if order[0] == task {
      l := j + 1;
    } else if j == 0 {
      l := 0;
    } else {
      l := WithoutAt(order[1..], task, j - 1);
      l := l + 1;
    }
  }

  lemma ListAfter(setup: Setup, world: World, step: Step, task: string)
    ensures var after := Apply(setup, world, step).shelf;
      List(after, task) ==
        if Accepted(setup, world.shelf, step, task) then Latest(List(world.shelf, task) + [step.event], setup.cap)
        else if task in after.lists then List(world.shelf, task)
        else []
    ensures Accepted(setup, world.shelf, step, task) ==> task in Apply(setup, world, step).shelf.lists
  {
  }

  lemma RunNext(setup: Setup, init: seq<Step>, step: Step, task: string)
    ensures Run(setup, init + [step]) == Apply(setup, Run(setup, init), step)
    ensures Since(setup, init + [step], task) ==
      if task !in Run(setup, init + [step]).shelf.lists then []
      else Since(setup, init, task) + if Accepted(setup, Run(setup, init).shelf, step, task) then [step.event] else []
  {
    assert (init + [step])[..|init|] == init;
  }

  lemma ListsNext(setup: Setup, init: seq<Step>, step: Step, task: string)
    requires Faithful(setup, init)
    ensures var steps := init + [step];
      List(Run(setup, steps).shelf, task) == Latest(Since(setup, steps, task), setup.cap)
  {
    RunNext(setup, init, step, task);
    hide Apply, Run, Since, Tidy;
    assert List(Run(setup, init).shelf, task) == Latest(Since(setup, init, task), setup.cap);
    ListAfter(setup, Run(setup, init), step, task);
    if Accepted(setup, Run(setup, init).shelf, step, task) {
      LatestNext(Since(setup, init, task), step.event, setup.cap);
    }
  }

  lemma SinceAbsent(setup: Setup, steps: seq<Step>, task: string)
    requires task !in Run(setup, steps).shelf.lists
    ensures Since(setup, steps, task) == []
  {
  }

  lemma CreatedNext(setup: Setup, init: seq<Step>, step: Step, task: string)
    ensures Created(setup, init + [step], task)
         == if task in Run(setup, init).shelf.lists then Created(setup, init, task) else |init| + 1
  {
    assert (init + [step])[..|init|] == init;
  }

  lemma OrderNext(setup: Setup, init: seq<Step>, step: Step, i: nat, j: nat)
    requires Faithful(setup, init)
    requires var steps := init + [step]; i < j < |Run(setup, steps).shelf.order|
    ensures var steps := init + [step];
      var order := Run(setup, steps).shelf.order;
      Created(setup, steps, order[i]) < Created(setup, steps, order[j])
  {
    var steps := init + [step];
    assert steps[..|init|] == init;
    var before, after := Run(setup, init).shelf, Run(setup, steps).shelf;
    assert after == Apply(setup, Run(setup, init), step).shelf;
    assert forall task :: task in before.lists <==> task in Members(before.order);
    var x, y := after.order[i], after.order[j];
    CreatedNext(setup, init, step, x);
    CreatedNext(setup, init, step, y);
    hide Created, Latest, Run, Since, NoDuplicates, Without, Refused;
    match step
    case Looked =>
      assert x in Members(before.order) && y in Members(before.order);
    case Discarded(task) =>
      if task in before.lists {
        var k, l := WithoutOrder(before.order, task, i, j);
        assert before.order[k] in Members(before.order) && before.order[l] in Members(before.order);
      } else {
        assert x in Members(before.order) && y in Members(before.order);
      }
    case Recorded(task, event) =>
      if Refused(before, setup.room, task) || task in before.lists {
        assert after.order == before.order;
        assert x in Members(before.order) && y in Members(before.order);
      } else {
        var kept := if Full(before, setup.room, task) then before.order[1..] else before.order;
        assert after.order == kept + [task];
        assert x in Members(before.order);
        if j < |kept| {
          assert y in Members(before.order);
        }
      }
  }

  lemma TidyNext(setup: Setup, world: World, step: Step)
    requires Tidy(world.shelf) && |world.shelf.order| <= Bound(setup.room)
    ensures Tidy(Apply(setup, world, step).shelf) && |Apply(setup, world, step).shelf.order| <= Bound(setup.room)
  {
    match step
    case Recorded(task, event) => PutKeepsTidy(world.shelf, setup.cap, setup.room, task, event);
    case Discarded(task) => TakeKeepsTidy(world.shelf, task);
    case Looked =>
  }

  /** In every run: at most `room` lists; each is the latest part, at most `cap` long, of what came in for
      its task since the list was created; and the first key is the one whose list was created first, so
      that a new task displaces the oldest list. */
  lemma {:induction false} AlwaysFaithful(setup: Setup, steps: seq<Step>)
    ensures Faithful(setup, steps)
  {
    if steps != [] {
      var init, step := steps[..|steps| - 1], steps[|steps| - 1];
      AlwaysFaithful(setup, init);
      assert steps == init + [step];
      TidyNext(setup, Run(setup, init), step);
      hide Apply, Tidy, Latest;
      forall task
        ensures List(Run(setup, steps).shelf, task) == Latest(Since(setup, steps, task), setup.cap)
        ensures Created(setup, steps, task) <= |steps|
      {
        ListsNext(setup, init, step, task);
        CreatedNext(setup, init, step, task);
      }
      forall i, j | 0 <= i < j < |Run(setup, steps).shelf.order|
        ensures Created(setup, steps, Run(setup, steps).shelf.order[i]) < Created(setup, steps, Run(setup, steps).shelf.order[j])
      {
        OrderNext(setup, init, step, i, j);
      }
    }
  }

  // ----- delivery -----

  /** The reader's task, once there, is never displaced or discarded. */
  ghost predicate Undropped(setup: Setup, steps: seq<Step>) {
    forall k | 0 <= k < |steps| ::
      setup.reader in Run(setup, steps[..k]).shelf.lists ==> setup.reader in Run(setup, steps[..k + 1]).shelf.lists
  }

  lemma UndroppedInit(setup: Setup, steps: seq<Step>)
    requires steps != [] && Undropped(setup, steps)
    ensures Undropped(setup, steps[..|steps| - 1])
    ensures setup.reader in Run(setup, steps[..|steps| - 1]).shelf.lists ==> setup.reader in Run(setup, steps).shelf.lists
  {
    var init := steps[..|steps| - 1];
    assert steps[..|init| + 1] == steps;
    forall k | 0 <= k < |init| ensures
      setup.reader in Run(setup, init[..k]).shelf.lists ==> setup.reader in Run(setup, init[..k + 1]).shelf.lists
    {
      assert init[..k] == steps[..k] && init[..k + 1] == steps[..k + 1];
    }
  }

  lemma {:induction false} NothingDropped(setup: Setup, steps: seq<Step>)
    requires Undropped(setup, steps)
    ensures Since(setup, steps, setup.reader) == All(setup, steps, setup.reader)
  {
    if steps != [] {
      UndroppedInit(setup, steps);
      NothingDropped(setup, steps[..|steps| - 1]);
      if setup.reader !in Run(setup, steps).shelf.lists {
        SinceAbsent(setup, steps[..|steps| - 1], setup.reader);
      }
    }
  }

  /** Over every run in which the task is not dropped: while no more than `cap` events have come, the reader
      holds a prefix of them, without gap, repetition or reordering; and just after a look the reader holds
      all of them exactly if they are no more than `cap`. */
  lemma {:induction false} DeliveryIsExact(setup: Setup, steps: seq<Step>)
    requires Undropped(setup, steps)
    ensures var world, all := Run(setup, steps), All(setup, steps, setup.reader);
      && (|all| <= Bound(setup.cap) ==> world.received <= all)
      && (steps != [] && steps[|steps| - 1].Looked? ==> (world.received == all <==> |all| <= Bound(setup.cap)))
  {
    if steps != [] {
      var init := steps[..|steps| - 1];
      UndroppedInit(setup, steps);
      DeliveryIsExact(setup, init);
      AlwaysFaithful(setup, init);
      NothingDropped(setup, init);
      ReceivedBounded(setup, steps);
      var list := List(Run(setup, init).shelf, setup.reader);
      assert list == Latest(Since(setup, init, setup.reader), setup.cap);
    }
  }

  lemma {:induction false} ReceivedBounded(setup: Setup, steps: seq<Step>)
    ensures |Run(setup, steps).received| <= Bound(setup.cap)
  {
    if steps != [] {
      var init := steps[..|steps| - 1];
      ReceivedBounded(setup, init);
      AlwaysFaithful(setup, init);
      assert List(Run(setup, init).shelf, setup.reader) == Latest(Since(setup, init, setup.reader), setup.cap);
    }
  }

  /** A reader who has received `cap` events never receives another one, whatever comes in, and even if the
      task is dropped and comes back. */
  lemma {:induction false} CursorSticksAtCap(setup: Setup, steps: seq<Step>, more: seq<Step>)
    requires |Run(setup, steps).received| >= setup.cap
    ensures Run(setup, steps + more).received == Run(setup, steps).received
  {
    if more == [] {
      assert steps + more == steps;
    } else {
      var init := more[..|more| - 1];
      assert (steps + more)[..|steps + more| - 1] == steps + init;
      CursorSticksAtCap(setup, steps, init);
      AlwaysFaithful(setup, steps + init);
      assert List(Run(setup, steps + init).shelf, setup.reader)
          == Latest(Since(setup, steps + init, setup.reader), setup.cap);
    }
  }
}
