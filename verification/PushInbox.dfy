// The inbox of pushed A2A events: src/llm_harness/a2a_push.py:22-59, and its reader a2a.py:393-421.

module PushInbox {
  import opened Prelude
  import opened Json

  /** The lists of events by task; `order` is the order in which a dictionary keeps its keys. */
  datatype Shelf = Shelf(order: seq<string>, lists: map<string, seq<Json>>)

  predicate Tidy(shelf: Shelf) {
    NoDuplicates(shelf.order) && Members(shelf.order) == shelf.lists.Keys
  }

  function List(shelf: Shelf, task: string): seq<Json> {
    if task in shelf.lists then shelf.lists[task] else []
  }

  /** The latest `cap` items. */
  function Latest(items: seq<Json>, cap: int): seq<Json> {
    if |items| <= cap then items else if cap <= 0 then [] else items[|items| - cap..]
  }

  const EventKeys: seq<string> := ["task", "message", "statusUpdate", "artifactUpdate"]

  function Present(event: Json, keys: seq<string>): seq<string> {
    if keys == [] then []
    else (if Get(event, keys[0]).JObj? then [keys[0]] else []) + Present(event, keys[1..])
  }

  datatype Refusal = NotOneEvent | NoTask | NoRoom

  /** The task of a pushed payload, which must hold exactly one event. */
  function TaskOf(event: Json): Result<string, Refusal> {
    var present := Present(event, EventKeys);
    if |present| != 1 then Err(NotOneEvent)
    else
      var nested := Get(event, present[0]);
      var item :=
        if Truthy(Get(nested, "taskId")) then Get(nested, "taskId")
        else if Truthy(Get(nested, "id")) then Get(nested, "id")
        else Get(event, "taskId");
      if item.JStr? && item.text != "" then Ok(item.text) else Err(NoTask)
  }

  /** The payload holds just this one event. */
  ghost predicate Sole(event: Json, nested: Json) {
    var task, message := Get(event, "task").JObj?, Get(event, "message").JObj?;
    var status, artifact := Get(event, "statusUpdate").JObj?, Get(event, "artifactUpdate").JObj?;
    || (task && !message && !status && !artifact && nested == Get(event, "task"))
    || (!task && message && !status && !artifact && nested == Get(event, "message"))
    || (!task && !message && status && !artifact && nested == Get(event, "statusUpdate"))
    || (!task && !message && !status && artifact && nested == Get(event, "artifactUpdate"))
  }

  ghost predicate Identifies(event: Json, nested: Json, t: string) {
    && t != ""
    && (|| Get(nested, "taskId") == JStr(t)
        || (!Truthy(Get(nested, "taskId")) && Get(nested, "id") == JStr(t))
        || (!Truthy(Get(nested, "taskId")) && !Truthy(Get(nested, "id")) && Get(event, "taskId") == JStr(t)))
  }

  /** A payload is taken if and only if it holds just one event and names a task by a text that is not empty: by
      the event's `taskId`, or by its `id` if that says nothing, or by the payload's own `taskId` if neither does. */
  lemma TakenExactlyWhen(event: Json)
    ensures forall t :: TaskOf(event) == Ok(t) <==> exists nested :: Sole(event, nested) && Identifies(event, nested, t)
    ensures TaskOf(event) == Err(NotOneEvent) <==> forall nested :: !Sole(event, nested)
    ensures TaskOf(event) != Err(NoRoom)
  {
    SoleIs(event);
    hide Get, Present, EventKeys, Sole;
    var present := Present(event, EventKeys);
    if |present| == 1 {
      assert Sole(event, Get(event, present[0]));
    }
  }

  lemma SoleIs(event: Json)
    ensures var present := Present(event, EventKeys);
      forall nested :: Sole(event, nested) <==> |present| == 1 && nested == Get(event, present[0])
  {
    PresentAre(event);
    hide Get, Present, EventKeys;
  }

  lemma PresentNext(event: Json, key: string, keys: seq<string>)
    ensures Present(event, [key] + keys) == (if Get(event, key).JObj? then [key] else []) + Present(event, keys)
  {
    assert ([key] + keys)[1..] == keys;
  }

  lemma PresentAre(event: Json)
    ensures Present(event, EventKeys) ==
      (if Get(event, "task").JObj? then ["task"] else []) + ((if Get(event, "message").JObj? then ["message"] else [])
      + ((if Get(event, "statusUpdate").JObj? then ["statusUpdate"] else [])
      + ((if Get(event, "artifactUpdate").JObj? then ["artifactUpdate"] else []) + [])))
  {
    assert EventKeys == ["task"] + (["message"] + (["statusUpdate"] + (["artifactUpdate"] + [])));
    assert Present(event, []) == [];
    hide Get, Present, EventKeys;
    PresentNext(event, "artifactUpdate", []);
    PresentNext(event, "statusUpdate", ["artifactUpdate"] + []);
    PresentNext(event, "message", ["statusUpdate"] + (["artifactUpdate"] + []));
    PresentNext(event, "task", ["message"] + (["statusUpdate"] + (["artifactUpdate"] + [])));
  }

  /** A new task has to displace another one. */
  predicate Full(shelf: Shelf, room: int, task: string) {
    task !in shelf.lists && |shelf.order| >= room
  }

  /** Nothing to displace: the dictionary has no first key. */
  predicate Refused(shelf: Shelf, room: int, task: string) {
    Full(shelf, room, task) && shelf.order == []
  }

  function Put(shelf: Shelf, cap: int, room: int, task: string, event: Json): Shelf {
    if Refused(shelf, room, task) then shelf
    else
      var kept := if Full(shelf, room, task) then Take(shelf, shelf.order[0]) else shelf;
      Shelf(
        if task in kept.lists then kept.order else kept.order + [task],
        kept.lists[task := Latest(List(kept, task) + [event], cap)])
  }

  function Without(order: seq<string>, task: string): seq<string> {
    if order == [] then []
    else if order[0] == task then order[1..]
    else [order[0]] + Without(order[1..], task)
  }

  function Take(shelf: Shelf, task: string): Shelf {
    if task in shelf.lists then Shelf(Without(shelf.order, task), shelf.lists - {task}) else shelf
  }

  class A2APushInbox {
    const maxEventsPerTask: int
    const maxTasks: int
    var order: seq<string>
    var lists: map<string, seq<Json>>

    ghost predicate Valid()
      reads this
    {
      Tidy(Contents())
    }

    ghost function Contents(): Shelf
      reads this
    {
      Shelf(order, lists)
    }

    constructor (maxEventsPerTask: int, maxTasks: int)
      ensures this.maxEventsPerTask == maxEventsPerTask && this.maxTasks == maxTasks
      ensures Valid() && Contents() == Shelf([], map[])
    {
      this.maxEventsPerTask := maxEventsPerTask;
      this.maxTasks := maxTasks;
      order, lists := [], map[];
    }

    /** A rejected payload, and one there is no room for, changes nothing. */
    method Record(event: Json) returns (result: Result<string, Refusal>)
      requires Valid()
      modifies this
      ensures Valid()
      ensures TaskOf(event).Err? ==> result == TaskOf(event) && Contents() == old(Contents())
      ensures TaskOf(event).Ok? ==>
        var task := TaskOf(event).value;
        && result == (if Refused(old(Contents()), maxTasks, task) then Err(NoRoom) else Ok(task))
        && Contents() == Put(old(Contents()), maxEventsPerTask, maxTasks, task, event)
    {
      hide TaskOf, Tidy;
      ghost var was := Contents();
      result := TaskOf(event);
      if result.Err? {
        return;
      }
      var task := result.value;
      PutKeepsTidy(Contents(), maxEventsPerTask, maxTasks, task, event);
      if task !in lists && |order| >= maxTasks {
        if order == [] {
          assert Contents() == Put(was, maxEventsPerTask, maxTasks, task, event);
          return Err(NoRoom);
        }
        order, lists := order[1..], lists - {order[0]};
      }
      if task !in lists {
        order, lists := order + [task], lists[task := []];
      }
      var target := lists[task] + [event];
      if |target| > maxEventsPerTask {
        var excess := |target| - maxEventsPerTask;
        target := if excess >= |target| then [] else target[excess..];
      }
      lists := lists[task := target];
      assert Contents() == Put(was, maxEventsPerTask, maxTasks, task, event);
    }

    /** One look by `wait`: what is there after the first `after` events. Nothing means waiting on, and in
        the end the empty answer. */
    method Look(task: string, after: nat) returns (events: seq<Json>)
      requires Valid()
      ensures events == if after < |List(Contents(), task)| then List(Contents(), task)[after..] else []
    {
      if task !in lists || |lists[task]| <= after {
        return [];
      }
      return lists[task][after..];
    }

    method Discard(task: string)
      requires Valid()
      modifies this
      ensures Valid() && Contents() == Take(old(Contents()), task)
    {
      TakeKeepsTidy(Contents(), task);
      if task in lists {
        order, lists := Without(order, task), lists - {task};
      }
    }
  }

  /** `wait`: `lists` are what the task's list is each time the caller looks, the first time and whenever it
      is woken before the deadline. The first list with more than `after` events ends the wait, and
      without one the answer is empty. */
  method Wait(lists: seq<seq<Json>>, after: nat) returns (events: seq<Json>)
    ensures (forall i | 0 <= i < |lists| :: |lists[i]| <= after) ==> events == []
    ensures forall k | 0 <= k < |lists| && |lists[k]| > after && (forall i | 0 <= i < k :: |lists[i]| <= after) ::
      events == lists[k][after..]
  {
    for k := 0 to |lists|
      invariant forall i | 0 <= i < k :: |lists[i]| <= after
    {
      if |lists[k]| > after {
        return lists[k][after..];
      }
    }
    return [];
  }

  lemma {:induction false} WithoutMembers(order: seq<string>, task: string)
    requires NoDuplicates(order)
    ensures forall t :: t in Without(order, task) <==> t in order && t != task
    ensures NoDuplicates(Without(order, task))
    ensures |Without(order, task)| == if task in order then |order| - 1 else |order|
  {
    if order != [] && order[0] != task {
      assert forall i, j | 0 <= i < j < |order[1..]| :: order[1..][i] != order[1..][j];
      WithoutMembers(order[1..], task);
      assert order[0] !in order[1..];
      assert order[0] !in Without(order[1..], task);
    }
  }

  lemma TakeKeepsTidy(shelf: Shelf, task: string)
    requires Tidy(shelf)
    ensures Tidy(Take(shelf, task))
    ensures |Take(shelf, task).order| == if task in shelf.lists then |shelf.order| - 1 else |shelf.order|
  {
    WithoutMembers(shelf.order, task);
    assert task in shelf.lists <==> task in Members(shelf.order);
    assert forall t :: t in shelf.lists <==> t in Members(shelf.order);
  }

  lemma AddKeepsTidy(shelf: Shelf, task: string, list: seq<Json>)
    requires Tidy(shelf)
    ensures var order := if task in shelf.lists then shelf.order else shelf.order + [task];
      Tidy(Shelf(order, shelf.lists[task := list]))
  {
    assert task in shelf.lists <==> task in Members(shelf.order);
    MembersConcat(shelf.order, [task]);
  }

  lemma FirstIsThere(shelf: Shelf)
    requires Tidy(shelf)
    ensures shelf.order != [] ==> shelf.order[0] in shelf.lists
  {
    assert shelf.order != [] ==> shelf.order[0] in Members(shelf.order);
  }

  lemma PutKeepsTidy(shelf: Shelf, cap: int, room: int, task: string, event: Json)
    requires Tidy(shelf)
    ensures Tidy(Put(shelf, cap, room, task, event))
    ensures shelf.order != [] ==> shelf.order[0] in shelf.lists
    ensures |Put(shelf, cap, room, task, event).order| <= if |shelf.order| < room then room else |shelf.order|
  {
    FirstIsThere(shelf);
    if !Refused(shelf, room, task) {
      hide Tidy, Latest;
      var kept := shelf;
      if Full(shelf, room, task) {
        TakeKeepsTidy(shelf, shelf.order[0]);
        kept := Take(shelf, shelf.order[0]);
      }
      hide Take;
      AddKeepsTidy(kept, task, Latest(List(kept, task) + [event], cap));
    }
  }
}
