// How an A2A client turns events into a result: src/llm_harness/a2a.py:339-421, 477-497 and 778-877.

module StreamFold {
  import opened Prelude
  import opened Json
  import opened Deduplication

  /** `str.upper` and `json.dumps(item, sort_keys=True, ...)`. */
  datatype Library = Library(upper: string -> string, canonical: Json -> string)

  // ----- reading one payload -----

  const EventKeys: seq<string> := ["task", "message", "statusUpdate", "artifactUpdate"]

  /** The first value among the keys that is an object, or the value itself. */
  function Unwrap(value: Json, keys: seq<string>): Json {
    if keys == [] then value
    else if Get(value, keys[0]).JObj? then Get(value, keys[0])
    else Unwrap(value, keys[1..])
  }

  /** The id of a task: the `id` field if it has any truthy value, whether or not that is a text, and
      only otherwise the `taskId` field. */
  function TaskId(value: Json): (id: Option<string>)
    ensures id.Some? ==> id.value != ""
    ensures forall t | t != "" ::
      id == Some(t) <==>
        Get(value, "id") == JStr(t) || (!Truthy(Get(value, "id")) && Get(value, "taskId") == JStr(t))
  {
    var item := if Truthy(Get(value, "id")) then Get(value, "id") else Get(value, "taskId");
    if item.JStr? && item.text != "" then Some(item.text) else None
  }

  const Prefix: string := "TASK_STATE_"

  /** `text.replace("TASK_STATE_", "")` */
  function WithoutPrefix(text: string): string
    decreases |text|
  {
    if text == "" then ""
    else if Prefix <= text then WithoutPrefix(text[|Prefix|..])
    else [text[0]] + WithoutPrefix(text[1..])
  }

  predicate LooksLikeMessage(lib: Library, value: Json) {
    || Get(value, "parts").JArr?
    || (Get(value, "role").JStr? && lib.upper(Get(value, "role").text) in {"AGENT", "ROLE_AGENT"})
  }

  function TaskState(lib: Library, value: Json): string {
    var status := Get(value, "status");
    var state := if status.JObj? then Get(status, "state") else Get(value, "state");
    if state.JStr? then WithoutPrefix(lib.upper(state.text))
    else if LooksLikeMessage(lib, value) then "COMPLETED"
    else ""
  }

  /** What `pick` finds in each item, one after the other. */
  function Gather<T>(pick: Json -> seq<T>, items: seq<Json>): seq<T> {
    if items == [] then [] else Gather(pick, items[..|items| - 1]) + pick(items[|items| - 1])
  }

  function ObjectOf(item: Json): seq<Json> { if item.JObj? then [item] else [] }
  function TextOf(part: Json): seq<string> { if Get(part, "text").JStr? then [Get(part, "text").text] else [] }
  function DataOf(part: Json): seq<Json> { if Get(part, "data").JObj? then [Get(part, "data")] else [] }
  function NonEmpty(text: string): seq<string> { if text == "" then [] else [text] }

  function ItemsOf(value: Json): seq<Json> { if value.JArr? then value.items else [] }

  function PartsOf(container: Json): seq<Json> { Gather(ObjectOf, ItemsOf(Get(container, "parts"))) }

  /** The parts of a task or message: its own, its artifacts', its artifact's, its history's, its status's. */
  function AllParts(value: Json): seq<Json> {
    PartsOf(value)
    + Gather(PartsOf, ItemsOf(Get(value, "artifacts")))
    + PartsOf(Get(value, "artifact"))
    + Gather(PartsOf, ItemsOf(Get(value, "history")))
    + PartsOf(Get(Get(value, "status"), "message"))
  }

  function Texts(value: Json): seq<string> { Gather(TextOf, AllParts(value)) }
  function Data(value: Json): seq<Json> { Gather(DataOf, AllParts(value)) }

  lemma GatherNext<T>(pick: Json -> seq<T>, items: seq<Json>, k: nat)
    requires k < |items|
    ensures Gather(pick, items[..k + 1]) == Gather(pick, items[..k]) + pick(items[k])
    ensures items[..|items|] == items
  {
    assert items[..k + 1][..k] == items[..k];
  }

  lemma NothingToCollect(value: Json)
    ensures Gather(ObjectOf, []) == [] && Gather(PartsOf, []) == []
    ensures !Get(value, "status").JObj? ==> PartsOf(Get(Get(value, "status"), "message")) == []
  {
  }

  method Collect(container: Json) returns (parts: seq<Json>)
    ensures parts == PartsOf(container)
  {
    parts := [];
    var raw := Get(container, "parts");
    NothingToCollect(container);
    if !raw.JArr? {
      return;
    }
    for k := 0 to |raw.items|
      invariant parts == Gather(ObjectOf, raw.items[..k])
    {
      GatherNext(ObjectOf, raw.items, k);
      if raw.items[k].JObj? {
        parts := parts + [raw.items[k]];
      }
    }
    assert raw.items[..|raw.items|] == raw.items;
  }

  method CollectEach(containers: Json) returns (parts: seq<Json>)
    ensures parts == Gather(PartsOf, ItemsOf(containers))
  {
    hide PartsOf, Gather;
    parts := [];
    NothingToCollect(containers);
    if !containers.JArr? {
      return;
    }
    for k := 0 to |containers.items|
      invariant parts == Gather(PartsOf, containers.items[..k])
    {
      GatherNext(PartsOf, containers.items, k);
      var more := Collect(containers.items[k]);
      parts := parts + more;
    }
    assert containers.items[..|containers.items|] == containers.items;
  }

  method CollectParts(value: Json) returns (parts: seq<Json>)
    ensures parts == AllParts(value)
  {
    hide PartsOf, Gather, Get;
    parts := Collect(value);
    var more := CollectEach(Get(value, "artifacts"));
    parts := parts + more;
    more := Collect(Get(value, "artifact"));
    parts := parts + more;
    more := CollectEach(Get(value, "history"));
    parts := parts + more;
    var status := Get(value, "status");
    NothingToCollect(value);
    if status.JObj? {
      more := Collect(Get(status, "message"));
      parts := parts + more;
    }
  }

  method ExtractTexts(value: Json) returns (texts: seq<string>)
    ensures texts == Texts(value)
  {
    var parts := CollectParts(value);
    texts := [];
    for k := 0 to |parts|
      invariant texts == Gather(TextOf, parts[..k])
    {
      GatherNext(TextOf, parts, k);
      if Get(parts[k], "text").JStr? {
        texts := texts + [Get(parts[k], "text").text];
      }
    }
    assert parts[..|parts|] == parts;
  }

  method ExtractData(value: Json) returns (data: seq<Json>)
    ensures data == Data(value)
  {
    var parts := CollectParts(value);
    data := [];
    for k := 0 to |parts|
      invariant data == Gather(DataOf, parts[..k])
    {
      GatherNext(DataOf, parts, k);
      if Get(parts[k], "data").JObj? {
        data := data + [Get(parts[k], "data")];
      }
    }
    assert parts[..|parts|] == parts;
  }

  // ----- folding a stream -----

  function EventTexts(event: Json): seq<string> { Texts(Unwrap(event, EventKeys)) }
  function EventData(event: Json): seq<Json> { Data(Unwrap(event, EventKeys)) }

  function EventTask(event: Json): Option<string> {
    var inner := TaskId(Unwrap(event, EventKeys));
    if inner.Some? then inner else TaskId(event)
  }

  function EventState(lib: Library, event: Json): string {
    var inner := TaskState(lib, Unwrap(event, EventKeys));
    if inner != "" then inner else TaskState(lib, event)
  }

  /** What the fold takes from one event, and the identity of a data item. */
  datatype Reading = Reading(
    texts: Json -> seq<string>, data: Json -> seq<Json>, task: Json -> Option<string>, state: Json -> string,
    identity: Json -> string)

  function ReadingOf(lib: Library): Reading {
    Reading(EventTexts, EventData, EventTask, event => EventState(lib, event), lib.canonical)
  }

  /** The last task named, and the last state named. */
  function LastTask(reading: Reading, events: seq<Json>): Option<string> {
    if events == [] then None
    else
      var task := reading.task(events[|events| - 1]);
      if task.Some? then task else LastTask(reading, events[..|events| - 1])
  }

  function LastState(reading: Reading, events: seq<Json>): string {
    if events == [] then ""
    else
      var state := reading.state(events[|events| - 1]);
      if state != "" then state else LastState(reading, events[..|events| - 1])
  }

  function Itself(text: string): string { text }

  function DistinctTexts(texts: seq<string>): seq<string> { Distinct(Itself, NonEmpties(texts)) }

  function NonEmpties(texts: seq<string>): seq<string> {
    if texts == [] then [] else NonEmpties(texts[..|texts| - 1]) + NonEmpty(texts[|texts| - 1])
  }

  datatype Outcome = Outcome(texts: seq<string>, data: seq<Json>, task: Option<string>, state: string)

  function Fold(reading: Reading, events: seq<Json>): Outcome {
    Summary(
      reading, Gather(reading.texts, events), Gather(reading.data, events), LastTask(reading, events), LastState(reading, events))
  }

  function Summary(reading: Reading, texts: seq<string>, data: seq<Json>, task: Option<string>, last: string): Outcome {
    var state := if last != "" then last else if (texts != [] || data != []) && task.None? then "COMPLETED" else "";
    Outcome(DistinctTexts(texts), Distinct(reading.identity, data), task, state)
  }

  lemma NothingDistinct()
    ensures NonEmpties([]) == [] && Distinct(Itself, []) == []
    ensures forall t: string :: !KeyIn(Itself, [], t)
  {
  }

  lemma NonEmptiesNext(texts: seq<string>, k: nat)
    requires k < |texts|
    ensures NonEmpties(texts[..k + 1]) == if texts[k] == "" then NonEmpties(texts[..k]) else NonEmpties(texts[..k]) + [texts[k]]
  {
    assert texts[..k + 1][..k] == texts[..k];
  }

  method DedupTexts(texts: seq<string>) returns (distinct: seq<string>)
    ensures distinct == DistinctTexts(texts)
  {
    hide NonEmpties, Distinct, KeyIn;
    NothingDistinct();
    distinct := [];
    for k := 0 to |texts|
      invariant distinct == DistinctTexts(texts[..k])
      invariant forall t :: t in distinct <==> KeyIn(Itself, NonEmpties(texts[..k]), t)
    {
      NonEmptiesNext(texts, k);
      if texts[k] != "" {
        DistinctNext(Itself, NonEmpties(texts[..k]), texts[k]);
        if texts[k] !in distinct {
          distinct := distinct + [texts[k]];
        }
      }
    }
    assert texts[..|texts|] == texts;
  }

  method DedupData(lib: Library, data: seq<Json>) returns (distinct: seq<Json>)
    ensures distinct == Distinct(lib.canonical, data)
  {
    distinct := [];
    var seen: set<string> := {};
    for k := 0 to |data|
      invariant distinct == Distinct(lib.canonical, data[..k])
      invariant forall t :: t in seen <==> KeyIn(lib.canonical, data[..k], t)
    {
      assert data[..k + 1] == data[..k] + [data[k]];
      DistinctNext(lib.canonical, data[..k], data[k]);
      var identity := lib.canonical(data[k]);
      if identity !in seen {
        seen := seen + {identity};
        distinct := distinct + [data[k]];
      }
    }
    assert data[..|data|] == data;
  }

  lemma NothingYet(reading: Reading)
    ensures Gather(reading.texts, []) == [] && Gather(reading.data, []) == []
    ensures LastTask(reading, []) == None && LastState(reading, []) == ""
  {
  }

  /** `_stream_result` */
  method StreamResult(lib: Library, events: seq<Json>) returns (outcome: Outcome)
    ensures outcome == Fold(ReadingOf(lib), events)
  {
    hide Gather, Texts, Data, TaskId, TaskState, Get, Unwrap, Distinct, DistinctTexts;
    ghost var reading := ReadingOf(lib);
    NothingYet(reading);
    var texts: seq<string>, data: seq<Json>, task: Option<string>, state := [], [], None, "";
    for k := 0 to |events|
      invariant texts == Gather(EventTexts, events[..k]) && data == Gather(EventData, events[..k])
      invariant task == LastTask(reading, events[..k]) && state == LastState(reading, events[..k])
    {
      var event := events[k];
      GatherNext(EventTexts, events, k);
      GatherNext(EventData, events, k);
      assert events[..k + 1][..k] == events[..k];
      var payload := Unwrap(event, EventKeys);
      if TaskId(payload).Some? {
        task := TaskId(payload);
      } else if TaskId(event).Some? {
        task := TaskId(event);
      }
      var candidate := TaskState(lib, payload);
      if candidate == "" {
        candidate := TaskState(lib, event);
      }
      if candidate != "" {
        state := candidate;
      }
      var more := ExtractTexts(payload);
      texts := texts + more;
      var items := ExtractData(payload);
      data := data + items;
    }
    assert events[..|events|] == events;
    var distinctTexts := DedupTexts(texts);
    var distinctData := DedupData(lib, data);
    if state == "" && (texts != [] || data != []) && task.None? {
      state := "COMPLETED";
    }
    return Outcome(distinctTexts, distinctData, task, state);
  }
}
