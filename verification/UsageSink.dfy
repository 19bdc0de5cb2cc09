// The usage an adapter reports about one call: src/llm_harness/metrics.py:201-306 and 341-430.

module UsageSink {
  import opened Prelude
  import opened Json
  import opened Rounding
  import opened UsageEvents

  type Found = map<string, Json>

  function Value(found: Found, key: string): Json {
    if key in found then found[key] else JNull
  }

  // ----- extraction -----

  datatype Alias = Alias(target: string, names: seq<string>)

  const Aliases: seq<Alias> := [
    Alias("input_tokens", ["input_tokens", "inputTokens", "prompt_tokens"]),
    Alias("output_tokens", ["output_tokens", "outputTokens", "completion_tokens"]),
    Alias("total_tokens", ["total_tokens", "totalTokens"]),
    Alias("context_used_tokens", ["used"]),
    Alias("context_size_tokens", ["size"]),
    Alias("duration_ms", ["duration_ms", "durationMs", "latency_ms"]),
    Alias("cost_amount", ["total_cost_usd"]),
    Alias("invocation_id", ["request_id", "session_id", "sessionId", "id"]),
    Alias("provider", ["provider"]),
    Alias("model", ["model"])]

  predicate Textual(target: string) {
    target in {"provider", "model", "invocation_id"}
  }

  /** The larger of two values by number, the later one if they are equal. */
  function Better(lib: Library, current: Json, candidate: Json): Json {
    var c, n := Number(lib, current), Number(lib, candidate);
    if n.Some? && (c.None? || n.value >= c.value) then candidate else current
  }

  /** `candidate` is not None. */
  function Considered(lib: Library, found: Found, target: string, candidate: Json): Found {
    if Textual(target) then found[target := candidate]
    else if Number(lib, candidate).Some? && Better(lib, Value(found, target), candidate) == candidate then found[target := candidate]
    else found
  }

  function AfterNames(lib: Library, found: Found, value: Json, target: string, names: seq<string>): Found
    decreases |names|
  {
    if names == [] then found
    else
      var candidate := Get(value, names[0]);
      AfterNames(lib, if candidate == JNull then found else Considered(lib, found, target, candidate), value, target, names[1..])
  }

  function AfterAliases(lib: Library, found: Found, value: Json, aliases: seq<Alias>): Found
    decreases |aliases|
  {
    if aliases == [] then found
    else AfterAliases(lib, AfterNames(lib, found, value, aliases[0].target, aliases[0].names), value, aliases[1..])
  }

  function Currency(lib: Library, value: Json): string {
    lib.upper(if Truthy(value) then lib.show(value) else "USD")
  }

  function AfterCost(lib: Library, found: Found, value: Json): Found {
    var cost := Get(value, "cost");
    if cost.JObj? && Number(lib, Get(cost, "amount")).Some? then
      found["cost_amount" := Get(cost, "amount")]["cost_currency" := JStr(Currency(lib, Get(cost, "currency")))]
    else found
  }

  function Visited(lib: Library, found: Found, value: Json): Found
    decreases value, 1
  {
    match value
    case JArr(items) => VisitedItems(lib, found, items)
    case JObj(entries) =>
      VisitedEntries(lib, AfterCost(lib, AfterAliases(lib, found, value, Aliases), value), entries)
    case _ => found
  }

  function VisitedItems(lib: Library, found: Found, items: seq<Json>): Found
    decreases items, 0
  {
    if items == [] then found else VisitedItems(lib, Visited(lib, found, items[0]), items[1..])
  }

  function VisitedEntries(lib: Library, found: Found, entries: seq<Entry>): Found
    decreases entries, 0
  {
    if entries == [] then found else VisitedEntries(lib, Visited(lib, found, entries[0].value), entries[1..])
  }

  function Extracted(lib: Library, payload: Json): Found {
    var found := Visited(lib, map[], payload);
    if "cost_amount" in found && "cost_currency" !in found then found["cost_currency" := JStr("USD")] else found
  }

  method ConsiderNames(lib: Library, sofar: Found, value: Json, target: string, names: seq<string>) returns (found: Found)
    ensures found == AfterNames(lib, sofar, value, target, names)
  {
    found := sofar;
    for k := 0 to |names|
      invariant AfterNames(lib, sofar, value, target, names) == AfterNames(lib, found, value, target, names[k..])
    {
      var candidate := Get(value, names[k]);
      if candidate != JNull {
        if Textual(target) {
          found := found[target := candidate];
        } else {
          var number, current := Number(lib, candidate), Number(lib, Value(found, target));
          if number.Some? && (current.None? || number.value >= current.value) {
            found := found[target := candidate];
          }
        }
      }
    }
  }

  method ConsiderAliases(lib: Library, sofar: Found, value: Json, aliases: seq<Alias>) returns (found: Found)
    ensures found == AfterAliases(lib, sofar, value, aliases)
  {
    found := sofar;
    hide AfterNames;
    for k := 0 to |aliases|
      invariant AfterAliases(lib, sofar, value, aliases) == AfterAliases(lib, found, value, aliases[k..])
    {
      found := ConsiderNames(lib, found, value, aliases[k].target, aliases[k].names);
    }
  }

  /** What `visit` does with the keys of one dictionary. */
  method ConsiderObject(lib: Library, sofar: Found, value: Json) returns (found: Found)
    ensures found == AfterCost(lib, AfterAliases(lib, sofar, value, Aliases), value)
  {
    hide AfterAliases, Aliases, Get, Currency, Number;
    found := ConsiderAliases(lib, sofar, value, Aliases);
    var cost := Get(value, "cost");
    if cost.JObj? && Number(lib, Get(cost, "amount")).Some? {
      found := found["cost_amount" := Get(cost, "amount")];
      found := found["cost_currency" := JStr(Currency(lib, Get(cost, "currency")))];
    }
  }

  method Visit(lib: Library, sofar: Found, value: Json) returns (found: Found)
    ensures found == Visited(lib, sofar, value)
    decreases value
  {
    found := sofar;
    hide AfterCost, AfterAliases;
    match value {
      case JArr(items) =>
        for k := 0 to |items|
          invariant VisitedItems(lib, sofar, items) == VisitedItems(lib, found, items[k..])
        {
          ItemsNext(lib, found, items, k);
          found := Visit(lib, found, items[k]);
        }
      case JObj(entries) =>
        found := ConsiderObject(lib, found, value);
        ghost var own := found;
        for k := 0 to |entries|
          invariant VisitedEntries(lib, own, entries) == VisitedEntries(lib, found, entries[k..])
        {
          EntriesNext(lib, found, entries, k);
          found := Visit(lib, found, entries[k].value);
        }
      case _ =>
    }
  }

  lemma ItemsNext(lib: Library, found: Found, items: seq<Json>, k: nat)
    requires k < |items|
    ensures VisitedItems(lib, found, items[k..]) == VisitedItems(lib, Visited(lib, found, items[k]), items[k + 1..])
  {
    assert items[k..][1..] == items[k + 1..];
  }

  lemma EntriesNext(lib: Library, found: Found, entries: seq<Entry>, k: nat)
    requires k < |entries|
    ensures VisitedEntries(lib, found, entries[k..]) == VisitedEntries(lib, Visited(lib, found, entries[k].value), entries[k + 1..])
  {
    assert entries[k..][1..] == entries[k + 1..];
  }

  /** `_extract_usage` */
  method ExtractUsage(lib: Library, payload: Json) returns (found: Found)
    ensures found == Extracted(lib, payload)
  {
    hide Visited;
    found := Visit(lib, map[], payload);
    if "cost_amount" in found && "cost_currency" !in found {
      found := found["cost_currency" := JStr("USD")];
    }
  }

  // ----- merging -----

  const Numeric: set<string> :=
    {"input_tokens", "output_tokens", "total_tokens", "context_used_tokens", "context_size_tokens", "duration_ms", "cost_amount"}

  /** What one incoming value makes of the value kept. Results of extraction are never None. */
  function MergedValue(lib: Library, key: string, kept: Json, value: Json): Json {
    if key in Numeric then Better(lib, kept, value)
    else if key == "invocation_id" then
      var current, candidate := Text(lib, kept), Text(lib, value);
      if candidate.Some? && (current.None? || (lib.isDigit(current.value) && !lib.isDigit(candidate.value)))
      then JStr(candidate.value) else kept
    else value
  }

  /** `_merge`, key by key: the order of the incoming keys is of no account. */
  method Merge(lib: Library, usage: Found, incoming: Found) returns (merged: Found)
    ensures forall key ::
      Value(merged, key) == if key in incoming && incoming[key] != JNull then MergedValue(lib, key, Value(usage, key), incoming[key]) else Value(usage, key)
  {
    merged := usage;
    var todo := incoming.Keys;
    while todo != {}
      invariant todo <= incoming.Keys
      invariant forall key ::
        Value(merged, key) == if key in incoming.Keys - todo && incoming[key] != JNull then MergedValue(lib, key, Value(usage, key), incoming[key]) else Value(usage, key)
      decreases todo
    {
      var key :| key in todo;
      todo := todo - {key};
      var value := incoming[key];
      if value != JNull {
        var kept := MergedValue(lib, key, Value(merged, key), value);
        merged := merged[key := kept];
      }
    }
  }

  // ----- the sink -----

  datatype Price = Price(provider: string, model: string, inputPerMillion: real, outputPerMillion: real, currency: string)

  function FirstPrice(prices: seq<Price>, fits: Price -> bool): Option<Price> {
    if prices == [] then None else if fits(prices[0]) then Some(prices[0]) else FirstPrice(prices[1..], fits)
  }

  function ForModel(lib: Library, provider: string, model: string): Price -> bool {
    (price: Price) => price.provider == lib.fold(provider) && lib.fold(price.model) == lib.fold(model)
  }

  function ForAnyModel(lib: Library, provider: string): Price -> bool {
    (price: Price) => price.provider == lib.fold(provider) && price.model == "*"
  }

  /** Prices are per million tokens. */
  function AmountAt(price: Price, input: nat, output: nat): real {
    (input as real * price.inputPerMillion + output as real * price.outputPerMillion) / 1000000.0
  }

  /** `_calculated_cost` */
  function CalculatedCost(
    lib: Library, prices: seq<Price>, provider: string, model: string, input: Option<nat>, output: Option<nat>)
    : Option<(real, string)>
  {
    var exact := FirstPrice(prices, ForModel(lib, provider, model));
    var price := if exact.Some? then exact else FirstPrice(prices, ForAnyModel(lib, provider));
    if (input.None? && output.None?) || price.None? then None
    else Some((Round8(AmountAt(price.value, OrZero(input), OrZero(output))), price.value.currency))
  }

  const TerminalKeys: seq<string> :=
    ["return_code", "request_id", "patch_sha256", "status", "ok", "is_error", "total_cost_usd", "duration_ms", "durationMs", "latency_ms"]

  /** `_is_terminal_adapter_payload` */
  predicate Terminal(payload: Json) {
    var result := Get(payload, "result");
    && !Has(payload, "method")
    && (|| Has(result, "stopReason") || Has(result, "stop_reason")
        || (Has(payload, "error") && Has(payload, "id"))
        || exists key | key in TerminalKeys :: Has(payload, key))
  }

  /** `_payload_failed` */
  predicate PayloadFailed(lib: Library, payload: Json) {
    var code, status := Integer(lib, Get(payload, "return_code")), Get(payload, "status");
    || Get(payload, "ok") == JBool(false) || Get(payload, "is_error") == JBool(true) || Has(payload, "error")
    || (code.Some? && code.value != 0)
    || (status.JStr? && lib.fold(status.text) in {"error", "failed", "rejected", "canceled"})
  }

  datatype Context = Context(role: string, agent: string, provider: string, model: string, driver: string,
                             task: Option<string>, run: Option<string>)

  datatype Setup = Setup(lib: Library, context: Context, prices: seq<Price>)

  /** What becomes of a record: the ledger raises before or after the event is in the file (the file is
      renamed into place before its directory is synced and the lease is released), or it returns. */
  datatype Write = NotWritten | WrittenThenRaised | Returned

  /** One call of the sink. `now` and `later` are the clock readings. */
  datatype Call = Call(direction: string, payload: Json, now: real, later: real, write: Write)

  function Or(value: Json, lib: Library, fallback: string): string {
    if Truthy(value) then lib.show(value) else fallback
  }

  function Elapsed(started: Option<real>, call: Call): nat {
    var since := if started.Some? && started.value != 0.0 then started.value else call.later;
    var ms := Truncate((call.now - since) * 1000.0);
    if ms < 0 then 0 else ms
  }

  /** The event made from the usage merged so far. */
  function EventOf(setup: Setup, usage: Found, started: Option<real>, call: Call): UsageEvent {
    var lib := setup.lib;
    var input, output := Integer(lib, Value(usage, "input_tokens")), Integer(lib, Value(usage, "output_tokens"));
    var reported := Number(lib, Value(usage, "cost_amount"));
    var provider := Or(Value(usage, "provider"), lib, setup.context.provider);
    var model := Or(Value(usage, "model"), lib, setup.context.model);
    var calculated := CalculatedCost(lib, setup.prices, provider, model, input, output);
    var duration := Integer(lib, Value(usage, "duration_ms"));
    UsageEvent(
      "invocation", setup.context.role, setup.context.agent, provider, model, setup.context.driver,
      setup.context.task, setup.context.run, Text(lib, Value(usage, "invocation_id")),
      Some(if duration.Some? && duration.value != 0 then duration.value else Elapsed(started, call)),
      input, output, Integer(lib, Value(usage, "total_tokens")),
      Integer(lib, Value(usage, "context_used_tokens")), Integer(lib, Value(usage, "context_size_tokens")),
      if reported.Some? then reported else if calculated.Some? then Some(calculated.value.0) else None,
      if reported.Some? then Some(Currency(lib, Value(usage, "cost_currency")))
      else if calculated.Some? then Some(calculated.value.1) else None,
      if reported.Some? then Some("provider") else if calculated.Some? then Some("configured_price") else None,
      None,
      if PayloadFailed(lib, call.payload) then "failure" else "success")
  }

  /** The call merges its payload, and the call ends the invocation. */
  predicate Merges(recorded: bool, call: Call) {
    call.direction == "inbound" && !recorded
  }

  /** A record, should the call come to one, puts its event into the ledger; and it returns. */
  predicate Writes(call: Call) {
    call.direction == "inbound" && Terminal(call.payload) && !call.write.NotWritten?
  }

  predicate Records(call: Call) {
    call.direction == "inbound" && Terminal(call.payload) && call.write.Returned?
  }

  datatype State = State(started: Option<real>, usage: Found, recorded: bool, ledger: seq<UsageEvent>)

  /** How the event of an invocation is made from the usage merged so far. */
  type Maker = (Found, Option<real>, Call) -> UsageEvent

  function MakerOf(setup: Setup): Maker {
    (usage, started, call) => EventOf(setup, usage, started, call)
  }

  /** One call takes the sink from `before` to `after`. */
  ghost predicate Step(lib: Library, make: Maker, before: State, call: Call, after: State) {
    var incoming := Extracted(lib, call.payload);
    && after.started == (if call.direction == "outbound" && before.started.None? then Some(call.now) else before.started)
    && (forall key :: Value(after.usage, key) ==
          if Merges(before.recorded, call) && key in incoming && incoming[key] != JNull
          then MergedValue(lib, key, Value(before.usage, key), incoming[key])
          else Value(before.usage, key))
    && after.recorded == (before.recorded || Records(call))
    && after.ledger ==
         if !before.recorded && Writes(call) then before.ledger + [make(after.usage, after.started, call)]
         else before.ledger
  }

  class AdapterMetricsSink {
    const setup: Setup
    var started: Option<real>
    var usage: Found
    var recorded: bool
    /** What this sink has put into the ledger. */
    var ledger: seq<UsageEvent>

    ghost function Contents(): State
      reads this
    {
      State(started, usage, recorded, ledger)
    }

    constructor (setup: Setup)
      ensures this.setup == setup && Contents() == State(None, map[], false, [])
    {
      this.setup := setup;
      started, usage, recorded, ledger := None, map[], false, [];
    }

    /** `__call__` and `_observe`. A record that raises is tried again at the next terminal payload, even
        if its event is in the ledger. */
    method Observe(call: Call)
      modifies this
      ensures Step(setup.lib, MakerOf(setup), old(Contents()), call, Contents())
    {
      hide EventOf, Terminal, MergedValue, Extracted;
      if call.direction == "outbound" {
        if started.None? {
          started := Some(call.now);
        }
        return;
      }
      if call.direction != "inbound" || recorded {
        return;
      }
      var incoming := ExtractUsage(setup.lib, call.payload);
      usage := Merge(setup.lib, usage, incoming);
      if !Terminal(call.payload) {
        return;
      }
      var event := EventOf(setup, usage, started, call);
      if call.write.NotWritten? {
        return;
      }
      ledger := ledger + [event];
      if call.write.WrittenThenRaised? {
        return;
      }
      recorded := true;
    }
  }
}
