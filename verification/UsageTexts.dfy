/** The fields of a call that are texts: the provider and the model reported last, and the id of the invocation. */
module UsageTexts {
  import opened Prelude
  import opened Json
  import opened UsageEvents
  import opened UsageSink
  import opened UsageMaxima

  /** The fields that are texts, and their names in a payload. */
  ghost predicate TextNames(target: string, names: seq<string>) {
    || (target == "provider" && names == ["provider"])
    || (target == "model" && names == ["model"])
    || (target == "invocation_id" && names == ["request_id", "session_id", "sessionId", "id"])
  }

  lemma TextNamesAre(target: string, names: seq<string>)
    requires TextNames(target, names)
    ensures Textual(target) && Alias(target, names) in Aliases
    ensures target != "cost_amount" && target != "cost_currency" && target !in Numeric
    ensures target != "invocation_id" ==> target == "provider" || target == "model"
  {
    assert Aliases[7].target == "invocation_id" && Aliases[8].target == "provider" && Aliases[9].target == "model";
    assert |"cost_amount"| == 11 && |"cost_currency"| == 13 && |"invocation_id"| == 13 && |"provider"| == 8 && |"model"| == 5;
    assert "cost_currency"[0] == 'c' && "invocation_id"[0] == 'i';
  }

  /** The value that came last, or `current` if none came. */
  function Latest(current: Json, values: seq<Json>): Json {
    if values == [] then current else values[|values| - 1]
  }

  // ----- one payload -----

  lemma {:induction false} NamesLatest(lib: Library, found: Found, value: Json, target: string, names: seq<string>)
    requires Textual(target)
    ensures Value(AfterNames(lib, found, value, target, names), target) == Latest(Value(found, target), Own(value, names))
    decreases |names|
  {
    if names != [] {
      var candidate := Get(value, names[0]);
      hide Get, Number, Better;
      NamesLatest(lib, if candidate == JNull then found else Considered(lib, found, target, candidate), value, target, names[1..]);
    }
  }

  lemma {:induction false} AliasesLatest(lib: Library, found: Found, value: Json, aliases: seq<Alias>, target: string, names: seq<string>)
    requires Textual(target)
    requires forall i, j | 0 <= i < j < |aliases| :: aliases[i].target != aliases[j].target
    requires forall i | 0 <= i < |aliases| && aliases[i].target == target :: aliases[i].names == names
    ensures Value(AfterAliases(lib, found, value, aliases), target) ==
      if exists i :: 0 <= i < |aliases| && aliases[i].target == target then Latest(Value(found, target), Own(value, names))
      else Value(found, target)
    decreases |aliases|
  {
    hide AfterNames, Latest, Own, Value, Textual;
    if aliases != [] {
      var first, rest := aliases[0], aliases[1..];
      var next := AfterNames(lib, found, value, first.target, first.names);
      AliasesLatest(lib, next, value, rest, target, names);
      if first.target == target {
        NamesLatest(lib, found, value, target, names);
      } else {
        TextLeaves(lib, found, value, first.target, first.names, target);
        assert forall i | 0 <= i < |rest| :: rest[i] == aliases[i + 1];
      }
    }
  }

  lemma ObjectLatest(lib: Library, found: Found, value: Json, target: string, names: seq<string>)
    requires TextNames(target, names)
    ensures Value(AfterCost(lib, AfterAliases(lib, found, value, Aliases), value), target) == Latest(Value(found, target), Own(value, names))
  {
    hide *;
    TextNamesAre(target, names);
    TargetsDiffer();
    CostLeavesTexts(lib, AfterAliases(lib, found, value, Aliases), value, target);
    var i :| 0 <= i < |Aliases| && Aliases[i] == Alias(target, names);
    AliasesLatest(lib, found, value, Aliases, target, names);
    assert Aliases[i].target == target;
  }

  lemma CostLeavesTexts(lib: Library, found: Found, value: Json, target: string)
    requires target != "cost_amount" && target != "cost_currency"
    ensures Value(AfterCost(lib, found, value), target) == Value(found, target)
  {
  }

  lemma {:induction false} VisitLatest(lib: Library, found: Found, value: Json, target: string, names: seq<string>)
    requires TextNames(target, names)
    ensures Value(Visited(lib, found, value), target) == Latest(Value(found, target), Candidates(value, names))
    decreases value, 1
  {
    hide TextNames, AfterCost, AfterAliases, Aliases, Latest;
    NothingLatest(Value(found, target));
    match value
    case JArr(items) => ItemsLatest(lib, found, items, target, names);
    case JObj(entries) =>
      ObjectLatest(lib, found, value, target, names);
      EntriesLatest(lib, AfterCost(lib, AfterAliases(lib, found, value, Aliases), value), entries, target, names);
      LatestConcat(Value(found, target), Own(value, names), CandidatesIn(entries, names));
    case _ =>
  }

  lemma NothingLatest(current: Json)
    ensures Latest(current, []) == current
  {
  }

  lemma {:induction false} ItemsLatest(lib: Library, found: Found, items: seq<Json>, target: string, names: seq<string>)
    requires TextNames(target, names)
    ensures Value(VisitedItems(lib, found, items), target) == Latest(Value(found, target), CandidatesOf(items, names))
    decreases items, 0
  {
    hide TextNames, Latest, Visited, Candidates;
    NothingLatest(Value(found, target));
    if items != [] {
      VisitLatest(lib, found, items[0], target, names);
      ItemsLatest(lib, Visited(lib, found, items[0]), items[1..], target, names);
      LatestConcat(Value(found, target), Candidates(items[0], names), CandidatesOf(items[1..], names));
    }
  }

  lemma {:induction false} EntriesLatest(lib: Library, found: Found, entries: seq<Entry>, target: string, names: seq<string>)
    requires TextNames(target, names)
    ensures Value(VisitedEntries(lib, found, entries), target) == Latest(Value(found, target), CandidatesIn(entries, names))
    decreases entries, 0
  {
    hide TextNames, Latest, Visited, Candidates;
    NothingLatest(Value(found, target));
    if entries != [] {
      VisitLatest(lib, found, entries[0].value, target, names);
      EntriesLatest(lib, Visited(lib, found, entries[0].value), entries[1..], target, names);
      LatestConcat(Value(found, target), Candidates(entries[0].value, names), CandidatesIn(entries[1..], names));
    }
  }

  /** What a payload reports as provider, model or id: the last value, in the order of the visit, that stands under
      one of the names at any depth. */
  lemma ReportedTexts(lib: Library, payload: Json, target: string, names: seq<string>)
    requires TextNames(target, names)
    ensures Value(Extracted(lib, payload), target) == Latest(JNull, Candidates(payload, names))
  {
    hide Visited, TextNames, Aliases, Latest, Candidates, Textual, Extracted, Numeric;
    VisitLatest(lib, map[], payload, target, names);
    TextNamesAre(target, names);
    ExtractedLeaves(lib, payload, target);
  }

  // ----- the cost -----

  lemma {:induction false} NamesLeave(lib: Library, found: Found, value: Json, target: string, names: seq<string>)
    requires forall name | name in names :: Get(value, name) == JNull
    ensures AfterNames(lib, found, value, target, names) == found
    decreases |names|
  {
    hide Get, Considered;
    if names != [] {
      assert names[0] in names;
      NamesLeave(lib, found, value, target, names[1..]);
    }
  }

  /** Aliases that do not name the key of an object with a single entry. */
  lemma {:induction false} AliasesLeave(lib: Library, found: Found, key: string, item: Json, aliases: seq<Alias>)
    requires forall i | 0 <= i < |aliases| :: key !in aliases[i].names
    ensures AfterAliases(lib, found, JObj([Entry(key, item)]), aliases) == found
    decreases |aliases|
  {
    hide AfterNames, Get;
    if aliases != [] {
      var value := JObj([Entry(key, item)]);
      forall name | name in aliases[0].names ensures Get(value, name) == JNull {
        OneEntry(key, item, name);
      }
      NamesLeave(lib, found, value, aliases[0].target, aliases[0].names);
      AliasesLeave(lib, found, key, item, aliases[1..]);
    }
  }

  lemma {:induction false} AliasesSplit(lib: Library, found: Found, value: Json, a: seq<Alias>, b: seq<Alias>)
    ensures AfterAliases(lib, found, value, a + b) == AfterAliases(lib, AfterAliases(lib, found, value, a), value, b)
    decreases |a|
  {
    hide AfterNames;
    if a == [] {
      assert a + b == b;
    } else {
      assert (a + b)[1..] == a[1..] + b;
      AliasesSplit(lib, AfterNames(lib, found, value, a[0].target, a[0].names), value, a[1..], b);
    }
  }

  /** Which keys the aliases do not name, and the only alias that names a total cost. */
  lemma CostAliases()
    ensures forall i | 0 <= i < |Aliases| && i != 6 :: "total_cost_usd" !in Aliases[i].names
    ensures |Aliases| == 10 && Aliases[6] == Alias("cost_amount", ["total_cost_usd"]) && !Textual("cost_amount")
    ensures "total_cost_usd" != "cost"
  {
    assert |"total_cost_usd"| == 14 && |"cost"| == 4;
    forall i, name | 0 <= i < |Aliases| && i != 6 && name in Aliases[i].names ensures name != "total_cost_usd" {
      assert |name| != 14;
    }
  }

  /** A payload that just tells a total costs that many US dollars. */
  lemma TotalIsReported(lib: Library, amount: Json)
    requires Number(lib, amount).Some?
    ensures var found := Extracted(lib, JObj([Entry("total_cost_usd", amount)]));
      Value(found, "cost_amount") == amount && Value(found, "cost_currency") == JStr("USD")
  {
    var key := "total_cost_usd";
    var value := JObj([Entry(key, amount)]);
    CostAliases();
    hide Aliases;
    assert Aliases == Aliases[..6] + ([Aliases[6]] + Aliases[7..]);
    AliasesSplit(lib, map[], value, Aliases[..6], [Aliases[6]] + Aliases[7..]);
    AliasesLeave(lib, map[], key, amount, Aliases[..6]);
    AliasesSplit(lib, map[], value, [Aliases[6]], Aliases[7..]);
    OneAlias(lib, amount);
    var found: Found := map["cost_amount" := amount];
    AliasesLeave(lib, found, key, amount, Aliases[7..]);
    OneEntry(key, amount, "cost");
    assert AfterAliases(lib, map[], value, Aliases) == found;
    hide Get, AfterAliases;
    assert AfterCost(lib, found, value) == found;
    OneVisited(lib, found, key, amount);
  }

  lemma OneAlias(lib: Library, amount: Json)
    requires Number(lib, amount).Some?
    ensures AfterAliases(lib, map[], JObj([Entry("total_cost_usd", amount)]), [Alias("cost_amount", ["total_cost_usd"])])
         == map["cost_amount" := amount]
  {
    OneEntry("total_cost_usd", amount, "total_cost_usd");
    CostAliases();
    var alias := Alias("cost_amount", ["total_cost_usd"]);
    assert [alias][1..] == [] && ["total_cost_usd"][1..] == [];
    hide Get, Aliases, Textual;
  }

  /** Visiting the entries of an object with a single number adds nothing. */
  lemma OneVisited(lib: Library, found: Found, key: string, item: Json)
    requires Number(lib, item).Some?
    ensures VisitedEntries(lib, found, [Entry(key, item)]) == found
  {
    assert [Entry(key, item)][1..] == [];
    assert Visited(lib, found, item) == found;
  }

  lemma {:induction false} UnnamedLeave(lib: Library, found: Found, value: Json, aliases: seq<Alias>)
    requires forall i, name | 0 <= i < |aliases| && name in aliases[i].names :: Get(value, name) == JNull
    ensures AfterAliases(lib, found, value, aliases) == found
    decreases |aliases|
  {
    hide AfterNames, Get;
    if aliases != [] {
      NamesLeave(lib, found, value, aliases[0].target, aliases[0].names);
      UnnamedLeave(lib, found, value, aliases[1..]);
    }
  }

  lemma NoAliasOfCost(value: Json)
    requires forall name :: Get(value, name) != JNull ==> name in ["cost", "amount", "currency"]
    ensures forall i, name | 0 <= i < |Aliases| && name in Aliases[i].names :: Get(value, name) == JNull
  {
    assert |"cost"| == 4 && |"amount"| == 6 && |"currency"| == 8;
    forall i, name | 0 <= i < |Aliases| && name in Aliases[i].names ensures Get(value, name) == JNull {
      assert name !in ["cost", "amount", "currency"];
    }
  }

  ghost predicate Scalar(value: Json) {
    !value.JArr? && !value.JObj?
  }

  /** A payload that just tells a cost, with its amount and currency: the currency in upper case, and US dollars if
      none is named. */
  lemma CostIsReported(lib: Library, amount: Json, currency: Json)
    requires Number(lib, amount).Some? && Scalar(currency)
    ensures var found := Extracted(lib, JObj([Entry("cost", JObj([Entry("amount", amount), Entry("currency", currency)]))]));
      && Value(found, "cost_amount") == amount
      && Value(found, "cost_currency") == JStr(lib.upper(if Truthy(currency) then lib.show(currency) else "USD"))
  {
    var cost := JObj([Entry("amount", amount), Entry("currency", currency)]);
    var payload := JObj([Entry("cost", cost)]);
    var told := JStr(lib.upper(if Truthy(currency) then lib.show(currency) else "USD"));
    var found: Found := map["cost_amount" := amount, "cost_currency" := told];
    hide *;
    CostFields(amount, currency);
    forall name ensures Get(payload, name) == if name == "cost" then cost else JNull {
      OneEntry("cost", cost, name);
    }
    CostTaken(lib, payload, cost, amount, currency);
    NoAliasOfCost(payload);
    NoAliasOfCost(cost);
    UnnamedLeave(lib, map[], payload, Aliases);
    UnnamedLeave(lib, found, cost, Aliases);
    CostVisited(lib, found, amount, currency);
    CostFound(lib, cost, amount, currency, found);
  }

  lemma CostTaken(lib: Library, payload: Json, cost: Json, amount: Json, currency: Json)
    requires Get(payload, "cost") == cost && cost.JObj? && Get(cost, "amount") == amount && Number(lib, amount).Some?
    requires Get(cost, "currency") == currency && Get(cost, "cost") == JNull
    ensures var found: Found :=
        map["cost_amount" := amount, "cost_currency" := JStr(lib.upper(if Truthy(currency) then lib.show(currency) else "USD"))];
      && AfterCost(lib, map[], payload) == found && AfterCost(lib, found, cost) == found
      && "cost_amount" in found && found["cost_amount"] == amount && "cost_currency" in found
      && found["cost_currency"] == JStr(lib.upper(if Truthy(currency) then lib.show(currency) else "USD"))
  {
    assert |"cost_amount"| == 11 && |"cost_currency"| == 13;
    hide Get, Truthy, Number;
  }

  lemma CostFound(lib: Library, cost: Json, amount: Json, currency: Json, found: Found)
    requires cost == JObj([Entry("amount", amount), Entry("currency", currency)])
    requires AfterCost(lib, AfterAliases(lib, map[], JObj([Entry("cost", cost)]), Aliases), JObj([Entry("cost", cost)])) == found
    requires AfterCost(lib, AfterAliases(lib, found, cost, Aliases), cost) == found
    requires VisitedEntries(lib, found, cost.entries) == found && "cost_amount" in found && "cost_currency" in found
    ensures Extracted(lib, JObj([Entry("cost", cost)])) == found
    ensures Value(found, "cost_amount") == found["cost_amount"] && Value(found, "cost_currency") == found["cost_currency"]
  {
    hide AfterCost, AfterAliases, Aliases;
    var entry := Entry("cost", cost);
    assert [entry][1..] == [] && VisitedEntries(lib, found, []) == found;
    assert Visited(lib, found, cost) == VisitedEntries(lib, found, cost.entries);
    assert VisitedEntries(lib, found, [entry]) == VisitedEntries(lib, Visited(lib, found, cost), [entry][1..]);
  }

  lemma TwoEntries(k: string, a: Json, l: string, b: Json, name: string)
    requires k != l
    ensures Get(JObj([Entry(k, a), Entry(l, b)]), name) == if name == k then a else if name == l then b else JNull
  {
    assert [Entry(k, a), Entry(l, b)][1..] == [Entry(l, b)];
    OneEntry(l, b, name);
  }

  lemma CostFields(amount: Json, currency: Json)
    ensures var cost := JObj([Entry("amount", amount), Entry("currency", currency)]);
      && Get(cost, "amount") == amount && Get(cost, "currency") == currency && Get(cost, "cost") == JNull
      && forall name :: Get(cost, name) != JNull ==> name in ["cost", "amount", "currency"]
  {
    assert |"amount"| == 6 && |"currency"| == 8 && |"cost"| == 4;
    var cost := JObj([Entry("amount", amount), Entry("currency", currency)]);
    forall name ensures Get(cost, name) == if name == "amount" then amount else if name == "currency" then currency else JNull {
      TwoEntries("amount", amount, "currency", currency, name);
    }
    hide Get;
  }

  lemma CostVisited(lib: Library, found: Found, amount: Json, currency: Json)
    requires Number(lib, amount).Some? && Scalar(currency)
    ensures VisitedEntries(lib, found, [Entry("amount", amount), Entry("currency", currency)]) == found
  {
    var first, second := Entry("amount", amount), Entry("currency", currency);
    assert [first, second][1..] == [second] && [second][1..] == [];
    assert VisitedEntries(lib, found, []) == found;
    assert VisitedEntries(lib, found, [second]) == VisitedEntries(lib, Visited(lib, found, currency), []);
    assert VisitedEntries(lib, found, [first, second]) == VisitedEntries(lib, Visited(lib, found, amount), [second]);
  }

  // ----- all payloads -----

  /** The provider and the model of a call are those reported last before its event is recorded. */
  lemma {:induction false} LastReported(lib: Library, make: Maker, states: seq<State>, calls: seq<Call>, target: string, names: seq<string>)
    requires IsRun(lib, make, states, calls) && TextNames(target, names) && target != "invocation_id"
    requires forall k | 0 <= k < |calls| - 1 :: !Records(calls[k])
    ensures |states| == |calls| + 1
    ensures Value(states[|calls|].usage, target) == Latest(JNull, AllCandidates(Inbound(calls), names))
  {
    if calls == [] {
      hide TextNames, Aliases;
    } else {
      hide *;
      var init, last := calls[..|calls| - 1], calls[|calls| - 1];
      IsRunInit(lib, make, states, calls);
      LedgerCountsWrites(lib, make, states[..|calls|], init);
      NoneReturned(calls);
      assert states[..|calls|][|init|] == states[|calls| - 1];
      LastReported(lib, make, states[..|calls|], init, target, names);
      StepLatest(lib, make, states[|calls| - 1], last, states[|calls|], target, names);
      InboundNext(init, last, names);
      assert calls == init + [last];
      LatestConcat(JNull, AllCandidates(Inbound(init), names), Candidates(last.payload, names));
    }
  }

  lemma LatestConcat(current: Json, a: seq<Json>, b: seq<Json>)
    ensures Latest(current, a + b) == Latest(Latest(current, a), b)
  {
  }

  lemma StepLatest(lib: Library, make: Maker, before: State, call: Call, after: State, target: string, names: seq<string>)
    requires Step(lib, make, before, call, after) && TextNames(target, names) && target != "invocation_id"
    ensures Value(after.usage, target) ==
      if call.direction == "inbound" && !before.recorded then Latest(Value(before.usage, target), Candidates(call.payload, names))
      else Value(before.usage, target)
  {
    hide *;
    ReportedTexts(lib, call.payload, target, names);
    NothingNull(call.payload, names);
    TextNamesAre(target, names);
    LatestIs(Value(before.usage, target), Candidates(call.payload, names));
    MergedStep(lib, make, before, call, after, target);
  }

  lemma LatestIs(current: Json, values: seq<Json>)
    requires JNull !in values
    ensures Latest(current, values) == if Latest(JNull, values) == JNull then current else Latest(JNull, values)
  {
  }

  lemma {:induction false} OwnNotNull(value: Json, names: seq<string>)
    ensures JNull !in Own(value, names)
  {
    if names != [] {
      OwnNotNull(value, names[1..]);
    }
  }

  lemma {:induction false} NothingNull(value: Json, names: seq<string>)
    ensures JNull !in Candidates(value, names)
    decreases value, 1
  {
    match value
    case JArr(items) => NothingNullOf(items, names);
    case JObj(entries) => OwnNotNull(value, names); NothingNullIn(entries, names);
    case _ =>
  }

  lemma {:induction false} NothingNullOf(items: seq<Json>, names: seq<string>)
    ensures JNull !in CandidatesOf(items, names)
    decreases items, 0
  {
    if items != [] {
      NothingNull(items[0], names);
      NothingNullOf(items[1..], names);
    }
  }

  lemma {:induction false} NothingNullIn(entries: seq<Entry>, names: seq<string>)
    ensures JNull !in CandidatesIn(entries, names)
    decreases entries, 0
  {
    if entries != [] {
      NothingNull(entries[0].value, names);
      NothingNullIn(entries[1..], names);
    }
  }

  // ----- the id of the invocation -----

  /** The ids reported: the last one in each inbound payload that is a text. */
  function ReportedIds(lib: Library, calls: seq<Call>): seq<string> {
    if calls == [] then []
    else
      var last := calls[|calls| - 1];
      var id := Text(lib, Latest(JNull, Candidates(last.payload, ["request_id", "session_id", "sessionId", "id"])));
      ReportedIds(lib, calls[..|calls| - 1]) + if last.direction == "inbound" && id.Some? then [id.value] else []
  }

  /** The first id that is not all digits, as the numbers of requests are, and otherwise the first. */
  ghost predicate Chosen(lib: Library, ids: seq<string>, id: Option<string>) {
    if ids == [] then id == None
    else if forall i | i in ids :: lib.isDigit(i) then id == Some(ids[0])
    else exists n :: 0 <= n < |ids| && id == Some(ids[n]) && !lib.isDigit(ids[n]) && forall k | 0 <= k < n :: lib.isDigit(ids[k])
  }

  lemma ChosenNext(lib: Library, ids: seq<string>, kept: Option<string>, next: string)
    requires Chosen(lib, ids, kept)
    ensures Chosen(lib, ids + [next],
                   if kept.None? || (lib.isDigit(kept.value) && !lib.isDigit(next)) then Some(next) else kept)
  {
    var more := ids + [next];
    assert more[|ids|] == next;
    if ids != [] && forall i | i in ids :: lib.isDigit(i) {
      assert forall k | 0 <= k < |ids| :: ids[k] in ids && more[k] == ids[k];
      assert lib.isDigit(next) ==> forall i | i in more :: i in ids || i == next;
    } else if ids != [] {
      var n :| 0 <= n < |ids| && kept == Some(ids[n]) && !lib.isDigit(ids[n]) && forall k | 0 <= k < n :: lib.isDigit(ids[k]);
      assert more[n] == ids[n] && ids[n] in more;
    }
  }

  /** The id under which the call is recorded. */
  lemma {:induction false} InvocationIsChosen(lib: Library, make: Maker, states: seq<State>, calls: seq<Call>)
    requires IsRun(lib, make, states, calls) && forall k | 0 <= k < |calls| - 1 :: !Records(calls[k])
    ensures |states| == |calls| + 1
    ensures Chosen(lib, ReportedIds(lib, calls), Text(lib, Value(states[|calls|].usage, "invocation_id")))
  {
    if calls != [] {
      hide *;
      var init, last := calls[..|calls| - 1], calls[|calls| - 1];
      IsRunInit(lib, make, states, calls);
      LedgerCountsWrites(lib, make, states[..|calls|], init);
      NoneReturned(calls);
      assert states[..|calls|][|init|] == states[|calls| - 1];
      InvocationIsChosen(lib, make, states[..|calls|], init);
      StepInvocation(lib, make, states[|calls| - 1], calls, states[|calls|]);
    } else {
      hide Chosen, Aliases;
      NoIds(lib);
    }
  }

  lemma NoIds(lib: Library)
    ensures Chosen(lib, ReportedIds(lib, []), Text(lib, JNull))
  {
  }

  lemma {:induction false} StepInvocation(lib: Library, make: Maker, before: State, calls: seq<Call>, after: State)
    requires calls != [] && Step(lib, make, before, calls[|calls| - 1], after) && !before.recorded
    requires Chosen(lib, ReportedIds(lib, calls[..|calls| - 1]), Text(lib, Value(before.usage, "invocation_id")))
    ensures Chosen(lib, ReportedIds(lib, calls), Text(lib, Value(after.usage, "invocation_id")))
  {
    var last, ids := calls[|calls| - 1], ReportedIds(lib, calls[..|calls| - 1]);
    var kept := Text(lib, Value(before.usage, "invocation_id"));
    var value := Latest(JNull, Candidates(last.payload, ["request_id", "session_id", "sessionId", "id"]));
    StepText(lib, make, before, last, after);
    assert ReportedIds(lib, calls) == if last.direction == "inbound" && Text(lib, value).Some? then ids + [Text(lib, value).value] else ids;
    hide *;
    if Text(lib, value).Some? {
      ChosenNext(lib, ids, kept, Text(lib, value).value);
    }
  }

  /** One call keeps the id or takes the one it reports. */
  lemma StepText(lib: Library, make: Maker, before: State, call: Call, after: State)
    requires Step(lib, make, before, call, after) && !before.recorded
    ensures var kept := Text(lib, Value(before.usage, "invocation_id"));
      var reported := Text(lib, Latest(JNull, Candidates(call.payload, ["request_id", "session_id", "sessionId", "id"])));
      Text(lib, Value(after.usage, "invocation_id")) ==
        if call.direction == "inbound" && reported.Some? && (kept.None? || (lib.isDigit(kept.value) && !lib.isDigit(reported.value)))
        then reported else kept
  {
    hide *;
    var value := Value(Extracted(lib, call.payload), "invocation_id");
    IdNames();
    ReportedTexts(lib, call.payload, "invocation_id", ["request_id", "session_id", "sessionId", "id"]);
    MergedId(lib, Value(before.usage, "invocation_id"), value);
    MergedStep(lib, make, before, call, after, "invocation_id");
  }

  lemma IdNames()
    ensures TextNames("invocation_id", ["request_id", "session_id", "sessionId", "id"]) && "invocation_id" !in Numeric
  {
    TextNamesAre("invocation_id", ["request_id", "session_id", "sessionId", "id"]);
    hide Numeric, Aliases;
  }

  lemma MergedId(lib: Library, kept: Json, value: Json)
    ensures Text(lib, JNull) == None
    ensures Text(lib, MergedValue(lib, "invocation_id", kept, value)) ==
      if Text(lib, value).Some? && (Text(lib, kept).None? || (lib.isDigit(Text(lib, kept).value) && !lib.isDigit(Text(lib, value).value)))
      then Text(lib, value) else Text(lib, kept)
  {
    IdNames();
    hide Better, Aliases, Numeric;
  }

  // ----- the cost of a whole call -----

  /** What the payloads report under one key of the cost, payload by payload. */
  function ReportedCosts(lib: Library, key: string, calls: seq<Call>): seq<Json> {
    if calls == [] then []
    else
      var last := calls[|calls| - 1];
      var value := Value(Extracted(lib, last.payload), key);
      ReportedCosts(lib, key, calls[..|calls| - 1]) + if last.direction == "inbound" && value != JNull then [value] else []
  }

  /** The amount of a call is the largest reported, but its currency is the one reported last. */
  lemma {:induction false} LargestAmountLastCurrency(lib: Library, make: Maker, states: seq<State>, calls: seq<Call>)
    requires IsRun(lib, make, states, calls) && forall k | 0 <= k < |calls| - 1 :: !Records(calls[k])
    ensures |states| == |calls| + 1
    ensures Value(states[|calls|].usage, "cost_amount") == Keep(lib, JNull, ReportedCosts(lib, "cost_amount", calls))
    ensures Value(states[|calls|].usage, "cost_currency") == Latest(JNull, ReportedCosts(lib, "cost_currency", calls))
  {
    if calls != [] {
      hide *;
      var init, last := calls[..|calls| - 1], calls[|calls| - 1];
      IsRunInit(lib, make, states, calls);
      LedgerCountsWrites(lib, make, states[..|calls|], init);
      NoneReturned(calls);
      assert states[..|calls|][|init|] == states[|calls| - 1];
      LargestAmountLastCurrency(lib, make, states[..|calls|], init);
      MergedStep(lib, make, states[|calls| - 1], last, states[|calls|], "cost_amount");
      MergedStep(lib, make, states[|calls| - 1], last, states[|calls|], "cost_currency");
      AmountIsNumeric();
      NextCost(lib, "cost_amount", calls);
      NextCost(lib, "cost_currency", calls);
    } else {
      hide Aliases;
    }
  }

  lemma AmountIsNumeric()
    ensures "cost_amount" in Numeric && "cost_currency" !in Numeric && "cost_currency" != "invocation_id"
  {
    assert |"cost_amount"| == 11 && |"cost_currency"| == 13 && |"invocation_id"| == 13;
    assert "cost_currency"[0] == 'c' && "invocation_id"[0] == 'i';
    assert |"context_used_tokens"| == 19 && |"context_size_tokens"| == 19 && |"output_tokens"| == 13 && "output_tokens"[0] == 'o';
    assert |"input_tokens"| == 12 && |"total_tokens"| == 12 && |"duration_ms"| == 11;
  }

  lemma NextCost(lib: Library, key: string, calls: seq<Call>)
    requires calls != []
    ensures var before := ReportedCosts(lib, key, calls[..|calls| - 1]);
      var last, value := calls[|calls| - 1], Value(Extracted(lib, calls[|calls| - 1].payload), key);
      if last.direction == "inbound" && value != JNull then
        && Keep(lib, JNull, ReportedCosts(lib, key, calls)) == Better(lib, Keep(lib, JNull, before), value)
        && Latest(JNull, ReportedCosts(lib, key, calls)) == value
      else ReportedCosts(lib, key, calls) == before
  {
    hide Extracted, Better;
    var before := ReportedCosts(lib, key, calls[..|calls| - 1]);
    var value := Value(Extracted(lib, calls[|calls| - 1].payload), key);
    assert (before + [value])[..|before|] == before;
  }

  /** A payload that just tells a cost. */
  function CostPayload(amount: Json, currency: Json): Json {
    JObj([Entry("cost", JObj([Entry("amount", amount), Entry("currency", currency)]))])
  }

  /** Of two costs the second is recorded if it is no smaller. Otherwise the first amount is, but with the currency of
      the second, so that the cost recorded was reported if and only if the currencies are the same. */
  lemma TwoCosts(lib: Library, make: Maker, states: seq<State>, calls: seq<Call>, a: Json, c: string, b: Json, d: string)
    requires IsRun(lib, make, states, calls) && |calls| == 2 && !Records(calls[0])
    requires calls[0].direction == calls[1].direction == "inbound"
    requires calls[0].payload == CostPayload(a, JStr(c)) && calls[1].payload == CostPayload(b, JStr(d)) && c != "" && d != ""
    requires Number(lib, a).Some? && Number(lib, b).Some?
    ensures |states| == 3
    ensures Value(states[2].usage, "cost_amount") == if Number(lib, b).value >= Number(lib, a).value then b else a
    ensures Value(states[2].usage, "cost_currency") == JStr(lib.upper(lib.show(JStr(d))))
  {
    hide *;
    LargestAmountLastCurrency(lib, make, states, calls);
    OneCostPayload(lib, a, c);
    OneCostPayload(lib, b, d);
    KeepTwo(lib, a, b);
    OneCost(lib, "cost_amount", calls);
    OneCost(lib, "cost_currency", calls);
    LastOfTwo(JStr(lib.upper(lib.show(JStr(c)))), JStr(lib.upper(lib.show(JStr(d)))));
  }

  lemma OneCostPayload(lib: Library, amount: Json, currency: string)
    requires Number(lib, amount).Some? && currency != ""
    ensures var found := Extracted(lib, CostPayload(amount, JStr(currency)));
      && Value(found, "cost_amount") == amount != JNull
      && Value(found, "cost_currency") == JStr(lib.upper(lib.show(JStr(currency)))) != JNull
  {
    CostIsReported(lib, amount, JStr(currency));
    hide Extracted, Value;
  }

  lemma OneCost(lib: Library, key: string, calls: seq<Call>)
    requires |calls| == 2 && calls[0].direction == calls[1].direction == "inbound"
    requires Value(Extracted(lib, calls[0].payload), key) != JNull && Value(Extracted(lib, calls[1].payload), key) != JNull
    ensures ReportedCosts(lib, key, calls)
         == [Value(Extracted(lib, calls[0].payload), key), Value(Extracted(lib, calls[1].payload), key)]
  {
    hide Extracted;
    assert calls[..1] == [calls[0]] && calls[..1][..0] == [];
    assert ReportedCosts(lib, key, calls[..1]) == [Value(Extracted(lib, calls[0].payload), key)];
  }

  lemma LastOfTwo(first: Json, second: Json)
    ensures Latest(JNull, [first, second]) == second
  {
  }

  lemma KeepTwo(lib: Library, a: Json, b: Json)
    requires Number(lib, a).Some? && Number(lib, b).Some?
    ensures Keep(lib, JNull, [a, b]) == if Number(lib, b).value >= Number(lib, a).value then b else a
    ensures a != JNull && b != JNull
  {
    assert [a, b] == [a] + [b];
    KeepConcat(lib, JNull, [a], [b]);
    KeepOne(lib, JNull, a);
    KeepOne(lib, a, b);
    hide Keep;
  }
}
