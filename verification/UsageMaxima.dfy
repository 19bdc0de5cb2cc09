/** The token, context and duration fields are maxima over everything reported. */
module UsageMaxima {
  import opened Prelude
  import opened Json
  import opened UsageEvents
  import opened UsageSink

  /** The fields no other rule touches. */
  predicate IsMaximum(target: string) {
    target in {"input_tokens", "output_tokens", "total_tokens", "context_used_tokens", "context_size_tokens", "duration_ms"}
  }

  function Own(value: Json, names: seq<string>): seq<Json> {
    if names == [] then []
    else (if Get(value, names[0]) == JNull then [] else [Get(value, names[0])]) + Own(value, names[1..])
  }

  /** Every value that stands under one of the names, at any depth. */
  function Candidates(value: Json, names: seq<string>): seq<Json>
    decreases value, 1
  {
    match value
    case JArr(items) => CandidatesOf(items, names)
    case JObj(entries) => Own(value, names) + CandidatesIn(entries, names)
    case _ => []
  }

  function CandidatesOf(items: seq<Json>, names: seq<string>): seq<Json>
    decreases items, 0
  {
    if items == [] then [] else Candidates(items[0], names) + CandidatesOf(items[1..], names)
  }

  function CandidatesIn(entries: seq<Entry>, names: seq<string>): seq<Json>
    decreases entries, 0
  {
    if entries == [] then [] else Candidates(entries[0].value, names) + CandidatesIn(entries[1..], names)
  }

  /** The last of the largest. */
  function Keep(lib: Library, current: Json, candidates: seq<Json>): Json {
    if candidates == [] then current
    else Better(lib, Keep(lib, current, candidates[..|candidates| - 1]), candidates[|candidates| - 1])
  }

  lemma {:induction false} KeepConcat(lib: Library, current: Json, a: seq<Json>, b: seq<Json>)
    ensures Keep(lib, current, a + b) == Keep(lib, Keep(lib, current, a), b)
  {
    if b == [] {
      assert a + b == a;
    } else {
      assert (a + b)[..|a + b| - 1] == a + b[..|b| - 1];
      KeepConcat(lib, current, a, b[..|b| - 1]);
    }
  }

  lemma KeepOne(lib: Library, current: Json, candidate: Json)
    ensures Keep(lib, current, [candidate]) == Better(lib, current, candidate)
    ensures Keep(lib, current, []) == current
  {
    assert [candidate][..0] == [];
  }

  /** Keeping is done payload by payload: the largest of each is compared with the largest so far. */
  lemma {:induction false} KeepInParts(lib: Library, current: Json, candidates: seq<Json>)
    ensures var kept := Keep(lib, JNull, candidates);
      && (kept != JNull ==> Number(lib, kept).Some?)
      && Keep(lib, current, candidates) == if kept == JNull then current else Better(lib, current, kept)
  {
    if candidates != [] {
      KeepInParts(lib, current, candidates[..|candidates| - 1]);
    }
  }

  /** What is kept is the last of the largest numbers, or nothing if there is none. */
  lemma {:induction false} KeptIsMaximum(lib: Library, candidates: seq<Json>)
    ensures var kept := Keep(lib, JNull, candidates);
      && (kept == JNull <==> forall c | c in candidates :: Number(lib, c).None?)
      && (kept != JNull ==> kept in candidates && Number(lib, kept).Some?)
      && (forall c | c in candidates && Number(lib, c).Some? :: kept != JNull && Number(lib, c).value <= Number(lib, kept).value)
  {
    if candidates != [] {
      var init, last := candidates[..|candidates| - 1], candidates[|candidates| - 1];
      KeptIsMaximum(lib, init);
      assert forall c :: c in candidates <==> c in init || c == last;
    }
  }

  // ----- one payload -----

  lemma {:induction false} NamesKeep(lib: Library, found: Found, value: Json, target: string, names: seq<string>, other: string)
    requires !Textual(target)
    ensures Value(AfterNames(lib, found, value, target, names), other) ==
      if other == target then Keep(lib, Value(found, other), Own(value, names)) else Value(found, other)
    decreases |names|
  {
    if names == [] {
    } else {
      var candidate := Get(value, names[0]);
      var next := if candidate == JNull then found else Considered(lib, found, target, candidate);
      NamesKeep(lib, next, value, target, names[1..], other);
      KeepOne(lib, Value(found, other), candidate);
      KeepConcat(lib, Value(found, other), if candidate == JNull then [] else [candidate], Own(value, names[1..]));
    }
  }

  lemma {:induction false} TextLeaves(lib: Library, found: Found, value: Json, target: string, names: seq<string>, other: string)
    requires other != target
    ensures Value(AfterNames(lib, found, value, target, names), other) == Value(found, other)
    decreases |names|
  {
    if names != [] {
      var candidate := Get(value, names[0]);
      TextLeaves(lib, if candidate == JNull then found else Considered(lib, found, target, candidate), value, target, names[1..], other);
    }
  }

  lemma {:induction false} AliasesKeep(lib: Library, found: Found, value: Json, aliases: seq<Alias>, target: string, names: seq<string>)
    requires IsMaximum(target)
    requires forall i, j | 0 <= i < j < |aliases| :: aliases[i].target != aliases[j].target
    requires forall i | 0 <= i < |aliases| && aliases[i].target == target :: aliases[i].names == names
    ensures Value(AfterAliases(lib, found, value, aliases), target) ==
      if exists i :: 0 <= i < |aliases| && aliases[i].target == target then Keep(lib, Value(found, target), Own(value, names))
      else Value(found, target)
    decreases |aliases|
  {
    if aliases != [] {
      var first, rest := aliases[0], aliases[1..];
      var next := AfterNames(lib, found, value, first.target, first.names);
      AliasesKeep(lib, next, value, rest, target, names);
      if first.target == target {
        NamesKeep(lib, found, value, target, names, target);
      } else {
        TextLeaves(lib, found, value, first.target, first.names, target);
        assert forall i | 0 <= i < |rest| :: rest[i] == aliases[i + 1];
      }
    }
  }

  /** The names of a field in a payload. */
  predicate NamesOf(target: string, names: seq<string>) {
    || (target == "input_tokens" && names == ["input_tokens", "inputTokens", "prompt_tokens"])
    || (target == "output_tokens" && names == ["output_tokens", "outputTokens", "completion_tokens"])
    || (target == "total_tokens" && names == ["total_tokens", "totalTokens"])
    || (target == "context_used_tokens" && names == ["used"])
    || (target == "context_size_tokens" && names == ["size"])
    || (target == "duration_ms" && names == ["duration_ms", "durationMs", "latency_ms"])
  }

  lemma NamesAreAliases(target: string, names: seq<string>)
    requires NamesOf(target, names)
    ensures IsMaximum(target) && Alias(target, names) in Aliases
    ensures target in Numeric && !Textual(target) && target != "cost_amount" && target != "cost_currency"
  {
    assert Aliases[0].target == "input_tokens" && Aliases[1].target == "output_tokens" && Aliases[2].target == "total_tokens"
      && Aliases[3].target == "context_used_tokens" && Aliases[4].target == "context_size_tokens" && Aliases[5].target == "duration_ms";
  }

  lemma TargetsDiffer()
    ensures forall i, j | 0 <= i < j < |Aliases| :: Aliases[i].target != Aliases[j].target
  {
    assert |Aliases| == 10;
  }

  lemma CostLeaves(lib: Library, found: Found, value: Json, target: string)
    requires IsMaximum(target)
    ensures Value(AfterCost(lib, found, value), target) == Value(found, target)
  {
  }

  lemma ObjectKeeps(lib: Library, found: Found, value: Json, target: string, names: seq<string>)
    requires NamesOf(target, names)
    ensures Value(AfterCost(lib, AfterAliases(lib, found, value, Aliases), value), target)
         == Keep(lib, Value(found, target), Own(value, names))
  {
    hide *;
    TargetsDiffer();
    NamesAreAliases(target, names);
    CostLeaves(lib, AfterAliases(lib, found, value, Aliases), value, target);
    var i :| 0 <= i < |Aliases| && Aliases[i] == Alias(target, names);
    AliasesKeep(lib, found, value, Aliases, target, names);
    assert Aliases[i].target == target;
  }

  lemma {:induction false} VisitKeeps(lib: Library, found: Found, value: Json, target: string, names: seq<string>)
    requires NamesOf(target, names)
    ensures Value(Visited(lib, found, value), target) == Keep(lib, Value(found, target), Candidates(value, names))
    decreases value, 1
  {
    hide NamesOf, AfterCost, AfterAliases;
    match value
    case JArr(items) => VisitItemsKeeps(lib, found, items, target, names);
    case JObj(entries) =>
      ObjectKeeps(lib, found, value, target, names);
      VisitEntriesKeeps(lib, AfterCost(lib, AfterAliases(lib, found, value, Aliases), value), entries, target, names);
      KeepConcat(lib, Value(found, target), Own(value, names), CandidatesIn(entries, names));
    case _ =>
  }

  lemma {:induction false} VisitItemsKeeps(lib: Library, found: Found, items: seq<Json>, target: string, names: seq<string>)
    requires NamesOf(target, names)
    ensures Value(VisitedItems(lib, found, items), target) == Keep(lib, Value(found, target), CandidatesOf(items, names))
    decreases items, 0
  {
    hide NamesOf;
    if items != [] {
      VisitKeeps(lib, found, items[0], target, names);
      VisitItemsKeeps(lib, Visited(lib, found, items[0]), items[1..], target, names);
      KeepConcat(lib, Value(found, target), Candidates(items[0], names), CandidatesOf(items[1..], names));
    }
  }

  lemma {:induction false} VisitEntriesKeeps(lib: Library, found: Found, entries: seq<Entry>, target: string, names: seq<string>)
    requires NamesOf(target, names)
    ensures Value(VisitedEntries(lib, found, entries), target) == Keep(lib, Value(found, target), CandidatesIn(entries, names))
    decreases entries, 0
  {
    hide NamesOf;
    if entries != [] {
      VisitKeeps(lib, found, entries[0].value, target, names);
      VisitEntriesKeeps(lib, Visited(lib, found, entries[0].value), entries[1..], target, names);
      KeepConcat(lib, Value(found, target), Candidates(entries[0].value, names), CandidatesIn(entries[1..], names));
    }
  }

  // ----- all calls -----

  /** The candidates of several payloads. */
  function AllCandidates(payloads: seq<Json>, names: seq<string>): seq<Json> {
    if payloads == [] then []
    else AllCandidates(payloads[..|payloads| - 1], names) + Candidates(payloads[|payloads| - 1], names)
  }

  function Inbound(calls: seq<Call>): seq<Json> {
    if calls == [] then []
    else Inbound(calls[..|calls| - 1]) + if calls[|calls| - 1].direction == "inbound" then [calls[|calls| - 1].payload] else []
  }

  /** The states of a new sink over a sequence of calls. */
  ghost predicate IsRun(lib: Library, make: Maker, states: seq<State>, calls: seq<Call>) {
    && |states| == |calls| + 1
    && states[0] == State(None, map[], false, [])
    && forall k | 0 <= k < |calls| :: Step(lib, make, states[k], calls[k], states[k + 1])
  }

  lemma IsRunInit(lib: Library, make: Maker, states: seq<State>, calls: seq<Call>)
    requires IsRun(lib, make, states, calls) && calls != []
    ensures |states| == |calls| + 1 && IsRun(lib, make, states[..|calls|], calls[..|calls| - 1])
    ensures Step(lib, make, states[|calls| - 1], calls[|calls| - 1], states[|calls|])
  {
    hide Step;
    assert states[|calls| - 1 + 1] == states[|calls|];
  }

  /** Some record has returned. */
  predicate AnyReturned(calls: seq<Call>) {
    exists k | 0 <= k < |calls| :: Records(calls[k])
  }

  /** Call `k` puts an event into the ledger. */
  predicate PutsEvent(calls: seq<Call>, k: nat)
    requires k < |calls|
  {
    Writes(calls[k]) && !AnyReturned(calls[..k])
  }

  /** How many calls put an event into the ledger. */
  function EventsPut(calls: seq<Call>): nat {
    if calls == [] then 0
    else EventsPut(calls[..|calls| - 1]) + if PutsEvent(calls, |calls| - 1) then 1 else 0
  }

  lemma ReturnedNext(calls: seq<Call>)
    requires calls != []
    ensures AnyReturned(calls) <==> AnyReturned(calls[..|calls| - 1]) || Records(calls[|calls| - 1])
  {
    var init := calls[..|calls| - 1];
    assert forall k | 0 <= k < |init| :: init[k] == calls[k];
    if k :| 0 <= k < |init| && Records(init[k]) {
      assert Records(calls[k]);
    }
  }

  /** Over any sequence of calls the ledger gets one event for each terminal payload whose record wrote it,
      until a record returns; after that none. */
  lemma {:induction false} LedgerCountsWrites(lib: Library, make: Maker, states: seq<State>, calls: seq<Call>)
    requires IsRun(lib, make, states, calls)
    ensures var last := states[|calls|];
      && |last.ledger| == EventsPut(calls)
      && (last.recorded <==> AnyReturned(calls))
  {
    if calls != [] {
      var init := calls[..|calls| - 1];
      IsRunInit(lib, make, states, calls);
      LedgerCountsWrites(lib, make, states[..|calls|], init);
      ReturnedNext(calls);
      hide Records, Writes, AnyReturned;
      assert states[..|calls|][|init|] == states[|calls| - 1];
    }
  }

  /** Once a record has returned, the ledger stays as it is. */
  lemma ReturnedRecordIsLast(lib: Library, make: Maker, states: seq<State>, calls: seq<Call>, j: nat, k: nat)
    requires IsRun(lib, make, states, calls) && j < k < |calls| && Records(calls[j])
    ensures states[k + 1].ledger == states[k].ledger && !PutsEvent(calls, k)
  {
    RunPrefix(lib, make, states, calls, k);
    LedgerCountsWrites(lib, make, states[..k + 1], calls[..k]);
    assert Records(calls[..k][j]);
    assert states[..k + 1][|calls[..k]|] == states[k];
    assert Step(lib, make, states[k], calls[k], states[k + 1]);
    hide Records, Writes;
  }

  lemma {:induction false} EventsPutNone(calls: seq<Call>)
    ensures EventsPut(calls) == 0 <==> forall k: nat | k < |calls| :: !PutsEvent(calls, k)
  {
    if calls != [] {
      var n, init := |calls| - 1, calls[..|calls| - 1];
      EventsPutNone(init);
      SamePuts(calls);
      hide PutsEvent;
      if EventsPut(calls) == 0 {
        forall k: nat | k < |calls| ensures !PutsEvent(calls, k) {
          assert k < n ==> PutsEvent(calls, k) == PutsEvent(init, k);
        }
      } else if !PutsEvent(calls, n) {
        var k: nat :| k < |init| && PutsEvent(init, k);
        assert PutsEvent(calls, k);
      }
    }
  }

  lemma SamePuts(calls: seq<Call>)
    requires calls != []
    ensures forall k: nat | k < |calls| - 1 :: PutsEvent(calls, k) == PutsEvent(calls[..|calls| - 1], k)
  {
    forall k: nat | k < |calls| - 1 ensures PutsEvent(calls, k) == PutsEvent(calls[..|calls| - 1], k) {
      assert calls[..|calls| - 1][..k] == calls[..k];
    }
  }

  lemma {:induction false} EventsPutAtMostOne(calls: seq<Call>)
    ensures EventsPut(calls) <= 1 <==> forall j: nat, k: nat | j < k < |calls| :: !(PutsEvent(calls, j) && PutsEvent(calls, k))
  {
    if calls != [] {
      var n, init := |calls| - 1, calls[..|calls| - 1];
      EventsPutAtMostOne(init);
      EventsPutNone(init);
      SamePuts(calls);
      hide PutsEvent;
      if EventsPut(calls) <= 1 {
        forall j: nat, k: nat | j < k < |calls| ensures !(PutsEvent(calls, j) && PutsEvent(calls, k)) {
          assert PutsEvent(calls, j) == PutsEvent(init, j);
          assert k < n ==> PutsEvent(calls, k) == PutsEvent(init, k);
        }
      } else if EventsPut(init) > 1 {
        var j: nat, k: nat :| j < k < |init| && PutsEvent(init, j) && PutsEvent(init, k);
        assert PutsEvent(calls, j) && PutsEvent(calls, k);
      } else {
        var j: nat :| j < |init| && PutsEvent(init, j);
        assert PutsEvent(calls, j) && PutsEvent(calls, n);
      }
    }
  }

  /** The sink puts at most one event into the ledger if and only if no record that wrote its event and
      raised is followed by another one that writes, before any has returned. */
  lemma OneEventExactlyWhen(lib: Library, make: Maker, states: seq<State>, calls: seq<Call>)
    requires IsRun(lib, make, states, calls)
    ensures |states[|calls|].ledger| <= 1
       <==> forall j: nat, k: nat | j < k < |calls| && Writes(calls[j]) && Writes(calls[k]) :: AnyReturned(calls[..k])
  {
    LedgerCountsWrites(lib, make, states, calls);
    EventsPutAtMostOne(calls);
    hide IsRun, Writes, Records, EventsPut;
    forall j: nat, k: nat | j < k < |calls| && Writes(calls[j]) && Writes(calls[k])
      ensures PutsEvent(calls, j) && PutsEvent(calls, k) <==> !AnyReturned(calls[..k])
    {
      if AnyReturned(calls[..j]) {
        ReturnedEarlier(calls, j, k);
      }
    }
    if |states[|calls|].ledger| <= 1 {
      forall j: nat, k: nat | j < k < |calls| && Writes(calls[j]) && Writes(calls[k]) ensures AnyReturned(calls[..k]) {
        assert !(PutsEvent(calls, j) && PutsEvent(calls, k));
      }
    } else {
      var j: nat, k: nat :| j < k < |calls| && PutsEvent(calls, j) && PutsEvent(calls, k);
      assert Writes(calls[j]) && Writes(calls[k]) && !AnyReturned(calls[..k]);
    }
  }

  lemma ReturnedEarlier(calls: seq<Call>, j: nat, k: nat)
    requires j <= k <= |calls| && AnyReturned(calls[..j])
    ensures AnyReturned(calls[..k])
  {
    var i :| 0 <= i < j && Records(calls[..j][i]);
    assert Records(calls[..k][i]);
  }

  /** Two events for one invocation: the first record raises after its rename, the second returns. */
  lemma InvocationRecordedTwice(lib: Library, make: Maker, states: seq<State>, now: real)
    requires var payload := JObj([Entry("ok", JBool(true))]);
      IsRun(lib, make, states, [Call("inbound", payload, now, now, WrittenThenRaised), Call("inbound", payload, now, now, Returned)])
    ensures |states[2].ledger| == 2 && states[2].recorded
  {
    var payload := JObj([Entry("ok", JBool(true))]);
    var calls := [Call("inbound", payload, now, now, WrittenThenRaised), Call("inbound", payload, now, now, Returned)];
    assert TerminalKeys[4] == "ok" && payload.entries[0].key == "ok";
    assert "ok" in TerminalKeys && Has(payload, "ok") && !Has(payload, "method");
    assert Terminal(payload);
    LedgerCountsWrites(lib, make, states, calls);
    assert calls[..1] == [calls[0]] && calls[..1][..0] == [] && calls[..0] == [];
    assert Records(calls[1]);
    assert EventsPut(calls[..1]) == 1;
    assert PutsEvent(calls, 1);
  }

  lemma StepKeeps(lib: Library, make: Maker, before: State, call: Call, after: State, target: string, names: seq<string>)
    requires Step(lib, make, before, call, after) && NamesOf(target, names)
    ensures Value(after.usage, target) ==
      if call.direction == "inbound" && !before.recorded then Keep(lib, Value(before.usage, target), Candidates(call.payload, names))
      else Value(before.usage, target)
  {
    hide *;
    VisitKeeps(lib, map[], call.payload, target, names);
    KeepInParts(lib, Value(before.usage, target), Candidates(call.payload, names));
    NamesAreAliases(target, names);
    ExtractedLeaves(lib, call.payload, target);
    MergedStep(lib, make, before, call, after, target);
  }

  /** What a call makes of one field. */
  lemma MergedStep(lib: Library, make: Maker, before: State, call: Call, after: State, target: string)
    requires Step(lib, make, before, call, after)
    ensures var value := Value(Extracted(lib, call.payload), target);
      Value(after.usage, target) ==
        if call.direction != "inbound" || before.recorded || value == JNull then Value(before.usage, target)
        else if target in Numeric then Better(lib, Value(before.usage, target), value)
        else if target == "invocation_id" then MergedValue(lib, "invocation_id", Value(before.usage, target), value)
        else value
  {
    hide Numeric, Extracted, Better, Text, Records, Writes;
  }

  lemma ExtractedLeaves(lib: Library, payload: Json, target: string)
    requires target != "cost_currency"
    ensures Value(Extracted(lib, payload), target) == Value(Visited(lib, map[], payload), target) && Value(map[], target) == JNull
  {
    hide Visited;
  }

  lemma NoneReturned(calls: seq<Call>)
    requires calls != [] && forall k | 0 <= k < |calls| - 1 :: !Records(calls[k])
    ensures !AnyReturned(calls[..|calls| - 1])
    ensures var init := calls[..|calls| - 1]; forall k | 0 <= k < |init| - 1 :: !Records(init[k])
  {
  }

  lemma NothingReported(lib: Library, make: Maker, states: seq<State>, target: string, names: seq<string>)
    requires IsRun(lib, make, states, [])
    ensures Value(states[0].usage, target) == Keep(lib, JNull, AllCandidates(Inbound([]), names))
  {
  }

  lemma {:induction false} UsageIsMaximum(lib: Library, make: Maker, states: seq<State>, calls: seq<Call>, target: string, names: seq<string>)
    requires IsRun(lib, make, states, calls) && NamesOf(target, names)
    requires forall k | 0 <= k < |calls| - 1 :: !Records(calls[k])
    ensures Value(states[|calls|].usage, target) == Keep(lib, JNull, AllCandidates(Inbound(calls), names))
  {
    if calls == [] {
      hide *;
      NothingReported(lib, make, states, target, names);
    } else {
      hide *;
      var init, last := calls[..|calls| - 1], calls[|calls| - 1];
      IsRunInit(lib, make, states, calls);
      LedgerCountsWrites(lib, make, states[..|calls|], init);
      NoneReturned(calls);
      assert states[..|calls|][|init|] == states[|calls| - 1];
      UsageIsMaximum(lib, make, states[..|calls|], init, target, names);
      StepKeeps(lib, make, states[|calls| - 1], last, states[|calls|], target, names);
      InboundNext(init, last, names);
      assert calls == init + [last];
      KeepConcat(lib, JNull, AllCandidates(Inbound(init), names), Candidates(last.payload, names));
    }
  }

  lemma InboundNext(calls: seq<Call>, last: Call, names: seq<string>)
    ensures AllCandidates(Inbound(calls + [last]), names) ==
      if last.direction == "inbound" then AllCandidates(Inbound(calls), names) + Candidates(last.payload, names)
      else AllCandidates(Inbound(calls), names)
  {
    assert (calls + [last])[..|calls|] == calls;
    if last.direction == "inbound" {
      var all := Inbound(calls) + [last.payload];
      assert all[..|all| - 1] == Inbound(calls);
    } else {
      assert Inbound(calls + [last]) == Inbound(calls);
    }
  }

  /** The value kept for a field when the invocation was recorded at call `k`. */
  function Reported(lib: Library, calls: seq<Call>, k: nat, names: seq<string>): Json
    requires k < |calls|
  {
    Keep(lib, JNull, AllCandidates(Inbound(calls[..k + 1]), names))
  }

  /** Each event: every token and context field is the last of the largest numbers under any of the
      field's names, at any depth of any inbound payload up to the terminal one that is recorded. */
  lemma RecordedFieldsAreMaxima(setup: Setup, states: seq<State>, calls: seq<Call>, k: nat)
    requires IsRun(setup.lib, MakerOf(setup), states, calls) && k < |calls| && PutsEvent(calls, k)
    ensures var lib, ledger, i := setup.lib, states[|calls|].ledger, EventsPut(calls[..k]);
      && i < |ledger|
      && ledger[i].inputTokens == Integer(lib, Reported(lib, calls, k, ["input_tokens", "inputTokens", "prompt_tokens"]))
      && ledger[i].outputTokens == Integer(lib, Reported(lib, calls, k, ["output_tokens", "outputTokens", "completion_tokens"]))
      && ledger[i].totalTokens == Integer(lib, Reported(lib, calls, k, ["total_tokens", "totalTokens"]))
      && ledger[i].contextUsed == Integer(lib, Reported(lib, calls, k, ["used"]))
      && ledger[i].contextSize == Integer(lib, Reported(lib, calls, k, ["size"]))
  {
    var lib, make := setup.lib, MakerOf(setup);
    NoneReturnedBefore(calls, k);
    FieldNames();
    hide *;
    RecordedHere(lib, make, states, calls, k);
    IsRunLength(lib, make, states, calls);
    FieldsOfEvent(setup, states[k + 1].usage, states[k + 1].started, calls[k]);
    FieldKept(lib, make, states, calls, k, "input_tokens", ["input_tokens", "inputTokens", "prompt_tokens"]);
    FieldKept(lib, make, states, calls, k, "output_tokens", ["output_tokens", "outputTokens", "completion_tokens"]);
    FieldKept(lib, make, states, calls, k, "total_tokens", ["total_tokens", "totalTokens"]);
    FieldKept(lib, make, states, calls, k, "context_used_tokens", ["used"]);
    FieldKept(lib, make, states, calls, k, "context_size_tokens", ["size"]);
  }

  lemma NoneReturnedBefore(calls: seq<Call>, k: nat)
    requires k < |calls| && PutsEvent(calls, k)
    ensures forall j | 0 <= j < k :: !Records(calls[j])
  {
    forall j | 0 <= j < k ensures !Records(calls[j]) {
      assert calls[..k][j] == calls[j];
    }
  }

  lemma IsRunLength(lib: Library, make: Maker, states: seq<State>, calls: seq<Call>)
    requires IsRun(lib, make, states, calls)
    ensures |states| == |calls| + 1
  {
  }

  /** The event has the token and context fields merged so far. */
  lemma FieldsOfEvent(setup: Setup, usage: Found, started: Option<real>, call: Call)
    ensures var lib, event := setup.lib, MakerOf(setup)(usage, started, call);
      && event.inputTokens == Integer(lib, Value(usage, "input_tokens"))
      && event.outputTokens == Integer(lib, Value(usage, "output_tokens"))
      && event.totalTokens == Integer(lib, Value(usage, "total_tokens"))
      && event.contextUsed == Integer(lib, Value(usage, "context_used_tokens"))
      && event.contextSize == Integer(lib, Value(usage, "context_size_tokens"))
  {
    hide Integer, CalculatedCost, Value, Number, Currency, Text, Elapsed, PayloadFailed, Or;
  }

  lemma FieldNames()
    ensures NamesOf("input_tokens", ["input_tokens", "inputTokens", "prompt_tokens"])
    ensures NamesOf("output_tokens", ["output_tokens", "outputTokens", "completion_tokens"])
    ensures NamesOf("total_tokens", ["total_tokens", "totalTokens"])
    ensures NamesOf("context_used_tokens", ["used"]) && NamesOf("context_size_tokens", ["size"])
  {
  }

  lemma FieldKept(lib: Library, make: Maker, states: seq<State>, calls: seq<Call>, k: nat, target: string, names: seq<string>)
    requires IsRun(lib, make, states, calls) && k < |calls| && forall j | 0 <= j < k :: !Records(calls[j])
    requires NamesOf(target, names)
    ensures Value(states[k + 1].usage, target) == Reported(lib, calls, k, names)
  {
    hide NamesOf, Records, Keep, AllCandidates, Inbound;
    RunPrefix(lib, make, states, calls, k + 1);
    UsageIsMaximum(lib, make, states[..k + 2], calls[..k + 1], target, names);
    assert states[..k + 2][|calls[..k + 1]|] == states[k + 1];
  }

  lemma RunPrefix(lib: Library, make: Maker, states: seq<State>, calls: seq<Call>, n: nat)
    requires IsRun(lib, make, states, calls) && n <= |calls|
    ensures IsRun(lib, make, states[..n + 1], calls[..n])
  {
    hide Step;
  }

  lemma LedgerStep(lib: Library, make: Maker, before: State, call: Call, after: State)
    requires Step(lib, make, before, call, after)
    ensures after.ledger ==
      if !before.recorded && Writes(call) then before.ledger + [make(after.usage, after.started, call)] else before.ledger
  {
  }

  /** The event recorded at call `k` keeps its place in the ledger. */
  lemma {:induction false} RecordedHere(lib: Library, make: Maker, states: seq<State>, calls: seq<Call>, k: nat)
    requires IsRun(lib, make, states, calls) && k < |calls| && PutsEvent(calls, k)
    ensures EventsPut(calls[..k]) < |states[|calls|].ledger|
    ensures states[|calls|].ledger[EventsPut(calls[..k])] == make(states[k + 1].usage, states[k + 1].started, calls[k])
  {
    hide *;
    var n := |calls|;
    if k == n - 1 {
      RecordedNow(lib, make, states, calls);
    } else {
      SamePuts(calls);
      IsRunInit(lib, make, states, calls);
      LedgerStep(lib, make, states[n - 1], calls[n - 1], states[n]);
      assert states[..n][n - 1] == states[n - 1] && states[..n][k + 1] == states[k + 1];
      assert calls[..n - 1][k] == calls[k] && calls[..n - 1][..k] == calls[..k];
      RecordedHere(lib, make, states[..n], calls[..n - 1], k);
    }
  }

  lemma RecordedNow(lib: Library, make: Maker, states: seq<State>, calls: seq<Call>)
    requires IsRun(lib, make, states, calls) && calls != [] && PutsEvent(calls, |calls| - 1)
    ensures var k := |calls| - 1;
      && EventsPut(calls[..k]) < |states[k + 1].ledger|
      && states[k + 1].ledger[EventsPut(calls[..k])] == make(states[k + 1].usage, states[k + 1].started, calls[k])
  {
    var n := |calls|;
    assert Writes(calls[n - 1]) && !AnyReturned(calls[..n - 1]);
    hide *;
    IsRunInit(lib, make, states, calls);
    LedgerCountsWrites(lib, make, states[..n], calls[..n - 1]);
    LedgerStep(lib, make, states[n - 1], calls[n - 1], states[n]);
    assert states[..n][n - 1] == states[n - 1];
  }

  // ----- order -----

  lemma {:induction false} InAllCandidates(payloads: seq<Json>, names: seq<string>)
    ensures forall c :: c in AllCandidates(payloads, names) <==> exists p :: p in payloads && c in Candidates(p, names)
  {
    if payloads != [] {
      var init, last := payloads[..|payloads| - 1], payloads[|payloads| - 1];
      InAllCandidates(init, names);
      assert payloads == init + [last];
      forall c ensures c in AllCandidates(payloads, names) <==> exists p :: p in payloads && c in Candidates(p, names) {
        if p :| p in payloads && c in Candidates(p, names) {
          assert p in init || p == last;
        }
        if c in AllCandidates(init, names) {
          var p :| p in init && c in Candidates(p, names);
          assert p in payloads;
        }
        assert last in payloads;
      }
    }
  }

  /** The maximum depends neither on the order of the payloads nor on how often they come. */
  lemma MaximumIgnoresOrder(lib: Library, payloads: seq<Json>, others: seq<Json>, names: seq<string>)
    requires forall p :: p in payloads <==> p in others
    ensures Number(lib, Keep(lib, JNull, AllCandidates(payloads, names))) == Number(lib, Keep(lib, JNull, AllCandidates(others, names)))
  {
    hide *;
    InAllCandidates(payloads, names);
    InAllCandidates(others, names);
    KeptIsMaximum(lib, AllCandidates(payloads, names));
    KeptIsMaximum(lib, AllCandidates(others, names));
  }

  /** A largest number among the candidates. */
  ghost predicate Largest(lib: Library, c: Json, candidates: seq<Json>) {
    && c in candidates && Number(lib, c).Some?
    && forall d | d in candidates && Number(lib, d).Some? :: Number(lib, d).value <= Number(lib, c).value
  }

  /** Some order of the candidates keeps this one of the largest. */
  lemma PutLast(lib: Library, candidates: seq<Json>, c: Json) returns (others: seq<Json>)
    requires Largest(lib, c, candidates)
    ensures multiset(others) == multiset(candidates) && Keep(lib, JNull, others) == c
  {
    var i :| 0 <= i < |candidates| && candidates[i] == c;
    var rest := candidates[..i] + candidates[i + 1..];
    others := rest + [c];
    assert candidates == candidates[..i] + [c] + candidates[i + 1..];
    LargestLast(lib, rest, c);
  }

  lemma LargestLast(lib: Library, rest: seq<Json>, c: Json)
    requires Number(lib, c).Some? && forall d | d in rest && Number(lib, d).Some? :: Number(lib, d).value <= Number(lib, c).value
    ensures Keep(lib, JNull, rest + [c]) == c
  {
    KeptIsMaximum(lib, rest);
    assert (rest + [c])[..|rest|] == rest;
  }

  lemma SomeLargestKept(lib: Library, candidates: seq<Json>, others: seq<Json>)
    requires forall c :: c in others <==> c in candidates
    ensures var kept := Keep(lib, JNull, others); kept == JNull || Largest(lib, kept, candidates)
    ensures Keep(lib, JNull, others) == JNull <==> Keep(lib, JNull, candidates) == JNull
    ensures forall c :: Largest(lib, c, candidates) ==> Number(lib, c) == Number(lib, Keep(lib, JNull, others))
  {
    hide Keep, Number;
    KeptIsMaximum(lib, candidates);
    KeptIsMaximum(lib, others);
  }

  lemma SameMembers(a: seq<Json>, b: seq<Json>)
    requires multiset(a) == multiset(b)
    ensures forall c :: c in a <==> c in b
  {
    forall c ensures c in a <==> c in b {
      assert c in a <==> c in multiset(a);
      assert c in b <==> c in multiset(b);
    }
  }

  ghost predicate SameIntegerInEveryOrder(lib: Library, candidates: seq<Json>) {
    forall others | multiset(others) == multiset(candidates) ::
      Integer(lib, Keep(lib, JNull, others)) == Integer(lib, Keep(lib, JNull, candidates))
  }

  ghost predicate LargestAgree(lib: Library, candidates: seq<Json>) {
    forall a, b | Largest(lib, a, candidates) && Largest(lib, b, candidates) :: Integer(lib, a) == Integer(lib, b)
  }

  /** The recorded integer is the same in every order of the candidates if and only if all the largest of
      them are the same integer. */
  lemma IntegerIgnoresOrderExactlyWhen(lib: Library, candidates: seq<Json>)
    ensures SameIntegerInEveryOrder(lib, candidates) <==> LargestAgree(lib, candidates)
  {
    hide Largest, Keep, Integer;
    if SameIntegerInEveryOrder(lib, candidates) {
      forall a, b | Largest(lib, a, candidates) && Largest(lib, b, candidates) ensures Integer(lib, a) == Integer(lib, b) {
        var first := PutLast(lib, candidates, a);
        var second := PutLast(lib, candidates, b);
        assert Integer(lib, Keep(lib, JNull, first)) == Integer(lib, Keep(lib, JNull, second));
      }
    }
    if LargestAgree(lib, candidates) {
      forall others | multiset(others) == multiset(candidates)
        ensures Integer(lib, Keep(lib, JNull, others)) == Integer(lib, Keep(lib, JNull, candidates))
      {
        SameMembers(others, candidates);
        SomeLargestKept(lib, candidates, others);
        SomeLargestKept(lib, candidates, candidates);
      }
    }
  }

  /** What each payload by itself contributes: the last of its largest values, or nothing. */
  function KeptOfEach(lib: Library, payloads: seq<Json>, names: seq<string>): (kept: seq<Json>)
    ensures |kept| == |payloads|
    ensures forall i | 0 <= i < |payloads| :: kept[i] == Keep(lib, JNull, Candidates(payloads[i], names))
  {
    seq(|payloads|, i requires 0 <= i < |payloads| => Keep(lib, JNull, Candidates(payloads[i], names)))
  }

  lemma {:induction false} KeptPayloadByPayload(lib: Library, payloads: seq<Json>, names: seq<string>)
    ensures Keep(lib, JNull, AllCandidates(payloads, names)) == Keep(lib, JNull, KeptOfEach(lib, payloads, names))
  {
    if payloads != [] {
      var init, last := payloads[..|payloads| - 1], payloads[|payloads| - 1];
      hide Candidates, Number;
      KeptPayloadByPayload(lib, init, names);
      var each := KeptOfEach(lib, payloads, names);
      assert each[..|each| - 1] == KeptOfEach(lib, init, names);
      KeepConcat(lib, JNull, AllCandidates(init, names), Candidates(last, names));
      KeepInParts(lib, Keep(lib, JNull, AllCandidates(init, names)), Candidates(last, names));
      NothingIsNoBetter(lib, Keep(lib, JNull, AllCandidates(init, names)));
    }
  }

  lemma NothingIsNoBetter(lib: Library, current: Json)
    ensures Better(lib, current, JNull) == current
  {
  }

  ghost predicate SameIntegerInEveryPayloadOrder(lib: Library, payloads: seq<Json>, names: seq<string>) {
    forall others | multiset(others) == multiset(payloads) ::
      Integer(lib, Keep(lib, JNull, AllCandidates(others, names))) == Integer(lib, Keep(lib, JNull, AllCandidates(payloads, names)))
  }

  lemma KeptOfSame(lib: Library, payloads: seq<Json>, others: seq<Json>, names: seq<string>)
    requires forall p :: p in others <==> p in payloads
    ensures forall c :: c in KeptOfEach(lib, others, names) <==> c in KeptOfEach(lib, payloads, names)
  {
    hide Keep, Candidates;
    KeptAmong(lib, payloads, others, names);
    KeptAmong(lib, others, payloads, names);
  }

  lemma KeptAmong(lib: Library, payloads: seq<Json>, others: seq<Json>, names: seq<string>)
    requires forall p | p in others :: p in payloads
    ensures forall c | c in KeptOfEach(lib, others, names) :: c in KeptOfEach(lib, payloads, names)
  {
    hide Keep, Candidates;
    var each, all := KeptOfEach(lib, others, names), KeptOfEach(lib, payloads, names);
    forall c | c in each ensures c in all {
      var i :| 0 <= i < |each| && each[i] == c;
      assert others[i] in payloads;
      var j :| 0 <= j < |payloads| && payloads[j] == others[i];
      assert all[j] == c;
    }
  }

  /** Some order of the payloads keeps this one of the largest values they contribute. */
  lemma PutPayloadLast(lib: Library, payloads: seq<Json>, names: seq<string>, c: Json) returns (others: seq<Json>)
    requires Largest(lib, c, KeptOfEach(lib, payloads, names))
    ensures multiset(others) == multiset(payloads) && Keep(lib, JNull, AllCandidates(others, names)) == c
  {
    hide Keep, Candidates, AllCandidates, Number;
    var all := KeptOfEach(lib, payloads, names);
    var i :| 0 <= i < |all| && all[i] == c;
    var rest := payloads[..i] + payloads[i + 1..];
    others := rest + [payloads[i]];
    assert payloads == payloads[..i] + [payloads[i]] + payloads[i + 1..];
    KeptPayloadByPayload(lib, others, names);
    var kept := KeptOfEach(lib, rest, names);
    assert KeptOfEach(lib, others, names) == kept + [c];
    KeptAmong(lib, payloads, rest, names);
    LargestLast(lib, kept, c);
  }

  /** The integer recorded of several payloads is the same in every order of the payloads if and only if all
      the largest of the values that they contribute are the same integer. */
  lemma PayloadOrderIgnoredExactlyWhen(lib: Library, payloads: seq<Json>, names: seq<string>)
    ensures SameIntegerInEveryPayloadOrder(lib, payloads, names) <==> LargestAgree(lib, KeptOfEach(lib, payloads, names))
  {
    hide Largest, Keep, Integer, Candidates, AllCandidates, KeptOfEach;
    var all := KeptOfEach(lib, payloads, names);
    if SameIntegerInEveryPayloadOrder(lib, payloads, names) {
      forall a, b | Largest(lib, a, all) && Largest(lib, b, all) ensures Integer(lib, a) == Integer(lib, b) {
        var first := PutPayloadLast(lib, payloads, names, a);
        var second := PutPayloadLast(lib, payloads, names, b);
        assert Integer(lib, Keep(lib, JNull, AllCandidates(first, names))) == Integer(lib, Keep(lib, JNull, AllCandidates(second, names)));
      }
    }
    if LargestAgree(lib, all) {
      forall others | multiset(others) == multiset(payloads)
        ensures Integer(lib, Keep(lib, JNull, AllCandidates(others, names))) == Integer(lib, Keep(lib, JNull, AllCandidates(payloads, names)))
      {
        SameMembers(others, payloads);
        KeptOfSame(lib, payloads, others, names);
        SomeLargestKept(lib, all, KeptOfEach(lib, others, names));
        SomeLargestKept(lib, all, all);
        KeptPayloadByPayload(lib, others, names);
        KeptPayloadByPayload(lib, payloads, names);
      }
    }
  }

  /** The value is recorded as the whole part of its number, and as nothing if it is none. */
  predicate WholePart(lib: Library, value: Json) {
    Integer(lib, value) == if Number(lib, value).None? then None else Some(Number(lib, value).value.Floor)
  }

  lemma WholePartOf(lib: Library, c: Json)
    ensures Number(lib, c).Some? ==>
      (WholePart(lib, c) <==> (c.JStr? ==> lib.parseInt(c.text) == Some(Number(lib, c).value.Floor)))
    ensures WholePart(lib, JNull)
  {
  }

  ghost predicate WholePartInEveryOrder(lib: Library, candidates: seq<Json>) {
    forall others | multiset(others) == multiset(candidates) :: WholePart(lib, Keep(lib, JNull, others))
  }

  ghost predicate LargestTextsRead(lib: Library, candidates: seq<Json>) {
    forall c | Largest(lib, c, candidates) && c.JStr? :: lib.parseInt(c.text) == Some(Number(lib, c).value.Floor)
  }

  /** In every order the recorded integer is the whole part of the maximum, if and only if each text
      among the largest candidates reads as that integer. */
  lemma WholePartInEveryOrderExactlyWhen(lib: Library, candidates: seq<Json>)
    ensures WholePartInEveryOrder(lib, candidates) <==> LargestTextsRead(lib, candidates)
  {
    hide WholePart, Keep, Number;
    if WholePartInEveryOrder(lib, candidates) {
      forall c | Largest(lib, c, candidates) && c.JStr? ensures lib.parseInt(c.text) == Some(Number(lib, c).value.Floor) {
        var others := PutLast(lib, candidates, c);
        assert WholePart(lib, Keep(lib, JNull, others));
        WholePartOf(lib, c);
      }
    }
    if LargestTextsRead(lib, candidates) {
      forall others | multiset(others) == multiset(candidates) ensures WholePart(lib, Keep(lib, JNull, others)) {
        SameMembers(others, candidates);
        SomeLargestKept(lib, candidates, others);
        WholePartOf(lib, Keep(lib, JNull, others));
      }
    }
  }

  lemma OneCandidate(value: Json)
    requires value.JInt? || value.JStr?
    ensures Candidates(JObj([Entry("used", value)]), ["used"]) == [value]
  {
    var entries := [Entry("used", value)];
    assert entries[1..] == [] && ["used"][1..] == [];
    assert Own(JObj(entries), ["used"]) == [value];
    assert CandidatesIn(entries, ["used"]) == [];
  }

  /** A count reported as 12 and again as the text "12.0" is recorded if the number comes last, and not
      at all if the text does. */
  lemma TextTieIsNotRecorded(lib: Library)
    requires lib.parseFloat("12.0") == Some(12.0) && lib.parseInt("12.0").None?
    ensures var number, text := JObj([Entry("used", JInt(12))]), JObj([Entry("used", JStr("12.0"))]);
      && Integer(lib, Keep(lib, JNull, AllCandidates([number, text], ["used"]))) == None
      && Integer(lib, Keep(lib, JNull, AllCandidates([text, number], ["used"]))) == Some(12)
  {
    TwoCandidates(lib, JInt(12), JStr("12.0"));
    TwoCandidates(lib, JStr("12.0"), JInt(12));
    TieOfTwelve(lib);
    hide *;
  }

  lemma TieOfTwelve(lib: Library)
    requires lib.parseFloat("12.0") == Some(12.0) && lib.parseInt("12.0").None?
    ensures Integer(lib, Better(lib, Better(lib, JNull, JInt(12)), JStr("12.0"))) == None
    ensures Integer(lib, Better(lib, Better(lib, JNull, JStr("12.0")), JInt(12))) == Some(12)
  {
  }

  lemma TwoCandidates(lib: Library, a: Json, b: Json)
    requires (a.JInt? || a.JStr?) && (b.JInt? || b.JStr?)
    ensures Keep(lib, JNull, AllCandidates([JObj([Entry("used", a)]), JObj([Entry("used", b)])], ["used"]))
         == Better(lib, Better(lib, JNull, a), b)
  {
    var p, q := JObj([Entry("used", a)]), JObj([Entry("used", b)]);
    OneCandidate(a);
    OneCandidate(b);
    hide Candidates;
    assert [p, q][..1] == [p] && [p][..0] == [];
    assert AllCandidates([p], ["used"]) == [a];
    assert AllCandidates([p, q], ["used"]) == [a] + [b];
    KeepConcat(lib, JNull, [a], [b]);
    KeepOne(lib, JNull, a);
    KeepOne(lib, Better(lib, JNull, a), b);
  }

  // ----- what extraction means -----

  /** Nothing found is None, an amount is a number, and there is no currency without an amount. */
  predicate Sound(lib: Library, found: Found) {
    && (forall key | key in found :: found[key] != JNull)
    && ("cost_amount" in found ==> Number(lib, found["cost_amount"]).Some?)
    && ("cost_currency" in found ==> "cost_amount" in found)
  }

  lemma {:induction false} NamesSound(lib: Library, found: Found, value: Json, target: string, names: seq<string>)
    requires Sound(lib, found) && target != "cost_currency"
    ensures Sound(lib, AfterNames(lib, found, value, target, names))
    decreases |names|
  {
    if names != [] {
      var candidate := Get(value, names[0]);
      NamesSound(lib, if candidate == JNull then found else Considered(lib, found, target, candidate), value, target, names[1..]);
    }
  }

  lemma {:induction false} AliasesSound(lib: Library, found: Found, value: Json, aliases: seq<Alias>)
    requires Sound(lib, found) && forall i | 0 <= i < |aliases| :: aliases[i].target != "cost_currency"
    ensures Sound(lib, AfterAliases(lib, found, value, aliases))
    decreases |aliases|
  {
    if aliases != [] {
      NamesSound(lib, found, value, aliases[0].target, aliases[0].names);
      AliasesSound(lib, AfterNames(lib, found, value, aliases[0].target, aliases[0].names), value, aliases[1..]);
    }
  }

  lemma {:induction false} VisitSound(lib: Library, found: Found, value: Json)
    requires Sound(lib, found)
    ensures Sound(lib, Visited(lib, found, value))
    decreases value, 1
  {
    hide Sound, AfterCost, AfterAliases;
    match value
    case JArr(items) => ItemsSound(lib, found, items);
    case JObj(entries) =>
      ObjectSound(lib, found, value);
      EntriesSound(lib, AfterCost(lib, AfterAliases(lib, found, value, Aliases), value), entries);
    case _ =>
  }

  lemma ObjectSound(lib: Library, found: Found, value: Json)
    requires Sound(lib, found)
    ensures Sound(lib, AfterCost(lib, AfterAliases(lib, found, value, Aliases), value))
  {
    hide *;
    NoCurrencyAlias();
    AliasesSound(lib, found, value, Aliases);
    CostSound(lib, AfterAliases(lib, found, value, Aliases), value);
  }

  lemma NoCurrencyAlias()
    ensures forall i | 0 <= i < |Aliases| :: Aliases[i].target != "cost_currency"
  {
    assert |Aliases| == 10;
  }

  lemma CostSound(lib: Library, found: Found, value: Json)
    requires Sound(lib, found)
    ensures Sound(lib, AfterCost(lib, found, value))
  {
    hide Number, Currency, Get;
    assert Number(lib, JNull).None? by {
      NoNumber(lib);
    }
  }

  lemma NoNumber(lib: Library)
    ensures Number(lib, JNull).None?
  {
  }

  lemma {:induction false} ItemsSound(lib: Library, found: Found, items: seq<Json>)
    requires Sound(lib, found)
    ensures Sound(lib, VisitedItems(lib, found, items))
    decreases items, 0
  {
    if items != [] {
      VisitSound(lib, found, items[0]);
      ItemsSound(lib, Visited(lib, found, items[0]), items[1..]);
    }
  }

  lemma {:induction false} EntriesSound(lib: Library, found: Found, entries: seq<Entry>)
    requires Sound(lib, found)
    ensures Sound(lib, VisitedEntries(lib, found, entries))
    decreases entries, 0
  {
    if entries != [] {
      VisitSound(lib, found, entries[0].value);
      EntriesSound(lib, Visited(lib, found, entries[0].value), entries[1..]);
    }
  }

  lemma ExtractedKeeps(lib: Library, payload: Json, target: string, names: seq<string>)
    requires NamesOf(target, names)
    ensures Value(Extracted(lib, payload), target) == Value(Visited(lib, map[], payload), target) && Value(map[], target) == JNull
  {
    hide *;
    NamesAreAliases(target, names);
    ExtractedLeaves(lib, payload, target);
  }

  lemma OneEntry(key: string, value: Json, other: string)
    ensures Get(JObj([Entry(key, value)]), other) == if other == key then value else JNull
  {
    assert [Entry(key, value)][1..] == [];
  }

  /** What one payload reports: for each token, context and duration field the last of the largest numbers
      under any of its names at any depth; an amount, which is a number, exactly if there is a currency;
      and nothing that is None. */
  lemma ExtractedMeaning(lib: Library, payload: Json)
    ensures var found := Extracted(lib, payload);
      && (forall target, names | NamesOf(target, names) :: Value(found, target) == Keep(lib, JNull, Candidates(payload, names)))
      && Sound(lib, found) && ("cost_amount" in found <==> "cost_currency" in found)
  {
    hide Visited, Candidates, Keep;
    VisitSound(lib, map[], payload);
    forall target, names | NamesOf(target, names)
      ensures Value(Extracted(lib, payload), target) == Keep(lib, JNull, Candidates(payload, names))
    {
      VisitKeeps(lib, map[], payload, target, names);
      ExtractedKeeps(lib, payload, target, names);
    }
  }
}
