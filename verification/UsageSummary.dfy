// The summary of the usage ledger: src/llm_harness/metrics.py:149-198, in exact arithmetic.
// Groups of events with their sums, as rows sorted by role, agent, model and driver. Costs are kept by
// currency and rounded to eight places at every addition.

module UsageSummary {
  import opened Prelude
  import opened Rounding
  import opened UsageEvents
  import opened TextOrder

  datatype Key = Key(role: string, agent: string, provider: string, model: string, driver: string)

  function KeyOf(e: UsageEvent): Key {
    Key(e.role, e.agent, e.provider, e.model, e.driver)
  }

  // ----- what one event counts for -----

  predicate Invocation(e: UsageEvent) { e.kind == "invocation" }

  function One(e: UsageEvent): nat { if Invocation(e) then 1 else 0 }
  function Success(e: UsageEvent): nat { if Invocation(e) && e.outcome == "success" then 1 else 0 }
  function Duration(e: UsageEvent): nat { if Invocation(e) then OrZero(e.durationMs) else 0 }
  function Input(e: UsageEvent): nat { if Invocation(e) then OrZero(e.inputTokens) else 0 }
  function Output(e: UsageEvent): nat { if Invocation(e) then OrZero(e.outputTokens) else 0 }

  /** The reported total, or the sum of the parts if none, or zero, is reported. */
  function Total(e: UsageEvent): nat {
    if !Invocation(e) then 0
    else if OrZero(e.totalTokens) != 0 then OrZero(e.totalTokens)
    else OrZero(e.inputTokens) + OrZero(e.outputTokens)
  }

  function Unknown(e: UsageEvent): nat {
    if Invocation(e) && e.totalTokens.None? && e.inputTokens.None? && e.outputTokens.None? then 1 else 0
  }

  function Sample(e: UsageEvent): nat { if e.qualityScore.Some? then 1 else 0 }

  /** The fields of a group that are counted in whole numbers. */
  datatype Field = Invocations | Successes | DurationMs | InputTokens | OutputTokens | TotalTokens | UnknownTokens | Samples

  function Measure(field: Field, e: UsageEvent): nat {
    match field
    case Invocations => One(e)
    case Successes => Success(e)
    case DurationMs => Duration(e)
    case InputTokens => Input(e)
    case OutputTokens => Output(e)
    case TotalTokens => Total(e)
    case UnknownTokens => Unknown(e)
    case Samples => Sample(e)
  }

  function Quality(e: UsageEvent): real { if e.qualityScore.Some? then e.qualityScore.value else 0.0 }

  /** The event costs something in this currency. */
  predicate Costs(e: UsageEvent, currency: string) {
    Invocation(e) && e.costAmount.Some? && e.costCurrency == Some(currency) && currency != ""
  }

  // ----- sums -----

  function Sum(field: Field, events: seq<UsageEvent>): nat {
    if events == [] then 0 else Sum(field, events[..|events| - 1]) + Measure(field, events[|events| - 1])
  }

  /** The sum over the events of one group. */
  function SumIn(field: Field, key: Key, events: seq<UsageEvent>): nat {
    if events == [] then 0
    else
      var last := events[|events| - 1];
      SumIn(field, key, events[..|events| - 1]) + if KeyOf(last) == key then Measure(field, last) else 0
  }

  function QualityIn(key: Key, events: seq<UsageEvent>): real {
    if events == [] then 0.0
    else
      var last := events[|events| - 1];
      QualityIn(key, events[..|events| - 1]) + if KeyOf(last) == key then Quality(last) else 0.0
  }

  /** The cost of a group in a currency as it is kept, rounded at every addition; None if there is none. */
  function CostIn(key: Key, currency: string, events: seq<UsageEvent>): Option<real> {
    if events == [] then None
    else
      var before, last := CostIn(key, currency, events[..|events| - 1]), events[|events| - 1];
      if KeyOf(last) == key && Costs(last, currency) then
        Some(Round8(OrNothing(before) + last.costAmount.value))
      else before
  }

  // ----- groups -----

  datatype Group = Group(
    invocations: nat, successes: nat, durationMs: nat, input: nat, output: nat, total: nat, unknown: nat,
    costs: map<string, real>, samples: nat, quality: real)

  function Kept(field: Field, group: Group): nat {
    match field
    case Invocations => group.invocations
    case Successes => group.successes
    case DurationMs => group.durationMs
    case InputTokens => group.input
    case OutputTokens => group.output
    case TotalTokens => group.total
    case UnknownTokens => group.unknown
    case Samples => group.samples
  }

  function CostOf(costs: map<string, real>, currency: string): Option<real> {
    if currency in costs then Some(costs[currency]) else None
  }

  /** The group has the sums of its events. */
  ghost predicate Describes(group: Group, key: Key, events: seq<UsageEvent>) {
    && (forall field :: Kept(field, group) == SumIn(field, key, events))
    && group.quality == QualityIn(key, events)
    && forall currency :: CostOf(group.costs, currency) == CostIn(key, currency, events)
  }

  datatype Row = Row(key: Key, group: Group, qualityScore: Option<real>)

  /** One row for each key that occurs. */
  ghost predicate IsSummary(rows: seq<Row>, events: seq<UsageEvent>) {
    && (forall i, j | 0 <= i < j < |rows| :: rows[i].key != rows[j].key)
    && (forall e | e in events :: HasRow(rows, KeyOf(e)))
    && (forall i | 0 <= i < |rows| :: Occurs(events, rows[i].key))
    && (forall i | 0 <= i < |rows| :: Describes(rows[i].group, rows[i].key, events))
    && (forall i | 0 <= i < |rows| :: rows[i].qualityScore == Score(rows[i].group))
  }

  ghost predicate Occurs(events: seq<UsageEvent>, key: Key) {
    exists e :: e in events && KeyOf(e) == key
  }

  predicate HasRow(rows: seq<Row>, key: Key) {
    exists i :: 0 <= i < |rows| && rows[i].key == key
  }

  function Score(group: Group): Option<real> {
    if group.samples == 0 then None else Some(Round4(group.quality / group.samples as real))
  }

  /** The group with the share of one more event. */
  ghost predicate Added(group: Group, e: UsageEvent, more: Group) {
    && (forall field :: Kept(field, more) == Kept(field, group) + Measure(field, e))
    && more.quality == group.quality + Quality(e)
    && CostAdded(group.costs, e, more.costs)
  }

  ghost predicate CostAdded(costs: map<string, real>, e: UsageEvent, more: map<string, real>) {
    forall currency ::
      CostOf(more, currency) ==
        if Costs(e, currency) then Some(Round8(OrNothing(CostOf(costs, currency)) + e.costAmount.value))
        else CostOf(costs, currency)
  }

  function OrNothing(cost: Option<real>): real {
    if cost.Some? then cost.value else 0.0
  }

  /** What the loop does with the costs of a group. */
  method AddCost(costs: map<string, real>, e: UsageEvent) returns (more: map<string, real>)
    requires Invocation(e)
    ensures CostAdded(costs, e, more)
  {
    more := costs;
    if e.costAmount.Some? && e.costCurrency.Some? && e.costCurrency.value != "" {
      var currency := e.costCurrency.value;
      var sofar := if currency in costs then costs[currency] else 0.0;
      more := costs[currency := Round8(sofar + e.costAmount.value)];
    }
  }

  /** What the loop does with the group of an event. */
  method AddEvent(group: Group, e: UsageEvent) returns (more: Group)
    ensures Added(group, e, more)
  {
    hide CostAdded, Measure, Kept;
    more := group;
    if e.kind == "invocation" {
      var tokens := OrZero(e.inputTokens) + OrZero(e.outputTokens);
      if OrZero(e.totalTokens) != 0 {
        tokens := OrZero(e.totalTokens);
      }
      more := more.(
        invocations := more.invocations + 1,
        successes := more.successes + (if e.outcome == "success" then 1 else 0),
        durationMs := more.durationMs + OrZero(e.durationMs),
        unknown := more.unknown + (if e.totalTokens.None? && e.inputTokens.None? && e.outputTokens.None? then 1 else 0),
        input := more.input + OrZero(e.inputTokens),
        output := more.output + OrZero(e.outputTokens),
        total := more.total + tokens);
      var costs := AddCost(group.costs, e);
      more := more.(costs := costs);
    } else {
      NoCosts(group.costs, e);
    }
    if e.qualityScore.Some? {
      more := more.(samples := more.samples + 1, quality := more.quality + e.qualityScore.value);
    }
    FieldsAdded(group, e, more);
  }

  lemma FieldsAdded(group: Group, e: UsageEvent, more: Group)
    requires more.invocations == group.invocations + One(e) && more.successes == group.successes + Success(e)
    requires more.durationMs == group.durationMs + Duration(e) && more.input == group.input + Input(e)
    requires more.output == group.output + Output(e) && more.total == group.total + Total(e)
    requires more.unknown == group.unknown + Unknown(e) && more.samples == group.samples + Sample(e)
    ensures forall field :: Kept(field, more) == Kept(field, group) + Measure(field, e)
  {
    hide One, Success, Duration, Input, Output, Total, Unknown, Sample;
  }

  lemma NoCosts(costs: map<string, real>, e: UsageEvent)
    requires !Invocation(e)
    ensures CostAdded(costs, e, costs)
  {
  }

  lemma AddedDescribes(group: Group, key: Key, events: seq<UsageEvent>, e: UsageEvent, more: Group)
    requires Describes(group, key, events) && key == KeyOf(e) && Added(group, e, more)
    ensures Describes(more, key, events + [e])
  {
    hide Measure, Kept, Quality, SumIn, QualityIn, CostIn, CostOf, Costs;
    SumsNext(key, events, e);
  }

  /** One more event of the group. */
  lemma SumsNext(key: Key, events: seq<UsageEvent>, e: UsageEvent)
    requires key == KeyOf(e)
    ensures forall field :: SumIn(field, key, events + [e]) == SumIn(field, key, events) + Measure(field, e)
    ensures QualityIn(key, events + [e]) == QualityIn(key, events) + Quality(e)
    ensures forall currency ::
      CostIn(key, currency, events + [e]) ==
        if Costs(e, currency) then Some(Round8(OrNothing(CostIn(key, currency, events)) + e.costAmount.value))
        else CostIn(key, currency, events)
  {
    assert (events + [e])[..|events|] == events;
    hide Measure, Quality, Round8;
  }

  lemma OtherGroup(group: Group, key: Key, events: seq<UsageEvent>, e: UsageEvent)
    requires Describes(group, key, events) && KeyOf(e) != key
    ensures Describes(group, key, events + [e])
  {
    assert (events + [e])[..|events|] == events;
  }

  lemma {:induction false} NewGroup(key: Key, events: seq<UsageEvent>)
    requires forall e | e in events :: KeyOf(e) != key
    ensures Describes(Group(0, 0, 0, 0, 0, 0, 0, map[], 0, 0.0), key, events)
  {
    if events != [] {
      NewGroup(key, events[..|events| - 1]);
      OtherGroup(Group(0, 0, 0, 0, 0, 0, 0, map[], 0, 0.0), key, events[..|events| - 1], events[|events| - 1]);
      assert events == events[..|events| - 1] + [events[|events| - 1]];
    }
  }

  /** The groups in order of first appearance, each with the sums of the events so far. */
  ghost predicate Grouped(order: seq<Key>, groups: map<Key, Group>, events: seq<UsageEvent>) {
    && (forall i, j | 0 <= i < j < |order| :: order[i] != order[j])
    && (forall key :: key in order <==> key in groups)
    && (forall key | key in groups :: Occurs(events, key))
    && (forall e | e in events :: KeyOf(e) in groups)
    && (forall key | key in groups :: Describes(groups[key], key, events))
  }

  lemma GroupedNext(order: seq<Key>, groups: map<Key, Group>, events: seq<UsageEvent>, e: UsageEvent, group: Group)
    requires Grouped(order, groups, events) && Describes(group, KeyOf(e), events + [e])
    ensures Grouped(if KeyOf(e) in groups then order else order + [KeyOf(e)], groups[KeyOf(e) := group], events + [e])
  {
    var more := groups[KeyOf(e) := group];
    assert e in events + [e];
    forall key | key in more
      ensures Describes(more[key], key, events + [e])
      ensures Occurs(events + [e], key)
    {
      if key != KeyOf(e) {
        OtherGroup(groups[key], key, events, e);
        var f :| f in events && KeyOf(f) == key;
        assert f in events + [e];
      }
    }
    hide Describes;
  }

  lemma NothingGrouped()
    ensures Grouped([], map[], [])
  {
  }

  lemma GroupOfKey(order: seq<Key>, groups: map<Key, Group>, events: seq<UsageEvent>, key: Key)
    requires Grouped(order, groups, events)
    ensures Describes(if key in groups then groups[key] else Group(0, 0, 0, 0, 0, 0, 0, map[], 0, 0.0), key, events)
    ensures forall k :: k in order <==> k in groups
  {
    hide Describes;
    if key !in groups {
      NewGroup(key, events);
    }
  }

  /** The first event of key `a` comes before any of key `b`. */
  ghost predicate Earlier(events: seq<UsageEvent>, a: Key, b: Key) {
    exists i :: 0 <= i < |events| && KeyOf(events[i]) == a && forall j | 0 <= j <= i :: KeyOf(events[j]) != b
  }

  /** The keys are in order of first appearance. */
  ghost predicate Appearing(order: seq<Key>, events: seq<UsageEvent>) {
    forall i, j | 0 <= i < j < |order| :: Earlier(events, order[i], order[j])
  }

  lemma NothingAppears()
    ensures Appearing([], [])
  {
  }

  lemma StillEarlier(events: seq<UsageEvent>, e: UsageEvent, a: Key, b: Key)
    requires Earlier(events, a, b)
    ensures Earlier(events + [e], a, b)
  {
    var i :| 0 <= i < |events| && KeyOf(events[i]) == a && forall j | 0 <= j <= i :: KeyOf(events[j]) != b;
    assert KeyOf((events + [e])[i]) == a;
  }

  lemma NewIsLast(events: seq<UsageEvent>, e: UsageEvent, a: Key)
    requires Occurs(events, a) && !Occurs(events, KeyOf(e))
    ensures Earlier(events + [e], a, KeyOf(e))
  {
    var f :| f in events && KeyOf(f) == a;
    var i :| 0 <= i < |events| && events[i] == f;
    assert KeyOf((events + [e])[i]) == a;
  }

  lemma AppearingNext(order: seq<Key>, groups: map<Key, Group>, events: seq<UsageEvent>, e: UsageEvent)
    requires Grouped(order, groups, events) && Appearing(order, events)
    ensures Appearing(if KeyOf(e) in groups then order else order + [KeyOf(e)], events + [e])
  {
    hide Describes, KeyOf, Earlier;
    var more := if KeyOf(e) in groups then order else order + [KeyOf(e)];
    forall i, j | 0 <= i < j < |more| ensures Earlier(events + [e], more[i], more[j]) {
      if j < |order| {
        StillEarlier(events, e, order[i], order[j]);
      } else {
        assert order[i] in groups;
        NewIsLast(events, e, order[i]);
      }
    }
  }

  // ----- the order of the rows -----

  /** What the rows are sorted by: not by the provider. */
  function SortKey(row: Row): seq<string> {
    [row.key.role, row.key.agent, row.key.model, row.key.driver]
  }

  predicate InOrder(rows: seq<Row>) {
    forall i, j | 0 <= i < j < |rows| :: ListAtMost(SortKey(rows[i]), SortKey(rows[j]))
  }

  predicate DistinctRows(rows: seq<Row>) {
    forall i, j | 0 <= i < j < |rows| :: rows[i].key != rows[j].key
  }

  /** The rows with one sort key, in order. */
  function Only(rows: seq<Row>, key: seq<string>): seq<Row> {
    if rows == [] then []
    else Only(rows[..|rows| - 1], key) + if SortKey(rows[|rows| - 1]) == key then [rows[|rows| - 1]] else []
  }

  lemma {:induction false} OnlyConcat(a: seq<Row>, b: seq<Row>, key: seq<string>)
    ensures Only(a + b, key) == Only(a, key) + Only(b, key)
  {
    hide SortKey;
    if b == [] {
      assert a + b == a;
    } else {
      assert (a + b)[..|a + b| - 1] == a + b[..|b| - 1];
      OnlyConcat(a, b[..|b| - 1], key);
    }
  }

  lemma {:induction false} OnlyNone(rows: seq<Row>, key: seq<string>)
    requires forall row | row in rows :: SortKey(row) != key
    ensures Only(rows, key) == []
  {
    if rows != [] {
      OnlyNone(rows[..|rows| - 1], key);
    }
  }

  /** A row put behind the rows that are at most it, among rows in order. */
  lemma Inserted(rows: seq<Row>, row: Row, at: nat)
    requires InOrder(rows) && at <= |rows| && (at > 0 ==> ListAtMost(SortKey(rows[at - 1]), SortKey(row)))
    requires forall i | at <= i < |rows| :: !ListAtMost(SortKey(rows[i]), SortKey(row))
    ensures var more := rows[..at] + [row] + rows[at..];
      && InOrder(more) && (forall r :: r in more <==> r in rows || r == row)
      && (forall key :: Only(more, key) == Only(rows + [row], key))
      && (DistinctRows(rows) && (forall r | r in rows :: r.key != row.key) ==> DistinctRows(more))
  {
    OrderInserted(rows, row, at);
    DistinctInserted(rows, row, at);
    MembersInserted(rows, row, at);
    hide *;
    forall key ensures Only(rows[..at] + [row] + rows[at..], key) == Only(rows + [row], key) {
      OnlyInserted(rows, row, at, key);
    }
  }

  lemma MembersInserted(rows: seq<Row>, row: Row, at: nat)
    requires at <= |rows|
    ensures forall r :: r in rows[..at] + [row] + rows[at..] <==> r in rows || r == row
  {
    assert rows == rows[..at] + rows[at..];
  }

  lemma OrderInserted(rows: seq<Row>, row: Row, at: nat)
    requires InOrder(rows) && at <= |rows| && (at > 0 ==> ListAtMost(SortKey(rows[at - 1]), SortKey(row)))
    requires forall i | at <= i < |rows| :: !ListAtMost(SortKey(rows[i]), SortKey(row))
    ensures InOrder(rows[..at] + [row] + rows[at..])
  {
    hide SortKey, ListAtMost;
    var more := rows[..at] + [row] + rows[at..];
    forall i | 0 <= i < |rows|
      ensures if i < at then ListAtMost(SortKey(rows[i]), SortKey(row)) else ListAtMost(SortKey(row), SortKey(rows[i]))
    {
      if i < at - 1 {
        ListsChain(SortKey(rows[i]), SortKey(rows[at - 1]), SortKey(row));
      }
      ListsCompare(SortKey(rows[i]), SortKey(row));
    }
    forall i, j | 0 <= i < j < |more| ensures ListAtMost(SortKey(more[i]), SortKey(more[j])) {
      assert more[i] == if i < at then rows[i] else if i == at then row else rows[i - 1];
      assert more[j] == if j < at then rows[j] else if j == at then row else rows[j - 1];
    }
  }

  lemma DistinctInserted(rows: seq<Row>, row: Row, at: nat)
    requires at <= |rows|
    ensures DistinctRows(rows) && (forall r | r in rows :: r.key != row.key) ==> DistinctRows(rows[..at] + [row] + rows[at..])
  {
    var more := rows[..at] + [row] + rows[at..];
    if DistinctRows(rows) && forall r | r in rows :: r.key != row.key {
      forall i, j | 0 <= i < j < |more| ensures more[i].key != more[j].key {
        assert more[i] == if i < at then rows[i] else if i == at then row else rows[i - 1];
        assert more[j] == if j < at then rows[j] else if j == at then row else rows[j - 1];
      }
    }
  }

  lemma OnlyInserted(rows: seq<Row>, row: Row, at: nat, key: seq<string>)
    requires at <= |rows| && forall i | at <= i < |rows| :: !ListAtMost(SortKey(rows[i]), SortKey(row))
    ensures Only(rows[..at] + [row] + rows[at..], key) == Only(rows + [row], key)
  {
    hide Only, SortKey, ListAtMost;
    var a, b := rows[..at], rows[at..];
    assert rows == a + b;
    OnlyConcat(a + [row], b, key);
    OnlyConcat(a, [row], key);
    OnlyConcat(a, b, key);
    OnlyConcat(rows, [row], key);
    if SortKey(row) == key {
      ListsCompare(key, key);
      OnlyNone(b, key);
    } else {
      OnlyNone([row], key);
    }
  }

  /** `rows.sort(key=...)`: a stable sort; rows with the same sort key keep their order. */
  method SortRows(rows: seq<Row>) returns (sorted: seq<Row>)
    requires DistinctRows(rows)
    ensures InOrder(sorted) && DistinctRows(sorted) && forall row :: row in sorted <==> row in rows
    ensures forall key :: Only(sorted, key) == Only(rows, key)
  {
    hide SortKey, ListAtMost, Only, InOrder, DistinctRows;
    sorted := [];
    NoRows();
    assert rows[..0] == [] && rows[..|rows|] == rows;
    for k := 0 to |rows|
      invariant InOrder(sorted) && DistinctRows(sorted) && forall row :: row in sorted <==> row in rows[..k]
      invariant forall key :: Only(sorted, key) == Only(rows[..k], key)
    {
      var at: nat := |sorted|;
      while at > 0 && !ListAtMost(SortKey(sorted[at - 1]), SortKey(rows[k]))
        invariant at <= |sorted| && forall i | at <= i < |sorted| :: !ListAtMost(SortKey(sorted[i]), SortKey(rows[k]))
      {
        at := at - 1;
      }
      NextIsNew(rows, k);
      Inserted(sorted, rows[k], at);
      assert rows[..k + 1] == rows[..k] + [rows[k]];
      forall key ensures Only(sorted + [rows[k]], key) == Only(rows[..k + 1], key) {
        OnlyConcat(sorted, [rows[k]], key);
        OnlyConcat(rows[..k], [rows[k]], key);
      }
      sorted := sorted[..at] + [rows[k]] + sorted[at..];
    }
  }

  lemma NoRows()
    ensures InOrder([]) && DistinctRows([])
  {
  }

  lemma NextIsNew(rows: seq<Row>, k: nat)
    requires k < |rows| && DistinctRows(rows)
    ensures forall r | r in rows[..k] :: r.key != rows[k].key
  {
  }

  lemma SortedIsSummary(rows: seq<Row>, sorted: seq<Row>, events: seq<UsageEvent>)
    requires IsSummary(rows, events) && DistinctRows(sorted) && forall row :: row in sorted <==> row in rows
    ensures IsSummary(sorted, events)
  {
    hide Describes, Occurs, Score;
    forall e | e in events ensures HasRow(sorted, KeyOf(e)) {
      var i :| 0 <= i < |rows| && rows[i].key == KeyOf(e);
      assert rows[i] in sorted;
      var j :| 0 <= j < |sorted| && sorted[j] == rows[i];
    }
    forall j | 0 <= j < |sorted|
      ensures Occurs(events, sorted[j].key) && Describes(sorted[j].group, sorted[j].key, events)
      ensures sorted[j].qualityScore == Score(sorted[j].group)
    {
      assert sorted[j] in rows;
      var i :| 0 <= i < |rows| && rows[i] == sorted[j];
    }
  }

  /** The rows are in order of first appearance. */
  ghost predicate RowsAppear(rows: seq<Row>, events: seq<UsageEvent>) {
    forall i, j | 0 <= i < j < |rows| :: Earlier(events, rows[i].key, rows[j].key)
  }

  /** Rows with the same sort key, which differ in the provider, are in order of first appearance. */
  ghost predicate TiesAppear(rows: seq<Row>, events: seq<UsageEvent>) {
    forall i, j | 0 <= i < j < |rows| && SortKey(rows[i]) == SortKey(rows[j]) :: Earlier(events, rows[i].key, rows[j].key)
  }

  lemma {:induction false} OnlyPlace(rows: seq<Row>, key: seq<string>, i: nat) returns (p: nat)
    requires i < |rows| && SortKey(rows[i]) == key
    ensures p < |Only(rows, key)| && Only(rows, key)[p] == rows[i]
  {
    var n := |rows| - 1;
    if i == n {
      p := |Only(rows[..n], key)|;
    } else {
      p := OnlyPlace(rows[..n], key, i);
    }
  }

  /** Two rows with the sort key are found again in the same order among those with it. */
  lemma {:induction false} OnlyPlaces(rows: seq<Row>, key: seq<string>, i: nat, j: nat) returns (p: nat, q: nat)
    requires i < j < |rows| && SortKey(rows[i]) == SortKey(rows[j]) == key
    ensures p < q < |Only(rows, key)| && Only(rows, key)[p] == rows[i] && Only(rows, key)[q] == rows[j]
  {
    var n := |rows| - 1;
    if j == n {
      p := OnlyPlace(rows[..n], key, i);
      q := |Only(rows[..n], key)|;
    } else {
      p, q := OnlyPlaces(rows[..n], key, i, j);
    }
  }

  lemma {:induction false} OnlyAmong(rows: seq<Row>, key: seq<string>)
    ensures forall row | row in Only(rows, key) :: row in rows
  {
    if rows != [] {
      OnlyAmong(rows[..|rows| - 1], key);
    }
  }

  lemma {:induction false} OnlyAppear(rows: seq<Row>, key: seq<string>, events: seq<UsageEvent>, p: nat, q: nat)
    requires RowsAppear(rows, events) && p < q < |Only(rows, key)|
    ensures Earlier(events, Only(rows, key)[p].key, Only(rows, key)[q].key)
  {
    hide Earlier, SortKey;
    var n := |rows| - 1;
    var init := rows[..n];
    if q < |Only(init, key)| {
      OnlyAppear(init, key, events, p, q);
    } else {
      OnlyAmong(init, key);
      assert Only(init, key)[p] in init;
      var i :| 0 <= i < n && rows[i] == Only(init, key)[p];
    }
  }

  lemma SortedTiesAppear(rows: seq<Row>, sorted: seq<Row>, events: seq<UsageEvent>)
    requires forall key :: Only(sorted, key) == Only(rows, key)
    requires RowsAppear(rows, events)
    ensures TiesAppear(sorted, events)
  {
    hide Earlier, SortKey, Only, RowsAppear;
    forall i, j | 0 <= i < j < |sorted| && SortKey(sorted[i]) == SortKey(sorted[j])
      ensures Earlier(events, sorted[i].key, sorted[j].key)
    {
      TieAppears(rows, sorted, events, i, j, SortKey(sorted[i]));
    }
  }

  lemma TieAppears(rows: seq<Row>, sorted: seq<Row>, events: seq<UsageEvent>, i: nat, j: nat, key: seq<string>)
    requires Only(sorted, key) == Only(rows, key) && RowsAppear(rows, events)
    requires i < j < |sorted| && SortKey(sorted[i]) == SortKey(sorted[j]) == key
    ensures Earlier(events, sorted[i].key, sorted[j].key)
  {
    hide Earlier, SortKey, Only, RowsAppear;
    var p, q := OnlyPlaces(sorted, key, i, j);
    OnlyAppear(rows, key, events, p, q);
  }

  /** `summary`: one row for each key that occurs, sorted by role, agent, model and driver; rows that differ
      in the provider only come in the order in which their keys first appear. */
  method Summarize(events: seq<UsageEvent>) returns (sorted: seq<Row>)
    ensures IsSummary(sorted, events) && InOrder(sorted) && TiesAppear(sorted, events)
  {
    hide IsSummary, InOrder, DistinctRows, TiesAppear, RowsAppear, Only;
    var rows := GroupRows(events);
    DistinctByKey(rows, events);
    sorted := SortRows(rows);
    SortedIsSummary(rows, sorted, events);
    SortedTiesAppear(rows, sorted, events);
  }

  lemma DistinctByKey(rows: seq<Row>, events: seq<UsageEvent>)
    requires IsSummary(rows, events)
    ensures DistinctRows(rows)
  {
  }

  /** The rows in order of first appearance. */
  method GroupRows(events: seq<UsageEvent>) returns (rows: seq<Row>)
    ensures IsSummary(rows, events)
    ensures RowsAppear(rows, events)
  {
    hide Describes, Added, Grouped, IsSummary, KeyOf, Appearing, RowsAppear, Earlier;
    NothingGrouped();
    NothingAppears();
    var order: seq<Key>, groups: map<Key, Group> := [], map[];
    for k := 0 to |events|
      invariant Grouped(order, groups, events[..k]) && Appearing(order, events[..k])
    {
      var key := KeyOf(events[k]);
      var group := if key in groups then groups[key] else Group(0, 0, 0, 0, 0, 0, 0, map[], 0, 0.0);
      GroupOfKey(order, groups, events[..k], key);
      var more := AddEvent(group, events[k]);
      AddedDescribes(group, key, events[..k], events[k], more);
      GroupedNext(order, groups, events[..k], events[k], more);
      AppearingNext(order, groups, events[..k], events[k]);
      assert events[..k + 1] == events[..k] + [events[k]];
      if key !in groups {
        order := order + [key];
      }
      groups := groups[key := more];
    }
    assert events[..|events|] == events;
    rows := [];
    assert forall i | 0 <= i < |order| :: order[i] in groups by {
      OrderInGroups(order, groups, events);
    }
    for k := 0 to |order|
      invariant |rows| == k
      invariant forall i | 0 <= i < k :: rows[i] == Row(order[i], groups[order[i]], Score(groups[order[i]]))
    {
      rows := rows + [Row(order[k], groups[order[k]], Score(groups[order[k]]))];
    }
    RowsOfGroups(rows, order, groups, events);
    AppearingRows(rows, order, events);
  }

  lemma AppearingRows(rows: seq<Row>, order: seq<Key>, events: seq<UsageEvent>)
    requires Appearing(order, events) && |rows| == |order| && forall i | 0 <= i < |rows| :: rows[i].key == order[i]
    ensures RowsAppear(rows, events)
  {
    hide Earlier;
  }

  lemma OrderInGroups(order: seq<Key>, groups: map<Key, Group>, events: seq<UsageEvent>)
    requires Grouped(order, groups, events)
    ensures forall i | 0 <= i < |order| :: order[i] in groups
  {
  }

  lemma RowsOfGroups(rows: seq<Row>, order: seq<Key>, groups: map<Key, Group>, events: seq<UsageEvent>)
    requires Grouped(order, groups, events) && |rows| == |order|
    requires forall i | 0 <= i < |rows| :: order[i] in groups && rows[i] == Row(order[i], groups[order[i]], Score(groups[order[i]]))
    ensures IsSummary(rows, events)
  {
    hide Describes;
    forall i | 0 <= i < |rows| ensures Describes(rows[i].group, rows[i].key, events) {
      assert order[i] in groups;
    }
    forall e | e in events ensures HasRow(rows, KeyOf(e)) {
      var i :| 0 <= i < |order| && order[i] == KeyOf(e);
      assert rows[i].key == KeyOf(e);
    }
    forall i | 0 <= i < |rows| ensures Occurs(events, rows[i].key) {
      assert order[i] in groups;
    }
    assert forall i | 0 <= i < |rows| :: rows[i].key == order[i];
    assert forall i, j | 0 <= i < j < |rows| :: rows[i].key != rows[j].key;
    assert forall i | 0 <= i < |rows| :: rows[i].qualityScore == Score(rows[i].group);
    assert forall e | e in events :: HasRow(rows, KeyOf(e));
    assert forall i | 0 <= i < |rows| :: Occurs(events, rows[i].key);
    assert forall i | 0 <= i < |rows| :: Describes(rows[i].group, rows[i].key, events);
  }
}
