/** What a summary keeps of the events. */
module UsageConservation {
  import opened Prelude
  import opened Rounding
  import opened UsageEvents
  import opened UsageSummary

  /** The sum of a field over the groups of the rows. */
  function SumOfRows(field: Field, rows: seq<Row>, events: seq<UsageEvent>): nat {
    if rows == [] then 0
    else SumOfRows(field, rows[..|rows| - 1], events) + SumIn(field, rows[|rows| - 1].key, events)
  }

  /** The sum of a field as the rows have it. */
  function SumOf(field: Field, rows: seq<Row>): nat {
    if rows == [] then 0 else SumOf(field, rows[..|rows| - 1]) + Kept(field, rows[|rows| - 1].group)
  }

  /** One more event adds its share to the one row with its key. */
  lemma {:induction false} SumOfRowsNext(field: Field, rows: seq<Row>, events: seq<UsageEvent>, e: UsageEvent)
    requires forall i, j | 0 <= i < j < |rows| :: rows[i].key != rows[j].key
    ensures SumOfRows(field, rows, events + [e])
         == SumOfRows(field, rows, events) + if HasRow(rows, KeyOf(e)) then Measure(field, e) else 0
  {
    if rows != [] {
      var init, last := rows[..|rows| - 1], rows[|rows| - 1];
      SumOfRowsNext(field, init, events, e);
      assert (events + [e])[..|events|] == events;
      if i :| 0 <= i < |init| && init[i].key == KeyOf(e) {
        assert rows[i].key == KeyOf(e);
      }
      assert HasRow(rows, KeyOf(e)) <==> HasRow(init, KeyOf(e)) || last.key == KeyOf(e) by {
        if i :| 0 <= i < |rows| && rows[i].key == KeyOf(e) {
          assert i < |init| ==> init[i].key == KeyOf(e);
        }
        assert rows[|rows| - 1] == last;
      }
    }
  }

  /** The groups partition the events. */
  lemma {:induction false} RowsPartitionEvents(field: Field, rows: seq<Row>, events: seq<UsageEvent>)
    requires forall i, j | 0 <= i < j < |rows| :: rows[i].key != rows[j].key
    requires forall e | e in events :: HasRow(rows, KeyOf(e))
    ensures SumOfRows(field, rows, events) == Sum(field, events)
  {
    if events == [] {
      NothingInRows(field, rows);
    } else {
      var init, last := events[..|events| - 1], events[|events| - 1];
      RowsPartitionEvents(field, rows, init);
      SumOfRowsNext(field, rows, init, last);
      assert events == init + [last];
    }
  }

  lemma {:induction false} NothingInRows(field: Field, rows: seq<Row>)
    ensures SumOfRows(field, rows, []) == 0
  {
    if rows != [] {
      NothingInRows(field, rows[..|rows| - 1]);
    }
  }

  lemma {:induction false} RowsHaveSums(field: Field, rows: seq<Row>, events: seq<UsageEvent>)
    requires forall i | 0 <= i < |rows| :: Kept(field, rows[i].group) == SumIn(field, rows[i].key, events)
    ensures SumOf(field, rows) == SumOfRows(field, rows, events)
  {
    if rows != [] {
      RowsHaveSums(field, rows[..|rows| - 1], events);
    }
  }

  /** Summed over the rows, every count, the durations and the tokens are those of all events. */
  lemma NothingIsLost(field: Field, rows: seq<Row>, events: seq<UsageEvent>)
    requires IsSummary(rows, events)
    ensures SumOf(field, rows) == Sum(field, events)
  {
    RowsHaveSums(field, rows, events);
    hide Describes;
    RowsPartitionEvents(field, rows, events);
  }

  // ----- order -----

  lemma {:induction false} SumInConcat(field: Field, key: Key, a: seq<UsageEvent>, b: seq<UsageEvent>)
    ensures SumIn(field, key, a + b) == SumIn(field, key, a) + SumIn(field, key, b)
    ensures QualityIn(key, a + b) == QualityIn(key, a) + QualityIn(key, b)
  {
    if b == [] {
      assert a + b == a;
    } else {
      assert (a + b)[..|a + b| - 1] == a + b[..|b| - 1];
      SumInConcat(field, key, a, b[..|b| - 1]);
    }
  }

  lemma WithoutOne(init: seq<UsageEvent>, e: UsageEvent, a: seq<UsageEvent>, b: seq<UsageEvent>)
    requires multiset(init + [e]) == multiset(a + [e] + b)
    ensures multiset(init) == multiset(a + b)
  {
    assert multiset(a + [e] + b) == multiset(a) + multiset{e} + multiset(b);
    assert multiset(init + [e]) == multiset(init) + multiset{e};
    assert multiset(init) == multiset(init + [e]) - multiset{e};
    assert multiset(a + b) == multiset(a + [e] + b) - multiset{e};
  }

  /** The order of the events has no influence on the sums of a group. */
  lemma {:induction false} SumsIgnoreOrder(field: Field, key: Key, events: seq<UsageEvent>, others: seq<UsageEvent>)
    requires multiset(events) == multiset(others)
    ensures SumIn(field, key, events) == SumIn(field, key, others)
    ensures QualityIn(key, events) == QualityIn(key, others)
  {
    if events == [] {
      assert |multiset(others)| == 0;
    } else {
      var init, last := events[..|events| - 1], events[|events| - 1];
      assert events == init + [last];
      assert last in multiset(others);
      var i :| 0 <= i < |others| && others[i] == last;
      var a, b := others[..i], others[i + 1..];
      assert others == a + [last] + b;
      WithoutOne(init, last, a, b);
      SumsIgnoreOrder(field, key, init, a + b);
      SumInConcat(field, key, a, b);
      SumInConcat(field, key, init, [last]);
      SumInConcat(field, key, a, [last]);
      SumInConcat(field, key, a + [last], b);
    }
  }

  /** The rows agree in everything but the costs. */
  predicate AgreeButForCosts(row: Row, other: Row) {
    && other.key == row.key && other.group.quality == row.group.quality && other.qualityScore == row.qualityScore
    && forall field :: Kept(field, other.group) == Kept(field, row.group)
  }

  /** Two ledgers with the same events in another order have the same groups, with the same counts,
      durations, tokens and quality; only the costs may differ. */
  lemma SummaryIgnoresOrder(rows: seq<Row>, events: seq<UsageEvent>, otherRows: seq<Row>, others: seq<UsageEvent>)
    requires IsSummary(rows, events) && IsSummary(otherRows, others) && multiset(events) == multiset(others)
    ensures forall row | row in rows :: exists other :: other in otherRows && AgreeButForCosts(row, other)
  {
    forall row | row in rows ensures exists other :: other in otherRows && AgreeButForCosts(row, other) {
      var e :| e in events && KeyOf(e) == row.key;
      assert e in multiset(others);
      var i :| 0 <= i < |otherRows| && otherRows[i].key == row.key;
      SameSums(row, otherRows[i], events, others);
      assert otherRows[i] in otherRows;
    }
  }

  lemma SameSums(row: Row, other: Row, events: seq<UsageEvent>, others: seq<UsageEvent>)
    requires Describes(row.group, row.key, events) && Describes(other.group, row.key, others) && other.key == row.key
    requires row.qualityScore == Score(row.group) && other.qualityScore == Score(other.group)
    requires multiset(events) == multiset(others)
    ensures AgreeButForCosts(row, other)
  {
    forall field ensures Kept(field, other.group) == Kept(field, row.group) {
      SumsIgnoreOrder(field, row.key, events, others);
    }
    SumsIgnoreOrder(Samples, row.key, events, others);
    assert Kept(Samples, other.group) == Kept(Samples, row.group);
  }

  // ----- costs -----

  function CostedEvents(key: Key, currency: string, events: seq<UsageEvent>): nat {
    if events == [] then 0
    else
      var last := events[|events| - 1];
      CostedEvents(key, currency, events[..|events| - 1]) + if KeyOf(last) == key && Costs(last, currency) then 1 else 0
  }

  function TrueCost(key: Key, currency: string, events: seq<UsageEvent>): real {
    if events == [] then 0.0
    else
      var last := events[|events| - 1];
      TrueCost(key, currency, events[..|events| - 1]) + if KeyOf(last) == key && Costs(last, currency) then last.costAmount.value else 0.0
  }

  /** Rounding at every addition, the cost of a group of `n` costed events is off by at most `n` times half
      of the eighth place; a currency is listed exactly if some event costs in it. */
  lemma {:induction false} CostErrorIsBounded(key: Key, currency: string, events: seq<UsageEvent>)
    ensures var cost, n := CostIn(key, currency, events), CostedEvents(key, currency, events);
      && (cost.Some? <==> n > 0)
      && (cost.Some? ==>
            -0.000000005 * n as real <= cost.value - TrueCost(key, currency, events) <= 0.000000005 * n as real)
  {
    if events != [] {
      CostErrorIsBounded(key, currency, events[..|events| - 1]);
      NothingCosts(key, currency, events[..|events| - 1]);
    }
  }

  lemma {:induction false} NothingCosts(key: Key, currency: string, events: seq<UsageEvent>)
    ensures CostedEvents(key, currency, events) == 0 ==> TrueCost(key, currency, events) == 0.0
  {
    if events != [] {
      NothingCosts(key, currency, events[..|events| - 1]);
    }
  }

  /** The amount is a whole number of units of the eighth place. */
  predicate EightPlaces(x: real) {
    (x * 100000000.0).Floor as real == x * 100000000.0
  }

  lemma RoundedIsExact(x: real)
    ensures EightPlaces(x) <==> Round8(x) == x
  {
    var y := x * 100000000.0;
    assert Round8(x) * 100000000.0 == RoundHalfEven(y) as real;
    if EightPlaces(x) {
      assert RoundHalfEven(y) == y.Floor;
    }
    if Round8(x) == x {
      assert RoundHalfEven(y) as real == y;
    }
  }

  lemma PlacesAdd(x: real, y: real)
    requires EightPlaces(x) && EightPlaces(y)
    ensures EightPlaces(x + y)
  {
    var a, b := (x * 100000000.0).Floor, (y * 100000000.0).Floor;
    assert (x + y) * 100000000.0 == (a + b) as real;
  }

  /** Amounts that already have no more than eight places are summed exactly, and so in any order. */
  lemma {:induction false} EightPlacesAreExact(key: Key, currency: string, events: seq<UsageEvent>)
    requires forall e | e in events && Costs(e, currency) :: EightPlaces(e.costAmount.value)
    ensures CostIn(key, currency, events).Some? ==> CostIn(key, currency, events).value == TrueCost(key, currency, events)
    ensures EightPlaces(TrueCost(key, currency, events))
    ensures CostIn(key, currency, events).None? ==> TrueCost(key, currency, events) == 0.0
  {
    if events != [] {
      var init, last := events[..|events| - 1], events[|events| - 1];
      EightPlacesAreExact(key, currency, init);
      if KeyOf(last) == key && Costs(last, currency) {
        PlacesAdd(TrueCost(key, currency, init), last.costAmount.value);
        RoundedIsExact(TrueCost(key, currency, events));
      }
    }
  }

  // ----- when the order of costs matters -----

  /** The amount in units of the eighth place. */
  function Units(e: UsageEvent): real {
    if e.costAmount.Some? then e.costAmount.value * 100000000.0 else 0.0
  }

  /** Half way between two units. */
  predicate IsTie(y: real) {
    y - y.Floor as real == 0.5
  }

  /** The event costs something in this group and currency. */
  predicate IsCost(key: Key, currency: string, e: UsageEvent) {
    KeyOf(e) == key && Costs(e, currency)
  }

  /** The kept cost in units. */
  function CostUnits(key: Key, currency: string, events: seq<UsageEvent>): int {
    if events == [] then 0
    else
      var before, last := CostUnits(key, currency, events[..|events| - 1]), events[|events| - 1];
      if IsCost(key, currency, last) then RoundHalfEven(before as real + Units(last)) else before
  }

  /** The number of costs, or the sum of their units, each rounded by itself. */
  function Tally(units: bool, key: Key, currency: string, events: seq<UsageEvent>): int {
    if events == [] then 0
    else Tally(units, key, currency, events[..|events| - 1]) + Share(units, key, currency, events[|events| - 1])
  }

  function Share(units: bool, key: Key, currency: string, e: UsageEvent): int {
    if !IsCost(key, currency, e) then 0 else if units then RoundHalfEven(Units(e)) else 1
  }

  lemma RoundShifts(a: int, y: real)
    ensures !IsTie(y) || a % 2 == 0 ==> RoundHalfEven(a as real + y) == a + RoundHalfEven(y)
    ensures IsTie(y) ==> RoundHalfEven(a as real + y) % 2 == 0 && RoundHalfEven(y) % 2 == 0
  {
    assert (a as real + y).Floor == a + y.Floor;
  }

  lemma RoundInUnits(a: int, amount: real)
    ensures Round8(a as real / 100000000.0 + amount) == RoundHalfEven(a as real + amount * 100000000.0) as real / 100000000.0
  {
    assert (a as real / 100000000.0 + amount) * 100000000.0 == a as real + amount * 100000000.0;
  }

  lemma {:induction false} CostInUnits(key: Key, currency: string, events: seq<UsageEvent>)
    ensures Tally(false, key, currency, events) >= 0
    ensures Tally(false, key, currency, events) == 0 ==> CostUnits(key, currency, events) == 0
    ensures CostIn(key, currency, events) ==
      if Tally(false, key, currency, events) == 0 then None else Some(CostUnits(key, currency, events) as real / 100000000.0)
  {
    if events != [] {
      var init, last := events[..|events| - 1], events[|events| - 1];
      CostInUnits(key, currency, init);
      if IsCost(key, currency, last) {
        RoundInUnits(CostUnits(key, currency, init), last.costAmount.value);
      }
    }
  }

  lemma {:induction false} TallyConcat(units: bool, key: Key, currency: string, a: seq<UsageEvent>, b: seq<UsageEvent>)
    ensures Tally(units, key, currency, a + b) == Tally(units, key, currency, a) + Tally(units, key, currency, b)
  {
    hide Share;
    if b == [] {
      assert a + b == a;
    } else {
      assert (a + b)[..|a + b| - 1] == a + b[..|b| - 1];
      TallyConcat(units, key, currency, a, b[..|b| - 1]);
    }
  }

  /** One event taken out. */
  lemma TakeOut(events: seq<UsageEvent>, e: UsageEvent) returns (rest: seq<UsageEvent>)
    requires e in events
    ensures multiset(rest + [e]) == multiset(events)
    ensures forall units, key, currency ::
      Tally(units, key, currency, events) == Tally(units, key, currency, rest) + Tally(units, key, currency, [e])
  {
    var i :| 0 <= i < |events| && events[i] == e;
    var a, b := events[..i], events[i + 1..];
    rest := a + b;
    assert events == a + [e] + b;
    assert multiset(events) == multiset(a) + multiset{e} + multiset(b);
    forall units, key, currency
      ensures Tally(units, key, currency, events) == Tally(units, key, currency, rest) + Tally(units, key, currency, [e])
    {
      TallyConcat(units, key, currency, a, [e]);
      TallyConcat(units, key, currency, a + [e], b);
      TallyConcat(units, key, currency, a, b);
    }
  }

  lemma {:induction false} TallyIgnoresOrder(units: bool, key: Key, currency: string, events: seq<UsageEvent>, others: seq<UsageEvent>)
    requires multiset(events) == multiset(others)
    ensures Tally(units, key, currency, events) == Tally(units, key, currency, others)
  {
    if events == [] {
      assert |multiset(others)| == 0;
    } else {
      var init, last := events[..|events| - 1], events[|events| - 1];
      assert events == init + [last];
      assert last in multiset(others);
      var rest := TakeOut(others, last);
      OneLess(init, rest, last);
      TallyIgnoresOrder(units, key, currency, init, rest);
      TallyConcat(units, key, currency, init, [last]);
    }
  }

  lemma OneLess(a: seq<UsageEvent>, b: seq<UsageEvent>, e: UsageEvent)
    requires multiset(a + [e]) == multiset(b + [e])
    ensures multiset(a) == multiset(b)
  {
    assert multiset(a) == multiset(a + [e]) - multiset{e};
    assert multiset(b) == multiset(b + [e]) - multiset{e};
  }

  ghost predicate NoTies(key: Key, currency: string, events: seq<UsageEvent>) {
    forall e | e in events && IsCost(key, currency, e) :: !IsTie(Units(e))
  }

  /** Every amount that is no tie rounds to an even number of units. */
  ghost predicate OthersEven(key: Key, currency: string, events: seq<UsageEvent>) {
    forall e | e in events && IsCost(key, currency, e) && !IsTie(Units(e)) :: RoundHalfEven(Units(e)) % 2 == 0
  }

  /** Without ties, or if everything else is even, each addition rounds the amount by itself. */
  lemma {:induction false} CostsAdd(key: Key, currency: string, events: seq<UsageEvent>)
    requires NoTies(key, currency, events) || OthersEven(key, currency, events)
    ensures CostUnits(key, currency, events) == Tally(true, key, currency, events)
    ensures OthersEven(key, currency, events) ==> CostUnits(key, currency, events) % 2 == 0
  {
    if events != [] {
      var init, last := events[..|events| - 1], events[|events| - 1];
      assert forall e | e in init :: e in events;
      assert last in events && events == init + [last];
      CostsAdd(key, currency, init);
      LastAdds(key, currency, init, last, OthersEven(key, currency, events));
    }
  }

  lemma LastAdds(key: Key, currency: string, init: seq<UsageEvent>, last: UsageEvent, even: bool)
    requires CostUnits(key, currency, init) == Tally(true, key, currency, init)
    requires even ==> CostUnits(key, currency, init) % 2 == 0
    requires IsCost(key, currency, last) ==> !IsTie(Units(last)) || even
    requires even && IsCost(key, currency, last) && !IsTie(Units(last)) ==> RoundHalfEven(Units(last)) % 2 == 0
    ensures CostUnits(key, currency, init + [last]) == Tally(true, key, currency, init + [last])
    ensures even ==> CostUnits(key, currency, init + [last]) % 2 == 0
  {
    assert (init + [last])[..|init|] == init;
    hide RoundHalfEven, IsTie, IsCost, Units, CostUnits;
    CostUnitsNext(key, currency, init, last);
    RoundShifts(CostUnits(key, currency, init), Units(last));
  }

  /** A tie and an odd amount do not commute: with the tie last the cost is even, with the other last odd. */
  lemma TieAndOddDiffer(key: Key, currency: string, rest: seq<UsageEvent>, tie: UsageEvent, odd: UsageEvent)
    requires IsCost(key, currency, tie) && IsTie(Units(tie))
    requires IsCost(key, currency, odd) && !IsTie(Units(odd)) && RoundHalfEven(Units(odd)) % 2 == 1
    ensures CostUnits(key, currency, rest + [tie] + [odd]) % 2 == 1
    ensures CostUnits(key, currency, rest + [odd] + [tie]) % 2 == 0
  {
    hide CostUnits, RoundHalfEven, IsTie, IsCost, Units;
    CostUnitsNext(key, currency, rest, tie);
    CostUnitsNext(key, currency, rest + [tie], odd);
    CostUnitsNext(key, currency, rest + [odd], tie);
    RoundShifts(CostUnits(key, currency, rest), Units(tie));
    RoundShifts(CostUnits(key, currency, rest + [tie]), Units(odd));
    RoundShifts(CostUnits(key, currency, rest + [odd]), Units(tie));
  }

  lemma CostUnitsNext(key: Key, currency: string, events: seq<UsageEvent>, e: UsageEvent)
    ensures CostUnits(key, currency, events + [e]) ==
      if IsCost(key, currency, e) then RoundHalfEven(CostUnits(key, currency, events) as real + Units(e))
      else CostUnits(key, currency, events)
  {
    assert (events + [e])[..|events|] == events;
  }

  ghost predicate SameCostInEveryOrder(key: Key, currency: string, events: seq<UsageEvent>) {
    forall others | multiset(others) == multiset(events) :: CostIn(key, currency, others) == CostIn(key, currency, events)
  }

  /** The cost of a group in a currency is the same in every order of the ledger if and only if no amount
      is half way between two units of the eighth place, or every amount that is not rounds to an even
      number of units. */
  lemma CostIgnoresOrderExactlyWhen(key: Key, currency: string, events: seq<UsageEvent>)
    ensures SameCostInEveryOrder(key, currency, events) <==> NoTies(key, currency, events) || OthersEven(key, currency, events)
  {
    if NoTies(key, currency, events) || OthersEven(key, currency, events) {
      forall others | multiset(others) == multiset(events) ensures CostIn(key, currency, others) == CostIn(key, currency, events) {
        CostsAgree(key, currency, events, others);
      }
    } else {
      CostsDisagree(key, currency, events);
    }
  }

  lemma CostsAgree(key: Key, currency: string, events: seq<UsageEvent>, others: seq<UsageEvent>)
    requires multiset(others) == multiset(events)
    requires NoTies(key, currency, events) || OthersEven(key, currency, events)
    ensures CostIn(key, currency, others) == CostIn(key, currency, events)
  {
    forall e ensures e in others <==> e in events {
      assert e in others <==> e in multiset(others);
      assert e in events <==> e in multiset(events);
    }
    CostsAdd(key, currency, events);
    CostsAdd(key, currency, others);
    hide *;
    TallyIgnoresOrder(true, key, currency, events, others);
    TallyIgnoresOrder(false, key, currency, events, others);
    CostInUnits(key, currency, events);
    CostInUnits(key, currency, others);
  }

  lemma CostsDisagree(key: Key, currency: string, events: seq<UsageEvent>)
    requires !NoTies(key, currency, events) && !OthersEven(key, currency, events)
    ensures !SameCostInEveryOrder(key, currency, events)
  {
    var tie :| tie in events && IsCost(key, currency, tie) && IsTie(Units(tie));
    var odd :| odd in events && IsCost(key, currency, odd) && !IsTie(Units(odd)) && RoundHalfEven(Units(odd)) % 2 != 0;
    hide NoTies, OthersEven, IsCost, IsTie, Units, RoundHalfEven, SameCostInEveryOrder;
    var more := TakeOut(events, tie);
    assert odd in multiset(more + [tie]) && odd != tie;
    var rest := TakeOut(more, odd);
    TwoOrders(rest, more, events, tie, odd);
    hide *;
    TwoCosts(key, currency, rest, tie, odd);
    EqualInEveryOrder(key, currency, events, rest + [tie] + [odd], rest + [odd] + [tie]);
  }

  lemma TwoCosts(key: Key, currency: string, rest: seq<UsageEvent>, tie: UsageEvent, odd: UsageEvent)
    requires IsCost(key, currency, tie) && IsTie(Units(tie))
    requires IsCost(key, currency, odd) && !IsTie(Units(odd)) && RoundHalfEven(Units(odd)) % 2 != 0
    ensures CostIn(key, currency, rest + [tie] + [odd]) != CostIn(key, currency, rest + [odd] + [tie])
  {
    hide *;
    TieAndOddDiffer(key, currency, rest, tie, odd);
    CountsSome(key, currency, rest, tie, odd);
    CostInUnits(key, currency, rest + [tie] + [odd]);
    CostInUnits(key, currency, rest + [odd] + [tie]);
  }

  lemma EqualInEveryOrder(key: Key, currency: string, events: seq<UsageEvent>, first: seq<UsageEvent>, second: seq<UsageEvent>)
    requires multiset(first) == multiset(events) == multiset(second)
    ensures SameCostInEveryOrder(key, currency, events) ==> CostIn(key, currency, first) == CostIn(key, currency, second)
  {
  }

  lemma CountsSome(key: Key, currency: string, rest: seq<UsageEvent>, tie: UsageEvent, odd: UsageEvent)
    requires IsCost(key, currency, tie) && IsCost(key, currency, odd)
    ensures Tally(false, key, currency, rest + [tie] + [odd]) > 0 && Tally(false, key, currency, rest + [odd] + [tie]) > 0
  {
    CostInUnits(key, currency, rest);
    hide CostIn, CostUnits;
    assert (rest + [tie] + [odd])[..|rest| + 1] == rest + [tie] && (rest + [tie])[..|rest|] == rest;
    assert (rest + [odd] + [tie])[..|rest| + 1] == rest + [odd] && (rest + [odd])[..|rest|] == rest;
  }

  lemma TwoOrders(rest: seq<UsageEvent>, more: seq<UsageEvent>, events: seq<UsageEvent>, tie: UsageEvent, odd: UsageEvent)
    requires multiset(more + [tie]) == multiset(events) && multiset(rest + [odd]) == multiset(more)
    ensures multiset(rest + [tie] + [odd]) == multiset(events) == multiset(rest + [odd] + [tie])
  {
    assert multiset(events) == multiset(more) + multiset{tie};
    assert multiset(rest + [tie] + [odd]) == multiset(rest) + multiset{tie} + multiset{odd};
    assert multiset(rest + [odd] + [tie]) == multiset(rest) + multiset{odd} + multiset{tie};
    assert multiset(rest + [odd]) == multiset(rest) + multiset{odd};
  }

  /** For instance, half a unit and one unit make one unit or two. */
  lemma CostsDependOnOrder(key: Key, e: UsageEvent)
    requires KeyOf(e) == key && Invocation(e) && e.costCurrency == Some("USD")
    ensures var half, one := e.(costAmount := Some(0.000000005)), e.(costAmount := Some(0.00000001));
      CostIn(key, "USD", [half, one]) != CostIn(key, "USD", [one, half])
  {
    var half, one := e.(costAmount := Some(0.000000005)), e.(costAmount := Some(0.00000001));
    SmallRoundings();
    CostOfTwo(key, "USD", half, one);
    CostOfTwo(key, "USD", one, half);
  }

  lemma CostOfTwo(key: Key, currency: string, a: UsageEvent, b: UsageEvent)
    requires KeyOf(a) == key && KeyOf(b) == key && Costs(a, currency) && Costs(b, currency)
    ensures CostIn(key, currency, [a, b]) == Some(Round8(Round8(a.costAmount.value) + b.costAmount.value))
  {
    assert [a, b][..1] == [a] && [a][..0] == [];
    assert CostIn(key, currency, [a]) == Some(Round8(0.0 + a.costAmount.value));
  }

  lemma SmallRoundings()
    ensures Round8(0.000000005) == 0.0 && Round8(0.00000001) == 0.00000001 && Round8(0.000000015) == 0.00000002
  {
    assert RoundHalfEven(0.5) == 0 && RoundHalfEven(1.0) == 1 && RoundHalfEven(1.5) == 2;
  }
}
