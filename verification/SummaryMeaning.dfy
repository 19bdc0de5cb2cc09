/** What a row of the usage summary says about the ledger, and in which order the rows stand. */
module SummaryMeaning {
  import opened Prelude
  import opened Rounding
  import opened UsageEvents
  import opened TextOrder
  import opened UsageSummary

  // ----- the order -----

  /** The texts agree up to `i`, and there `a` has the smaller character. */
  ghost predicate SmallerAt(a: string, b: string, i: nat) {
    i < |a| && i < |b| && a[..i] == b[..i] && a[i] < b[i]
  }

  /** `a` is the beginning of `b`, or has the smaller character where they first differ. */
  ghost predicate Precedes(a: string, b: string) {
    a <= b || exists i: nat :: SmallerAt(a, b, i)
  }

  lemma SmallerLater(a: string, b: string, i: nat)
    requires a != "" && b != ""
    ensures SmallerAt(a, b, i + 1) <==> a[0] == b[0] && SmallerAt(a[1..], b[1..], i)
    ensures SmallerAt(a, b, 0) <==> a[0] < b[0]
  {
    var x, y := a[1..], b[1..];
    if i < |x| && i < |y| {
      assert a[..i + 1] == [a[0]] + x[..i] && b[..i + 1] == [b[0]] + y[..i];
      assert a[..i + 1][1..] == x[..i] && b[..i + 1][1..] == y[..i];
    }
  }

  lemma {:induction false} AtMostIsPrecedes(a: string, b: string)
    ensures AtMost(a, b) <==> Precedes(a, b)
  {
    if a != "" && b != "" {
      var x, y := a[1..], b[1..];
      AtMostIsPrecedes(x, y);
      assert a == [a[0]] + x && b == [b[0]] + y;
      assert a <= b <==> a[0] == b[0] && x <= y;
      SmallerLater(a, b, 0);
      hide SmallerAt;
      if i: nat :| SmallerAt(a, b, i) {
        if i > 0 {
          SmallerLater(a, b, i - 1);
        }
      }
      if i: nat :| SmallerAt(x, y, i) {
        SmallerLater(a, b, i);
      }
    }
  }

  /** By role, then by agent, then by model, then by driver; the provider does not matter. */
  ghost predicate KeyAtMost(k: Key, l: Key) {
    if k.role != l.role then Precedes(k.role, l.role)
    else if k.agent != l.agent then Precedes(k.agent, l.agent)
    else if k.model != l.model then Precedes(k.model, l.model)
    else Precedes(k.driver, l.driver)
  }

  lemma NextPart(a: string, more: seq<string>, w: string, others: seq<string>)
    ensures ListAtMost([a] + more, [w] + others) <==> if a == w then ListAtMost(more, others) else AtMost(a, w)
  {
    assert ([a] + more)[1..] == more && ([w] + others)[1..] == others;
  }

  lemma LastPart(d: string, z: string)
    ensures ListAtMost([d], [z]) <==> AtMost(d, z)
  {
    assert ListAtMost([], []) && [d] == [d] + [] && [z] == [z] + [];
    TextsCompare(d, d);
    hide AtMost, ListAtMost;
    NextPart(d, [], z, []);
  }

  lemma TwoParts(c: string, d: string, y: string, z: string)
    ensures ListAtMost([c, d], [y, z]) <==> if c != y then AtMost(c, y) else AtMost(d, z)
  {
    hide AtMost, ListAtMost;
    assert [c, d] == [c] + [d] && [y, z] == [y] + [z];
    NextPart(c, [d], y, [z]);
    LastPart(d, z);
  }

  lemma FourParts(a: string, b: string, c: string, d: string, w: string, x: string, y: string, z: string)
    ensures ListAtMost([a, b, c, d], [w, x, y, z]) <==>
      if a != w then AtMost(a, w) else if b != x then AtMost(b, x) else if c != y then AtMost(c, y) else AtMost(d, z)
  {
    hide AtMost, ListAtMost;
    assert [b, c, d] == [b] + [c, d] && [x, y, z] == [x] + [y, z];
    assert [a, b, c, d] == [a] + [b, c, d] && [w, x, y, z] == [w] + [x, y, z];
    NextPart(a, [b, c, d], w, [x, y, z]);
    NextPart(b, [c, d], x, [y, z]);
    TwoParts(c, d, y, z);
  }

  /** The rows of a summary stand in the order of their keys. */
  lemma RowsStandInOrder(rows: seq<Row>)
    ensures InOrder(rows) <==> forall i, j | 0 <= i < j < |rows| :: KeyAtMost(rows[i].key, rows[j].key)
  {
    forall i, j | 0 <= i < j < |rows|
      ensures ListAtMost(SortKey(rows[i]), SortKey(rows[j])) <==> KeyAtMost(rows[i].key, rows[j].key)
    {
      var k, l := rows[i].key, rows[j].key;
      FourParts(k.role, k.agent, k.model, k.driver, l.role, l.agent, l.model, l.driver);
      AtMostIsPrecedes(k.role, l.role);
      AtMostIsPrecedes(k.agent, l.agent);
      AtMostIsPrecedes(k.model, l.model);
      AtMostIsPrecedes(k.driver, l.driver);
    }
    hide ListAtMost, SortKey, KeyAtMost;
  }

  // ----- the contents -----

  /** The sum of a share over the events that belong to the row. */
  ghost function Over(key: Key, share: UsageEvent -> nat, events: seq<UsageEvent>): nat {
    if events == [] then 0
    else
      var e := events[|events| - 1];
      Over(key, share, events[..|events| - 1]) + if Belongs(e, key) then share(e) else 0
  }

  ghost predicate Belongs(e: UsageEvent, key: Key) {
    e.role == key.role && e.agent == key.agent && e.provider == key.provider && e.model == key.model && e.driver == key.driver
  }

  function Known(n: Option<nat>): nat { if n == None then 0 else n.value }

  function OfCall(e: UsageEvent, n: nat): nat { if e.kind == "invocation" then n else 0 }
  function Calls(e: UsageEvent): nat { OfCall(e, 1) }
  function GoodCalls(e: UsageEvent): nat { OfCall(e, if e.outcome == "success" then 1 else 0) }
  function Milliseconds(e: UsageEvent): nat { OfCall(e, Known(e.durationMs)) }
  function TokensIn(e: UsageEvent): nat { OfCall(e, Known(e.inputTokens)) }
  function TokensOut(e: UsageEvent): nat { OfCall(e, Known(e.outputTokens)) }
  function Untold(e: UsageEvent): nat { OfCall(e, if e.totalTokens == e.inputTokens == e.outputTokens == None then 1 else 0) }
  function Scored(e: UsageEvent): nat { if e.qualityScore == None then 0 else 1 }

  /** The total reported, or the sum of the parts if none, or zero, is. */
  function TokensInAll(e: UsageEvent): nat {
    OfCall(e, if e.totalTokens == None || e.totalTokens == Some(0) then Known(e.inputTokens) + Known(e.outputTokens) else e.totalTokens.value)
  }

  ghost predicate Shares(field: Field, share: UsageEvent -> nat) {
    forall e: UsageEvent :: share(e) == Measure(field, e)
  }

  lemma {:induction false} SumIsOver(field: Field, key: Key, share: UsageEvent -> nat, events: seq<UsageEvent>)
    requires Shares(field, share)
    ensures SumIn(field, key, events) == Over(key, share, events)
  {
    hide Measure;
    if events != [] {
      SumIsOver(field, key, share, events[..|events| - 1]);
    }
  }

  /** The numbers of a row: how many calls, how many of them succeeded, how long they took, their tokens, for how
      many nothing is known of their tokens, and how many events carry a score. */
  lemma RowSays(group: Group, key: Key, events: seq<UsageEvent>)
    requires Describes(group, key, events)
    ensures group.invocations == Over(key, Calls, events) && group.successes == Over(key, GoodCalls, events)
    ensures group.durationMs == Over(key, Milliseconds, events)
    ensures group.input == Over(key, TokensIn, events) && group.output == Over(key, TokensOut, events)
    ensures group.total == Over(key, TokensInAll, events)
    ensures group.unknown == Over(key, Untold, events) && group.samples == Over(key, Scored, events)
  {
    SumIsOver(Invocations, key, Calls, events);
    SumIsOver(Successes, key, GoodCalls, events);
    SumIsOver(DurationMs, key, Milliseconds, events);
    SumIsOver(InputTokens, key, TokensIn, events);
    SumIsOver(OutputTokens, key, TokensOut, events);
    SumIsOver(TotalTokens, key, TokensInAll, events);
    SumIsOver(UnknownTokens, key, Untold, events);
    SumIsOver(Samples, key, Scored, events);
    hide SumIn, Over, Measure;
    assert Kept(Invocations, group) == SumIn(Invocations, key, events) && Kept(Successes, group) == SumIn(Successes, key, events);
    assert Kept(DurationMs, group) == SumIn(DurationMs, key, events) && Kept(InputTokens, group) == SumIn(InputTokens, key, events);
    assert Kept(OutputTokens, group) == SumIn(OutputTokens, key, events) && Kept(TotalTokens, group) == SumIn(TotalTokens, key, events);
    assert Kept(UnknownTokens, group) == SumIn(UnknownTokens, key, events) && Kept(Samples, group) == SumIn(Samples, key, events);
  }

  ghost function ScoresOver(key: Key, events: seq<UsageEvent>): real {
    if events == [] then 0.0
    else
      var e := events[|events| - 1];
      ScoresOver(key, events[..|events| - 1]) + if Belongs(e, key) && e.qualityScore != None then e.qualityScore.value else 0.0
  }

  lemma {:induction false} ScoresAdded(key: Key, events: seq<UsageEvent>)
    ensures QualityIn(key, events) == ScoresOver(key, events)
  {
    if events != [] {
      ScoresAdded(key, events[..|events| - 1]);
    }
  }

  /** The score of a row is the mean of the scores in its events to four decimals, and there is none if and only if
      there are no scores. */
  lemma ScoreIsMean(rows: seq<Row>, events: seq<UsageEvent>, i: nat)
    requires IsSummary(rows, events) && i < |rows|
    ensures var row := rows[i];
      var n := Over(row.key, Scored, events);
      && (row.qualityScore == None <==> n == 0)
      && (n > 0 ==> -0.00005 <= row.qualityScore.value - ScoresOver(row.key, events) / n as real <= 0.00005)
  {
    hide Over, QualityIn, Round4;
    var row := rows[i];
    RowSays(row.group, row.key, events);
    ScoresAdded(row.key, events);
    assert row.group.quality == QualityIn(row.key, events);
    assert row.qualityScore == Score(row.group);
  }
}
