/** Replayed events, whatever the fold reads from each. */
module StreamReplay {
  import opened Prelude
  import opened Json
  import opened Deduplication
  import opened StreamFold

  lemma {:induction false} GatherConcat<T>(pick: Json -> seq<T>, a: seq<Json>, b: seq<Json>)
    ensures Gather(pick, a + b) == Gather(pick, a) + Gather(pick, b)
  {
    if b == [] {
      assert a + b == a;
    } else {
      assert (a + b)[..|a + b| - 1] == a + b[..|b| - 1];
      GatherConcat(pick, a, b[..|b| - 1]);
    }
  }

  lemma {:induction false} NonEmptiesConcat(a: seq<string>, b: seq<string>)
    ensures NonEmpties(a + b) == NonEmpties(a) + NonEmpties(b)
  {
    if b == [] {
      assert a + b == a;
    } else {
      assert (a + b)[..|a + b| - 1] == a + b[..|b| - 1];
      NonEmptiesConcat(a, b[..|b| - 1]);
    }
  }

  lemma {:induction false} LastConcat(reading: Reading, a: seq<Json>, b: seq<Json>)
    ensures LastTask(reading, a + b) == if LastTask(reading, b).Some? then LastTask(reading, b) else LastTask(reading, a)
    ensures LastState(reading, a + b) == if LastState(reading, b) != "" then LastState(reading, b) else LastState(reading, a)
  {
    if b == [] {
      assert a + b == a;
    } else {
      assert (a + b)[..|a + b| - 1] == a + b[..|b| - 1];
      LastConcat(reading, a, b[..|b| - 1]);
    }
  }

  /** Whatever is gathered from an event of `items` is gathered from `items`. */
  lemma {:induction false} Gathered<T(!new)>(pick: Json -> seq<T>, items: seq<Json>, item: Json)
    requires item in items
    ensures forall x | x in pick(item) :: x in Gather(pick, items)
  {
    if item in items[..|items| - 1] {
      Gathered(pick, items[..|items| - 1], item);
    }
  }

  lemma {:induction false} GatheredAll<T(!new)>(pick: Json -> seq<T>, items: seq<Json>, copies: seq<Json>)
    requires forall item | item in copies :: item in items
    ensures forall x | x in Gather(pick, copies) :: x in Gather(pick, items)
  {
    if copies != [] {
      GatheredAll(pick, items, copies[..|copies| - 1]);
      Gathered(pick, items, copies[|copies| - 1]);
    }
  }

  lemma {:induction false} NonEmptiesKeep(texts: seq<string>)
    ensures forall t :: t in NonEmpties(texts) <==> t in texts && t != ""
  {
    if texts != [] {
      NonEmptiesKeep(texts[..|texts| - 1]);
      assert texts == texts[..|texts| - 1] + [texts[|texts| - 1]];
    }
  }

  lemma DistinctIgnores<T(!new), K>(key: T -> K, a: seq<T>, b: seq<T>, c: seq<T>)
    requires forall x | x in b :: x in a
    ensures Distinct(key, a + b + c) == Distinct(key, a + c)
  {
    forall i | 0 <= i < |b| ensures KeyIn(key, a, key(b[i])) {
      assert b[i] in a;
    }
    DistinctSkips(key, a, b, c);
  }

  /** Copies of earlier events, put in anywhere, leave the texts and the data as they are. */
  lemma ReplayKeepsContent(reading: Reading, before: seq<Json>, copies: seq<Json>, rest: seq<Json>)
    requires forall event | event in copies :: event in before
    ensures Fold(reading, before + copies + rest).texts == Fold(reading, before + rest).texts
    ensures Fold(reading, before + copies + rest).data == Fold(reading, before + rest).data
  {
    ReplayGathers(reading.texts, before, copies, rest);
    ReplayGathers(reading.data, before, copies, rest);
    var a, b, c := Gather(reading.texts, before), Gather(reading.texts, copies), Gather(reading.texts, rest);
    NonEmptiesConcat(a, b);
    NonEmptiesConcat(a + b, c);
    NonEmptiesConcat(a, c);
    NonEmptiesKeep(a);
    NonEmptiesKeep(b);
    assert DistinctTexts(a + b + c) == DistinctTexts(a + c) by {
      DistinctIgnores(Itself, NonEmpties(a), NonEmpties(b), NonEmpties(c));
    }
    DistinctIgnores(reading.identity, Gather(reading.data, before), Gather(reading.data, copies), Gather(reading.data, rest));
  }

  lemma ReplayGathers<T(!new)>(pick: Json -> seq<T>, before: seq<Json>, copies: seq<Json>, rest: seq<Json>)
    requires forall event | event in copies :: event in before
    ensures Gather(pick, before + copies + rest) == Gather(pick, before) + Gather(pick, copies) + Gather(pick, rest)
    ensures Gather(pick, before + rest) == Gather(pick, before) + Gather(pick, rest)
    ensures forall x | x in Gather(pick, copies) :: x in Gather(pick, before)
  {
    GatherConcat(pick, before, copies);
    GatherConcat(pick, before + copies, rest);
    GatherConcat(pick, before, rest);
    GatheredAll(pick, before, copies);
  }

  /** The copies change neither the last state nor the last task: either later events name them again, or
      the copies name none, or the same as the events before. */
  predicate Harmless(reading: Reading, before: seq<Json>, copies: seq<Json>, rest: seq<Json>) {
    && (LastState(reading, rest) != "" || LastState(reading, copies) in {"", LastState(reading, before)})
    && (LastTask(reading, rest).Some? || LastTask(reading, copies) in {None, LastTask(reading, before)})
  }

  lemma {:induction false} CopiesNameNothingNew(reading: Reading, before: seq<Json>, copies: seq<Json>)
    requires forall event | event in copies :: event in before
    ensures LastState(reading, copies) != "" ==> LastState(reading, before) != ""
    ensures LastTask(reading, copies).Some? ==> LastTask(reading, before).Some?
  {
    if copies != [] {
      CopiesNameNothingNew(reading, before, copies[..|copies| - 1]);
      NamedOnce(reading, before, copies[|copies| - 1]);
    }
  }

  lemma {:induction false} NamedOnce(reading: Reading, events: seq<Json>, event: Json)
    requires event in events
    ensures reading.state(event) != "" ==> LastState(reading, events) != ""
    ensures reading.task(event).Some? ==> LastTask(reading, events).Some?
  {
    if event in events[..|events| - 1] {
      NamedOnce(reading, events[..|events| - 1], event);
    }
  }

  /** The state and the task of a replayed stream change exactly when the copies are not harmless. */
  lemma ReplayKeepsResult(reading: Reading, before: seq<Json>, copies: seq<Json>, rest: seq<Json>)
    requires forall event | event in copies :: event in before
    ensures Fold(reading, before + copies + rest) == Fold(reading, before + rest) <==> Harmless(reading, before, copies, rest)
  {
    hide Gather, LastTask, LastState, Distinct, DistinctTexts;
    ReplayKeepsContent(reading, before, copies, rest);
    ReplayGathers(reading.texts, before, copies, rest);
    ReplayGathers(reading.data, before, copies, rest);
    LastConcat(reading, before, copies);
    LastConcat(reading, before + copies, rest);
    LastConcat(reading, before, rest);
    CopiesNameNothingNew(reading, before, copies);
    SameEmptiness(Gather(reading.texts, before), Gather(reading.texts, copies));
    SameEmptiness(Gather(reading.data, before), Gather(reading.data, copies));
  }

  lemma SameEmptiness<T(!new)>(a: seq<T>, b: seq<T>)
    requires forall x | x in b :: x in a
    ensures a == [] ==> b == []
  {
    if b != [] {
      assert b[0] in a;
    }
  }

  /** Replaying any latest part of the stream, before any continuation, changes nothing at all: an agent
      may answer a new subscription by repeating what it has sent. */
  lemma ReplayOfRecentEvents(reading: Reading, older: seq<Json>, recent: seq<Json>, rest: seq<Json>)
    ensures Fold(reading, older + recent + recent + rest) == Fold(reading, older + recent + rest)
  {
    LastConcat(reading, older, recent);
    ReplayKeepsResult(reading, older + recent, recent, rest);
  }

  /** Folding is idempotent. */
  lemma FoldTwice(reading: Reading, events: seq<Json>)
    ensures Fold(reading, events + events) == Fold(reading, events)
  {
    ReplayKeepsResult(reading, events, events, []);
    assert events + events + [] == events + events && events + [] == events;
  }

  /** An older event that comes again can take a finished task back to work. */
  lemma ReplayCanUndoCompletion(lib: Library) returns (working: Json, done: Json)
    requires lib.upper("WORKING") == "WORKING" && lib.upper("COMPLETED") == "COMPLETED"
    ensures Fold(ReadingOf(lib), [working, done]).state == "COMPLETED"
    ensures Fold(ReadingOf(lib), [working, done, working]).state == "WORKING"
  {
    working, done := Report("WORKING"), Report("COMPLETED");
    ReportState(lib, "WORKING");
    ReportState(lib, "COMPLETED");
    var reading := ReadingOf(lib);
    LastOfSome(reading, [working], done);
    LastOfSome(reading, [working, done], working);
    assert [working] + [done] == [working, done] && [working, done] + [working] == [working, done, working];
  }

  function Report(state: string): Json {
    JObj([Entry("id", JStr("t")), Entry("state", JStr(state))])
  }

  lemma LastOfSome(reading: Reading, events: seq<Json>, event: Json)
    ensures reading.state(event) != "" ==> LastState(reading, events + [event]) == reading.state(event)
  {
    assert (events + [event])[..|events|] == events;
  }

  lemma ReportState(lib: Library, state: string)
    requires lib.upper(state) == state && state in {"WORKING", "COMPLETED"}
    ensures ReadingOf(lib).state(Report(state)) == state
  {
    var event := Report(state);
    var entries := event.entries;
    assert forall key | key in EventKeys + ["status"] :: !HasKey(entries, key);
    assert Unwrap(event, EventKeys) == event;
    assert entries[1..] == [Entry("state", JStr(state))];
    assert Get(event, "state") == JStr(state);
    NoPrefix(state);
  }

  lemma NoPrefix(state: string)
    requires state in {"WORKING", "COMPLETED"}
    ensures WithoutPrefix(state) == state
  {
    ShortText(state);
  }

  lemma {:induction false} ShortText(text: string)
    requires |text| < |Prefix|
    ensures WithoutPrefix(text) == text
  {
    if text != "" {
      ShortText(text[1..]);
    }
  }
}
