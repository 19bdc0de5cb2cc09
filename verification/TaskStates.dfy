/** What state an agent's object is in, read off its fields. */
module TaskStates {
  import opened Prelude
  import opened Json
  import opened StreamFold

  /** The object an event carries: the first of its four kinds that is an object, or the event itself. */
  ghost predicate CarriesEvent(event: Json, value: Json) {
    value ==
      if Get(event, "task").JObj? then Get(event, "task")
      else if Get(event, "message").JObj? then Get(event, "message")
      else if Get(event, "statusUpdate").JObj? then Get(event, "statusUpdate")
      else if Get(event, "artifactUpdate").JObj? then Get(event, "artifactUpdate")
      else event
  }

  /** The object a reply carries. */
  ghost predicate CarriesReply(reply: Json, value: Json) {
    value ==
      if Get(reply, "task").JObj? then Get(reply, "task")
      else if Get(reply, "message").JObj? then Get(reply, "message")
      else reply
  }

  /** The text that tells the state: that in the `status` if it is an object, whatever the object's own `state`
      is, and otherwise its own. */
  ghost predicate StateText(value: Json, text: string) {
    JStr(text) == if Get(value, "status").JObj? then Get(Get(value, "status"), "state") else Get(value, "state")
  }

  /** The prefix of the protocol's state names occurs nowhere in the text. */
  ghost predicate Unprefixed(text: string) {
    forall i | 0 <= i <= |text| :: !("TASK_STATE_" <= text[i..])
  }

  /** The object is in state `s`, named with or without the prefix and in any case. */
  ghost predicate ShowsState(lib: Library, value: Json, s: string) {
    && s != "" && Unprefixed(s)
    && exists text :: StateText(value, text) && (lib.upper(text) == s || lib.upper(text) == "TASK_STATE_" + s)
  }

  /** An object with parts, or in the role of an agent. */
  ghost predicate IsMessage(lib: Library, value: Json) {
    || Get(value, "parts").JArr?
    || exists role :: Get(value, "role") == JStr(role) && (lib.upper(role) == "AGENT" || lib.upper(role) == "ROLE_AGENT")
  }

  lemma {:induction false} NothingToStrip(text: string)
    requires Unprefixed(text)
    ensures WithoutPrefix(text) == text
    decreases |text|
  {
    if text != "" {
      assert text[0..] == text;
      assert forall i | 0 <= i <= |text[1..]| :: text[1..][i..] == text[i + 1..];
      NothingToStrip(text[1..]);
      assert [text[0]] + text[1..] == text;
    }
  }

  lemma StripPrefix(s: string)
    requires Unprefixed(s)
    ensures WithoutPrefix("TASK_STATE_" + s) == s
  {
    NothingToStrip(s);
    assert ("TASK_STATE_" + s)[|Prefix|..] == s;
  }

  lemma ShownIsRead(lib: Library, value: Json, s: string)
    requires ShowsState(lib, value, s)
    ensures TaskState(lib, value) == s
  {
    NothingToStrip(s);
    StripPrefix(s);
  }

  lemma UnwrapNext(value: Json, key: string, rest: seq<string>)
    ensures Unwrap(value, [key] + rest) == if Get(value, key).JObj? then Get(value, key) else Unwrap(value, rest)
  {
    assert ([key] + rest)[1..] == rest;
  }

  lemma CarriedIsUnwrapped(event: Json, value: Json)
    ensures CarriesEvent(event, value) <==> value == Unwrap(event, EventKeys)
    ensures CarriesReply(event, value) <==> value == Unwrap(event, ["task", "message"])
  {
    assert EventKeys == ["task"] + (["message"] + (["statusUpdate"] + (["artifactUpdate"] + [])));
    assert ["task", "message"] == ["task"] + (["message"] + []);
    assert Unwrap(event, []) == event;
    hide Get, Unwrap, EventKeys;
    UnwrapNext(event, "artifactUpdate", []);
    UnwrapNext(event, "statusUpdate", ["artifactUpdate"] + []);
    UnwrapNext(event, "message", ["statusUpdate"] + (["artifactUpdate"] + []));
    UnwrapNext(event, "task", ["message"] + (["statusUpdate"] + (["artifactUpdate"] + [])));
    UnwrapNext(event, "message", []);
    UnwrapNext(event, "task", ["message"] + []);
  }

  /** The last event carries an object in state `s`. */
  ghost predicate EndsIn(lib: Library, events: seq<Json>, s: string) {
    events != [] && exists value :: CarriesEvent(events[|events| - 1], value) && ShowsState(lib, value, s)
  }

  /** A stream is in the state that its last event shows. */
  lemma StreamIsInStateShown(lib: Library, events: seq<Json>, s: string)
    requires EndsIn(lib, events, s)
    ensures Fold(ReadingOf(lib), events).state == s
  {
    var event := events[|events| - 1];
    var value :| CarriesEvent(event, value) && ShowsState(lib, value, s);
    ShownIsRead(lib, value, s);
    CarriedIsUnwrapped(event, value);
    hide Unwrap, TaskState, ShowsState, CarriesEvent;
    assert EventState(lib, event) == s;
    LastStateShown(lib, events);
  }

  lemma LastStateShown(lib: Library, events: seq<Json>)
    requires events != [] && EventState(lib, events[|events| - 1]) != ""
    ensures Fold(ReadingOf(lib), events).state == EventState(lib, events[|events| - 1])
  {
    hide EventState, Gather, LastTask, DistinctTexts;
  }

  /** An object without a text for its state counts as completed exactly if it is a message. */
  lemma NoStateText(lib: Library, value: Json)
    requires forall text :: !StateText(value, text)
    ensures TaskState(lib, value) == if IsMessage(lib, value) then "COMPLETED" else ""
  {
    var state := if Get(value, "status").JObj? then Get(Get(value, "status"), "state") else Get(value, "state");
    if state.JStr? {
      assert StateText(value, state.text);
    }
  }

  /** So one event without a text for its state completes a stream if and only if it is a message; an event that
      is none leaves the stream as it was. */
  lemma MessageCompletesExactlyWhen(lib: Library, events: seq<Json>, event: Json)
    requires CarriesEvent(event, event) && forall text :: !StateText(event, text)
    ensures IsMessage(lib, event) ==> Fold(ReadingOf(lib), events + [event]).state == "COMPLETED"
    ensures !IsMessage(lib, event) ==> LastState(ReadingOf(lib), events + [event]) == LastState(ReadingOf(lib), events)
  {
    NoStateText(lib, event);
    CarriedIsUnwrapped(event, event);
    assert (events + [event])[..|events|] == events;
    hide Unwrap, TaskState, CarriesEvent, IsMessage;
    if IsMessage(lib, event) {
      LastStateShown(lib, events + [event]);
    }
  }
}
