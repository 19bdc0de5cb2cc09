// The three ways an A2A client waits for an answer: src/llm_harness/a2a.py:339-421 and 477-497.
// What the agent and the network do is given as data: the two event streams, the answers to the polls
// that come before the deadline, and what each wait on the push inbox returns before the deadline.

module SendMessage {
  import opened Prelude
  import opened Json
  import opened StreamFold
  import opened StreamReplay
  import opened TaskStates

  const Failing: set<string> := {"FAILED", "CANCELED", "CANCELLED", "REJECTED"}
  const Terminal: set<string> := {"COMPLETED", "FAILED", "CANCELED", "CANCELLED", "REJECTED"}

  datatype SendError = Network(detail: string) | EndedIn(state: string) | StreamEnded | TimedOut

  type Answer = Result<Outcome, SendError>

  /** An identified task that has not reached a terminal state. */
  predicate Unfinished(outcome: Outcome) {
    outcome.task.Some? && outcome.state !in Terminal
  }

  /** What no caller may be handed: a failure, or a task that is not complete. */
  predicate Presentable(outcome: Outcome) {
    outcome.state !in Failing && (outcome.task.Some? ==> outcome.state == "COMPLETED")
  }

  // ----- streaming -----

  /** The events a streaming call acts on: those of the first stream, and those of a second one if the
      first leaves its task unfinished. */
  function EventsUsed(reading: Reading, first: seq<Json>, again: Result<seq<Json>, SendError>): Result<seq<Json>, SendError> {
    if !Unfinished(Fold(reading, first)) then Ok(first)
    else if again.Err? then again
    else Ok(first + again.value)
  }

  /** `_send_streaming` */
  method SendStreaming(lib: Library, first: Result<seq<Json>, SendError>, again: Result<seq<Json>, SendError>)
    returns (answer: Answer)
    ensures first.Err? ==> answer == Err(first.error)
    ensures first.Ok? ==>
      match EventsUsed(ReadingOf(lib), first.value, again)
      case Err(error) => answer == Err(error)
      case Ok(events) =>
        var outcome := Fold(ReadingOf(lib), events);
        && (answer.Ok? <==> Presentable(outcome))
        && (answer.Ok? ==> answer.value == outcome)
        && (answer.Err? ==> answer.error == if outcome.state in Failing then EndedIn(outcome.state) else StreamEnded)
    ensures first.Ok? && EndsIn(lib, first.value, "COMPLETED") ==> answer == Ok(Fold(ReadingOf(lib), first.value))
    ensures forall s | s in ["FAILED", "CANCELED", "CANCELLED", "REJECTED"] && first.Ok? && EndsIn(lib, first.value, s) ::
      answer == Err(EndedIn(s))
    ensures forall s | first.Ok? && again.Ok? && Unfinished(Fold(ReadingOf(lib), first.value)) && EndsIn(lib, first.value + again.value, s) ::
      && (s == "COMPLETED" ==> answer.Ok?)
      && (s in ["FAILED", "CANCELED", "CANCELLED", "REJECTED"] ==> answer == Err(EndedIn(s)))
  {
    hide Fold, EndsIn;
    ShownStates(lib);
    if first.Err? {
      return Err(first.error);
    }
    var events := first.value;
    var outcome := StreamResult(lib, events);
    if outcome.task.Some? && outcome.state !in Terminal {
      if again.Err? {
        return Err(again.error);
      }
      events := events + again.value;
      outcome := StreamResult(lib, events);
    }
    if outcome.state in Failing {
      return Err(EndedIn(outcome.state));
    }
    if outcome.task.Some? && outcome.state !in Terminal {
      return Err(StreamEnded);
    }
    return Ok(outcome);
  }

  lemma ShownStates(lib: Library)
    ensures forall events, s | EndsIn(lib, events, s) :: Fold(ReadingOf(lib), events).state == s
  {
    forall events, s | EndsIn(lib, events, s) ensures Fold(ReadingOf(lib), events).state == s {
      StreamIsInStateShown(lib, events, s);
    }
  }

  lemma ShownReplies(lib: Library)
    ensures forall value, s | ShowsState(lib, value, s) :: TaskState(lib, value) == s
    ensures forall reply, value :: CarriesReply(reply, value) <==> value == Unwrap(reply, MessageKeys)
  {
    forall value, s | ShowsState(lib, value, s) ensures TaskState(lib, value) == s {
      ShownIsRead(lib, value, s);
    }
    forall reply, value ensures CarriesReply(reply, value) <==> value == Unwrap(reply, MessageKeys) {
      CarriedIsUnwrapped(reply, value);
    }
  }

  /** An agent that answers the second subscription by repeating any latest part of the first stream and
      then going on is understood as if it had sent one stream. */
  lemma ResubscriptionIsSeamless(reading: Reading, older: seq<Json>, recent: seq<Json>, rest: seq<Json>)
    requires Unfinished(Fold(reading, older + recent))
    ensures
      var used := EventsUsed(reading, older + recent, Ok(recent + rest));
      used.Ok? && Fold(reading, used.value) == Fold(reading, older + recent + rest)
  {
    hide Fold;
    ReplayOfRecentEvents(reading, older, recent, rest);
    assert older + recent + (recent + rest) == older + recent + recent + rest;
  }

  // ----- polling -----

  const MessageKeys: seq<string> := ["task", "message"]

  /** The payload after `k` polls. */
  function Payload(first: Json, answers: seq<Result<Json, SendError>>, k: nat): Json
    requires k <= |answers| && (k > 0 ==> answers[k - 1].Ok?)
  {
    Unwrap(if k == 0 then first else answers[k - 1].value, MessageKeys)
  }

  /** The task is identified and neither the first answer nor the next `k - 1` polls reached an end. */
  predicate Polling(lib: Library, first: Json, answers: seq<Result<Json, SendError>>, k: nat) {
    && k <= |answers|
    && (forall j | 0 <= j < k - 1 :: answers[j].Ok?)
    && (k > 0 ==> TaskId(Unwrap(first, MessageKeys)).Some?)
    && (forall j | 0 <= j < k :: TaskState(lib, Payload(first, answers, j)) !in Terminal)
  }

  function Final(lib: Library, payload: Json, task: Option<string>): Outcome {
    var state := TaskState(lib, payload);
    Outcome(Texts(payload), Data(payload), task, if state == "" then "COMPLETED" else state)
  }

  /** The loop of `_send_message_non_streaming`: it stops at the first poll that fails or shows the task
      at an end, and at the deadline if there is none. */
  method SendAndPoll(lib: Library, first: Json, answers: seq<Result<Json, SendError>>) returns (answer: Answer, polls: nat)
    ensures Polling(lib, first, answers, polls)
    ensures polls > 0 && answers[polls - 1].Err? ==> answer == Err(answers[polls - 1].error)
    ensures polls == 0 || answers[polls - 1].Ok? ==>
      var payload, task := Payload(first, answers, polls), TaskId(Unwrap(first, MessageKeys));
      var state := TaskState(lib, payload);
      if state in Failing then answer == Err(EndedIn(state))
      else if task.Some? && state !in Terminal then polls == |answers| && answer == Err(TimedOut)
      else answer == Ok(Final(lib, payload, task)) && Presentable(answer.value)
    ensures forall value | CarriesReply(first, value) && ShowsState(lib, value, "COMPLETED") ::
      polls == 0 && answer == Ok(Outcome(Texts(value), Data(value), TaskId(value), "COMPLETED"))
    ensures forall value, s | CarriesReply(first, value) && ShowsState(lib, value, s) && s in ["FAILED", "CANCELED", "CANCELLED", "REJECTED"] ::
      polls == 0 && answer == Err(EndedIn(s))
    ensures forall value, s | polls > 0 && answers[polls - 1].Ok? && CarriesReply(answers[polls - 1].value, value) && ShowsState(lib, value, s) ::
      && (s == "COMPLETED" ==> answer == Ok(Outcome(Texts(value), Data(value), TaskId(Unwrap(first, MessageKeys)), s)))
      && (s in ["FAILED", "CANCELED", "CANCELLED", "REJECTED"] ==> answer == Err(EndedIn(s)))
  {
    ShownReplies(lib);
    hide Unwrap, TaskId, TaskState, Texts, Data, ShowsState, CarriesReply;
    var payload := Unwrap(first, MessageKeys);
    var task := TaskId(payload);
    var state := TaskState(lib, payload);
    polls := 0;
    while task.Some? && state !in Terminal
      invariant polls <= |answers| && forall j | 0 <= j < polls :: answers[j].Ok?
      invariant Polling(lib, first, answers, polls)
      invariant payload == Payload(first, answers, polls) && state == TaskState(lib, payload)
      decreases |answers| - polls
    {
      if polls == |answers| {
        return Err(TimedOut), polls;
      }
      polls := polls + 1;
      if answers[polls - 1].Err? {
        return Err(answers[polls - 1].error), polls;
      }
      payload := Unwrap(answers[polls - 1].value, MessageKeys);
      state := TaskState(lib, payload);
    }
    if state in Failing {
      return Err(EndedIn(state)), polls;
    }
    var texts := ExtractTexts(payload);
    var data := ExtractData(payload);
    return Ok(Outcome(texts, data, task, if state == "" then "COMPLETED" else state)), polls;
  }

  // ----- push -----

  /** Everything the first waits returned. */
  function Received(batches: seq<seq<Json>>): seq<Json> {
    if batches == [] then [] else Received(batches[..|batches| - 1]) + batches[|batches| - 1]
  }

  /** After none of the first `k` waits was the task at an end. */
  predicate Waiting(lib: Library, batches: seq<seq<Json>>, k: nat) {
    k <= |batches| && forall j | 0 <= j <= k :: Fold(ReadingOf(lib), Received(batches[..j])).state !in Terminal
  }

  /** Events that end in an object which shows the task completed give an answer, and those that end in one which
      shows a failure give that as the error. */
  ghost predicate AnswersShown(lib: Library, events: seq<Json>, answer: Answer) {
    && (EndsIn(lib, events, "COMPLETED") ==> answer.Ok?)
    && forall s | s in ["FAILED", "CANCELED", "CANCELLED", "REJECTED"] && EndsIn(lib, events, s) :: answer == Err(EndedIn(s))
  }

  lemma ShownIsAnswered(lib: Library, events: seq<Json>, answer: Answer)
    requires var outcome := Fold(ReadingOf(lib), events);
      if outcome.state in Failing then answer == Err(EndedIn(outcome.state))
      else if outcome.state == "COMPLETED" then answer == Ok(outcome)
      else answer == Err(TimedOut)
    ensures AnswersShown(lib, events, answer)
  {
    ShownStates(lib);
    hide Fold, EndsIn;
  }

  /** `_wait_for_push`: the outcome of everything received up to the first wait after which the task is
      at an end. */
  method WaitForPush(lib: Library, batches: seq<seq<Json>>) returns (answer: Answer, waits: nat)
    ensures waits <= |batches|
    ensures waits > 0 ==> Waiting(lib, batches, waits - 1)
    ensures
      var outcome := Fold(ReadingOf(lib), Received(batches[..waits]));
      if outcome.state in Failing then answer == Err(EndedIn(outcome.state))
      else if outcome.state == "COMPLETED" then answer == Ok(outcome)
      else waits == |batches| && answer == Err(TimedOut)
    ensures AnswersShown(lib, Received(batches[..waits]), answer)
  {
    var events: seq<Json> := [];
    waits := 0;
    hide Fold, Received, ReadingOf, AnswersShown;
    NothingFolded(lib);
    assert batches[..0] == [];
    while waits < |batches|
      invariant waits <= |batches| && events == Received(batches[..waits])
      invariant Waiting(lib, batches, waits)
    {
      ReceivedNext(batches, waits);
      events := events + batches[waits];
      waits := waits + 1;
      if events != [] {
        var outcome := StreamResult(lib, events);
        if outcome.state in Terminal {
          ShownIsAnswered(lib, events, if outcome.state in Failing then Err(EndedIn(outcome.state)) else Ok(outcome));
          if outcome.state in Failing {
            return Err(EndedIn(outcome.state)), waits;
          }
          return Ok(outcome), waits;
        }
      }
    }
    ShownIsAnswered(lib, events, Err(TimedOut));
    return Err(TimedOut), waits;
  }

  lemma ReceivedNext(batches: seq<seq<Json>>, waits: nat)
    requires waits < |batches|
    ensures Received(batches[..waits + 1]) == Received(batches[..waits]) + batches[waits]
  {
    assert batches[..waits + 1][..waits] == batches[..waits];
  }

  lemma NothingFolded(lib: Library)
    ensures Received([]) == [] && Fold(ReadingOf(lib), []).state == ""
  {
  }

  // ----- all of them -----

  /** The part of `send_message` after discovery. `push` tells that a callback URL and an inbox are there. */
  method Send(
    lib: Library, streaming: bool, push: bool, first: Result<seq<Json>, SendError>, again: Result<seq<Json>, SendError>,
    reply: Result<Json, SendError>, answers: seq<Result<Json, SendError>>, batches: seq<seq<Json>>)
    returns (answer: Answer)
    ensures answer.Ok? ==> Presentable(answer.value)
    ensures answer.Ok? && !streaming && push && reply.Ok? ==>
      var payload := Unwrap(reply.value, MessageKeys);
      answer.value.state == "COMPLETED" || (TaskId(payload).None? && answer.value == Final(lib, payload, None))
  {
    if streaming {
      answer := SendStreaming(lib, first, again);
      return;
    }
    if reply.Err? {
      return Err(reply.error);
    }
    var payload := Unwrap(reply.value, MessageKeys);
    if push && TaskId(payload).Some? && TaskState(lib, payload) !in Terminal {
      var waits;
      answer, waits := WaitForPush(lib, batches);
      return;
    }
    var polls;
    answer, polls := SendAndPoll(lib, reply.value, answers);
  }
}
