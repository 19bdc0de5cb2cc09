// The JSON-RPC client over an agent's standard input and output: src/llm_harness/acp.py:34-74, 177-297,
// with the permission policy of src/llm_harness/mcp.py:101-128.

module AcpMessages {
  import opened Prelude
  import opened Json

  /** `strip().casefold()` of a string, and the text of a value in a message. */
  datatype Library = Library(fold: string -> string, show: Json -> string)

  /** A line from the agent as `strip` and `json.loads` see it. */
  datatype Line = Blank | Broken(text: string) | Message(message: Json)

  predicate Substring(part: string, text: string) {
    exists i | 0 <= i <= |text| :: part <= text[i..]
  }

  /** `key in message`; other values raise a TypeError. */
  predicate Mentions(message: Json, key: string) {
    match message
    case JObj(entries) => HasKey(entries, key)
    case JArr(items) => JStr(key) in items
    case JStr(text) => Substring(key, text)
    case _ => false
  }

  /** What a line is to the client. Messages that are no objects make it raise, unless they mention
      `method` and not `id`. */
  datatype Kind = Nothing | Malformed | Crash | ServerRequest | Notification | Response

  function KindOf(line: Line): Kind {
    match line
    case Blank => Nothing
    case Broken(_) => Malformed
    case Message(message) =>
      if Mentions(message, "method") && Mentions(message, "id") then (if message.JObj? then ServerRequest else Crash)
      else if Mentions(message, "method") then Notification
      else if message.JObj? then Response
      else Crash
  }

  /** Python's `==` between a value of a message and an integer. */
  predicate EqualsInt(value: Json, n: int) {
    match value
    case JInt(number) => number == n
    case JReal(decimal) => decimal == n as real
    case JBool(flag) => n == if flag then 1 else 0
    case _ => false
  }

  /** The line ends the wait of the request with this id. */
  predicate Stops(line: Line, id: int) {
    match KindOf(line)
    case Malformed => true
    case Crash => true
    case Response => EqualsInt(Get(line.message, "id"), id)
    case _ => false
  }

  /** The first line that ends the wait, or the number of lines. */
  function FirstStop(lines: seq<Line>, id: int): (n: nat)
    ensures n <= |lines| && (n < |lines| ==> Stops(lines[n], id))
    ensures forall i | 0 <= i < n :: !Stops(lines[i], id)
  {
    if lines == [] || Stops(lines[0], id) then 0 else 1 + FirstStop(lines[1..], id)
  }

  /** The messages of one kind, in order. */
  function Select(lines: seq<Line>, kind: Kind): seq<Json> {
    if lines == [] then []
    else
      var last := lines[|lines| - 1];
      Select(lines[..|lines| - 1], kind) + if last.Message? && KindOf(last) == kind then [last.message] else []
  }

  // ----- permission -----

  const ToolKinds: set<string> :=
    {"read", "edit", "delete", "move", "search", "execute", "think", "fetch", "switch_mode", "other"}

  datatype Policy = Policy(allowOnce: bool, allowedKinds: set<string>)

  predicate Allows(lib: Library, policy: Policy, kind: Json) {
    var folded := if kind.JStr? then lib.fold(kind.text) else "other";
    policy.allowOnce && (if folded in ToolKinds then folded else "other") in policy.allowedKinds
  }

  predicate IsOption(option: Json, kind: string) {
    option.JObj? && Get(option, "kind") == JStr(kind) && Get(option, "optionId").JStr?
  }

  function FirstOption(options: seq<Json>, kind: string): (r: Option<string>)
    ensures r.Some? ==> Offers(options, kind, r.value)
    ensures r.None? ==> forall i | 0 <= i < |options| :: !IsOption(options[i], kind)
  {
    if options == [] then None
    else if IsOption(options[0], kind) then Some(Get(options[0], "optionId").text)
    else
      var r := FirstOption(options[1..], kind);
      assert r.Some? ==> forall i | 0 <= i < |options[1..]| :: options[1..][i] == options[i + 1];
      r
  }

  predicate Offers(options: seq<Json>, kind: string, id: string) {
    exists i | 0 <= i < |options| :: IsOption(options[i], kind) && Get(options[i], "optionId") == JStr(id)
  }

  function OptionsOf(message: Json): seq<Json> {
    var options := Get(Get(message, "params"), "options");
    if options.JArr? then options.items else []
  }

  function ToolKind(message: Json): Json {
    Get(Get(Get(message, "params"), "toolCall"), "kind")
  }

  predicate Grants(lib: Library, policy: Policy, message: Json) {
    var options := OptionsOf(message);
    Allows(lib, policy, ToolKind(message)) && exists i | 0 <= i < |options| :: IsOption(options[i], "allow_once")
  }

  /** The option id the client selects, or None for `cancelled`. The policy fails closed: what is selected
      is an option the agent offered; it grants the call if the policy allows the tool's kind and a grant
      is on offer, and otherwise it refuses. Nothing is selected exactly if nothing of the right kind is
      on offer, where an empty id of a single refusal counts as none. */
  function Choice(lib: Library, policy: Policy, message: Json): (choice: Option<string>)
    ensures var options := OptionsOf(message);
      && (choice.Some? ==>
            if Grants(lib, policy, message) then Offers(options, "allow_once", choice.value)
            else Offers(options, "reject_once", choice.value) || Offers(options, "reject_always", choice.value))
      && (choice.None? <==>
            && !Grants(lib, policy, message)
            && (forall i | 0 <= i < |options| :: !IsOption(options[i], "reject_always"))
            && (FirstOption(options, "reject_once").None? || FirstOption(options, "reject_once") == Some("")))
  {
    var options := OptionsOf(message);
    var allow := FirstOption(options, "allow_once");
    var once := FirstOption(options, "reject_once");
    if Allows(lib, policy, ToolKind(message)) && allow.Some? then allow
    else if once.Some? && once.value != "" then once
    else FirstOption(options, "reject_always")
  }

  // ----- what the client writes -----

  function Outcome(choice: Option<string>): Json {
    match choice
    case Some(id) => JObj([Entry("outcome", JStr("selected")), Entry("optionId", JStr(id))])
    case None => JObj([Entry("outcome", JStr("cancelled"))])
  }

  function Answer(lib: Library, policy: Policy, message: Json): Json {
    var head := [Entry("jsonrpc", JStr("2.0")), Entry("id", Get(message, "id"))];
    if Get(message, "method") == JStr("session/request_permission") then
      JObj(head + [Entry("result", JObj([Entry("outcome", Outcome(Choice(lib, policy, message)))]))])
    else
      JObj(head + [Entry("error", JObj([
        Entry("code", JInt(-32601)),
        Entry("message", JStr("Unsupported ACP client request: " + lib.show(Get(message, "method"))))]))])
  }

  function Answers(lib: Library, policy: Policy, requests: seq<Json>): seq<Json> {
    seq(|requests|, k requires 0 <= k < |requests| => Answer(lib, policy, requests[k]))
  }

  /** Sections 4 and 5 of JSON-RPC 2.0: an answer carries the id of its request, has no method, and has
      either a result or an error. */
  lemma AnswerIsResponse(lib: Library, policy: Policy, message: Json)
    ensures var answer := Answer(lib, policy, message);
      && Get(answer, "jsonrpc") == JStr("2.0") && Get(answer, "id") == Get(message, "id") && !Has(answer, "method")
      && (Has(answer, "result") <==> !Has(answer, "error"))
      && (Has(answer, "result") <==> Get(message, "method") == JStr("session/request_permission"))
  {
    hide Choice, Outcome;
    var entries := Answer(lib, policy, message).entries;
    assert |entries| == 3 && entries[0].key == "jsonrpc" && entries[1].key == "id";
    assert entries[1..][0] == entries[1];
    assert Lookup(entries, "jsonrpc") == entries[0].value;
    assert Lookup(entries, "id") == Lookup(entries[1..], "id") == entries[1].value;
    assert HasKey(entries, entries[2].key);
  }

  function OwnMessage(id: Option<int>, method_: string, params: Option<Json>): Json {
    JObj(
      [Entry("jsonrpc", JStr("2.0"))]
      + (if id.Some? then [Entry("id", JInt(id.value))] else [])
      + [Entry("method", JStr(method_))]
      + (if params.Some? then [Entry("params", params.value)] else []))
  }

  // ----- text of a session -----

  /** The text a notification adds to a session. */
  function Chunk(message: Json, session: string): string {
    var params := Get(message, "params");
    var update := Get(params, "update");
    var content := Get(update, "content");
    if Get(params, "sessionId") == JStr(session) && Get(update, "sessionUpdate") == JStr("agent_message_chunk")
      && Get(content, "type") == JStr("text") && Get(content, "text").JStr?
    then Get(content, "text").text else ""
  }

  function SessionText(messages: seq<Json>, session: string): string {
    if messages == [] then ""
    else SessionText(messages[..|messages| - 1], session) + Chunk(messages[|messages| - 1], session)
  }
}

module AcpClient {
  import opened Prelude
  import opened Json
  import opened AcpMessages

  /** The lines still to be read, the messages written, the next id and the notifications kept. */
  datatype Client = Client(lines: seq<Line>, sent: seq<Json>, nextId: int, notifications: seq<Json>)

  datatype Failure = Closed | Invalid(text: string) | Failed(error: Json) | Raised

  type Reply = Result<Json, Failure>

  /** How many lines a request with this id reads. */
  function Consumed(lines: seq<Line>, id: int): (n: nat)
    ensures n <= |lines|
  {
    if FirstStop(lines, id) < |lines| then FirstStop(lines, id) + 1 else |lines|
  }

  function ReplyOf(lines: seq<Line>, id: int): Reply {
    var n := FirstStop(lines, id);
    if n == |lines| then Err(Closed)
    else
      match KindOf(lines[n])
      case Malformed => Err(Invalid(lines[n].text))
      case Response =>
        if Has(lines[n].message, "error") then Err(Failed(Get(lines[n].message, "error"))) else Ok(lines[n].message)
      case _ => Err(Raised)
  }

  /** The client after a request: it has read the shortest stretch of lines that ends in the request's own
      response (or in a line that raises, or the end), kept the notifications in that stretch, and
      answered the server's requests in it. */
  function Requested(lib: Library, policy: Policy, client: Client, method_: string, params: Option<Json>): Client {
    var id := client.nextId;
    var stretch := client.lines[..Consumed(client.lines, id)];
    Client(
      client.lines[|stretch|..],
      client.sent + [OwnMessage(Some(id), method_, params)] + Answers(lib, policy, Select(stretch, ServerRequest)),
      id + 1,
      client.notifications + Select(stretch, Notification))
  }

  lemma SelectNext(lines: seq<Line>, n: nat, kind: Kind)
    requires n < |lines|
    ensures Select(lines[..n + 1], kind) ==
      if lines[n].Message? && KindOf(lines[n]) == kind then Select(lines[..n], kind) + [lines[n].message] else Select(lines[..n], kind)
  {
    assert lines[..n + 1][..n] == lines[..n];
  }

  lemma AnswersNext(lib: Library, policy: Policy, requests: seq<Json>, request: Json)
    ensures Answers(lib, policy, requests + [request]) == Answers(lib, policy, requests) + [Answer(lib, policy, request)]
  {
  }

  lemma {:induction false} FirstStopAt(lines: seq<Line>, n: nat, id: int)
    requires n <= |lines| && (n < |lines| ==> Stops(lines[n], id)) && forall i | 0 <= i < n :: !Stops(lines[i], id)
    ensures FirstStop(lines, id) == n
  {
    if 0 < n {
      FirstStopAt(lines[1..], n - 1, id);
    }
  }

  class JsonRpcStdioClient {
    const lib: Library
    const policy: Policy
    var lines: seq<Line>
    var sent: seq<Json>
    var nextId: int
    var notifications: seq<Json>

    ghost function Contents(): Client
      reads this
    {
      Client(lines, sent, nextId, notifications)
    }

    constructor (lib: Library, policy: Policy, lines: seq<Line>, nextId: int)
      ensures this.lib == lib && this.policy == policy && Contents() == Client(lines, [], nextId, [])
    {
      this.lib, this.policy, this.lines, this.nextId := lib, policy, lines, nextId;
      sent, notifications := [], [];
    }

    method Request(method_: string, params: Option<Json>) returns (reply: Reply)
      modifies this
      ensures Contents() == Requested(lib, policy, old(Contents()), method_, params)
      ensures reply == ReplyOf(old(lines), old(nextId))
    {
      var id := nextId;
      nextId := nextId + 1;
      sent := sent + [OwnMessage(Some(id), method_, params)];
      reply := ReadResponse(id);
    }

    /** `_read_response` */
    method ReadResponse(expected: int) returns (reply: Reply)
      modifies this`lines, this`sent, this`notifications
      ensures reply == ReplyOf(old(lines), expected)
      ensures var stretch := old(lines)[..Consumed(old(lines), expected)];
        && lines == old(lines)[|stretch|..]
        && sent == old(sent) + Answers(lib, policy, Select(stretch, ServerRequest))
        && notifications == old(notifications) + Select(stretch, Notification)
    {
      ghost var all := lines;
      ghost var n := 0;
      hide Answer, Select, Mentions, KindOf, EqualsInt, FirstStop;
      NothingSelected();
      while lines != []
        invariant n <= |all| && lines == all[n..]
        invariant forall i | 0 <= i < n :: !Stops(all[i], expected)
        invariant sent == old(sent) + Answers(lib, policy, Select(all[..n], ServerRequest))
        invariant notifications == old(notifications) + Select(all[..n], Notification)
        decreases |lines|
      {
        var line := lines[0];
        lines := lines[1..];
        SelectNext(all, n, ServerRequest);
        SelectNext(all, n, Notification);
        match KindOf(line) {
          case Malformed =>
            FirstStopAt(all, n, expected);
            KindShape(line);
            return Err(Invalid(line.text));
          case Crash =>
            FirstStopAt(all, n, expected);
            return Err(Raised);
          case ServerRequest =>
            KindShape(line);
            AnswersNext(lib, policy, Select(all[..n], ServerRequest), line.message);
            sent := sent + [Answer(lib, policy, line.message)];
          case Notification =>
            KindShape(line);
            notifications := notifications + [line.message];
          case Response =>
            KindShape(line);
            if EqualsInt(Get(line.message, "id"), expected) {
              FirstStopAt(all, n, expected);
              if Has(line.message, "error") {
                return Err(Failed(Get(line.message, "error")));
              }
              return Ok(line.message);
            }
          case Nothing =>
        }
        n := n + 1;
      }
      FirstStopAt(all, n, expected);
      return Err(Closed);
    }

    method Notify(method_: string, params: Option<Json>)
      modifies this`sent
      ensures sent == old(sent) + [OwnMessage(None, method_, params)]
    {
      sent := sent + [OwnMessage(None, method_, params)];
    }

    /** The text of a session, or None where a kept message that is no object makes the loop raise. */
    method AgentText(session: string) returns (text: Option<string>)
      ensures text.Some? <==> forall message | message in notifications :: message.JObj?
      ensures text.Some? ==> text.value == SessionText(notifications, session)
    {
      hide Get, Chunk, SessionText;
      assert notifications[..0] == [];
      NoText(session);
      var chunks := "";
      for k := 0 to |notifications|
        invariant forall i | 0 <= i < k :: notifications[i].JObj?
        invariant chunks == SessionText(notifications[..k], session)
      {
        var message := notifications[k];
        TextNext(notifications, k, session);
        if !message.JObj? {
          return None;
        }
        var params := Get(message, "params");
        if !params.JObj? || Get(params, "sessionId") != JStr(session) {
          continue;
        }
        var update := Get(params, "update");
        if !update.JObj? || Get(update, "sessionUpdate") != JStr("agent_message_chunk") {
          continue;
        }
        var content := Get(update, "content");
        if content.JObj? && Get(content, "type") == JStr("text") && Get(content, "text").JStr? {
          chunks := chunks + Get(content, "text").text;
        }
      }
      assert notifications[..|notifications|] == notifications;
      return Some(chunks);
    }
  }

  lemma NoText(session: string)
    ensures SessionText([], session) == ""
  {
  }

  lemma TextNext(messages: seq<Json>, k: nat, session: string)
    requires k < |messages|
    ensures SessionText(messages[..k + 1], session) == SessionText(messages[..k], session) + Chunk(messages[k], session)
    ensures var params := Get(messages[k], "params");
      var update := Get(params, "update");
      var content := Get(update, "content");
      Chunk(messages[k], session) ==
        if !params.JObj? || Get(params, "sessionId") != JStr(session) then ""
        else if !update.JObj? || Get(update, "sessionUpdate") != JStr("agent_message_chunk") then ""
        else if content.JObj? && Get(content, "type") == JStr("text") && Get(content, "text").JStr? then Get(content, "text").text
        else ""
  {
    assert messages[..k + 1][..k] == messages[..k];
  }

  lemma NothingSelected()
    ensures Select([], ServerRequest) == [] && Select([], Notification) == []
  {
  }

  lemma KindShape(line: Line)
    ensures KindOf(line) == Malformed <==> line.Broken?
    ensures KindOf(line) in {ServerRequest, Notification, Response} ==> line.Message?
  {
  }
}
