/** What lines, replies, permissions and messages of the client are, read off their fields. */
module AcpMeaning {
  import opened Prelude
  import opened Json
  import opened AcpMessages
  import opened AcpClient

  ghost predicate IsOptionOf(option: Json, kind: string, id: string) {
    option.JObj? && Get(option, "kind") == JStr(kind) && Get(option, "optionId") == JStr(id)
  }

  /** `key in message` for an object, a list and a text. */
  lemma MentionsExactlyWhen(message: Json, key: string)
    ensures Mentions(message, key) <==>
      || (message.JObj? && exists i :: 0 <= i < |message.entries| && message.entries[i].key == key)
      || (message.JArr? && exists i :: 0 <= i < |message.items| && message.items[i] == JStr(key))
      || (message.JStr? && exists i, j :: 0 <= i <= j <= |message.text| && message.text[i..j] == key)
  {
    if message.JStr? {
      var text := message.text;
      if i :| 0 <= i <= |text| && key <= text[i..] {
        assert text[i..][..|key|] == text[i..i + |key|];
      }
      if i, j :| 0 <= i <= j <= |text| && text[i..j] == key {
        assert text[i..][..j - i] == text[i..j];
      }
    }
  }

  /** Numbers and booleans are compared as Python does: 1 == 1.0 == True. */
  lemma EqualsIntExactlyWhen(value: Json, n: int)
    ensures EqualsInt(value, n) <==>
      || value == JInt(n) || value == JReal(n as real)
      || (value == JBool(true) && n == 1) || (value == JBool(false) && n == 0)
  {
  }

  /** The kinds of objects: a method and an id make a request of the server, a method alone a notification, and
      anything else is a response. */
  lemma KindOfObject(message: Json)
    requires message.JObj?
    ensures KindOf(Message(message)) == ServerRequest <==> Has(message, "method") && Has(message, "id")
    ensures KindOf(Message(message)) == Notification <==> Has(message, "method") && !Has(message, "id")
    ensures KindOf(Message(message)) == Response <==> !Has(message, "method")
  {
  }

  /** The line ends the wait for the response with this id: it is no JSON, it is the response, or it is a message
      that is no object and that the client cannot look into as it does. */
  ghost predicate EndsWait(line: Line, id: int) {
    match line
    case Blank => false
    case Broken(_) => true
    case Message(message) =>
      if message.JObj? then
        && !Has(message, "method")
        && (|| Get(message, "id") == JInt(id) || Get(message, "id") == JReal(id as real)
            || (Get(message, "id") == JBool(true) && id == 1) || (Get(message, "id") == JBool(false) && id == 0))
      else !Mentions(message, "method") || Mentions(message, "id")
  }

  lemma StopsExactlyWhen(line: Line, id: int)
    ensures Stops(line, id) <==> EndsWait(line, id)
  {
    if line.Message? && line.message.JObj? {
      KindOfObject(line.message);
      EqualsIntExactlyWhen(Get(line.message, "id"), id);
      hide EqualsInt, Get, Mentions, HasKey;
    }
  }

  /** `line` is the first that ends the wait. */
  ghost predicate FirstEnds(lines: seq<Line>, line: Line, id: int) {
    exists n :: 0 <= n < |lines| && lines[n] == line && EndsWait(line, id) && forall i | 0 <= i < n :: !EndsWait(lines[i], id)
  }

  lemma FirstEndsThere(lines: seq<Line>, id: int)
    ensures FirstStop(lines, id) == |lines| ==> forall line :: !FirstEnds(lines, line, id)
    ensures FirstStop(lines, id) < |lines| ==>
      forall line :: FirstEnds(lines, line, id) <==> line == lines[FirstStop(lines, id)]
  {
    forall i | 0 <= i < |lines| ensures Stops(lines[i], id) <==> EndsWait(lines[i], id) {
      StopsExactlyWhen(lines[i], id);
    }
    hide Stops, EndsWait;
  }

  /** A request returns the object that is its response if that has no error, and fails with the error if it has
      one; it fails with the line if that is no JSON, and as closed if no line ends the wait. */
  lemma ReplyExactlyWhen(lines: seq<Line>, id: int)
    ensures forall m: Json :: ReplyOf(lines, id) == Ok(m) <==> m.JObj? && !Has(m, "error") && FirstEnds(lines, Message(m), id)
    ensures forall e :: ReplyOf(lines, id) == Err(Failed(e)) <==>
      exists m: Json :: m.JObj? && Has(m, "error") && Get(m, "error") == e && FirstEnds(lines, Message(m), id)
    ensures forall text :: ReplyOf(lines, id) == Err(Invalid(text)) <==> FirstEnds(lines, Broken(text), id)
    ensures ReplyOf(lines, id) == Err(Raised) <==> exists m: Json :: !m.JObj? && FirstEnds(lines, Message(m), id)
    ensures ReplyOf(lines, id) == Err(Closed) <==> forall line :: !FirstEnds(lines, line, id)
  {
    FirstEndsThere(lines, id);
    var n := FirstStop(lines, id);
    if n < |lines| {
      StopsExactlyWhen(lines[n], id);
      assert FirstEnds(lines, lines[n], id);
      if lines[n].Message? && lines[n].message.JObj? {
        KindOfObject(lines[n].message);
      }
    }
    hide FirstEnds, Mentions, Get, Stops;
  }

  // ----- permission -----

  /** The policy lets the tool call through: calls are let through at all, and its kind, or `other` if that is no
      kind the protocol knows, is on the list. */
  ghost predicate LetThrough(lib: Library, policy: Policy, message: Json) {
    var kind := Get(Get(Get(message, "params"), "toolCall"), "kind");
    && policy.allowOnce
    && exists name | name in policy.allowedKinds ::
         if kind.JStr? && lib.fold(kind.text) in
              ["read", "edit", "delete", "move", "search", "execute", "think", "fetch", "switch_mode", "other"]
         then name == lib.fold(kind.text) else name == "other"
  }

  ghost predicate AnyOption(option: Json, kind: string) {
    exists id :: IsOptionOf(option, kind, id)
  }

  ghost predicate FirstAt(options: seq<Json>, kind: string, id: string, n: nat) {
    n < |options| && IsOptionOf(options[n], kind, id) && forall i | 0 <= i < n :: !AnyOption(options[i], kind)
  }

  /** The id of the first option of the kind. */
  ghost predicate FirstOf(message: Json, kind: string, id: string) {
    var options := Get(Get(message, "params"), "options");
    options.JArr? && exists n: nat :: FirstAt(options.items, kind, id, n)
  }

  lemma AnyOptionIs(option: Json, kind: string)
    ensures IsOption(option, kind) <==> AnyOption(option, kind)
    ensures forall id :: IsOptionOf(option, kind, id) <==> IsOption(option, kind) && Get(option, "optionId").text == id
  {
    if IsOption(option, kind) {
      assert IsOptionOf(option, kind, Get(option, "optionId").text);
    }
  }

  lemma {:induction false} FirstOptionAt(options: seq<Json>, kind: string, id: string, n: nat)
    requires FirstAt(options, kind, id, n)
    ensures FirstOption(options, kind) == Some(id)
  {
    hide IsOption, IsOptionOf, AnyOption, Get;
    AnyOptionIs(options[0], kind);
    if n > 0 {
      FirstOptionAt(options[1..], kind, id, n - 1);
    }
  }

  lemma {:induction false} FirstOptionFound(options: seq<Json>, kind: string) returns (n: nat)
    requires FirstOption(options, kind).Some?
    ensures FirstAt(options, kind, FirstOption(options, kind).value, n)
  {
    hide IsOption, IsOptionOf, AnyOption, Get;
    AnyOptionIs(options[0], kind);
    if IsOption(options[0], kind) {
      n := 0;
    } else {
      var m := FirstOptionFound(options[1..], kind);
      n := m + 1;
    }
  }

  lemma FirstOfIs(message: Json, kind: string)
    ensures forall id :: FirstOf(message, kind, id) <==> FirstOption(OptionsOf(message), kind) == Some(id)
  {
    var options := OptionsOf(message);
    assert FirstOption([], kind) == None;
    hide FirstOption, FirstAt;
    forall id ensures FirstOf(message, kind, id) <==> FirstOption(options, kind) == Some(id) {
      if n: nat :| FirstAt(options, kind, id, n) {
        FirstOptionAt(options, kind, id, n);
      }
      if FirstOption(options, kind) == Some(id) {
        var n := FirstOptionFound(options, kind);
      }
    }
  }

  lemma LetThroughIs(lib: Library, policy: Policy, message: Json)
    ensures Allows(lib, policy, ToolKind(message)) <==> LetThrough(lib, policy, message)
  {
    var kind := ToolKind(message);
    assert ToolKinds == {"read", "edit", "delete", "move", "search", "execute", "think", "fetch", "switch_mode", "other"};
    hide Get;
    var name := if kind.JStr? && lib.fold(kind.text) in ToolKinds then lib.fold(kind.text) else "other";
    assert Allows(lib, policy, kind) <==> policy.allowOnce && name in policy.allowedKinds;
  }

  /** The id that is selected: of the first grant if the call is let through and a grant is on offer; otherwise of
      the first single refusal, unless that id is empty; and otherwise of the first lasting refusal. */
  ghost predicate Selects(lib: Library, policy: Policy, message: Json, id: string) {
    if LetThrough(lib, policy, message) && exists x :: FirstOf(message, "allow_once", x) then FirstOf(message, "allow_once", id)
    else if exists x :: x != "" && FirstOf(message, "reject_once", x) then FirstOf(message, "reject_once", id)
    else FirstOf(message, "reject_always", id)
  }

  lemma ChoiceExactlyWhen(lib: Library, policy: Policy, message: Json)
    ensures forall id :: Choice(lib, policy, message) == Some(id) <==> Selects(lib, policy, message, id)
  {
    LetThroughIs(lib, policy, message);
    FirstOfIs(message, "allow_once");
    FirstOfIs(message, "reject_once");
    FirstOfIs(message, "reject_always");
    hide FirstOf, LetThrough, Allows, FirstOption, OptionsOf, ToolKind;
    var options := OptionsOf(message);
    var allow, once := FirstOption(options, "allow_once"), FirstOption(options, "reject_once");
    assert allow.Some? ==> FirstOf(message, "allow_once", allow.value);
    assert once.Some? ==> FirstOf(message, "reject_once", once.value);
  }

  lemma Fields(entries: seq<Entry>)
    ensures |entries| >= 1 ==> Lookup(entries, entries[0].key) == entries[0].value
    ensures |entries| >= 2 && entries[0].key != entries[1].key ==> Lookup(entries, entries[1].key) == entries[1].value
    ensures |entries| >= 3 && entries[0].key != entries[2].key && entries[1].key != entries[2].key ==>
      Lookup(entries, entries[2].key) == entries[2].value
    ensures |entries| >= 4 && entries[0].key != entries[3].key && entries[1].key != entries[3].key && entries[2].key != entries[3].key ==>
      Lookup(entries, entries[3].key) == entries[3].value
  {
    if |entries| >= 2 {
      assert entries[1..][0] == entries[1];
      if |entries| >= 3 {
        assert entries[1..][1..][0] == entries[2];
        if |entries| >= 4 {
          assert entries[1..][1..][1..][0] == entries[3];
        }
      }
    }
  }

  /** The answer to a permission request says `selected` with the id, or `cancelled` and no id. */
  lemma PermissionAnswer(lib: Library, policy: Policy, message: Json)
    requires Get(message, "method") == JStr("session/request_permission")
    ensures var outcome := Get(Get(Answer(lib, policy, message), "result"), "outcome");
      && (forall id ::
            Get(outcome, "outcome") == JStr("selected") && Get(outcome, "optionId") == JStr(id) <==> Selects(lib, policy, message, id))
      && ((forall id :: !Selects(lib, policy, message, id)) ==> Get(outcome, "outcome") == JStr("cancelled") && !Has(outcome, "optionId"))
  {
    ChoiceExactlyWhen(lib, policy, message);
    AnswerResult(lib, policy, message);
    OutcomeFields(Choice(lib, policy, message));
    hide Choice, Selects, Answer, AcpMessages.Outcome, Get, Has;
    var choice := Choice(lib, policy, message);
    assert choice.Some? ==> Selects(lib, policy, message, choice.value);
  }

  lemma OutcomeFields(choice: Option<string>)
    ensures Get(Outcome(choice), "outcome") == JStr(if choice.Some? then "selected" else "cancelled")
    ensures choice.Some? ==> Get(Outcome(choice), "optionId") == JStr(choice.value)
    ensures choice.None? ==> !Has(Outcome(choice), "optionId")
    ensures "selected" != "cancelled"
  {
    Fields(Outcome(choice).entries);
    assert "selected"[0] != "cancelled"[0];
  }

  lemma AnswerResult(lib: Library, policy: Policy, message: Json)
    requires Get(message, "method") == JStr("session/request_permission")
    ensures Get(Get(Answer(lib, policy, message), "result"), "outcome") == Outcome(Choice(lib, policy, message))
  {
    hide Choice, AcpMessages.Outcome;
    var answer := Answer(lib, policy, message);
    Fields(answer.entries);
    assert |"jsonrpc"| == 7 && |"id"| == 2 && |"result"| == 6;
    assert Get(answer, "result") == JObj([Entry("outcome", Outcome(Choice(lib, policy, message)))]);
  }

  /** Any other request of the server is refused with the code for an unknown method. */
  lemma UnknownMethodAnswer(lib: Library, policy: Policy, message: Json)
    requires Get(message, "method") != JStr("session/request_permission")
    ensures var error := Get(Answer(lib, policy, message), "error");
      && Get(error, "code") == JInt(-32601)
      && Get(error, "message") == JStr("Unsupported ACP client request: " + lib.show(Get(message, "method")))
  {
    var answer := Answer(lib, policy, message);
    Fields(answer.entries);
    Fields(Get(answer, "error").entries);
  }

  lemma OwnEntries(id: Option<int>, name: string, params: Option<Json>)
    ensures var first, method_ := Entry("jsonrpc", JStr("2.0")), Entry("method", JStr(name));
      OwnMessage(id, name, params).entries ==
        if id.Some? && params.Some? then [first, Entry("id", JInt(id.value)), method_, Entry("params", params.value)]
        else if id.Some? then [first, Entry("id", JInt(id.value)), method_]
        else if params.Some? then [first, method_, Entry("params", params.value)]
        else [first, method_]
  {
    hide Lookup, HasKey;
  }

  lemma KeysOfFour(entries: seq<Entry>)
    requires 2 <= |entries| <= 4
    ensures forall key :: HasKey(entries, key) <==>
      || entries[0].key == key || entries[1].key == key
      || (|entries| > 2 && entries[2].key == key) || (|entries| > 3 && entries[3].key == key)
  {
    hide Lookup;
  }

  lemma NamesDiffer()
    ensures |"jsonrpc"| == 7 && |"id"| == 2 && |"error"| == 5 && |"method"| == |"params"| == |"result"| == 6
    ensures "method"[0] == 'm' && "params"[0] == 'p' && "result"[0] == 'r'
  {
  }

  ghost predicate DistinctKeys(entries: seq<Entry>) {
    forall i, j | 0 <= i < j < |entries| :: entries[i].key != entries[j].key
  }

  lemma {:induction false} LookupAt(entries: seq<Entry>, k: nat)
    requires DistinctKeys(entries) && k < |entries|
    ensures Lookup(entries, entries[k].key) == entries[k].value
  {
    if k > 0 {
      assert entries[1..][k - 1] == entries[k];
      LookupAt(entries[1..], k - 1);
    }
  }

  lemma OwnKeys(id: Option<int>, name: string, params: Option<Json>, key: string)
    ensures Has(OwnMessage(id, name, params), key) <==>
      key == "jsonrpc" || key == "method" || (key == "id" && id.Some?) || (key == "params" && params.Some?)
  {
    OwnEntries(id, name, params);
    var own := OwnMessage(id, name, params);
    KeysOfFour(own.entries);
    hide OwnMessage, Lookup, HasKey;
  }

  lemma OwnDistinct(id: Option<int>, name: string, params: Option<Json>)
    ensures DistinctKeys(OwnMessage(id, name, params).entries)
  {
    OwnEntries(id, name, params);
    NamesDiffer();
    hide OwnMessage, Lookup, HasKey;
  }

  /** What the client writes of its own accord: a request has an id and a notification has none, and there are
      parameters only if some are given. */
  lemma OwnMessageFields(id: Option<int>, name: string, params: Option<Json>)
    ensures var own := OwnMessage(id, name, params);
      && Get(own, "jsonrpc") == JStr("2.0") && Get(own, "method") == JStr(name)
      && (Has(own, "id") <==> id.Some?) && (id.Some? ==> Get(own, "id") == JInt(id.value))
      && (Has(own, "params") <==> params.Some?) && (params.Some? ==> Get(own, "params") == params.value)
      && !Has(own, "result") && !Has(own, "error")
  {
    OwnEntries(id, name, params);
    OwnDistinct(id, name, params);
    var own := OwnMessage(id, name, params);
    forall key ensures Has(own, key) <==>
      key == "jsonrpc" || key == "method" || (key == "id" && id.Some?) || (key == "params" && params.Some?)
    {
      OwnKeys(id, name, params, key);
    }
    forall k: nat | k < |own.entries| ensures Lookup(own.entries, own.entries[k].key) == own.entries[k].value {
      LookupAt(own.entries, k);
    }
    hide OwnMessage, Lookup, HasKey, Has, DistinctKeys;
    NamesDiffer();
    assert own.entries[if id.Some? then 2 else 1].key == "method";
    assert params.Some? ==> own.entries[if id.Some? then 3 else 2].key == "params";
  }
}
