/** Any sequence of requests and notifications over one stream of lines. */
module AcpSessions {
  import opened Prelude
  import opened Json
  import opened AcpMessages
  import opened AcpClient

  datatype Op = Request(name: string, params: Option<Json>) | Notify(name: string, params: Option<Json>)

  datatype Agent = Agent(lib: Library, policy: Policy, start: Client)

  function Run(agent: Agent, ops: seq<Op>): Client {
    if ops == [] then agent.start
    else
      var before := Run(agent, ops[..|ops| - 1]);
      match ops[|ops| - 1]
      case Request(name, params) => Requested(agent.lib, agent.policy, before, name, params)
      case Notify(name, params) => before.(sent := before.sent + [OwnMessage(None, name, params)])
  }

  /** How many lines have been read. */
  function Position(agent: Agent, ops: seq<Op>): int {
    |agent.start.lines| - |Run(agent, ops).lines|
  }

  /** The messages written that are answers, and the ids of those that are requests. */
  function AnswersSent(sent: seq<Json>): seq<Json> {
    if sent == [] then []
    else
      var last := sent[|sent| - 1];
      AnswersSent(sent[..|sent| - 1]) + if Has(last, "method") then [] else [last]
  }

  function IdsSent(sent: seq<Json>): seq<Json> {
    if sent == [] then []
    else
      var last := sent[|sent| - 1];
      IdsSent(sent[..|sent| - 1]) + if Has(last, "method") && Has(last, "id") then [Get(last, "id")] else []
  }

  lemma SentNext(sent: seq<Json>, last: Json)
    ensures AnswersSent(sent + [last]) == if Has(last, "method") then AnswersSent(sent) else AnswersSent(sent) + [last]
    ensures IdsSent(sent + [last]) ==
      if Has(last, "method") && Has(last, "id") then IdsSent(sent) + [Get(last, "id")] else IdsSent(sent)
  {
    assert (sent + [last])[..|sent|] == sent;
  }

  lemma {:induction false} SentConcat(a: seq<Json>, b: seq<Json>)
    ensures AnswersSent(a + b) == AnswersSent(a) + AnswersSent(b)
    ensures IdsSent(a + b) == IdsSent(a) + IdsSent(b)
  {
    if b == [] {
      assert a + b == a;
    } else {
      assert (a + b)[..|a + b| - 1] == a + b[..|b| - 1];
      SentConcat(a, b[..|b| - 1]);
    }
  }

  lemma {:induction false} SelectConcat(a: seq<Line>, b: seq<Line>, kind: Kind)
    ensures Select(a + b, kind) == Select(a, kind) + Select(b, kind)
  {
    if b == [] {
      assert a + b == a;
    } else {
      assert (a + b)[..|a + b| - 1] == a + b[..|b| - 1];
      SelectConcat(a, b[..|b| - 1], kind);
    }
  }

  lemma NoAnswers(lib: Library, policy: Policy)
    ensures Answers(lib, policy, []) == [] && AnswersSent([]) == [] && IdsSent([]) == []
  {
  }

  lemma {:induction false} AnswersAreAnswers(lib: Library, policy: Policy, requests: seq<Json>)
    ensures AnswersSent(Answers(lib, policy, requests)) == Answers(lib, policy, requests)
    ensures IdsSent(Answers(lib, policy, requests)) == []
  {
    NoAnswers(lib, policy);
    hide *;
    if requests != [] {
      var init, last := requests[..|requests| - 1], requests[|requests| - 1];
      AnswersAreAnswers(lib, policy, init);
      AnswersNext(lib, policy, init, last);
      assert requests == init + [last];
      AnswerIsResponse(lib, policy, last);
      SentNext(Answers(lib, policy, init), Answer(lib, policy, last));
    }
  }

  lemma OwnIsNoAnswer(id: Option<int>, name: string, params: Option<Json>)
    ensures AnswersSent([OwnMessage(id, name, params)]) == []
    ensures IdsSent([OwnMessage(id, name, params)]) == if id.Some? then [JInt(id.value)] else []
  {
    var entries := OwnMessage(id, name, params).entries;
    var at := if id.Some? then 2 else 1;
    assert entries[at].key == "method";
    assert entries[0].key == "jsonrpc";
    if id.Some? {
      assert entries[1] == Entry("id", JInt(id.value));
      assert Lookup(entries, "id") == Lookup(entries[1..], "id");
    }
    assert [OwnMessage(id, name, params)][..0] == [];
  }

  lemma AnswersConcat(lib: Library, policy: Policy, a: seq<Json>, b: seq<Json>)
    ensures Answers(lib, policy, a + b) == Answers(lib, policy, a) + Answers(lib, policy, b)
  {
    hide Answer;
  }

  /** What one request writes. */
  lemma RequestWrites(agent: Agent, before: Client, name: string, params: Option<Json>)
    ensures var now := Requested(agent.lib, agent.policy, before, name, params);
      var read := before.lines[..Consumed(before.lines, before.nextId)];
      && AnswersSent(now.sent) == AnswersSent(before.sent) + Answers(agent.lib, agent.policy, Select(read, ServerRequest))
      && IdsSent(now.sent) == IdsSent(before.sent) + [JInt(before.nextId)]
  {
    var own := OwnMessage(Some(before.nextId), name, params);
    var requests := Select(before.lines[..Consumed(before.lines, before.nextId)], ServerRequest);
    OwnIsNoAnswer(Some(before.nextId), name, params);
    AnswersAreAnswers(agent.lib, agent.policy, requests);
    var answers := Answers(agent.lib, agent.policy, requests);
    assert Requested(agent.lib, agent.policy, before, name, params).sent == before.sent + [own] + answers;
    hide *;
    SentPieces(before.sent, [own], answers);
    assert AnswersSent(before.sent) + [] == AnswersSent(before.sent);
  }

  lemma SentPieces(a: seq<Json>, b: seq<Json>, c: seq<Json>)
    ensures AnswersSent(a + b + c) == AnswersSent(a) + AnswersSent(b) + AnswersSent(c)
    ensures IdsSent(a + b + c) == IdsSent(a) + IdsSent(b) + IdsSent(c)
  {
    SentConcat(a, b);
    SentConcat(a + b, c);
  }

  lemma NotifyWrites(before: Client, name: string, params: Option<Json>)
    ensures AnswersSent(before.sent + [OwnMessage(None, name, params)]) == AnswersSent(before.sent)
    ensures IdsSent(before.sent + [OwnMessage(None, name, params)]) == IdsSent(before.sent)
  {
    OwnIsNoAnswer(None, name, params);
    hide AnswersSent, IdsSent, OwnMessage;
    SentConcat(before.sent, [OwnMessage(None, name, params)]);
  }

  /** The state reached after reading the first `n` lines. */
  ghost predicate ReadUpTo(agent: Agent, now: Client, n: nat) {
    && n <= |agent.start.lines|
    && now.lines == agent.start.lines[n..]
    && var stretch := agent.start.lines[..n];
       && now.notifications == agent.start.notifications + Select(stretch, Notification)
       && AnswersSent(now.sent)
            == AnswersSent(agent.start.sent) + Answers(agent.lib, agent.policy, Select(stretch, ServerRequest))
  }

  lemma ReadOn(agent: Agent, before: Client, n: nat, name: string, params: Option<Json>)
    requires ReadUpTo(agent, before, n)
    ensures ReadUpTo(agent, Requested(agent.lib, agent.policy, before, name, params), n + Consumed(before.lines, before.nextId))
  {
    hide Select, Answers, AnswersSent, Consumed;
    var read := before.lines[..Consumed(before.lines, before.nextId)];
    assert agent.start.lines[..n] + read == agent.start.lines[..n + |read|];
    SelectConcat(agent.start.lines[..n], read, Notification);
    SelectConcat(agent.start.lines[..n], read, ServerRequest);
    AnswersConcat(agent.lib, agent.policy, Select(agent.start.lines[..n], ServerRequest), Select(read, ServerRequest));
    RequestWrites(agent, before, name, params);
  }

  lemma ReadNoMore(agent: Agent, before: Client, n: nat, name: string, params: Option<Json>)
    requires ReadUpTo(agent, before, n)
    ensures ReadUpTo(agent, before.(sent := before.sent + [OwnMessage(None, name, params)]), n)
  {
    hide Select, Answers, AnswersSent, OwnMessage;
    NotifyWrites(before, name, params);
  }

  lemma NothingRead(agent: Agent)
    ensures Position(agent, []) == 0 && ReadUpTo(agent, Run(agent, []), 0)
  {
    assert agent.start.lines[..0] == [];
    assert Answers(agent.lib, agent.policy, []) == [];
  }

  /** The last operation. */
  lemma OneMore(agent: Agent, ops: seq<Op>)
    requires ops != []
    ensures var before, op := Run(agent, ops[..|ops| - 1]), ops[|ops| - 1];
      && Run(agent, ops) ==
           (if op.Request? then Requested(agent.lib, agent.policy, before, op.name, op.params)
            else before.(sent := before.sent + [OwnMessage(None, op.name, op.params)]))
      && Position(agent, ops) ==
           Position(agent, ops[..|ops| - 1]) + if op.Request? then Consumed(before.lines, before.nextId) else 0
  {
    hide Select, Answers, OwnMessage;
  }

  /** Nothing in the stream is lost, repeated or reordered, however the requests cut it up: what has been
      read is a prefix of the stream, the notifications kept are exactly those in that prefix, and the
      answers written are exactly those to the server's requests in it. */
  lemma {:induction false} StreamIsDemultiplexed(agent: Agent, ops: seq<Op>)
    ensures Position(agent, ops) >= 0 && ReadUpTo(agent, Run(agent, ops), Position(agent, ops))
  {
    hide *;
    if ops == [] {
      NothingRead(agent);
    } else {
      var init, op := ops[..|ops| - 1], ops[|ops| - 1];
      StreamIsDemultiplexed(agent, init);
      OneMore(agent, ops);
      var before, n := Run(agent, init), Position(agent, init);
      if op.Request? {
        ReadOn(agent, before, n, op.name, op.params);
      } else {
        ReadNoMore(agent, before, n, op.name, op.params);
      }
    }
  }

  function Requests(ops: seq<Op>): nat {
    if ops == [] then 0 else Requests(ops[..|ops| - 1]) + if ops[|ops| - 1].Request? then 1 else 0
  }

  function CountUp(first: int, n: nat): seq<Json> {
    if n == 0 then [] else CountUp(first, n - 1) + [JInt(first + n - 1)]
  }

  lemma {:induction false} NextIdCounts(agent: Agent, ops: seq<Op>)
    ensures Run(agent, ops).nextId == agent.start.nextId + Requests(ops)
  {
    if ops != [] {
      NextIdCounts(agent, ops[..|ops| - 1]);
      hide Consumed, Select, Answers;
    }
  }

  lemma IdsNext(agent: Agent, ops: seq<Op>)
    requires ops != []
    ensures var before := Run(agent, ops[..|ops| - 1]);
      IdsSent(Run(agent, ops).sent) == IdsSent(before.sent) + if ops[|ops| - 1].Request? then [JInt(before.nextId)] else []
  {
    var before, op := Run(agent, ops[..|ops| - 1]), ops[|ops| - 1];
    hide IdsSent, AnswersSent, OwnMessage, Requested;
    if op.Request? {
      assert Run(agent, ops) == Requested(agent.lib, agent.policy, before, op.name, op.params);
      RequestWrites(agent, before, op.name, op.params);
    } else {
      NotifyWrites(before, op.name, op.params);
    }
  }

  lemma CountUpNext(first: int, ops: seq<Op>)
    requires ops != []
    ensures var n := Requests(ops[..|ops| - 1]);
      CountUp(first, Requests(ops)) == CountUp(first, n) + if ops[|ops| - 1].Request? then [JInt(first + n)] else []
  {
  }

  /** The ids of the client's own requests are consecutive, so none is used twice. */
  lemma {:induction false} IdsNeverRepeat(agent: Agent, ops: seq<Op>)
    ensures IdsSent(Run(agent, ops).sent) == IdsSent(agent.start.sent) + CountUp(agent.start.nextId, Requests(ops))
  {
    if ops == [] {
      hide IdsSent;
    } else {
      hide *;
      IdsNeverRepeat(agent, ops[..|ops| - 1]);
      NextIdCounts(agent, ops[..|ops| - 1]);
      IdsNext(agent, ops);
      CountUpNext(agent.start.nextId, ops);
    }
  }

  /** What the request issued after `ops` returns. */
  function Returned(agent: Agent, ops: seq<Op>): Reply {
    ReplyOf(Run(agent, ops).lines, Run(agent, ops).nextId)
  }

  /** A response belongs to the request whose id it has: the message one request returns is never one that
      another request of the run, earlier or later, would have taken for its own. */
  lemma ResponsesAreNotMistaken(agent: Agent, ops: seq<Op>, name: string, params: Option<Json>, more: seq<Op>)
    requires Returned(agent, ops).Ok?
    ensures var message, id := Returned(agent, ops).value, Run(agent, ops).nextId;
      && EqualsInt(Get(message, "id"), id)
      && Message(message) in agent.start.lines
      && (forall k | 0 <= k <= |ops| && Run(agent, ops[..k]).nextId != id :: !Stops(Message(message), Run(agent, ops[..k]).nextId))
      && !Stops(Message(message), Run(agent, ops + [Op.Request(name, params)] + more).nextId)
  {
    var now := Run(agent, ops);
    var n := FirstStop(now.lines, now.nextId);
    var message := Returned(agent, ops).value;
    assert KindOf(now.lines[n]) == Response && now.lines[n] == Message(message);
    StreamIsDemultiplexed(agent, ops);
    assert now.lines[n] == agent.start.lines[Position(agent, ops) + n];
    var all := ops + [Op.Request(name, params)] + more;
    NextIdCounts(agent, ops);
    NextIdCounts(agent, all);
    RequestsConcat(ops + [Op.Request(name, params)], more);
    assert (ops + [Op.Request(name, params)])[..|ops|] == ops;
  }

  lemma {:induction false} RequestsConcat(a: seq<Op>, b: seq<Op>)
    ensures Requests(a + b) == Requests(a) + Requests(b)
  {
    if b == [] {
      assert a + b == a;
    } else {
      assert (a + b)[..|a + b| - 1] == a + b[..|b| - 1];
      RequestsConcat(a, b[..|b| - 1]);
    }
  }

  lemma {:induction false} TextConcat(a: seq<Json>, b: seq<Json>, session: string)
    ensures SessionText(a + b, session) == SessionText(a, session) + SessionText(b, session)
  {
    hide Chunk;
    if b == [] {
      assert a + b == a;
    } else {
      assert (a + b)[..|a + b| - 1] == a + b[..|b| - 1];
      TextConcat(a, b[..|b| - 1], session);
    }
  }

  /** The text of a session depends only on how far the stream has been read: it is the chunks of that
      prefix in order, whichever requests they arrived during. */
  lemma TextIsThatOfTheStream(agent: Agent, ops: seq<Op>, session: string)
    requires agent.start.notifications == []
    ensures 0 <= Position(agent, ops) <= |agent.start.lines|
    ensures SessionText(Run(agent, ops).notifications, session)
         == SessionText(Select(agent.start.lines[..Position(agent, ops)], Notification), session)
  {
    hide SessionText, Select, AnswersSent, Answers;
    StreamIsDemultiplexed(agent, ops);
    assert Run(agent, ops).notifications == Select(agent.start.lines[..Position(agent, ops)], Notification);
  }

  /** More requests only add to the text. */
  lemma TextGrows(agent: Agent, ops: seq<Op>, op: Op, session: string)
    ensures SessionText(Run(agent, ops).notifications, session) <= SessionText(Run(agent, ops + [op]).notifications, session)
  {
    var now := Run(agent, ops);
    assert (ops + [op])[..|ops|] == ops;
    if op.Request? {
      var read := now.lines[..Consumed(now.lines, now.nextId)];
      TextConcat(now.notifications, Select(read, Notification), session);
    }
  }
}
