/**
 The chat handler of the multi-agent front-end (src/chat_app/app.py): the
 agent directory, one chat turn, and clearing the transcript. The call to
 the serving endpoint is an oracle `call` from the request to its outcome,
 so a turn is a pure function of the message, the transcript, the selected
 agent and that oracle.
 */
module ChatApp {
  import opened Wrappers
  import opened PyStr
  import opened Messages

  /** Display name -> serving endpoint name (lines 11-15). */
  const Agents: map<string, string> := map[
    "Agent A - Product Docs" := "agent-a-rag",
    "Agent B - Technical Specs" := "agent-b-rag",
    "Agent C - Support KB" := "agent-c-rag"
  ]

  const NoAgentError: string := "Error: No agent selected"
  const ErrorPrefix: string := "Error: "

  /** What is sent to the endpoint: its name as `model` and the message list. */
  datatype Request = Request(model: string, messages: seq<Message>)

  /** What the endpoint call yields: the content of the first choice (which
      the client library may leave `None`), or the text of the exception raised
      anywhere between creating the client and reading the content. */
  type CallOutcome = Result<Option<string>, string>

  /** The handler's two outputs: the transcript for the chat pane and the new
      text-box value. */
  datatype ChatOutput = ChatOutput(history: seq<Turn>, textbox: string)

  /** `AGENTS.get(agent_name)` (line 31). */
  function EndpointFor(agentName: string): (r: Option<string>)
    ensures r.Some? <==> agentName in Agents
    ensures r.Some? ==> r.value == Agents[agentName] && r.value != ""
  {
    if agentName in Agents then Some(Agents[agentName]) else None
  }

  /** The reply stored for an endpoint outcome (lines 51-53). */
  function ReplyFor(outcome: CallOutcome): Option<string>
  {
    match outcome
    case Success(content) => content
    case Failure(e) => Some(ErrorPrefix + e)
  }

  /** The request a turn sends, if any: none for a blank message or an
      unknown agent, otherwise the selected endpoint with the flattened
      history and the new message last. */
  function RequestFor(message: string, history: seq<Turn>, agentName: string): (r: Option<Request>)
    ensures r.Some? <==> !IsBlank(message) && agentName in Agents
    ensures r.Some? ==> r.value.model == Agents[agentName]
    ensures r.Some? ==> |r.value.messages| == |history| + CountReplies(history) + 1
    ensures r.Some? ==> r.value.messages[|r.value.messages| - 1] == Message(User, message)
    ensures r.Some? ==> r.value.messages[..|r.value.messages| - 1] == Flatten(history)
  {
    if IsBlank(message) || agentName !in Agents then None
    else Some(Request(Agents[agentName], MessagesFor(history, message)))
  }

  /** `chat(message, history, agent_name)` (lines 26-56). */
  function Chat(message: string, history: seq<Turn>, agentName: string,
                call: Request -> CallOutcome): (out: ChatOutput)
    ensures out.textbox == ""
    ensures IsBlank(message) ==> out.history == history
    ensures !IsBlank(message) ==>
      && |out.history| == |history| + 1
      && out.history[..|history|] == history
      && out.history[|history|].user == message
    ensures !IsBlank(message) && agentName !in Agents ==>
      out.history[|history|].reply == Some(NoAgentError)
    ensures RequestFor(message, history, agentName).Some? ==>
      out.history[|history|].reply == ReplyFor(call(RequestFor(message, history, agentName).value))
  {
    if Strip(message) == "" then
      ChatOutput(history, "")
    else
      var endpoint := EndpointFor(agentName);
      if endpoint.None? || endpoint.value == "" then
        ChatOutput(history + [Turn(message, Some(NoAgentError))], "")
      else
        var messages := MessagesFor(history, message);
        var reply := ReplyFor(call(Request(endpoint.value, messages)));
        ChatOutput(history + [Turn(message, reply)], "")
  }

  /** `clear_chat()` (lines 59-61). */
  function ClearChat(): (out: ChatOutput)
    ensures out.history == [] && out.textbox == ""
  {
    ChatOutput([], "")
  }

  /** A turn that sends nothing does not depend on the endpoint: a blank
      message or an unknown agent gives the same output whatever the call
      would have answered. */
  lemma NoRequestIgnoresCall(message: string, history: seq<Turn>, agentName: string,
                             call1: Request -> CallOutcome, call2: Request -> CallOutcome)
    requires RequestFor(message, history, agentName).None?
    ensures Chat(message, history, agentName, call1) == Chat(message, history, agentName, call2)
  {
  }

  /** A failed call stores "Error: " followed by the error text; a
      successful one stores the returned content unchanged. */
  lemma ChatReplyOutcome(message: string, history: seq<Turn>, agentName: string,
                         call: Request -> CallOutcome)
    requires RequestFor(message, history, agentName).Some?
    ensures var out := Chat(message, history, agentName, call);
      var outcome := call(RequestFor(message, history, agentName).value);
      && (outcome.Failure? ==> out.history[|history|].reply == Some(ErrorPrefix + outcome.error))
      && (outcome.Success? ==> out.history[|history|].reply == outcome.value)
  {
  }

  /** After the transcript is cleared, the next request carries the new
      message and nothing else. */
  lemma ClearThenChat(message: string, agentName: string)
    requires !IsBlank(message) && agentName in Agents
    ensures RequestFor(message, ClearChat().history, agentName)
      == Some(Request(Agents[agentName], [Message(User, message)]))
  {
  }

  /** Error replies are ordinary truthy replies: a turn refused for an
      unknown agent is replayed to the next endpoint as an assistant message
      reading "Error: No agent selected". */
  lemma ErrorTurnIsReplayed(first: string, second: string, history: seq<Turn>,
                            unknown: string, known: string, call: Request -> CallOutcome)
    requires !IsBlank(first) && unknown !in Agents
    requires !IsBlank(second) && known in Agents
    ensures var h := Chat(first, history, unknown, call).history;
      var ms := RequestFor(second, h, known).value.messages;
      var p := |Flatten(history)|;
      p + 1 < |ms| && ms[p] == Message(User, first) && ms[p + 1] == Message(Assistant, NoAgentError)
  {
    var t := Turn(first, Some(NoAgentError));
    var h := Chat(first, history, unknown, call).history;
    assert h == history + [t];
    FlattenAppend(history, [t]);
    FlattenCons(t, []);
    assert [t] + [] == [t];
    Around(Flatten(history), TurnMessages(t), [Message(User, second)]);
  }

  /** One submission from the UI: the text-box value and the selected agent. */
  datatype Submission = Submission(message: string, agentName: string)

  /** The transcript after handling `subs` in order, starting from `history`.
      A run covers submissions only: the Clear button and every change of
      the agent dropdown reset the transcript (lines 216 and 219), so those
      events lie outside a run and start a new one from the empty history. */
  function RunTurns(history: seq<Turn>, subs: seq<Submission>, call: Request -> CallOutcome): seq<Turn>
    decreases |subs|
  {
    if |subs| == 0 then history
    else
      var last := subs[|subs| - 1];
      Chat(last.message, RunTurns(history, subs[..|subs| - 1], call), last.agentName, call).history
  }

  /** Number of submissions whose message is not blank. */
  function CountNonBlank(subs: seq<Submission>): nat
  {
    if |subs| == 0 then 0
    else CountNonBlank(subs[..|subs| - 1]) + (if IsBlank(subs[|subs| - 1].message) then 0 else 1)
  }

  /** Over a run of turns the transcript only grows: the starting pairs are
      never altered and each non-blank submission adds exactly one pair. */
  lemma {:induction false} RunTurnsAppendOnly(history: seq<Turn>, subs: seq<Submission>,
                                              call: Request -> CallOutcome)
    ensures var h := RunTurns(history, subs, call);
      |h| == |history| + CountNonBlank(subs) && h[..|history|] == history
    decreases |subs|
  {
    if |subs| > 0 {
      var prefix := subs[..|subs| - 1];
      RunTurnsAppendOnly(history, prefix, call);
      var mid := RunTurns(history, prefix, call);
      var h := RunTurns(history, subs, call);
      if !IsBlank(subs[|subs| - 1].message) {
        assert h[..|history|] == h[..|mid|][..|history|];
      }
    }
  }
}
