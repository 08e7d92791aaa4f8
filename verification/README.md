# Chat-turn bookkeeping of the multi-agent RAG chat front-end

A Dafny model of the chat handler in `src/chat_app/app.py`. The front-end
lets a user pick one of three agents, each backed by a model-serving
endpoint, and chat with it. Each turn of the handler does four things:

- it ignores a message that `str.strip()` leaves empty;
- it resolves the agent's display name through the fixed `AGENTS` directory;
- it flattens the `(user, assistant)` transcript into a role/content message list;
- it appends exactly one new pair, holding the endpoint's answer or an `"Error: ..."` text.

`clear_chat` resets the transcript.

The endpoint call is not modelled as a network exchange. `Chat` takes an
oracle `call: Request -> Result<Option<string>, string>` that maps the request
to its outcome:

- the content of the first choice, which the client library may leave `None`;
- or the text of the `Exception` the call raised (any subclass of `Exception`, which is all the handler catches).

A turn is then a pure function of the message, the transcript, the agent name
and the oracle. Because the request is an argument of the oracle, the
contracts can say which request is sent. A turn that sends nothing gives the
same result for every oracle.

Files:

- `wrappers.dfy`: `Option` and `Result`.
- `pystr.dfy`: Python's `str.isspace` code-point set, and `str.strip()` as a scan from each end followed by one slice.
- `messages.dfy`: the transcript, the message list, the flattening, its inverse `Regroup` and their lemmas.
- `chat_app.dfy`: `AGENTS`, the request, `Chat`, `ClearChat`, and lemmas over one turn and a run of turns.

A transcript pair is `Turn(user, reply: Option<string>)`. Python's
`if assistant_msg:` is truthiness, so a reply counts only when it is present
and non-empty (`HasReply`).

## Model

| member | source | states |
|---|---|---|
| PyStr.Strip | src/chat_app/app.py:28 | `message.strip()` is a slice of the message with all-whitespace text on both sides, and its ends are not whitespace. It is empty exactly when every character is a Python whitespace code point. |
| Messages.Flatten | src/chat_app/app.py:37-41 | The history part of the message list has one entry per pair plus one per truthy reply. Its first entry is a user entry. No assistant entry is empty. Every assistant entry directly follows a user entry. |
| Messages.MessagesFor | src/chat_app/app.py:37-42 | The full message list has length `|history| + (truthy replies) + 1`. Its last entry is `{role: user, content: message}`. Everything before that is the flattened history. |
| Messages.BuildMessages | src/chat_app/app.py:37-42 | The append loop, written as in the source, builds exactly the list `MessagesFor` specifies. |
| Messages.FlattenAppend | src/chat_app/app.py:38-41 | Flattening a concatenated transcript concatenates the flattened parts. Each pair contributes on its own, in history order. |
| Messages.FlattenLayout | src/chat_app/app.py:38-41 | Pair `k`'s user entry sits at position `k + (truthy replies before k)`. If the reply is truthy, the assistant entry comes right after it. Otherwise the next entry is a user entry or the end of the list. |
| Messages.RegroupFlatten | src/chat_app/app.py:38-41 | Reading the message list back gives the transcript with only its falsy replies turned into `None`. The flattening loses no user text, no truthy reply and no ordering. |
| Messages.FlattenRegroup | src/chat_app/app.py:38-41 | Any transcript that a message list reads back as flattens to exactly that list and has no falsy reply. This is the other direction of the round trip. |
| Messages.FlattenSameIffNormalSame | src/chat_app/app.py:38-41 | Two transcripts give the same message list if and only if they agree once falsy replies are made `None`. |
| ChatApp.EndpointFor | src/chat_app/app.py:11-15 | `AGENTS.get(name)` finds an endpoint exactly for the three display names. Every endpoint name is non-empty, so `not endpoint_name` means the name is unknown. |
| ChatApp.RequestFor | src/chat_app/app.py:28-50 | A request exists only when the message is not blank and the agent is known. Its `model` is the agent's endpoint. Its messages are the flattened history followed by the new user message, `|history| + (truthy replies) + 1` in all. |
| ChatApp.Chat | src/chat_app/app.py:26-56 | The text box always comes back `""`. A blank message leaves the history unchanged. Any other message appends exactly one pair whose first part is the message, and every earlier pair stays as it was. For an unknown agent the new reply is `"Error: No agent selected"`. Otherwise the new reply is what the call answers to `RequestFor`'s request. |
| ChatApp.NoRequestIgnoresCall | src/chat_app/app.py:28-34 | On the blank-message and unknown-agent paths, the turn's result does not depend on the endpoint at all: no request is sent. |
| ChatApp.ChatReplyOutcome | src/chat_app/app.py:44-55 | A failed call stores `"Error: "` followed by the error text. A successful call stores the returned content unchanged. |
| ChatApp.ClearChat | src/chat_app/app.py:59-61 | Clearing returns an empty transcript and an empty text box. |
| ChatApp.ClearThenChat | src/chat_app/app.py:37-42 | After a clear, the next request carries only the new user message. No earlier context reaches the endpoint. |
| ChatApp.ErrorTurnIsReplayed | src/chat_app/app.py:33 | A turn refused for an unknown agent is an ordinary truthy pair. The next request replays it as a user entry followed by the assistant entry `"Error: No agent selected"`. |
| ChatApp.RunTurnsAppendOnly | src/chat_app/app.py:26-56 | Over any sequence of submissions the transcript only grows. The starting pairs never change, and each non-blank submission adds exactly one pair. |

## Left out

- The Gradio layout, the CSS string, the event bindings and `app.launch` (src/chat_app/app.py:64-222). This includes clearing the chat when the dropdown changes and the dropdown defaulting to the first agent. They are UI wiring with no logic of their own.
- `WorkspaceClient`, `get_openai_client` and `chat.completions.create` (src/chat_app/app.py:18-23, 45-51). These are the network and SDK plumbing, and their outcome is the `call` oracle. `get_openai_client` ignores its endpoint argument; the model routes by the request's `model` field, as the source does.
- `max_tokens=1024` and any other request parameters. They are passed unchanged to the remote service and do not affect the transcript.
- Exceptions outside `Exception` (such as `KeyboardInterrupt`): the handler does not catch them, so they propagate and no pair is appended. The oracle is total and always yields an outcome, so the model has no such path.
- Exception objects: only `str(e)`, the error text, is kept, because it is all that reaches the transcript.
- In-place mutation: `history.append` changes the list it was given. The model returns a new sequence, since the UI framework passes the transcript by value and uses only the returned one.
- A missing dropdown value (`agent_name` is `None`): it takes the same path as an unknown name, so the model uses strings only.
- Transcript shapes other than string pairs, such as the UI framework's message dictionaries or file attachments in the user slot.
- agents/agent.py: YAML loading and the agent constructor are calls into external frameworks with no logic to verify.
