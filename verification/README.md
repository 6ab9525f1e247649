# Session store of the IT-support agent API, in Dafny

The HTTP API of the IT-support agent keeps every conversation in an
in-process dictionary `sessions`. It maps a session id to a record that holds
a display name, the transcript (`messages`, a list of `{role, content}`
entries) and a conversational `memory` object of the session's own. The
endpoints do the following:

- POST /sessions creates a session seeded with the assistant greeting.
- GET /sessions lists `(session_id, session_name, message_count)` for every session.
- GET /sessions/{id}/messages reads one transcript.
- DELETE /sessions/{id} removes one session.
- GET /health reports how many sessions exist.
- POST /chat finds or auto-creates the session and appends the user turn.
  It then binds the shared agent's `memory` to that session's memory, calls
  the agent, unwraps its reply and appends the assistant turn.

The model has three modules:

- `Wrappers` (`wrappers.dfy`) holds `Option`.
- `Agent` (`agent.dfy`) is the interface of the shared agent.
  - `Memory` is an object compared only by identity.
  - `AgentResponse` is what `agent.chat` returns: the `response` attribute
    if present, and its `str()` rendering.
  - `Outcome` says whether the call returned or raised.
  - `ReActAgent` is the one shared instance. It has a mutable `memory` field
    and a ghost log of calls, which records the memory bound at each call.
- `FastApi` (`fast_api.dfy`) is the session store.
  - `Table` is the dictionary: its keys in insertion order, because Python
    dictionaries iterate in that order, beside the map itself.
  - `Put`, `Append` and `Del` are `d[k] = v`, `d[k]["messages"].append(m)`
    and `del d[k]`.
  - The read-only endpoints are functions of the table.
  - `Chat` is the chat endpoint as a function.
  - `SessionStore` is a class. Its `table` field is the dictionary, and its
    methods change the table and the agent in place, proved against those
    functions.

Things the code does that a plain reading of the endpoint descriptions might miss:

- A `session_id` that is the empty string counts as absent (the test is
  `chat_message.session_id and ...`), so it auto-creates a session.
- On a failed agent call, the session stays in the table when it was
  auto-created for the request, and the user message stays appended.
  Only the assistant message is missing.
- The shared agent stays bound to the last session's memory after the request,
  also when that session is deleted later.

Inputs the model cannot compute are parameters:

- `freshId` is the value of `uuid.uuid4()`. It is required to be new only
  on the path that generates it.
- `outcome` is what `agent.chat` does.

## Model

| member | source | states |
|---|---|---|
| `FastApi.NewSession` | fast_api.py:59-65 | The record both creation paths store has the given name and the given memory. It holds exactly one message, the assistant greeting. |
| `FastApi.Put` | fast_api.py:59-65 | Dictionary assignment keeps the table consistent (each key once in the order). A new key goes last and an existing key keeps its place. The key gets the new session and every other entry is unchanged. |
| `FastApi.Append` | fast_api.py:123 | Appending to a session's transcript adds exactly that message at the end. It keeps the key order, the key set, the session's name and memory, and every other session. |
| `FastApi.Without` | fast_api.py:99 | The key order after deletion holds exactly the other keys. It is unchanged if the key was absent and keeps the keys distinct. |
| `FastApi.WithoutAt` | fast_api.py:99 | Removing a key that sits at position p and nowhere else leaves the keys before and after p in their original order. |
| `FastApi.Del` | fast_api.py:99 | `del` removes exactly that key, keeps the table consistent and leaves every other session as it was. |
| `FastApi.KeyCount` | fast_api.py:145 | The number of sessions in the dictionary equals the length of its insertion order. |
| `FastApi.Describe` | fast_api.py:77-81 | A session's descriptor carries its id, its name and the length of its `messages` as `message_count`. |
| `FastApi.Descriptors` | fast_api.py:76-83 | One descriptor per key, in key order. Each one carries the id, the name and the length of that session's transcript. |
| `FastApi.ListSessions` | fast_api.py:73-83 | The listing has one entry per session in insertion order with distinct ids. Each `message_count` is the length of that session's `messages`. |
| `FastApi.ListedIff` | fast_api.py:76-83 | An id appears in the listing if and only if it names a session. |
| `FastApi.DescriptorsAppend` | fast_api.py:76-83 | Listing one more key at the end, over entries unchanged on the old keys, gives the old listing with that key's descriptor appended. |
| `FastApi.DescriptorsRemove` | fast_api.py:76-83 | Listing the keys without the one at position p, over entries unchanged on the others, gives the old listing without its p-th descriptor. |
| `FastApi.ListAfterInsert` | fast_api.py:59-83 | After a session is created, the listing is the old listing with the new descriptor appended. |
| `FastApi.GetSessionMessages` | fast_api.py:85-91 | An absent id fails with 404 "Session not found". Otherwise the result is that session's transcript, unchanged. |
| `FastApi.HealthCheck` | fast_api.py:140-147 | `active_sessions` equals the number of entries GET /sessions returns, with status "healthy" and agent status "ready". |
| `FastApi.DeleteRemovesSession` | fast_api.py:93-100 | Deleting the session at position p removes exactly its descriptor and keeps the rest of the listing in order. A later read of that id fails with 404, and so does a second delete, because the id is no longer a key. |
| `FastApi.Resolves` | fast_api.py:107 | A request is served by the session it names exactly when the id is given, is not the empty string and is a key. A missing or empty id never resolves. |
| `FastApi.ResolvedId` | fast_api.py:107-112 | A resolving request is served by its own id, which is a key. Any other request is served by the freshly generated id. |
| `FastApi.Resolve` | fast_api.py:107-120 | A resolving request leaves the table as it is. Otherwise the fresh id is added last with a new "Auto-created Session" record holding the greeting and the new memory. Every existing session is kept, and the table stays consistent. |
| `FastApi.ReplyText` | fast_api.py:130 | The reply is the response's `response` attribute when it has one, and otherwise the `str()` rendering of the whole response. |
| `FastApi.ChatFailure` | fast_api.py:137-138 | Any failure of the chat turn becomes a 500 whose detail is "Error processing request: " followed by the error text. |
| `FastApi.Chat` | fast_api.py:102-138 | The call succeeds exactly when the agent answers. On success it returns the unwrapped reply text and the resolved id. On failure it returns 500 with "Error processing request: " and the error. Every session other than the resolved one is unchanged. |
| `FastApi.ChatOnKnownSession` | fast_api.py:107-135 | With a known non-empty id, the keys, order, name and memory stay as they were. The transcript grows by the user message and then the assistant reply on success, and by the user message alone on failure. |
| `FastApi.ChatOnNewSession` | fast_api.py:110-135 | With an absent, empty or unknown id, exactly one session is added under the fresh id, last in order and named "Auto-created Session". It holds the new memory and the transcript `[greeting, user, assistant]` on success, or `[greeting, user]` on failure. |
| `FastApi.InsertKeepsInvariants` | fast_api.py:59-65 | Adding a session that starts with the greeting and has a memory no other session uses keeps every transcript greeted and every memory unshared. |
| `FastApi.AppendKeepsInvariants` | fast_api.py:123 | Appending a message keeps every transcript starting with the greeting and keeps memories unshared. |
| `FastApi.ChatKeepsInvariants` | fast_api.py:105-138 | A chat turn keeps both session invariants, on success and on failure. |
| `FastApi.CreateChatDelete` | fast_api.py:55-138 | Scenario: create "Test" and get `message_count` 1, chat "Hi" with an answer, and the transcript is greeting, user and assistant in that order. After deletion, reading the id fails with 404. |
| `FastApi.SessionStore.constructor` | fast_api.py:32 | The process starts with an empty session table. |
| `FastApi.SessionStore.CreateSession` | fast_api.py:55-71 | Adds exactly the fresh key last, with the given name, the greeting alone and a fresh memory with a 30000-token budget. It returns `message_count` 1, appends its descriptor to the listing and changes no other session. |
| `FastApi.SessionStore.DeleteSession` | fast_api.py:93-100 | An absent id returns 404 and changes nothing. A present id returns "Session deleted successfully" and the table becomes `Del` of the old table. |
| `FastApi.SessionStore.ChatWithAgent` | fast_api.py:102-138 | The new table and the answer are those of `Chat`, and an auto-created session's memory is fresh. The agent was called exactly once with this message while bound to the resolved session's own memory, which no other session holds. |
| `Agent.Memory.FromDefaults` | fast_api.py:64 | A new memory carries the token budget it was created with. |
| `Agent.ReActAgent.Chat` | fast_api.py:129 | Each agent call is recorded with the memory bound at that moment. Its result is the outcome of the call. |
| `Agent.ReActAgent.constructor` | agent.py:257 | The shared agent starts bound to a newly created memory with a 30000-token budget, and with no calls made. |

## Left out

- Document loading, chunking, embeddings, index construction, the tool
  descriptions, tool retrieval and the reasoning loop of the agent are left
  out. They are library calls and network I/O, and what `agent.chat`
  answers is a parameter (`outcome`).
- `get_agent_response_sync` is left out. It repeats the reply unwrapping
  that `ReplyText` models.
- The chat UI script is left out. It is presentation code over the same
  agent, with its own single transcript and a clear-history reset.
- What a `Memory` holds, its token window and how `agent.chat` updates it
  are left out. Memory is opaque, so the requirement that transcript and
  memory record the same exchanges is not stated.
- The randomness of `uuid.uuid4()` is left out. The generated id is the
  parameter `freshId`. The code never checks it for a collision; the model
  requires it to be new.
- `async` handlers and `nest_asyncio` are left out. So is the race in which
  two interleaved chat requests rebind the shared `agent.memory` between
  binding and calling. The model is sequential, so the binding property is
  stated per call.
- CORS middleware, uvicorn start-up, the root liveness endpoint and `.env`
  loading are left out.
- FastAPI/pydantic validation of request and response bodies is left out.
- `FastApi.SessionStore.CreateSession`: takes the session name as a string.
  An absent field defaults to "New Session" in the request model. An explicit
  JSON null is allowed by `Optional[str]`. The code would store it and then
  fail to build the response, which pydantic decides and this model does not
  capture.
- `FastApi.ListSessions`: never fails in the model. In the code, a session
  stored with a null name (see the line above) stays in `sessions`, and
  every later GET /sessions fails with a 500 while building its descriptor.
  The client never received that session's id, so it cannot delete it. This
  failure of the listing is not expressed, because names are always strings
  here.
- `FastApi.SessionStore.ChatWithAgent`: only the agent call can fail in the
  model. An exception from `str()` of a response, or any other unexpected
  error inside the `try`, is not modelled. Such an error would also end in
  the same 500 answer.
