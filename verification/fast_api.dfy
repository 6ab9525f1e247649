/**
 * The HTTP layer of the IT-support agent: an in-process table of chat
 * sessions (a name, a transcript and a private agent memory per session) and
 * the endpoints that create, list, read and delete sessions and that run one
 * chat turn against the shared agent.
 *
 * The `sessions` dictionary is the `table` field of a `SessionStore`; the
 * endpoints that only read it are functions of the table, the endpoints that
 * change it are methods proved against the functions `Put`, `Del`, `Append`
 * and `Chat` below.
 */
module FastApi {
  import opened Wrappers
  import opened Agent

  // ---------------------------------------------------------------------
  // Sessions

  datatype Role = User | Assistant

  datatype Message = Message(role: Role, content: string)

  /** The assistant greeting every session starts with. */
  const GREETING: Message :=
    Message(Assistant, "\U{1F44B} Hello! How can I help you with TechCorp IT today?")

  /** The name given to a session that a chat request creates on the fly. */
  const AUTO_SESSION_NAME: string := "Auto-created Session"

  datatype Session = Session(name: string, messages: seq<Message>, memory: Memory)

  /** A session as both creation paths build it: the greeting and a new memory. */
  function NewSession(name: string, memory: Memory): (s: Session)
    ensures s.name == name && s.memory == memory
    ensures |s.messages| == 1 && s.messages[0] == GREETING && s.messages[0].role == Assistant
  {
    Session(name, [GREETING], memory)
  }

  // ---------------------------------------------------------------------
  // The sessions dictionary

  /**
   * A dictionary from session id to session. Python dictionaries iterate in
   * insertion order, so the table keeps its keys in that order beside the map.
   */
  datatype Table = Table(keys: seq<string>, entries: map<string, Session>)

  const EMPTY: Table := Table([], map[])

  predicate Distinct(s: seq<string>) {
    forall i, j :: 0 <= i < j < |s| ==> s[i] != s[j]
  }

  /** Each key of the map appears exactly once in the order. */
  ghost predicate Consistent(t: Table) {
    && Distinct(t.keys)
    && forall k :: k in t.keys <==> k in t.entries
  }

  /** Every session still begins with the greeting it was created with. */
  predicate Greeted(t: Table) {
    forall k :: k in t.entries ==>
      |t.entries[k].messages| >= 1 && t.entries[k].messages[0] == GREETING
  }

  /** No two sessions share a memory object. */
  predicate Isolated(t: Table) {
    forall k, l :: k in t.entries && l in t.entries && k != l ==>
      t.entries[k].memory != t.entries[l].memory
  }

  /** No session of the table uses `memory`. */
  predicate UnusedMemory(t: Table, memory: Memory) {
    forall k :: k in t.entries ==> t.entries[k].memory != memory
  }

  /** `sessions[id] = s`: a new key goes last, an existing key keeps its place. */
  function Put(t: Table, id: string, s: Session): (r: Table)
    requires Consistent(t)
    ensures Consistent(r)
    ensures r.entries.Keys == t.entries.Keys + {id} && r.entries[id] == s
    ensures forall k :: k in t.entries && k != id ==> r.entries[k] == t.entries[k]
    ensures id in t.entries ==> r.keys == t.keys
    ensures id !in t.entries ==> r.keys == t.keys + [id]
  {
    Table(if id in t.entries then t.keys else t.keys + [id], t.entries[id := s])
  }

  /** `sessions[id]["messages"].append(m)`: the order of the table is untouched. */
  function Append(t: Table, id: string, m: Message): (r: Table)
    requires Consistent(t) && id in t.entries
    ensures Consistent(r) && r.keys == t.keys && r.entries.Keys == t.entries.Keys
    ensures r.entries[id].messages == t.entries[id].messages + [m]
    ensures r.entries[id].name == t.entries[id].name
    ensures r.entries[id].memory == t.entries[id].memory
    ensures forall k :: k in t.entries && k != id ==> r.entries[k] == t.entries[k]
  {
    Put(t, id, t.entries[id].(messages := t.entries[id].messages + [m]))
  }

  /** The key order with `id` taken out. */
  function Without(keys: seq<string>, id: string): (r: seq<string>)
    ensures forall k :: k in r <==> k in keys && k != id
    ensures id !in keys ==> r == keys
    ensures Distinct(keys) ==> Distinct(r)
  {
    if keys == [] then []
    else if keys[0] == id then Without(keys[1..], id)
    else
      assert Distinct(keys) ==> keys[0] !in keys[1..];
      [keys[0]] + Without(keys[1..], id)
  }

  /** `del sessions[id]`. */
  function Del(t: Table, id: string): (r: Table)
    requires Consistent(t) && id in t.entries
    ensures Consistent(r)
    ensures r.entries.Keys == t.entries.Keys - {id}
    ensures forall k :: k in r.entries ==> r.entries[k] == t.entries[k]
  {
    Table(Without(t.keys, id), t.entries - {id})
  }

  /** The tail of a list of distinct keys is distinct and lacks the head. */
  lemma DistinctTail(s: seq<string>)
    requires Distinct(s) && s != []
    ensures Distinct(s[1..]) && s[0] !in s[1..]
  {
    forall i, j | 0 <= i < j < |s[1..]| ensures s[1..][i] != s[1..][j] {
      assert s[1..][i] == s[i + 1] && s[1..][j] == s[j + 1];
    }
  }

  /**
   * Taking out a key that sits at position `p`, and nowhere else, closes the
   * gap and keeps the rest in order.
   */
  lemma {:induction false} WithoutAt(keys: seq<string>, p: nat)
    requires p < |keys| && keys[p] !in keys[..p] && keys[p] !in keys[p + 1..]
    ensures Without(keys, keys[p]) == keys[..p] + keys[p + 1..]
  {
    var id, tail := keys[p], keys[1..];
    if p == 0 {
      assert tail == keys[p + 1..];
    } else {
      assert keys[0] == keys[..p][0];
      assert tail[p - 1] == id;
      assert tail[..p - 1] == keys[..p][1..];
      assert tail[p..] == keys[p + 1..];
      WithoutAt(tail, p - 1);
      assert keys[..p] == [keys[0]] + tail[..p - 1];
    }
  }

  /** A list of distinct keys has as many elements as the set of its keys. */
  lemma {:induction false} DistinctCardinality(s: seq<string>)
    requires Distinct(s)
    ensures |set k | k in s| == |s|
  {
    if s != [] {
      DistinctTail(s);
      DistinctCardinality(s[1..]);
      assert (set k | k in s) == (set k | k in s[1..]) + {s[0]};
    }
  }

  /** The size of the dictionary is the length of its key order. */
  lemma KeyCount(t: Table)
    requires Consistent(t)
    ensures |t.entries| == |t.keys|
  {
    assert t.entries.Keys == set k | k in t.keys;
    DistinctCardinality(t.keys);
  }

  // ---------------------------------------------------------------------
  // Request and response bodies

  datatype HttpError = HttpError(statusCode: int, detail: string)

  /** Raised by the read and delete endpoints for an unknown id. */
  const NOT_FOUND: HttpError := HttpError(404, "Session not found")

  const CHAT_FAILURE_PREFIX: string := "Error processing request: "

  /** What the chat endpoint turns any exception into: a 500 whose detail ends with the error text. */
  function ChatFailure(error: string): (e: HttpError)
    ensures e.statusCode == 500
    ensures CHAT_FAILURE_PREFIX <= e.detail && e.detail[|CHAT_FAILURE_PREFIX|..] == error
  {
    HttpError(500, CHAT_FAILURE_PREFIX + error)
  }

  /** An endpoint's JSON answer or the HTTP error it raises. */
  datatype Result<+T> = Ok(value: T) | Err(error: HttpError)

  datatype SessionResponse = SessionResponse(sessionId: string, sessionName: string, messageCount: nat)

  /** The body of POST /chat; `sessionId` is absent when the client sends none. */
  datatype ChatMessage = ChatMessage(message: string, sessionId: Option<string>)

  datatype ChatResponse = ChatResponse(response: string, sessionId: string)

  datatype Health = Health(status: string, activeSessions: nat, agentStatus: string)

  // ---------------------------------------------------------------------
  // Endpoints that only read the table

  /** The descriptor of one session in the listing. */
  function Describe(id: string, s: Session): (d: SessionResponse)
    ensures d.sessionId == id && d.sessionName == s.name
    ensures d.messageCount == |s.messages|
  {
    SessionResponse(id, s.name, |s.messages|)
  }

  /** One descriptor per key, in the order of `keys`. */
  function Descriptors(keys: seq<string>, entries: map<string, Session>): (r: seq<SessionResponse>)
    requires forall k :: k in keys ==> k in entries
    ensures |r| == |keys|
    ensures forall i :: 0 <= i < |keys| ==> r[i] == Describe(keys[i], entries[keys[i]])
  {
    if keys == [] then []
    else [Describe(keys[0], entries[keys[0]])] + Descriptors(keys[1..], entries)
  }

  /** GET /sessions. */
  function ListSessions(t: Table): (r: seq<SessionResponse>)
    requires Consistent(t)
    ensures |r| == |t.keys|
    ensures forall i :: 0 <= i < |r| ==>
      && r[i].sessionId == t.keys[i]
      && r[i].sessionName == t.entries[t.keys[i]].name
      && r[i].messageCount == |t.entries[t.keys[i]].messages|
    ensures forall i, j :: 0 <= i < j < |r| ==> r[i].sessionId != r[j].sessionId
  {
    Descriptors(t.keys, t.entries)
  }

  /** GET /sessions/{id}/messages. */
  function GetSessionMessages(t: Table, id: string): (r: Result<seq<Message>>)
    ensures r.Err? <==> id !in t.entries
    ensures r.Err? ==> r.error == NOT_FOUND
    ensures r.Ok? ==> r.value == t.entries[id].messages
  {
    if id !in t.entries then Err(NOT_FOUND) else Ok(t.entries[id].messages)
  }

  /** GET /health: the session count it reports is the length of the session listing. */
  function HealthCheck(t: Table): (h: Health)
    requires Consistent(t)
    ensures h.activeSessions == |ListSessions(t)|
    ensures h.status == "healthy" && h.agentStatus == "ready"
  {
    KeyCount(t);
    Health("healthy", |t.entries|, "ready")
  }

  // ---------------------------------------------------------------------
  // One chat turn

  /** The test at the top of the chat endpoint: an id that is given, not empty, and known. */
  predicate Resolves(t: Table, sessionId: Option<string>)
    ensures sessionId.None? ==> !Resolves(t, sessionId)
    ensures sessionId == Some("") ==> !Resolves(t, sessionId)
    ensures Resolves(t, sessionId) <==> sessionId.Some? && sessionId.value != "" && sessionId.value in t.entries
  {
    sessionId.Some? && sessionId.value != "" && sessionId.value in t.entries
  }

  /** The session a chat request is served by: the one it names, or a new one under `freshId`. */
  function ResolvedId(t: Table, sessionId: Option<string>, freshId: string): (id: string)
    ensures Resolves(t, sessionId) ==> Some(id) == sessionId && id in t.entries
    ensures !Resolves(t, sessionId) ==> id == freshId
  {
    if Resolves(t, sessionId) then sessionId.value else freshId
  }

  /** The text of an agent response: its `response` attribute if it has one, else `str()` of it. */
  function ReplyText(response: AgentResponse): (text: string)
    ensures response.response.Some? ==> text == response.response.value
    ensures response.response.None? ==> text == response.rendered
  {
    match response.response
    case Some(text) => text
    case None => response.rendered
  }

  /** The table once the request's session is found or, failing that, created. */
  function Resolve(t: Table, sessionId: Option<string>, freshId: string, memory: Memory): (r: Table)
    requires Consistent(t)
    requires !Resolves(t, sessionId) ==> freshId !in t.entries
    ensures Consistent(r) && ResolvedId(t, sessionId, freshId) in r.entries
    ensures Resolves(t, sessionId) ==> r == t
    ensures !Resolves(t, sessionId) ==>
      r.keys == t.keys + [freshId] && r.entries[freshId] == NewSession(AUTO_SESSION_NAME, memory)
    ensures forall k :: k in t.entries ==> k in r.entries && r.entries[k] == t.entries[k]
  {
    if Resolves(t, sessionId) then t else Put(t, freshId, NewSession(AUTO_SESSION_NAME, memory))
  }

  /**
   * POST /chat on a table: the table afterwards and the answer. `freshId` is
   * the id generated for a new session and `memory` the memory a new session
   * is given; both matter only when the request names no known session.
   */
  function Chat(t: Table, req: ChatMessage, freshId: string, memory: Memory, outcome: Outcome)
    : (r: (Table, Result<ChatResponse>))
    requires Consistent(t)
    requires !Resolves(t, req.sessionId) ==> freshId !in t.entries
    ensures Consistent(r.0) && ResolvedId(t, req.sessionId, freshId) in r.0.entries
    ensures r.1.Ok? <==> outcome.Replied?
    ensures outcome.Replied? ==>
      r.1 == Ok(ChatResponse(ReplyText(outcome.value), ResolvedId(t, req.sessionId, freshId)))
    ensures outcome.Raised? ==> r.1 == Err(ChatFailure(outcome.error))
    // no session other than the resolved one changes
    ensures forall k :: k in t.entries && k != ResolvedId(t, req.sessionId, freshId) ==>
      k in r.0.entries && r.0.entries[k] == t.entries[k]
  {
    var id := ResolvedId(t, req.sessionId, freshId);
    var asked := Append(Resolve(t, req.sessionId, freshId, memory), id, Message(User, req.message));
    match outcome
    case Raised(error) => (asked, Err(ChatFailure(error)))
    case Replied(response) =>
      var text := ReplyText(response);
      (Append(asked, id, Message(Assistant, text)), Ok(ChatResponse(text, id)))
  }

  /**
   * A chat turn on a known session keeps the table's keys and order and the
   * session's name and memory; the transcript gains the user message and,
   * when the agent answers, the reply after it.
   */
  lemma ChatOnKnownSession(t: Table, req: ChatMessage, freshId: string, memory: Memory, outcome: Outcome)
    requires Consistent(t) && Resolves(t, req.sessionId)
    ensures var (t', _) := Chat(t, req, freshId, memory, outcome);
      var id := req.sessionId.value;
      && t'.keys == t.keys
      && t'.entries.Keys == t.entries.Keys
      && t'.entries[id].name == t.entries[id].name
      && t'.entries[id].memory == t.entries[id].memory
      && (outcome.Replied? ==>
            t'.entries[id].messages == t.entries[id].messages
              + [Message(User, req.message), Message(Assistant, ReplyText(outcome.value))])
      && (outcome.Raised? ==>
            t'.entries[id].messages == t.entries[id].messages + [Message(User, req.message)])
  {
    var id := req.sessionId.value;
    var asked := Append(t, id, Message(User, req.message));
    if outcome.Replied? {
      var answered := Append(asked, id, Message(Assistant, ReplyText(outcome.value)));
      assert answered.entries[id].messages
        == t.entries[id].messages + [Message(User, req.message)] + [Message(Assistant, ReplyText(outcome.value))];
    }
  }

  /**
   * A chat turn that names no known session adds exactly one session, last in
   * the order, named "Auto-created Session", holding `memory`, the greeting,
   * the user message and, when the agent answers, the reply.
   */
  lemma ChatOnNewSession(t: Table, req: ChatMessage, freshId: string, memory: Memory, outcome: Outcome)
    requires Consistent(t) && !Resolves(t, req.sessionId) && freshId !in t.entries
    ensures var (t', _) := Chat(t, req, freshId, memory, outcome);
      && t'.keys == t.keys + [freshId]
      && t'.entries.Keys == t.entries.Keys + {freshId}
      && t'.entries[freshId].name == AUTO_SESSION_NAME
      && t'.entries[freshId].memory == memory
      && (outcome.Replied? ==>
            t'.entries[freshId].messages
              == [GREETING, Message(User, req.message), Message(Assistant, ReplyText(outcome.value))])
      && (outcome.Raised? ==>
            t'.entries[freshId].messages == [GREETING, Message(User, req.message)])
  {
    var created := Put(t, freshId, NewSession(AUTO_SESSION_NAME, memory));
    var asked := Append(created, freshId, Message(User, req.message));
    assert asked.entries[freshId].messages == [GREETING, Message(User, req.message)];
    if outcome.Replied? {
      var answered := Append(asked, freshId, Message(Assistant, ReplyText(outcome.value)));
      assert answered.entries[freshId].messages
        == [GREETING, Message(User, req.message)] + [Message(Assistant, ReplyText(outcome.value))];
    }
  }

  /** Adding a greeted session with a memory of its own keeps both session invariants. */
  lemma InsertKeepsInvariants(t: Table, id: string, s: Session)
    requires Consistent(t) && id !in t.entries
    ensures Greeted(t) && |s.messages| >= 1 && s.messages[0] == GREETING ==> Greeted(Put(t, id, s))
    ensures Isolated(t) && UnusedMemory(t, s.memory) ==> Isolated(Put(t, id, s))
  {
    var r := Put(t, id, s);
    if Isolated(t) && UnusedMemory(t, s.memory) {
      forall k, l | k in r.entries && l in r.entries && k != l
        ensures r.entries[k].memory != r.entries[l].memory
      {
        if k != id && l != id {
          assert r.entries[k] == t.entries[k] && r.entries[l] == t.entries[l];
        }
      }
    }
  }

  /** Appending a message keeps both session invariants. */
  lemma AppendKeepsInvariants(t: Table, id: string, m: Message)
    requires Consistent(t) && id in t.entries
    ensures Greeted(t) ==> Greeted(Append(t, id, m))
    ensures Isolated(t) ==> Isolated(Append(t, id, m))
  {
    var r := Append(t, id, m);
    if Greeted(t) {
      forall k | k in r.entries ensures |r.entries[k].messages| >= 1 && r.entries[k].messages[0] == GREETING {
        assert k in t.entries;
        if k == id {
          assert r.entries[k].messages == t.entries[k].messages + [m];
        }
      }
    }
    if Isolated(t) {
      forall k, l | k in r.entries && l in r.entries && k != l
        ensures r.entries[k].memory != r.entries[l].memory
      {
        assert r.entries[k].memory == t.entries[k].memory && r.entries[l].memory == t.entries[l].memory;
      }
    }
  }

  /**
   * A chat turn keeps every transcript starting with the greeting and, when a
   * new session gets a memory no other session uses, keeps memories unshared.
   */
  lemma ChatKeepsInvariants(t: Table, req: ChatMessage, freshId: string, memory: Memory, outcome: Outcome)
    requires Consistent(t) && (!Resolves(t, req.sessionId) ==> freshId !in t.entries)
    requires Greeted(t) && Isolated(t)
    requires !Resolves(t, req.sessionId) ==> UnusedMemory(t, memory)
    ensures Greeted(Chat(t, req, freshId, memory, outcome).0)
    ensures Isolated(Chat(t, req, freshId, memory, outcome).0)
  {
    var id := ResolvedId(t, req.sessionId, freshId);
    if !Resolves(t, req.sessionId) {
      InsertKeepsInvariants(t, freshId, NewSession(AUTO_SESSION_NAME, memory));
    }
    var resolved := Resolve(t, req.sessionId, freshId, memory);
    AppendKeepsInvariants(resolved, id, Message(User, req.message));
    var asked := Append(resolved, id, Message(User, req.message));
    if outcome.Replied? {
      AppendKeepsInvariants(asked, id, Message(Assistant, ReplyText(outcome.value)));
    }
  }

  // ---------------------------------------------------------------------
  // Properties that relate several endpoints

  /** Listing one more key at the end, over entries that agree on the old keys, adds its descriptor last. */
  lemma DescriptorsAppend(keys: seq<string>, id: string, e: map<string, Session>, e': map<string, Session>)
    requires forall k :: k in keys ==> k in e && k in e' && e'[k] == e[k]
    requires id in e'
    ensures Descriptors(keys + [id], e') == Descriptors(keys, e) + [Describe(id, e'[id])]
  {
    var longer, shorter := Descriptors(keys + [id], e'), Descriptors(keys, e);
    forall i | 0 <= i < |longer| ensures longer[i] == (shorter + [Describe(id, e'[id])])[i] {
      if i < |keys| {
        assert (keys + [id])[i] == keys[i];
      }
    }
  }

  /** Listing the keys without the one at `p`, over entries that agree on them, drops the p-th descriptor. */
  lemma DescriptorsRemove(keys: seq<string>, p: nat, e: map<string, Session>, e': map<string, Session>)
    requires p < |keys|
    requires forall k :: k in keys ==> k in e
    requires forall k :: k in keys && k != keys[p] ==> k in e' && e'[k] == e[k]
    requires keys[p] !in keys[..p] && keys[p] !in keys[p + 1..]
    ensures Descriptors(keys[..p] + keys[p + 1..], e') == Descriptors(keys, e)[..p] + Descriptors(keys, e)[p + 1..]
  {
    var rest := keys[..p] + keys[p + 1..];
    var full := Descriptors(keys, e);
    var after, expected := Descriptors(rest, e'), full[..p] + full[p + 1..];
    forall i | 0 <= i < |after| ensures after[i] == expected[i] {
      if i < p {
        assert rest[i] == keys[i] && keys[i] in keys[..p];
      } else {
        assert rest[i] == keys[i + 1] && keys[i + 1] in keys[p + 1..];
      }
    }
  }

  /** A created session appears last in the listing; the earlier descriptors are unchanged. */
  lemma ListAfterInsert(t: Table, id: string, s: Session)
    requires Consistent(t) && id !in t.entries
    ensures ListSessions(Put(t, id, s)) == ListSessions(t) + [Describe(id, s)]
  {
    DescriptorsAppend(t.keys, id, t.entries, t.entries[id := s]);
  }

  /** An id is listed exactly when it names a session. */
  lemma ListedIff(t: Table, id: string)
    requires Consistent(t)
    ensures id in t.entries <==>
      exists i :: 0 <= i < |ListSessions(t)| && ListSessions(t)[i].sessionId == id
  {
    if id in t.entries {
      var i :| 0 <= i < |t.keys| && t.keys[i] == id;
      assert ListSessions(t)[i].sessionId == id;
    }
  }

  /**
   * Deleting the session at position `p` of the listing takes exactly that
   * descriptor out; reading or deleting the id afterwards fails with 404.
   */
  lemma DeleteRemovesSession(t: Table, p: nat)
    requires Consistent(t) && p < |t.keys|
    ensures var t' := Del(t, t.keys[p]);
      && ListSessions(t') == ListSessions(t)[..p] + ListSessions(t)[p + 1..]
      && GetSessionMessages(t', t.keys[p]) == Err(NOT_FOUND)
      && t.keys[p] !in t'.entries
  {
    var id := t.keys[p];
    assert id !in t.keys[..p] && id !in t.keys[p + 1..] by {
      forall j | 0 <= j < |t.keys| && j != p ensures t.keys[j] != id { }
    }
    WithoutAt(t.keys, p);
    DescriptorsRemove(t.keys, p, t.entries, t.entries - {id});
  }

  /**
   * The scenario of a created session named "Test": one chat turn "Hi" that
   * the agent answers leaves three messages in order, and after the session
   * is deleted its messages are no longer found.
   */
  lemma CreateChatDelete(t: Table, id: string, memory: Memory, response: AgentResponse)
    requires Consistent(t) && id !in t.entries && id != ""
    ensures var created := Put(t, id, NewSession("Test", memory));
      var (chatted, answer) := Chat(created, ChatMessage("Hi", Some(id)), id, memory, Replied(response));
      && ListSessions(created)[|t.keys|] == SessionResponse(id, "Test", 1)
      && answer == Ok(ChatResponse(ReplyText(response), id))
      && GetSessionMessages(chatted, id)
           == Ok([GREETING, Message(User, "Hi"), Message(Assistant, ReplyText(response))])
      && GetSessionMessages(Del(chatted, id), id) == Err(NOT_FOUND)
  {
    var created := Put(t, id, NewSession("Test", memory));
    ListAfterInsert(t, id, NewSession("Test", memory));
    ChatOnKnownSession(created, ChatMessage("Hi", Some(id)), id, memory, Replied(response));
    var (chatted, answer) := Chat(created, ChatMessage("Hi", Some(id)), id, memory, Replied(response));
    var transcript := [GREETING, Message(User, "Hi"), Message(Assistant, ReplyText(response))];
    assert [GREETING] + [Message(User, "Hi"), Message(Assistant, ReplyText(response))] == transcript;
    assert chatted.entries[id].messages == transcript;
  }

  // ---------------------------------------------------------------------
  // The process state: the sessions dictionary and the shared agent

  class SessionStore {
    /** The `sessions` dictionary. */
    var table: Table
    /** The agent instance every request uses. */
    const agent: ReActAgent

    ghost predicate Valid()
      reads this
    {
      Consistent(table) && Greeted(table) && Isolated(table)
    }

    /** The state at start-up: no sessions. */
    constructor (agent: ReActAgent)
      ensures Valid() && table == EMPTY && this.agent == agent
    {
      table := EMPTY;
      this.agent := agent;
    }

    /** POST /sessions; `freshId` is the generated uuid. */
    method CreateSession(sessionName: string, freshId: string) returns (r: SessionResponse)
      requires Valid() && freshId !in table.entries
      modifies this
      ensures Valid()
      ensures freshId in table.entries
      ensures fresh(table.entries[freshId].memory)
      ensures table.entries[freshId].memory.tokenLimit == TOKEN_LIMIT
      ensures table == Put(old(table), freshId, NewSession(sessionName, table.entries[freshId].memory))
      ensures r == SessionResponse(freshId, sessionName, 1)
      ensures ListSessions(table) == ListSessions(old(table)) + [r]
    {
      var memory := new Memory.FromDefaults(TOKEN_LIMIT);
      var session := NewSession(sessionName, memory);
      assert UnusedMemory(table, memory);
      InsertKeepsInvariants(table, freshId, session);
      ListAfterInsert(table, freshId, session);
      table := Put(table, freshId, session);
      r := SessionResponse(freshId, sessionName, 1);
    }

    /** DELETE /sessions/{id}. */
    method DeleteSession(id: string) returns (r: Result<string>)
      requires Valid()
      modifies this
      ensures Valid()
      ensures id !in old(table.entries) ==> r == Err(NOT_FOUND) && table == old(table)
      ensures id in old(table.entries) ==>
        r == Ok("Session deleted successfully") && table == Del(old(table), id)
    {
      if id !in table.entries {
        return Err(NOT_FOUND);
      }
      table := Del(table, id);
      r := Ok("Session deleted successfully");
    }

    /**
     * POST /chat; `freshId` is the uuid generated when no known session is
     * named, `outcome` how the agent call ends. The agent is called with the
     * resolved session's own memory bound to it.
     */
    method ChatWithAgent(req: ChatMessage, freshId: string, outcome: Outcome)
      returns (r: Result<ChatResponse>)
      requires Valid()
      requires !Resolves(table, req.sessionId) ==> freshId !in table.entries
      modifies this, agent
      ensures Valid()
      ensures var id := ResolvedId(old(table), req.sessionId, freshId);
        && id in table.entries
        && (!Resolves(old(table), req.sessionId) ==>
              fresh(table.entries[id].memory) && table.entries[id].memory.tokenLimit == TOKEN_LIMIT)
        && (table, r) == Chat(old(table), req, freshId, table.entries[id].memory, outcome)
        && agent.memory == table.entries[id].memory
        && (forall k :: k in table.entries && k != id ==> table.entries[k].memory != agent.memory)
        && agent.invocations
             == old(agent.invocations) + [Invocation(table.entries[id].memory, req.message)]
    {
      var id: string;
      ghost var memory: Memory;
      if req.sessionId.Some? && req.sessionId.value != "" && req.sessionId.value in table.entries {
        id := req.sessionId.value;
        memory := table.entries[id].memory;
      } else {
        id := freshId;
        var created := new Memory.FromDefaults(TOKEN_LIMIT);
        memory := created;
        assert UnusedMemory(table, created);
        table := Put(table, id, NewSession(AUTO_SESSION_NAME, created));
      }
      assert table == Resolve(old(table), req.sessionId, freshId, memory);
      ChatKeepsInvariants(old(table), req, freshId, memory, outcome);
      table := Append(table, id, Message(User, req.message));
      agent.memory := table.entries[id].memory;
      var answer := agent.Chat(req.message, outcome);
      match answer
      case Raised(error) =>
        r := Err(ChatFailure(error));
      case Replied(response) =>
        var text := ReplyText(response);
        table := Append(table, id, Message(Assistant, text));
        r := Ok(ChatResponse(text, id));
    }
  }
}
