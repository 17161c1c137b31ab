/** The rules inside the HTTP handlers (app/main.py): the synthetic session
    id and the user id read back from it, prompt assembly, persona fallbacks,
    the message count, unknown-persona rejection, clear versus delete, and
    the health status, sequenced over one shared store. */
module Handlers {
  import opened Wrappers
  import opened Json
  import opened Strings
  import opened KeyValue
  import opened Memory
  import opened Sessions
  import opened Personas
  import opened LMStudio

  const DefaultUser: string := "default_user"
  /** The persona key chat_api uses when the request names none. */
  const DefaultPersonaKey: string := "default"
  /** The persona a session created on the fly by chat_api records. */
  const ImplicitPersona: string := "default"
  const FallbackSystemPrompt: string := "You are a helpful assistant."
  const FallbackTemperature: Json := JFloat(Number(7, -1))
  const FallbackMaxTokens: Json := JInt(500)
  /** ChatMemoryManager's default `max_messages`, which every handler uses. */
  const HistoryCapacity: int := 10

  /** chat_api's user id: the second `_`-separated field of the session id,
      or "default_user" when the id has no `_`. */
  function UserIdOf(sessionId: string): (r: string)
    ensures '_' !in sessionId ==> r == DefaultUser
    ensures '_' in sessionId ==> '_' !in r
  {
    if '_' in sessionId then SecondField(sessionId, '_') else DefaultUser
  }

  /** Reading the user id back from a created session id gives the user id
      exactly when that id has no `_` in it. */
  lemma UserIdRoundTrip(userId: string, seconds: nat)
    ensures UserIdOf(DisplaySessionId(userId, seconds)) == userId <==> '_' !in userId
  {
    var tail := "_" + DecimalDigits(seconds);
    var rest := userId + tail;
    assert DisplaySessionId(userId, seconds) == "session" + ['_'] + rest;
    DropThroughAppend("session", rest, '_');
    if '_' !in userId {
      assert TakeUntil(rest, '_') == userId by {
        TakeUntilAppend(userId, tail, '_');
        assert TakeUntil(tail, '_') == "";
      }
    }
  }

  lemma {:induction false} DropThroughAppend(a: string, b: string, c: char)
    requires c !in a
    ensures c in a + [c] + b && DropThrough(a + [c] + b, c) == b
    decreases |a|
  {
    var s := a + [c] + b;
    assert s[|a|] == c;
    if a != [] {
      assert s[1..] == a[1..] + [c] + b;
      DropThroughAppend(a[1..], b, c);
    }
  }

  /** chat_api's prompt: the context (if any) then the user turn and the
      assistant cue. */
  function Prompt(context: string, message: string): (r: string)
    ensures StartsWith(r, context)
    ensures EndsWith(r, "User: " + message + "\nAssistant:")
    ensures context == "" <==> r == "User: " + message + "\nAssistant:"
  {
    var r := if context != "" then context + "\n\nUser: " + message + "\nAssistant:"
      else "User: " + message + "\nAssistant:";
    assert r[..|context|] == context;
    assert r[|r| - |"User: " + message + "\nAssistant:"|..] == "User: " + message + "\nAssistant:";
    r
  }

  /** When the context already ends with the user's turn, the prompt repeats
      that turn. */
  lemma PromptRepeatsTurn(context: string, message: string)
    requires EndsWith(context, "User: " + message)
    ensures var prefix := context[..|context| - |"User: " + message|];
      Prompt(context, message) == prefix + "User: " + message + "\n\nUser: " + message + "\nAssistant:"
  {
    var turn := "User: " + message;
    var prefix := context[..|context| - |turn|];
    assert context == prefix + turn;
  }

  /** The history chat_api leaves after a reply: the old list with the user's
      turn pushed and trimmed, then the reply pushed and trimmed. Read back
      as get_history does, it ends with that turn and then the reply. */
  lemma ReplyFollowsTurnInHistory(before: seq<Text>, turn: Message, reply: Message)
    ensures var after := LastN(LastN(before + [Encoded(turn)], HistoryCapacity) + [Encoded(reply)], HistoryCapacity);
      EndsWithExchange(DecodeAll(LastN(after, HistoryCapacity)), turn, reply)
  {
    var asked := LastN(before + [Encoded(turn)], HistoryCapacity);
    var after := LastN(asked + [Encoded(reply)], HistoryCapacity);
    TrimIdempotent(asked + [Encoded(reply)], HistoryCapacity);
    PushedIsNewest(asked, Encoded(reply), HistoryCapacity);
    DecodeAllSnoc(LastN(asked, HistoryCapacity - 1), reply);
    ReplyFollowsTurn(before, turn, reply, HistoryCapacity, DecodeAll(LastN(after, HistoryCapacity)));
  }

  /** The sampling settings and system prompt chat_api sends. */
  datatype Settings = Settings(temperature: Json, maxTokens: Json, system: string)

  function PersonaKeyOf(personaName: string): string {
    if personaName != "" then personaName else DefaultPersonaKey
  }

  /** chat_api's persona fallbacks: a known persona's temperature and token
      limit (with get_persona_info's defaults), else 0.7 and 500; its system
      prompt when that is a non-empty string, else the helpful-assistant
      prompt. */
  function SettingsFor(personas: PersonaManager, personaName: string): (r: Settings)
    ensures r.system != ""
    ensures !personas.Known(PersonaKeyOf(personaName)) ==>
      r == Settings(FallbackTemperature, FallbackMaxTokens, FallbackSystemPrompt)
    ensures personas.Known(PersonaKeyOf(personaName)) ==>
      var info := personas.GetPersonaInfo(PersonaKeyOf(personaName));
      r.temperature == info.temperature && r.maxTokens == info.maxTokens
    ensures personas.GetSystemPrompt(PersonaKeyOf(personaName)).JStr? && Truthy(personas.GetSystemPrompt(PersonaKeyOf(personaName))) ==>
      r.system == personas.GetSystemPrompt(PersonaKeyOf(personaName)).s
  {
    var key := PersonaKeyOf(personaName);
    var info := personas.GetPersonaInfo(key);
    var prompt := personas.GetSystemPrompt(key);
    Settings(
      if info.Info? then info.temperature else FallbackTemperature,
      if info.Info? then info.maxTokens else FallbackMaxTokens,
      if prompt.JStr? && prompt.s != "" then prompt.s else FallbackSystemPrompt)
  }

  /** health_check's overall status. */
  function HealthStatus(storeOk: bool, llmOk: bool): (r: string)
    ensures r == "healthy" <==> storeOk && llmOk
    ensures r == "healthy" || r == "degraded"
  {
    if storeOk && llmOk then "healthy" else "degraded"
  }

  /** The session record key and the conversation keys never collide. */
  lemma SessionKeyNotChatKey(userId: string, k: string)
    ensures SessionKey(userId) != HistoryKey(k)
    ensures SessionKey(userId) != MetadataKey(k)
    ensures SessionKey(userId) != MarkerKey(k)
  {
    assert SessionKey(userId)[0] == 's';
    assert HistoryKey(k)[0] == 'c' && MetadataKey(k)[0] == 'c' && MarkerKey(k)[0] == 'c';
  }

  /** Why a handler answered with an HTTP error: an unknown persona is a
      400; a failed generation, and a store error (raised uncaught, or caught
      by chat_api's handler), are a 500. */
  datatype Rejection = UnknownPersona(persona: string) | GenerationFailed(cause: GatewayError) | StoreFailed(error: StoreError)

  function Status(e: Rejection): nat {
    match e
    case UnknownPersona(_) => 400
    case GenerationFailed(_) => 500
    case StoreFailed(_) => 500
  }

  /** What generate gives chat_api for a request: the reply text, or the
      error it raises. */
  function Outcome(server: ChatRequest -> Option<Json>, request: ChatRequest): Result<string, GatewayError> {
    match server(request)
    case None => Failure(RequestFailed)
    case Some(reply) =>
      match ChoiceText(reply)
      case None => Failure(MalformedReply)
      case Some(text) => Success(text)
  }

  /** The history entry add_message stores for a message. */
  function Encoded(m: Message): Text {
    Dumps(MessageJson(m))
  }

  /** The history key chat_api uses for a session id. */
  function ChatKey(sessionId: string): string {
    HistoryKey(MemoryKey(UserIdOf(sessionId), Some(sessionId)))
  }

  datatype SessionCreated = SessionCreated(sessionId: string, userId: string, createdAt: string, persona: string)
  datatype ChatResponse = ChatResponse(response: string, sessionId: string, timestamp: string)
  datatype SessionView = SessionView(userId: string, persona: string, messageCount: int, createdAt: Json, lastActivity: Json)
  datatype History = History(userId: string, sessionId: Option<string>, messageCount: nat, messages: seq<Message>)

  /** The services the handlers share, wired at startup over one store. */
  class App {
    const store: Store
    const sessions: SessionManager
    const personas: PersonaManager
    const llm: LMStudioLLM

    ghost predicate Valid()
      reads store
    {
      sessions.store == store && store.Valid() && personas.Valid()
    }

    /** startup_event with the connections given; the configured timeout is
        passed on unchecked. */
    constructor (store: Store, sessionTimeout: int, file: PersonaFile, host: string, modelName: Option<string>)
      requires store.Valid()
      requires file.Parsed? && file.personas.Some? ==> WellFormed(file.personas.value)
      ensures Valid() && this.store == store && sessions.sessionTimeout == sessionTimeout
      ensures fresh(sessions) && fresh(llm)
    {
      this.store := store;
      sessions := new SessionManager(store, sessionTimeout);
      personas := new PersonaManager(file);
      llm := new LMStudioLLM(host, modelName);
    }

    /** The session record chat_api goes on with: the stored one when it is
        present and non-empty, else the one its get-or-create writes. */
    ghost function Opened(userId: string, stamp: string): Record
      reads sessions.store
    {
      if sessions.Active(userId) then sessions.GetSession(userId).value
      else NewSession(userId, ImplicitPersona, None, stamp)
    }

    /** create_session: a new session record and its synthetic id. A
        non-positive timeout makes the record's SETEX fail, and the handler
        lets that error through. */
    method CreateSession(userId: string, persona: string, metadata: Option<Record>, seconds: nat, stamp: string)
      returns (r: Result<SessionCreated, Rejection>)
      requires Valid()
      modifies store
      ensures Valid()
      ensures sessions.sessionTimeout > 0 ==> r == Success(SessionCreated(DisplaySessionId(userId, seconds), userId, stamp, persona))
      ensures sessions.sessionTimeout <= 0 ==> r == Failure(StoreFailed(InvalidExpireTime)) && store.entries == old(store.entries)
      ensures r.Failure? ==> Status(r.error) == 500
      ensures r.Success? ==> sessions.GetSession(userId) == Some(NewSession(userId, persona, metadata, stamp))
      ensures r.Success? ==> store.Ttl(SessionKey(userId)) == Remaining(sessions.sessionTimeout)
      ensures store.entries - {SessionKey(userId)} == old(store.entries) - {SessionKey(userId)}
      ensures r.Success? ==> (UserIdOf(r.value.sessionId) == userId <==> '_' !in userId)
    {
      var sessionId := DisplaySessionId(userId, seconds);
      var data := sessions.CreateSession(userId, persona, metadata, stamp);
      if data.Failure? {
        return Failure(StoreFailed(data.error));
      }
      UserIdRoundTrip(userId, seconds);
      r := Success(SessionCreated(sessionId, userId, stamp, persona));
    }

    /** chat_api: get or create the session, store the user turn, prompt the
        model with the transcript, then store the reply and record the
        message count. Only the conversation's history and the user's session
        record change. */
    method ChatApi(sessionId: string, userMessage: string, personaName: string, stamp: string,
                   server: ChatRequest -> Option<Json>)
      returns (r: Result<ChatResponse, Rejection>, request: Option<ChatRequest>, ghost context: string)
      requires Valid()
      modifies store
      ensures Valid()
      ensures r.Failure? ==> Status(r.error) == 500
      ensures var k, sk := ChatKey(sessionId), SessionKey(UserIdOf(sessionId));
        store.entries - {k, sk} == old(store.entries) - {k, sk}
      // The session cannot be created: nothing is written and nothing is asked.
      ensures !old(sessions.Active(UserIdOf(sessionId))) && sessions.sessionTimeout <= 0 ==>
        r == Failure(StoreFailed(InvalidExpireTime)) && request.None? && store.entries == old(store.entries)
      // Otherwise the prompt is built from the stored transcript, which ends with this turn.
      ensures old(sessions.Active(UserIdOf(sessionId))) || sessions.sessionTimeout > 0 ==>
        && context == Transcript(DecodeAll(LastN(old(store.ListAt(ChatKey(sessionId))), HistoryCapacity - 1))
                                 + [NewMessage("user", userMessage, None, stamp)])
        && var settings := SettingsFor(personas, personaName);
           request == Some(ChatRequest(llm.model, ChatMessages(Prompt(context, userMessage), Some(settings.system)),
                                       settings.temperature, settings.maxTokens, false))
      // No reply: the user turn alone is added, and the session record is the opened one.
      ensures request.Some? && Outcome(server, request.value).Failure? ==>
        && r == Failure(GenerationFailed(Outcome(server, request.value).error))
        && store.ListAt(ChatKey(sessionId)) ==
             LastN(old(store.ListAt(ChatKey(sessionId))) + [Encoded(NewMessage("user", userMessage, None, stamp))], HistoryCapacity)
        && sessions.GetSession(UserIdOf(sessionId)) == Some(old(Opened(UserIdOf(sessionId), stamp)))
      // A reply: the turn then the reply are added, each push trimming to the capacity.
      ensures request.Some? && Outcome(server, request.value).Success? ==>
        store.ListAt(ChatKey(sessionId)) ==
          LastN(LastN(old(store.ListAt(ChatKey(sessionId))) + [Encoded(NewMessage("user", userMessage, None, stamp))], HistoryCapacity)
                + [Encoded(NewMessage("assistant", Outcome(server, request.value).value, None, stamp))], HistoryCapacity)
      ensures request.Some? && Outcome(server, request.value).Success? && sessions.sessionTimeout > 0 ==>
        && r == Success(ChatResponse(Outcome(server, request.value).value, sessionId, stamp))
        && sessions.GetSession(UserIdOf(sessionId)) ==
             Some(Touched(old(Opened(UserIdOf(sessionId), stamp)),
                          map["message_count" := JInt(store.LLen(ChatKey(sessionId)) / 2)], stamp))
        && store.Ttl(SessionKey(UserIdOf(sessionId))) == Remaining(sessions.sessionTimeout)
      ensures request.Some? && Outcome(server, request.value).Success? && sessions.sessionTimeout <= 0 ==>
        && r == Failure(StoreFailed(InvalidExpireTime))
        && sessions.GetSession(UserIdOf(sessionId)) == Some(old(Opened(UserIdOf(sessionId), stamp)))
    {
      var userId := UserIdOf(sessionId);
      ghost var record := Opened(userId, stamp);
      var ready := EnsureSession(userId, stamp);
      if ready.Failure? {
        return Failure(ready.error), None, "";
      }
      ghost var entered := store.entries;
      var req;
      r, req, context := Converse(userId, sessionId, userMessage, personaName, stamp, server);
      request := Some(req);
      AgreeOutsideWithin(old(store.entries), entered, store.entries, {SessionKey(userId)},
                         {ChatKey(sessionId), SessionKey(userId)}, {ChatKey(sessionId), SessionKey(userId)});
      SessionKeyNotChatKey(userId, MemoryKey(userId, Some(sessionId)));
      AgreeOutside(entered, old(store.entries), SessionKey(userId), ChatKey(sessionId));
    }

    /** chat_api once the session record is in place: store the user turn,
        prompt the model with the transcript, then store the reply and record
        the message count. */
    method Converse(userId: string, sessionId: string, userMessage: string, personaName: string, stamp: string,
                    server: ChatRequest -> Option<Json>)
      returns (r: Result<ChatResponse, Rejection>, request: ChatRequest, ghost context: string)
      requires Valid() && userId == UserIdOf(sessionId) && sessions.Active(userId)
      modifies store
      ensures Valid()
      ensures r.Failure? ==> Status(r.error) == 500
      ensures store.entries - {ChatKey(sessionId), SessionKey(userId)} == old(store.entries) - {ChatKey(sessionId), SessionKey(userId)}
      ensures context == Transcript(DecodeAll(LastN(old(store.ListAt(ChatKey(sessionId))), HistoryCapacity - 1))
                                    + [NewMessage("user", userMessage, None, stamp)])
      ensures var settings := SettingsFor(personas, personaName);
        request == ChatRequest(llm.model, ChatMessages(Prompt(context, userMessage), Some(settings.system)),
                               settings.temperature, settings.maxTokens, false)
      ensures Outcome(server, request).Failure? ==>
        && r == Failure(GenerationFailed(Outcome(server, request).error))
        && store.ListAt(ChatKey(sessionId)) ==
             LastN(old(store.ListAt(ChatKey(sessionId))) + [Encoded(NewMessage("user", userMessage, None, stamp))], HistoryCapacity)
        && sessions.GetSession(userId) == old(sessions.GetSession(userId))
      ensures Outcome(server, request).Success? ==>
        store.ListAt(ChatKey(sessionId)) ==
          LastN(LastN(old(store.ListAt(ChatKey(sessionId))) + [Encoded(NewMessage("user", userMessage, None, stamp))], HistoryCapacity)
                + [Encoded(NewMessage("assistant", Outcome(server, request).value, None, stamp))], HistoryCapacity)
      ensures Outcome(server, request).Success? && sessions.sessionTimeout > 0 ==>
        && r == Success(ChatResponse(Outcome(server, request).value, sessionId, stamp))
        && sessions.GetSession(userId) ==
             Some(Touched(old(sessions.GetSession(userId)).value,
                          map["message_count" := JInt(store.LLen(ChatKey(sessionId)) / 2)], stamp))
        && store.Ttl(SessionKey(userId)) == Remaining(sessions.sessionTimeout)
      ensures Outcome(server, request).Success? && sessions.sessionTimeout <= 0 ==>
        r == Failure(StoreFailed(InvalidExpireTime)) && sessions.GetSession(userId) == old(sessions.GetSession(userId))
    {
      ghost var k, sk := ChatKey(sessionId), SessionKey(userId);
      var settings := SettingsFor(personas, personaName);
      var mem := new ChatMemoryManager(store, userId, HistoryCapacity, Some(sessionId));
      assert mem.historyKey == k;
      SessionKeyNotChatKey(userId, MemoryKey(userId, Some(sessionId)));
      var window := StoreTurn(mem, userMessage, stamp);
      context := window;
      AgreeOutside(store.entries, old(store.entries), k, sk);
      assert sessions.GetSession(userId) == old(sessions.GetSession(userId));
      ghost var asked := store.entries;
      r, request := Answer(mem, userId, sessionId, window, userMessage, settings, stamp, server);
      AgreeOutsideWithin(old(store.entries), asked, store.entries, {k}, {k, sk}, {k, sk});
    }

    /** chat_api's get-or-create of the session record: a missing or empty
        record is replaced by a new one with the default persona; a
        non-positive timeout makes that write fail, uncaught. */
    method EnsureSession(userId: string, stamp: string) returns (r: Result<(), Rejection>)
      requires Valid()
      modifies store
      ensures Valid()
      ensures r.Success? <==> old(sessions.Active(userId)) || sessions.sessionTimeout > 0
      ensures r.Failure? ==> r.error == StoreFailed(InvalidExpireTime)
      ensures old(sessions.Active(userId)) || r.Failure? ==> store.entries == old(store.entries)
      ensures r.Success? ==> sessions.Active(userId) && sessions.GetSession(userId) == Some(old(Opened(userId, stamp)))
      ensures r.Success? && !old(sessions.Active(userId)) ==> store.Ttl(SessionKey(userId)) == Remaining(sessions.sessionTimeout)
      ensures store.entries - {SessionKey(userId)} == old(store.entries) - {SessionKey(userId)}
    {
      var existing := sessions.GetSession(userId);
      if existing.None? || existing.value == map[] {
        var created := sessions.CreateSession(userId, ImplicitPersona, None, stamp);
        if created.Failure? {
          return Failure(StoreFailed(created.error));
        }
      }
      r := Success(());
    }

    /** chat_api's memory step: store the user's message, then read the
        context window, which therefore ends with that message. Only the
        history changes. */
    method StoreTurn(mem: ChatMemoryManager, userMessage: string, stamp: string) returns (window: string)
      requires Valid() && mem.store == store && mem.maxMessages == HistoryCapacity
      modifies store
      ensures Valid()
      ensures store.entries - {mem.historyKey} == old(store.entries) - {mem.historyKey}
      ensures store.ListAt(mem.historyKey) ==
        LastN(old(store.ListAt(mem.historyKey)) + [Encoded(NewMessage("user", userMessage, None, stamp))], HistoryCapacity)
      ensures window ==
        Transcript(DecodeAll(LastN(old(store.ListAt(mem.historyKey)), HistoryCapacity - 1)) + [NewMessage("user", userMessage, None, stamp)])
      ensures EndsWith(window, "User: " + userMessage)
    {
      ghost var before := store.ListAt(mem.historyKey);
      mem.AddMessage("user", userMessage, None, stamp);
      window := mem.GetContextWindow();
      ghost var m := NewMessage("user", userMessage, None, stamp);
      TranscriptEndsWithNewest(DecodeAll(LastN(before, HistoryCapacity - 1)), m);
      UserLine(userMessage, stamp);
    }

    /** chat_api from the prompt on: ask the model; on an answer store it and
        record the message count, and a failure of that update is caught as
        a 500 like a failed call. */
    method Answer(mem: ChatMemoryManager, userId: string, sessionId: string, window: string, userMessage: string,
                  settings: Settings, stamp: string, server: ChatRequest -> Option<Json>)
      returns (r: Result<ChatResponse, Rejection>, request: ChatRequest)
      requires Valid() && mem.store == store && mem.maxMessages == HistoryCapacity
      requires mem.historyKey != SessionKey(userId) && sessions.Active(userId)
      modifies store
      ensures Valid()
      ensures request == ChatRequest(llm.model, ChatMessages(Prompt(window, userMessage), Some(settings.system)),
                                     settings.temperature, settings.maxTokens, false)
      ensures store.entries - {mem.historyKey, SessionKey(userId)} == old(store.entries) - {mem.historyKey, SessionKey(userId)}
      ensures Outcome(server, request).Failure? ==>
        r == Failure(GenerationFailed(Outcome(server, request).error)) && store.entries == old(store.entries)
        && store.ListAt(mem.historyKey) == old(store.ListAt(mem.historyKey))
      ensures Outcome(server, request).Success? ==>
        var reply := NewMessage("assistant", Outcome(server, request).value, None, stamp);
        store.ListAt(mem.historyKey) == LastN(old(store.ListAt(mem.historyKey)) + [Encoded(reply)], HistoryCapacity)
      ensures Outcome(server, request).Success? && sessions.sessionTimeout > 0 ==>
        && r == Success(ChatResponse(Outcome(server, request).value, sessionId, stamp))
        && sessions.GetSession(userId) ==
             Some(Touched(old(sessions.GetSession(userId)).value,
                          map["message_count" := JInt(store.LLen(mem.historyKey) / 2)], stamp))
        && store.Ttl(SessionKey(userId)) == Remaining(sessions.sessionTimeout)
      ensures Outcome(server, request).Success? && sessions.sessionTimeout <= 0 ==>
        r == Failure(StoreFailed(InvalidExpireTime)) && sessions.GetSession(userId) == old(sessions.GetSession(userId))
    {
      var reply;
      reply, request := llm.Generate(Prompt(window, userMessage), Some(settings.system),
                                     settings.temperature, settings.maxTokens, false, server);
      assert reply == Outcome(server, request);
      if reply.Failure? {
        return Failure(GenerationFailed(reply.error)), request;
      }
      var updated := RecordReply(mem, userId, reply.value, stamp);
      if updated.Failure? {
        return Failure(StoreFailed(updated.error)), request;
      }
      r := Success(ChatResponse(reply.value, sessionId, stamp));
    }

    /** chat_api's last step: store the model's reply, then record half the
        history length as the session's message count. */
    method RecordReply(mem: ChatMemoryManager, userId: string, reply: string, stamp: string)
      returns (r: Result<bool, StoreError>)
      requires Valid() && mem.store == store && mem.maxMessages == HistoryCapacity
      requires mem.historyKey != SessionKey(userId) && sessions.Active(userId)
      modifies store
      ensures Valid()
      ensures store.entries - {mem.historyKey, SessionKey(userId)} == old(store.entries) - {mem.historyKey, SessionKey(userId)}
      ensures store.ListAt(mem.historyKey) ==
        LastN(old(store.ListAt(mem.historyKey)) + [Encoded(NewMessage("assistant", reply, None, stamp))], HistoryCapacity)
      ensures r == if sessions.sessionTimeout > 0 then Success(true) else Failure(InvalidExpireTime)
      ensures sessions.sessionTimeout > 0 ==>
        && sessions.GetSession(userId) ==
             Some(Touched(old(sessions.GetSession(userId)).value,
                          map["message_count" := JInt(store.LLen(mem.historyKey) / 2)], stamp))
        && store.Ttl(SessionKey(userId)) == Remaining(sessions.sessionTimeout)
      ensures sessions.sessionTimeout <= 0 ==> sessions.GetSession(userId) == old(sessions.GetSession(userId))
    {
      ghost var record := sessions.GetSession(userId);
      ghost var start := store.entries;
      mem.AddMessage("assistant", reply, None, stamp);
      AgreeOutside(store.entries, start, mem.historyKey, SessionKey(userId));
      assert sessions.GetSession(userId) == record;
      var count := store.LLen(mem.historyKey) / 2;
      ghost var list := store.ListAt(mem.historyKey);
      ghost var added := store.entries;
      r := sessions.UpdateSession(userId, map["message_count" := JInt(count)], stamp);
      AgreeOutside(store.entries, added, SessionKey(userId), mem.historyKey);
      assert store.ListAt(mem.historyKey) == list;
      AgreeOutsideWithin(start, added, store.entries, {mem.historyKey}, {SessionKey(userId)},
                         {mem.historyKey, SessionKey(userId)});
    }

    /** start_session: rejects a persona that is not configured (or is
        empty) before writing anything; otherwise creates the session and
        records the persona and start time in the user's conversation
        metadata. A non-positive timeout makes the creation fail, uncaught,
        before the metadata is written. */
    method StartSession(userId: string, persona: string, metadata: Option<Record>, stamp: string)
      returns (r: Result<SessionView, Rejection>)
      requires Valid()
      modifies store
      ensures Valid()
      ensures store.entries - {SessionKey(userId), MetadataKey(userId)} == old(store.entries) - {SessionKey(userId), MetadataKey(userId)}
      ensures !personas.Known(persona) ==> r == Failure(UnknownPersona(persona)) && store.entries == old(store.entries)
      ensures personas.Known(persona) && sessions.sessionTimeout <= 0 ==>
        r == Failure(StoreFailed(InvalidExpireTime)) && store.entries == old(store.entries)
      ensures r.Failure? ==> Status(r.error) == if personas.Known(persona) then 500 else 400
      ensures personas.Known(persona) && sessions.sessionTimeout > 0 ==>
        && r == Success(SessionView(userId, persona, 0, JStr(stamp), JStr(stamp)))
        && sessions.GetSession(userId) == Some(NewSession(userId, persona, metadata, stamp))
        && store.Ttl(SessionKey(userId)) == Remaining(sessions.sessionTimeout)
        && MetadataAt(store, MetadataKey(userId)) ==
             old(MetadataAt(store, MetadataKey(userId))) + map["persona" := JStr(persona), "session_started" := JStr(stamp)]
    {
      var found := personas.GetPersona(persona);
      if found.None? || found.value == map[] {
        return Failure(UnknownPersona(persona));
      }
      var data := sessions.CreateSession(userId, persona, metadata, stamp);
      if data.Failure? {
        return Failure(StoreFailed(data.error));
      }
      SessionKeyNotChatKey(userId, userId);
      ghost var created := store.entries;
      AgreeOutside(created, old(store.entries), SessionKey(userId), MetadataKey(userId));
      assert MetadataAt(store, MetadataKey(userId)) == old(MetadataAt(store, MetadataKey(userId)));
      NoteStart(userId, persona, stamp);
      AgreeOutsideWithin(old(store.entries), created, store.entries, {SessionKey(userId)}, {MetadataKey(userId)},
                         {SessionKey(userId), MetadataKey(userId)});
      r := Success(SessionView(userId, persona, 0, data.value["created_at"], data.value["last_activity"]));
    }

    /** start_session's metadata write: persona and start time merged into
        the user's conversation metadata; nothing else changes. */
    method NoteStart(userId: string, persona: string, stamp: string)
      requires Valid()
      modifies store
      ensures Valid()
      ensures store.entries - {MetadataKey(userId)} == old(store.entries) - {MetadataKey(userId)}
      ensures sessions.GetSession(userId) == old(sessions.GetSession(userId))
      ensures store.Ttl(SessionKey(userId)) == old(store.Ttl(SessionKey(userId)))
      ensures MetadataAt(store, MetadataKey(userId)) == old(MetadataAt(store, MetadataKey(userId)))
          + map["persona" := JStr(persona), "session_started" := JStr(stamp)]
    {
      var memory := new ChatMemoryManager(store, userId, HistoryCapacity, None);
      SessionKeyNotChatKey(userId, userId);
      ghost var start := store.entries;
      memory.SetMetadata(map["persona" := JStr(persona), "session_started" := JStr(stamp)]);
      AgreeOutside(store.entries, start, MetadataKey(userId), SessionKey(userId));
    }

    /** get_history: the recent messages of the chosen conversation. */
    method GetHistory(userId: string, sessionId: Option<string>) returns (h: History)
      ensures h.userId == userId && h.sessionId == sessionId
      ensures h.messages == DecodeAll(LastN(store.ListAt(HistoryKey(MemoryKey(userId, sessionId))), HistoryCapacity))
      ensures h.messageCount == |h.messages| <= HistoryCapacity
    {
      var memory := new ChatMemoryManager(store, userId, HistoryCapacity, sessionId);
      var messages := memory.GetMessages(None);
      memory.RecentIsNewest(None);
      h := History(userId, sessionId, |messages|, messages);
    }

    /** clear_session: clears the chosen conversation's history; the session
        record goes too only when no session id is given. */
    method ClearSession(userId: string, sessionId: Option<string>)
      requires Valid()
      modifies store
      ensures Valid()
      ensures sessionId.None? || sessionId.value == "" ==>
        store.entries == old(store.entries) - {HistoryKey(userId), SessionKey(userId)}
      ensures sessionId.Some? && sessionId.value != "" ==>
        store.entries == old(store.entries) - {HistoryKey(sessionId.value)}
      ensures sessionId.Some? && sessionId.value != "" ==> sessions.GetSession(userId) == old(sessions.GetSession(userId))
    {
      var memory := new ChatMemoryManager(store, userId, HistoryCapacity, sessionId);
      memory.ClearHistory();
      if sessionId.None? || sessionId.value == "" {
        sessions.DeleteSession(userId);
      } else {
        SessionKeyNotChatKey(userId, sessionId.value);
      }
    }

    /** The /personas listing: the info of every configured persona, in load
        order. */
    function ListPersonas(): (r: seq<PersonaInfo>)
      requires personas.Valid()
      ensures |r| == |personas.ListPersonas()|
      ensures forall i :: 0 <= i < |r| ==> r[i] == personas.GetPersonaInfo(personas.ListPersonas()[i])
      ensures forall i :: 0 <= i < |r| ==> (r[i].Info? <==> personas.Known(personas.ListPersonas()[i]))
    {
      var keys := personas.ListPersonas();
      seq(|keys|, i requires 0 <= i < |keys| => personas.GetPersonaInfo(keys[i]))
    }
  }
}
