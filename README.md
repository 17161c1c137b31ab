# nono-chat-bot conversation state, in Dafny

This project models the conversation-state core of the nono chat bot, a
FastAPI service that talks to a local LM Studio server and keeps its state
in Redis:

- **Conversation memory** (`Memory`, from `app/memory.py`): per conversation
  key, a bounded history list under `chat:{k}:history` (push, then trim to
  the newest `max_messages`) and a metadata object under `chat:{k}:metadata`.
- **Session registry** (`Sessions`, from `app/session.py`): one record per
  user under `session:{user_id}`, written with a time-to-live, merged on
  update, enumerated with SCAN.
- **Persona registry** (`Personas`, from `app/persona.py`): personas read
  once from a YAML file, looked up with documented defaults.
- **LM Studio client** (`LMStudio`, from `app/lmstudio_client.py`): request
  construction and reply parsing. The HTTP server is a function parameter.
- **Handler rules** (`Handlers`, from `app/main.py`): the synthetic session
  id and the user id parsed back from it, persona fallbacks, prompt
  assembly, the chat sequence over the shared store, and the other
  handlers' effects on the store.

Supporting modules:

- `KeyValue` models the Redis commands the code issues. A key holds a list
  or a string and may carry a deadline on a logical clock. `Tick` advances
  the clock, and expired keys disappear.
- `Json` models decoded JSON. A stored string is either the dump of a JSON
  document or text that does not parse. It also gives Python's `key in x`,
  `len(x)` and `x[0]` on each kind of value, with the TypeError or KeyError
  they raise on the wrong kind.
- `Strings` models Python's `replace`, `split(c)[1]`, `strip`, `rstrip` and
  `join`.
- `Wrappers` holds `Option` and `Result`.

Each stateful class of the source becomes a Dafny class over one shared
`Store`. Its methods `modify` the store. Each one states which keys it may
change, that every other key keeps its entry, and what the changed keys then
hold. Pure lookups and parsers become functions. Lemmas relate them:

- round trips (a written message reads back as itself);
- FIFO eviction (any number of pushes keeps exactly the newest `n`);
- the SCAN listings, under the sequential SCAN abstraction described under
  "Left out";
- the chat handler's outcome: the new history in terms of the old one, and
  the error paths, including a session timeout that is not positive.

## Model

| member | source | states |
|---|---|---|
| Memory.ChatMemoryManager.constructor | app/memory.py:15-34 | the history, metadata and session-marker keys are built from the session id when one is given and non-empty, else from the user id |
| Memory.ChatKeysDistinct | app/memory.py:31-34 | the history, metadata and marker key formats never collide, whatever the conversation keys |
| Memory.HistoryKeyInjective | app/memory.py:31-34 | two conversations share a history key only when they share the conversation key |
| Handlers.SessionKeyNotChatKey | app/memory.py:31-34 | a `session:` record key is never one of a conversation's `chat:` keys, so session and memory writes never touch each other |
| Memory.NewMessage | app/memory.py:44-49 | the message add_message builds carries the role, content and timestamp given, and its metadata defaults to an empty map |
| Memory.MessageRoundTrip | app/memory.py:36-80 | a message dumped by add_message decodes back to exactly that message in get_messages |
| Memory.DecodeAllDumped | app/memory.py:36-80 | a whole sequence of written messages decodes back to the same sequence, in order |
| Memory.ChatMemoryManager.AddMessage | app/memory.py:36-57 | the history becomes the newest `max_messages` of the old list plus the new entry; its length never exceeds `max_messages`; no other key changes; the newest message read back is the one added |
| Memory.ChatMemoryManager.AddedIsNewest | app/memory.py:36-80 | after a push and trim with capacity n > 0, get_messages returns the newest n - 1 earlier messages followed by the added one |
| Memory.PushedIsNewest | app/memory.py:52-57 | pushing one entry then trimming to n keeps the newest n - 1 old entries and the new one, and a second trim changes nothing |
| Memory.LastNOfLastN | app/memory.py:52-57 | trimming before further pushes does not change what the final trim keeps |
| Memory.PushAllKeepsNewest | app/memory.py:52-57 | after any number of pushes, each followed by a trim, the list holds exactly the newest n of everything pushed, oldest first |
| Memory.PushedSurvives | app/memory.py:52-57 | with capacity n > 1, a pushed message is still the newest of the n - 1 entries that the next push keeps |
| Memory.DecodeEntries | app/memory.py:70-79 | the decoding loop returns the decodable entries, in list order, and drops the others |
| Memory.ChatMemoryManager.GetMessages | app/memory.py:59-80 | get_messages returns the decoded LRANGE of the newest `limit or max_messages` entries |
| Memory.ChatMemoryManager.RecentIsNewest | app/memory.py:59-80 | for a positive count, the LRANGE with negative indices reads exactly the newest `count` entries |
| Memory.ChatMemoryManager.GetLangchainMessages | app/memory.py:82-100 | the recent user messages become human turns and the assistant messages AI turns, in order, and every other role is dropped |
| Memory.TurnsCount | app/memory.py:82-100 | the conversion yields one turn per user or assistant message and no other |
| Memory.TurnsAppend | app/memory.py:82-100 | the conversion keeps the history's order: converting two parts in turn gives the conversion of the whole |
| Memory.ChatMemoryManager.ClearHistory | app/memory.py:102-105 | only the history key is removed; the metadata survives |
| Memory.ChatMemoryManager.GetContextWindow | app/memory.py:107-122 | the context is the `User: …`/`Assistant: …` lines of the recent messages joined by newlines, and it is empty exactly when there are no recent messages |
| Memory.TranscriptEmpty | app/memory.py:107-122 | a transcript is empty exactly when there are no messages |
| Memory.TranscriptSnoc | app/memory.py:107-122 | one more message adds a newline and its line at the end of the transcript |
| Memory.TranscriptEndsWithNewest | app/memory.py:107-122 | the transcript ends with the line of its newest message |
| Memory.UserLine | app/memory.py:117-120 | a user message renders as `User: ` followed by its content |
| Memory.ChatMemoryManager.SetMetadata | app/memory.py:124-132 | the stored metadata becomes the old metadata shallow-merged with the new, new values winning and untouched keys kept; only the metadata key changes |
| Memory.MetadataAt | app/memory.py:134-146 | get_metadata gives the stored object, or an empty map when the key is missing or does not decode to an object |
| Memory.ChatMemoryManager.GetSessionInfo | app/memory.py:148-159 | the info holds the user id, the recent messages, the metadata and the stored history length |
| Memory.ChatMemoryManager.DeleteSession | app/memory.py:161-166 | exactly the history, metadata and marker keys are removed |
| Sessions.SessionManager.constructor | app/session.py:14-22 | the manager keeps the store and the timeout as given, whatever its sign |
| Sessions.NewSession | app/session.py:24-57 | a new record has exactly the six documented fields: both timestamps equal (one stamp per request, see Left out), message count 0, metadata defaulting to an empty map |
| Sessions.SessionManager.CreateSession | app/session.py:24-57 | with a positive timeout the record is written under `session:{user_id}` with the full TTL, replacing any old one, and reads back as itself; otherwise SETEX fails and nothing is written; no other key changes |
| Sessions.SessionManager.GetSession | app/session.py:59-78 | a missing or expired key gives None; a present record is the decoded stored object |
| Sessions.Touched | app/session.py:80-104 | the updated record has the updates merged over the old fields and `last_activity` stamped last, so the stamp wins |
| Sessions.SessionManager.UpdateSession | app/session.py:80-104 | with no non-empty record it returns False and writes nothing; otherwise it rewrites the merged record with the full TTL, or fails with nothing written when the timeout is not positive; no other key changes |
| Sessions.SessionManager.ExtendSession | app/session.py:106-117 | it returns True exactly when the key existed; with a positive timeout only the deadline moves, otherwise the record is deleted; no other key changes |
| Sessions.SessionManager.DeleteSession | app/session.py:119-127 | only the session key is removed, and the record then reads as absent |
| Sessions.SessionManager.GetSessionTtl | app/session.py:129-139 | the TTL says "no key" exactly when the record is gone; a remaining time is positive |
| Sessions.Lifecycle | app/session.py:24-78 | with a positive timeout, a created record reads back until its timeout elapses with no write, and is gone from then on; otherwise the creation fails and the old record stays |
| Sessions.UserIdOfKeyRoundTrip | app/session.py:153 | stripping `session:` from a session key gives back the user id exactly when the id itself contains no `session:` |
| Sessions.AppendUserIds | app/session.py:152-154 | the per-page loop appends the stripped user id of each scanned key, in order |
| Sessions.ScanAdvances | app/session.py:150-157 | each SCAN call extends the walked prefix of the keyspace by exactly the page it returns |
| Sessions.SessionManager.ListActiveSessions | app/session.py:141-159 | the SCAN walk returns the stripped ids of all live `session:` keys in keyspace order; every live user whose id has no `session:` in it is listed |
| Sessions.SessionsListed | app/session.py:141-159 | every live session whose user id contains no `session:` appears in the full listing under that id |
| Sessions.SessionManager.ReportPage | app/session.py:172-178 | the per-page loop keeps the keys whose record is present and non-empty, each tagged with `session_id` |
| Sessions.SessionManager.ListSessionsDetailed | app/session.py:161-183 | the SCAN walk reports every scanned session with a non-empty record, in keyspace order |
| Sessions.SessionManager.DetailedExact | app/session.py:161-183 | the detailed listing holds exactly the active sessions among the scanned keys, each tagged with its `session_id` |
| Sessions.SessionManager.DetailedAppend | app/session.py:161-183 | the listing of two key runs is the concatenation of their listings, so the page-by-page walk equals one pass |
| Personas.PersonaManager.constructor | app/persona.py:13-37 | a parsed `personas` section is loaded in file order; a missing or unreadable file, or a file without that section, leaves the registry empty |
| Personas.MissingFileIsEmpty | app/persona.py:13-37 | with a missing file, every lookup falls back: no personas, no default, no info, an empty prompt |
| Personas.PersonaManager.GetPersona | app/persona.py:39-48 | the configured mapping, or None exactly when the key is not configured |
| Personas.PersonaManager.GetSystemPrompt | app/persona.py:50-64 | "" for an unknown or empty persona, else its `system_prompt` with "" as the default |
| Personas.PersonaManager.GetPersonaInfo | app/persona.py:66-86 | `{}` exactly for an unknown or empty persona; otherwise the key and each field with its documented default (0.7, 500, `[]`) |
| Personas.PersonaManager.ListPersonas | app/persona.py:88-94 | every configured key, in load order, each once, and nothing else |
| Personas.PersonaManager.GetDefaultPersona | app/persona.py:96-106 | `mental_health_nurse` when configured, else the first key, else ""; with any persona configured the result is one of them |
| LMStudio.LMStudioLLM.constructor | app/lmstudio_client.py:14-25 | the host loses its trailing slashes; the three endpoints hang off it; a missing or empty model name becomes `local-model` |
| LMStudio.ChatMessages | app/lmstudio_client.py:57-68 | a system message comes first exactly when a non-empty system text is given; the user prompt is always last |
| LMStudio.LMStudioLLM.BuildMessages | app/lmstudio_client.py:57-68 | the built messages array is the specified one |
| LMStudio.LMStudioLLM.Generate | app/lmstudio_client.py:36-99 | the request carries the model, messages and sampling settings; a failed request, or a reply whose tests or reads raise, is an error; otherwise the reply text is `ChoiceText` of the decoded body: the first choice's `message.content`, else its `text`, stripped, or "" when absent |
| LMStudio.StripText | app/lmstudio_client.py:91-93 | only a string can be stripped, and the result neither starts nor ends with whitespace |
| LMStudio.ChoiceText | app/lmstudio_client.py:88-95 | no choice gives ""; a reply whose `"choices" in` test raises gives an error; a first choice with an object `message` gives its `content` stripped ("" when there is none, an error when it is not a string); a non-object `message` is an error; a first choice without `message` gives its `text` stripped ("" when there is none, an error when it is not a string); any text returned is stripped at both ends |
| Strings.ShortNotContains | app/lmstudio_client.py:88 | a string shorter than the pattern never contains it, so a one-character `choices` string passes the `"message" in` and `"text" in` tests as false |
| LMStudio.UnreadableReplies | app/lmstudio_client.py:88-93 | a null, boolean or numeric reply, a non-empty `choices` object, a scalar first choice and a list choice holding the item "message" each make generate raise |
| LMStudio.EmptyReplies | app/lmstudio_client.py:88-95 | an object without `choices`, an empty `choices` list, a string reply without "choices" and a non-empty `choices` string each give "" |
| LMStudio.MessageBeforeText | app/lmstudio_client.py:90-93 | a choice's `message.content` is used even when the choice also has `text` |
| Strings.StripEnds | app/lmstudio_client.py:91-93 | the result of `strip()` neither starts nor ends with whitespace |
| Strings.StripIsTrimmedSlice | app/lmstudio_client.py:91-93 | `strip()` returns a contiguous slice of its input, and everything before that slice is whitespace |
| Strings.StripTrailing | app/lmstudio_client.py:91-93 | everything after the stripped slice is whitespace |
| LMStudio.LMStudioLLM.GenerateStream | app/lmstudio_client.py:101-174 | the streaming request is built like generate's, with stream on; a refused request raises at once; otherwise it yields each line's fragment in order, stops with an error at the first line whose tests or reads raise, and raises when the connection broke |
| LMStudio.LineFragment | app/lmstudio_client.py:150-170 | blank lines, the `[DONE]` sentinel and lines without the `data: ` prefix yield nothing and cannot raise; a fragment or an error comes only from a payload that decoded |
| LMStudio.StreamedAppend | app/lmstudio_client.py:150-170 | lines are read in order: after a line that raises nothing more is read, and otherwise the fragments of concatenated lines are the concatenated fragments |
| LMStudio.OneDelta | app/lmstudio_client.py:150-170 | a blank line, one content delta and the sentinel yield exactly that content |
| LMStudio.UndecodableLineSkipped | app/lmstudio_client.py:157-170 | a `data: ` line whose payload does not decode adds nothing to what the stream yields |
| LMStudio.ScalarPayloadRaises | app/lmstudio_client.py:157-170 | a `data: ` line whose payload is null, a boolean or a number ends the stream with an error, since only JSONDecodeError is caught |
| LMStudio.LMStudioLLM.Embed | app/lmstudio_client.py:176-209 | a failed request is an error; a reply whose tests or reads raise is an error; a reply without a vector raises the no-embeddings error; otherwise it returns the first item's `embedding` |
| LMStudio.EmbeddingOf | app/lmstudio_client.py:200-205 | a scalar reply raises; a vector found is the `embedding` field of the first element of `data` |
| LMStudio.FirstEmbedding | app/lmstudio_client.py:200-205 | the first item's vector is returned whatever follows; an empty `data` list or a first item without `embedding` is the no-embeddings case |
| LMStudio.ListModels | app/lmstudio_client.py:211-223 | a failed request lists nothing; a reply that is not an object, or a model entry that is not an object, raises an error that escapes; a `data` array lists its models' truthy ids |
| LMStudio.ModelIds | app/lmstudio_client.py:218-219 | the comprehension raises exactly when some entry is not an object; otherwise the ids are truthy and no more numerous than the models |
| LMStudio.ModelIdsMembers | app/lmstudio_client.py:218-219 | when every entry is an object, a value is listed exactly when it is the truthy id of some model |
| LMStudio.LMStudioLLM.LoadModel | app/lmstudio_client.py:225-250 | it returns True exactly when the listing succeeds and contains the name, and only then selects it; an error while listing gives False; otherwise the model is unchanged |
| KeyValue.Store.RPush | app/memory.py:52 | RPUSH appends to the list, creates it if needed, keeps its deadline and returns the new length; no other key changes |
| KeyValue.Store.LTrim | app/memory.py:57 | LTRIM keeps the LRANGE of the given bounds, and a list trimmed to nothing disappears |
| KeyValue.Store.Set | app/memory.py:132 | SET stores the text with no deadline |
| KeyValue.Store.SetEx | app/session.py:50-54 | SETEX stores the text with a deadline the given number of seconds ahead; a time that is not positive is refused and nothing is written |
| KeyValue.Store.Expire | app/session.py:116 | EXPIRE returns 1 for an existing key and moves its deadline, or deletes it when the time is not positive; for a missing key it returns 0 and changes nothing |
| KeyValue.Store.Delete | app/session.py:126 | DEL removes exactly the key |
| KeyValue.Store.Scan | app/session.py:151 | SCAN visits the next `COUNT` slots of the keyspace, returns the matching keys and returns 0 once the walk is complete |
| KeyValue.Store.Tick | app/session.py:50-54 | as time passes, exactly the keys whose deadline has come disappear |
| Handlers.UserIdOf | app/main.py:216 | with no `_` in the session id the user is `default_user`; otherwise it is the `_`-free second field |
| Handlers.UserIdRoundTrip | app/main.py:194 | parsing the user id back out of a created session id gives the user id exactly when that id has no `_` in it |
| Handlers.App.CreateSession | app/main.py:188-206 | with a positive timeout the record is created with the full TTL, and the returned id parses back to the user exactly when the user id has no `_`; otherwise the store error is a 500 with nothing written; only the session key changes |
| Handlers.SettingsFor | app/main.py:223-229 | an unknown persona gets 0.7, 500 and the helpful-assistant prompt; a known one gets its own values (with defaults); a non-empty string prompt is kept; the prompt sent is never empty |
| Handlers.Prompt | app/main.py:238-242 | the prompt starts with the context and ends with the user turn and the assistant cue; it is just that turn exactly when the context is empty |
| Handlers.PromptRepeatsTurn | app/main.py:232-242 | the context already ends with the user's turn, so the prompt states that turn twice |
| Handlers.App.EnsureSession | app/main.py:218-221 | a missing or empty session record is replaced by a new one with the default persona and the full TTL; an existing one is left alone; the create fails, writing nothing, when the timeout is not positive; only the session key changes |
| Handlers.App.StoreTurn | app/main.py:232-236 | the history becomes the old list plus the user's message, trimmed to ten; the context window then read is the transcript of the newest nine old messages and that one, so it ends with `User: ` and the message; only the history key changes |
| Handlers.App.RecordReply | app/main.py:253-259 | the reply is pushed and trimmed to ten; with a positive timeout the session record becomes the old one touched with `message_count` equal to half the history length, with the full TTL; otherwise the update fails and the record is unchanged; only the history and session keys change |
| Handlers.App.Answer | app/main.py:244-269 | the request carries the prompt and the persona's settings; a failed or unreadable generation is a 500 that writes nothing; a reply is pushed and the session record touched with `message_count` and the full TTL, or, when the timeout is not positive, the update's failure is caught as a 500; only the history and session keys change |
| Handlers.App.ChatApi | app/main.py:209-269 | when the session cannot be created the 500 comes before any write or request; otherwise the model is prompted with the transcript of the newest nine old messages and the new turn. Without a reply the history becomes the old list plus the turn, trimmed to ten. With a reply, the turn then the reply are each pushed and trimmed, and the record gets `message_count` with the full TTL again (or a 500 when the timeout is not positive). Only the conversation's history and the user's session record change |
| Handlers.App.Converse | app/main.py:231-269 | once the session is active: the same prompt, new history, session record and results as chat_api, with only the history and session keys changed |
| Handlers.ReplyFollowsTurnInHistory | app/main.py:233-254 | the history chat_api leaves after a reply, read back as get_history reads it, ends with the user's turn and then the reply |
| Handlers.HealthStatus | app/main.py:311 | the status is "healthy" exactly when both the store and the model server answer, else "degraded" |
| Handlers.App.StartSession | app/main.py:319-352 | an unknown or empty persona is a 400 that writes nothing; a non-positive timeout is a 500 that writes nothing; otherwise the session is created with the full TTL and the persona and start time are merged into the user's metadata; only those two keys change |
| Handlers.App.NoteStart | app/main.py:340-344 | the start metadata is merged over the user's metadata; only the metadata key changes, so the session record and its TTL are untouched |
| Handlers.App.GetHistory | app/main.py:363-378 | the history is the decoded newest ten entries of the chosen conversation, and the count is their number |
| Handlers.App.ClearSession | app/main.py:381-395 | with a session id only that conversation's history goes; without one the user's history and session record both go |
| Handlers.App.ListPersonas | app/main.py:398-409 | one info per configured persona, in load order, and an entry is non-empty exactly when the persona is known |
| Handlers.App.constructor | app/main.py:60-92 | startup wires the session manager, persona registry and model client over one store, passing the configured timeout on unchecked |

## Left out

- Redis itself: atomicity, concurrency between requests, connection errors,
  WRONGTYPE errors (a list read of a string key sees an empty list, and a
  string read of a list key sees nothing), `decode_responses` byte decoding.
  The `KeyValue` store is a sequential abstraction of the commands used.
- TTL sentinels: Redis's -2 and -1 are kept as the abstract `NoKey` and
  `NoExpiry` replies.
- KeyValue.Store.Scan: modelled as a sequential walk over one fixed keyspace
  order that returns each key exactly once and visits exactly `COUNT` slots
  per call. Redis SCAN promises only that a key present for the whole walk is
  returned at least once. A key may come back twice and `COUNT` is a hint. The
  equality in `ListActiveSessions`, the "exactly" of `DetailedExact` and
  `SessionsListed` rest on this abstraction. Against real Redis they hold as
  membership: a listed id is a scanned key's, and a live key present
  throughout is listed.
- Lazy expiry: expiry happens only when the logical clock is advanced with
  `Tick`; wall-clock time is not modelled.
- JSON and YAML parsing and printing: `json.dumps`/`json.loads` are
  abstracted by the `Text` datatype, and YAML loading by the `PersonaFile`
  input. Dict key order, number formatting and floats are not modelled;
  floats are opaque `Number` literals.
- Records that decode to JSON other than an object: the model treats them as
  undecodable, whereas the source would return them from `get_session` or
  fail inside `dict.update`.
- History entries that are JSON objects but whose `role` or `content` is not
  a string: the model treats them as undecodable, so `get_messages`,
  `get_history` and its `message_count` leave them out. The source returns and
  counts them. It renders a non-string content through the f-string and any
  non-`"user"` role as `Assistant`. The model also drops entries that decode
  to something other than an object, or that lack `role` or `content`. The
  source's `get_context_window` (app/memory.py:118-120) raises on those, and
  `chat_api` (app/main.py:235-236) does not catch the error, so the request
  ends in an unhandled 500. The model's chat goes on with the remaining
  entries instead.
- A persona value that is not a mapping, and a `personas` section that is
  null: not modelled, since the YAML input is already a catalogue of mappings.
- Timestamps: each request takes one ISO timestamp string and one seconds
  value as parameters; the clock reads are not modelled.
- The 503 "service unavailable" checks, FastAPI routing, request
  validation, CORS, static files, the WebSocket endpoint, the startup
  connection retries and the shutdown hook.
- The `chat_legacy` route: it only calls `chat_api`.
- The `/sessions/active` handler wrapper: it only calls
  `list_active_sessions`, which is modelled.
- The `/api/sessions` handler (app/main.py:273-290): it calls
  `list_sessions_detailed` and answers `{"sessions": [], "count": 0}` on any
  error. With the `decode_responses=True` client (app/main.py:67), the
  `key.decode()` failure described below makes that route answer an empty
  listing whenever some session key exists, instead of failing; the model
  does not show this, since it treats scanned keys as decoded strings.
- `app/ollama_client.py`, `client_example.py` and the settings module are not
  part of this model.
- Key decoding in the two SCAN loops: the model treats scanned keys as
  already-decoded strings. The source calls `key.decode()`, which suits the
  `bytes` keys of a plain client. A client built with `decode_responses=True`
  (app/main.py:67) hands back `str` keys, and that call would fail.
- `LMStudioLLM.health_check`: a network probe with no logic beyond the HTTP
  status comparison.
- Generator laziness in `generate_stream`: the model returns all fragments
  yielded, then whether the generator raised.
- SettingsFor: a persona whose `system_prompt` is a truthy non-string value
  gets the fallback prompt in the model, whereas the source would send that
  value as is.
