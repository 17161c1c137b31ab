/** The LM Studio client (app/lmstudio_client.py) without its HTTP transport:
    each server call is a function parameter from the request the client
    builds to the decoded reply, None standing for a failed request. */
module LMStudio {
  import opened Wrappers
  import opened Json
  import opened Strings

  /** The model name sent when none (or an empty one) is configured. */
  const DefaultModel: string := "local-model"
  /** The Server-Sent Events field prefix the stream reader expects and the
      sentinel line that ends an OpenAI-style stream. */
  const DataPrefix: string := "data: "
  const DoneLine: string := "data: [DONE]"

  datatype ChatMessage = ChatMessage(role: string, content: string)

  /** The payload posted to the chat completions endpoint. */
  datatype ChatRequest = ChatRequest(model: string, messages: seq<ChatMessage>, temperature: Json, maxTokens: Json, stream: bool)

  /** The payload posted to the embeddings endpoint. */
  datatype EmbedRequest = EmbedRequest(model: string, input: string)

  /** Why a call raised: the request failed (RequestException), the reply
      had a shape the code cannot read (the TypeError, KeyError or
      AttributeError of a test or read on the wrong kind of value), or an
      embeddings reply held no vector (ValueError). */
  datatype GatewayError = RequestFailed | MalformedReply | NoEmbeddings

  /** A streamed reply: refused outright, or the lines received, and whether
      the connection broke after them. */
  datatype StreamReply = Refused | Received(lines: seq<string>, broken: bool)

  /** What a consumer of generate_stream sees: the fragments yielded, then
      whether the generator raised. The same shape describes a prefix of the
      lines: the fragments they yield, and whether one of them raised. */
  datatype StreamOutcome = StreamOutcome(fragments: seq<Json>, failed: bool)

  /** The `messages` array of a chat request: a system message only for a
      non-empty system text, then the user prompt. */
  function ChatMessages(prompt: string, system: Option<string>): (r: seq<ChatMessage>)
    ensures 1 <= |r| <= 2 && r[|r| - 1] == ChatMessage("user", prompt)
    ensures |r| == 2 <==> system.Some? && system.value != ""
    ensures |r| == 2 ==> r[0] == ChatMessage("system", system.value)
  {
    (if system.Some? && system.value != "" then [ChatMessage("system", system.value)] else [])
      + [ChatMessage("user", prompt)]
  }

  /** `x.strip()` on a decoded value: only a string has it. */
  function StripText(j: Json): (r: Option<string>)
    ensures r.Some? <==> j.JStr?
    ensures r.Some? ==> r.value == Strip(j.s)
    ensures r.Some? ==> r.value == [] || (!IsSpace(r.value[0]) && !IsSpace(r.value[|r.value| - 1]))
  {
    if j.JStr? then StripEnds(j.s); Some(Strip(j.s)) else None
  }

  /** generate's reading of a completion: the first choice's
      `message.content` (default ""), else its `text`, each stripped; "" when
      there is no choice. None where the code raises: a test or read on a
      value of the wrong kind, or `get`/`strip` on a value without it. */
  function ChoiceText(data: Json): (r: Option<string>)
    ensures FirstUnder(data, "choices") == Absent ==> r == Some("")
    ensures FirstUnder(data, "choices") == Raises ==> r.None?
    // A first choice with a `message`: its `content` stripped, "" without one.
    ensures var f := FirstUnder(data, "choices");
      f.Found? && f.value.JObj? && "message" in f.value.fields ==>
        var m := f.value.fields["message"];
        && (!m.JObj? ==> r.None?)
        && (m.JObj? && "content" !in m.fields ==> r == Some(""))
        && (m.JObj? && "content" in m.fields && m.fields["content"].JStr? ==> r == Some(Strip(m.fields["content"].s)))
        && (m.JObj? && "content" in m.fields && !m.fields["content"].JStr? ==> r.None?)
    // A first choice without a `message`: its `text` stripped, "" without one.
    ensures var f := FirstUnder(data, "choices");
      f.Found? && f.value.JObj? && "message" !in f.value.fields ==>
        && ("text" !in f.value.fields ==> r == Some(""))
        && ("text" in f.value.fields && f.value.fields["text"].JStr? ==> r == Some(Strip(f.value.fields["text"].s)))
        && ("text" in f.value.fields && !f.value.fields["text"].JStr? ==> r.None?)
    ensures r.Some? ==> r.value == [] || (!IsSpace(r.value[0]) && !IsSpace(r.value[|r.value| - 1]))
  {
    match FirstUnder(data, "choices")
    case Raises => None
    case Absent => Some("")
    case Found(choice) =>
      match Guarded(choice, "message")
      case Raises => None
      case Found(message) =>
        if !message.JObj? then None
        else StripText(Field(message, "content").GetOr(JStr("")))
      case Absent =>
        match Guarded(choice, "text")
        case Raises => None
        case Found(text) => StripText(text)
        case Absent => Some("")
  }

  /** Replies generate cannot read: a scalar reply, whose `"choices" in`
      raises; a non-empty `choices` object, which has no item 0; a scalar
      first choice; and a list choice holding the item "message". */
  lemma {:induction false} UnreadableReplies(scalar: Json, fields: map<string, Json>, rest: seq<Json>)
    requires !scalar.JObj? && !scalar.JArr? && !scalar.JStr?
    requires fields != map[]
    ensures ChoiceText(scalar).None?
    ensures ChoiceText(JObj(map["choices" := JObj(fields)])).None?
    ensures ChoiceText(JObj(map["choices" := JArr([scalar] + rest)])).None?
    ensures ChoiceText(JObj(map["choices" := JArr([JArr([JStr("message")])] + rest)])).None?
  {
    assert Length(JObj(fields)) == Some(|fields|);
    var listed := JArr([JStr("message")]);
    assert JStr("message") in listed.items;
    assert Guarded(listed, "message") == Raises;
  }

  /** Replies generate reads as no text at all: an object without
      `choices`, an empty `choices` list, a str reply without the substring
      "choices", and a non-empty `choices` str, whose first character holds
      neither "message" nor "text". */
  lemma {:induction false} EmptyReplies(fields: map<string, Json>, s: string, chars: string)
    requires "choices" !in fields
    requires !Contains(s, "choices")
    requires chars != ""
    ensures ChoiceText(JObj(fields)) == Some("")
    ensures ChoiceText(JObj(map["choices" := JArr([])])) == Some("")
    ensures ChoiceText(JStr(s)) == Some("")
    ensures ChoiceText(JObj(map["choices" := JStr(chars)])) == Some("")
  {
    var c := JStr([chars[0]]);
    assert FirstUnder(JObj(map["choices" := JStr(chars)]), "choices") == Found(c);
    ShortNotContains([chars[0]], "message");
    ShortNotContains([chars[0]], "text");
  }

  /** A choice's `message` wins over its `text`. */
  lemma MessageBeforeText(content: string, text: Json, rest: seq<Json>)
    ensures ChoiceText(JObj(map["choices" := JArr([JObj(map["message" := JObj(map["content" := JStr(content)]),
                                                            "text" := text])] + rest)]))
            == Some(Strip(content))
  {
    var message := JObj(map["content" := JStr(content)]);
    var choice := JObj(map["message" := message, "text" := text]);
    var data := JObj(map["choices" := JArr([choice] + rest)]);
    assert FirstUnder(data, "choices") == Found(choice);
    assert Guarded(choice, "message") == Found(message);
    assert Field(message, "content") == Some(JStr(content));
  }

  /** What one streamed line does: nothing (Absent) for a blank line, the
      `[DONE]` sentinel, a line without the `data: ` prefix, a payload that
      does not decode or one without a content delta; Found for
      `choices[0].delta.content`; Raises where a test or read meets a value of
      the wrong kind, an error the JSONDecodeError handler does not catch. */
  function LineFragment(line: string, loads: string -> Option<Json>): (r: Probe)
    ensures line == "" || line == DoneLine || !StartsWith(line, DataPrefix) ==> r == Absent
    ensures !r.Absent? ==> loads(line[|DataPrefix|..]).Some?
  {
    if line == "" || line == DoneLine || !StartsWith(line, DataPrefix) then Absent
    else
      match loads(line[|DataPrefix|..])
      case None => Absent
      case Some(data) =>
        match FirstUnder(data, "choices")
        case Raises => Raises
        case Absent => Absent
        case Found(choice) =>
          match Guarded(choice, "delta")
          case Raises => Raises
          case Absent => Absent
          case Found(delta) => Guarded(delta, "content")
  }

  /** What a sequence of streamed lines yields, in order, up to the first
      line that raises; nothing after that line is read. */
  function Streamed(lines: seq<string>, loads: string -> Option<Json>): (r: StreamOutcome)
    ensures |r.fragments| <= |lines|
  {
    if lines == [] then StreamOutcome([], false)
    else
      var init := Streamed(lines[..|lines| - 1], loads);
      if init.failed then init
      else
        match LineFragment(lines[|lines| - 1], loads)
        case Found(f) => StreamOutcome(init.fragments + [f], false)
        case Absent => init
        case Raises => StreamOutcome(init.fragments, true)
  }

  /** Lines are read one after another: the lines after a failing prefix are
      never read, and otherwise the second part's fragments follow the
      first's. */
  lemma {:induction false} StreamedAppend(a: seq<string>, b: seq<string>, loads: string -> Option<Json>)
    ensures Streamed(a + b, loads) ==
      if Streamed(a, loads).failed then Streamed(a, loads)
      else StreamOutcome(Streamed(a, loads).fragments + Streamed(b, loads).fragments, Streamed(b, loads).failed)
    decreases |b|
  {
    if b != [] {
      var init := b[..|b| - 1];
      assert (a + b)[..|a + b| - 1] == a + init;
      assert (a + b)[|a + b| - 1] == b[|b| - 1];
      StreamedAppend(a, init, loads);
      if !Streamed(a, loads).failed && !Streamed(init, loads).failed && LineFragment(b[|b| - 1], loads).Found? {
        assert Streamed(a, loads).fragments + Streamed(init, loads).fragments + [LineFragment(b[|b| - 1], loads).value]
            == Streamed(a, loads).fragments + (Streamed(init, loads).fragments + [LineFragment(b[|b| - 1], loads).value]);
      }
    } else {
      assert a + b == a;
    }
  }

  /** A stream of a blank line, one content delta and the sentinel yields
      exactly that content (`[DONE]` itself is not JSON). */
  lemma OneDelta(payload: string, content: Json, loads: string -> Option<Json>)
    requires loads("[DONE]").None?
    requires loads(payload) == Some(JObj(map["choices" := JArr([JObj(map["delta" := JObj(map["content" := content])])])]))
    ensures Streamed(["", DataPrefix + payload, DoneLine], loads) == StreamOutcome([content], false)
  {
    var line := DataPrefix + payload;
    assert StartsWith(line, DataPrefix) by {
      assert line[..|DataPrefix|] == DataPrefix;
    }
    assert line[|DataPrefix|..] == payload;
    assert line != DoneLine by {
      assert DoneLine[|DataPrefix|..] == "[DONE]";
    }
    assert LineFragment(line, loads) == Found(content);
    assert LineFragment("", loads) == Absent && LineFragment(DoneLine, loads) == Absent;
    var lines := ["", line, DoneLine];
    assert lines[..2] == ["", line] && lines[..2][..1] == [""] && lines[..2][..1][..0] == [];
    assert Streamed([""], loads) == StreamOutcome([], false);
    assert Streamed(["", line], loads) == StreamOutcome([content], false);
  }

  /** A `data: ` line whose payload does not decode is skipped, as the
      source's JSONDecodeError handler does. */
  lemma UndecodableLineSkipped(lines: seq<string>, payload: string, loads: string -> Option<Json>)
    requires loads(payload).None?
    ensures Streamed(lines + [DataPrefix + payload], loads) == Streamed(lines, loads)
  {
    var line := DataPrefix + payload;
    assert line[|DataPrefix|..] == payload;
    assert (lines + [line])[..|lines|] == lines;
  }

  /** A `data: ` line whose payload decodes to null, a boolean or a number
      ends the stream with an error: `"choices" in` raises TypeError, which
      the JSONDecodeError handler does not catch. */
  lemma ScalarPayloadRaises(lines: seq<string>, payload: string, loads: string -> Option<Json>)
    requires payload != "[DONE]"
    requires loads(payload).Some? && !loads(payload).value.JObj? && !loads(payload).value.JArr? && !loads(payload).value.JStr?
    ensures Streamed(lines + [DataPrefix + payload], loads).failed
    ensures Streamed(lines + [DataPrefix + payload], loads).fragments == Streamed(lines, loads).fragments
  {
    var line := DataPrefix + payload;
    assert line[|DataPrefix|..] == payload;
    assert StartsWith(line, DataPrefix) by {
      assert line[..|DataPrefix|] == DataPrefix;
    }
    assert line != DoneLine by {
      assert DoneLine[|DataPrefix|..] == "[DONE]";
    }
    assert (lines + [line])[..|lines|] == lines;
  }

  /** `model.get("id")` for one listed model. */
  function IdOf(item: Json): Json {
    Field(item, "id").GetOr(JNull)
  }

  /** `[m.get("id") for m in items]` with falsy ids dropped; None when some
      item is not an object, whose missing `.get` raises. */
  function ModelIds(items: seq<Json>): (r: Option<seq<Json>>)
    ensures r.None? <==> exists i :: 0 <= i < |items| && !items[i].JObj?
    ensures r.Some? ==> |r.value| <= |items| && forall i :: 0 <= i < |r.value| ==> Truthy(r.value[i])
  {
    if items == [] then Some([])
    else if !items[0].JObj? then None
    else
      var rest := ModelIds(items[1..]);
      assert rest.None? <==> exists i :: 1 <= i < |items| && !items[i].JObj? by {
        if rest.None? {
          var i :| 0 <= i < |items[1..]| && !items[1..][i].JObj?;
          assert !items[i + 1].JObj?;
        }
      }
      if rest.None? then None
      else Some((if Truthy(IdOf(items[0])) then [IdOf(items[0])] else []) + rest.value)
  }

  /** When every model is an object, a value is listed exactly when it is the
      truthy id of some model. */
  lemma {:induction false} ModelIdsMembers(items: seq<Json>, x: Json)
    requires forall i :: 0 <= i < |items| ==> items[i].JObj?
    ensures ModelIds(items).Some?
    ensures x in ModelIds(items).value <==> Truthy(x) && exists i :: 0 <= i < |items| && IdOf(items[i]) == x
    decreases |items|
  {
    if items != [] {
      ModelIdsMembers(items[1..], x);
      if x in ModelIds(items[1..]).value {
        var i :| 0 <= i < |items[1..]| && IdOf(items[1..][i]) == x;
        assert IdOf(items[i + 1]) == x;
      }
      if Truthy(x) && (exists i :: 0 <= i < |items| && IdOf(items[i]) == x) {
        var i :| 0 <= i < |items| && IdOf(items[i]) == x;
        if i > 0 {
          assert IdOf(items[1..][i - 1]) == x;
        }
      }
    }
  }

  /** list_models: no models when the request fails or the reply has no
      `data` field; None when the listing raises an error other than a
      request error, which escapes: a reply that is not an object, a `data`
      value that cannot be iterated, or an element without `.get` (every
      character of a string and every key of an object is one). */
  function ListModels(reply: Option<Json>): (r: Option<seq<Json>>)
    ensures reply.None? ==> r == Some([])
    ensures reply.Some? && !reply.value.JObj? ==> r.None?
    ensures reply.Some? && Field(reply.value, "data").Some? && Field(reply.value, "data").value.JArr? ==>
      r == ModelIds(Field(reply.value, "data").value.items)
    ensures r.Some? ==> forall i :: 0 <= i < |r.value| ==> Truthy(r.value[i])
  {
    match reply
    case None => Some([])
    case Some(data) =>
      if !data.JObj? then None
      else
        match Field(data, "data")
        case None => Some([])
        case Some(JArr(items)) => ModelIds(items)
        case Some(JStr(chars)) => if chars == "" then Some([]) else None
        case Some(JObj(fields)) => if fields == map[] then Some([]) else None
        case Some(_) => None
  }

  /** embed's reading of a reply: `data["data"][0]["embedding"]` behind its
      `in` and `len` tests; Absent is the "no embeddings" case, Raises a test
      or read on a value of the wrong kind. */
  function EmbeddingOf(data: Json): (r: Probe)
    ensures Member("data", data).None? ==> r == Raises
    ensures r.Found? ==>
      && FirstUnder(data, "data").Found? && FirstUnder(data, "data").value.JObj?
      && "embedding" in FirstUnder(data, "data").value.fields
      && r.value == FirstUnder(data, "data").value.fields["embedding"]
  {
    match FirstUnder(data, "data")
    case Raises => Raises
    case Absent => Absent
    case Found(item) => Guarded(item, "embedding")
  }

  /** The first item's vector is returned whatever follows it; an empty
      `data` list, or an item without `embedding`, is the no-embeddings
      case. */
  lemma {:induction false} FirstEmbedding(vector: Json, item: map<string, Json>, rest: seq<Json>)
    requires "embedding" !in item
    ensures EmbeddingOf(JObj(map["data" := JArr([JObj(map["embedding" := vector])] + rest)])) == Found(vector)
    ensures EmbeddingOf(JObj(map["data" := JArr([])])) == Absent
    ensures EmbeddingOf(JObj(map["data" := JArr([JObj(item)] + rest)])) == Absent
  {
    assert FirstUnder(JObj(map["data" := JArr([JObj(map["embedding" := vector])] + rest)]), "data")
      == Found(JObj(map["embedding" := vector]));
    assert FirstUnder(JObj(map["data" := JArr([JObj(item)] + rest)]), "data") == Found(JObj(item));
  }

  class LMStudioLLM {
    const host: string
    const chatCompletionsEndpoint: string
    const embeddingsEndpoint: string
    const modelsEndpoint: string
    var model: string

    /** __init__: trailing slashes leave the host, the endpoints hang off it,
        and a missing or empty model name becomes "local-model". */
    constructor (hostArg: string, modelArg: Option<string>)
      ensures host == TrimEnd(hostArg, '/')
      ensures host == [] || host[|host| - 1] != '/'
      ensures chatCompletionsEndpoint == host + "/v1/chat/completions"
      ensures embeddingsEndpoint == host + "/v1/embeddings"
      ensures modelsEndpoint == host + "/v1/models"
      ensures modelArg.Some? && modelArg.value != "" ==> model == modelArg.value
      ensures modelArg.None? || modelArg.value == "" ==> model == DefaultModel
      ensures model != ""
    {
      var trimmed := TrimEnd(hostArg, '/');
      host := trimmed;
      chatCompletionsEndpoint := trimmed + "/v1/chat/completions";
      embeddingsEndpoint := trimmed + "/v1/embeddings";
      modelsEndpoint := trimmed + "/v1/models";
      model := if modelArg.None? || modelArg.value == "" then DefaultModel else modelArg.value;
    }

    /** The messages array as generate and generate_stream build it. */
    method BuildMessages(prompt: string, system: Option<string>) returns (messages: seq<ChatMessage>)
      ensures messages == ChatMessages(prompt, system)
    {
      messages := [];
      if system.Some? && system.value != "" {
        messages := messages + [ChatMessage("system", system.value)];
      }
      messages := messages + [ChatMessage("user", prompt)];
    }

    /** generate: posts the chat request and reads the first choice. */
    method Generate(prompt: string, system: Option<string>, temperature: Json, maxTokens: Json, stream: bool,
                    server: ChatRequest -> Option<Json>)
      returns (r: Result<string, GatewayError>, request: ChatRequest)
      ensures request == ChatRequest(model, ChatMessages(prompt, system), temperature, maxTokens, stream)
      ensures server(request).None? ==> r == Failure(RequestFailed)
      ensures server(request).Some? && ChoiceText(server(request).value).None? ==> r == Failure(MalformedReply)
      ensures server(request).Some? && ChoiceText(server(request).value).Some? ==>
        r == Success(ChoiceText(server(request).value).value)
    {
      var messages := BuildMessages(prompt, system);
      request := ChatRequest(model, messages, temperature, maxTokens, stream);
      var reply := server(request);
      if reply.None? {
        return Failure(RequestFailed), request;
      }
      var text := ChoiceText(reply.value);
      r := if text.Some? then Success(text.value) else Failure(MalformedReply);
    }

    /** generate_stream: posts a streaming request and reads the reply line by
        line, yielding each content delta. */
    method GenerateStream(prompt: string, system: Option<string>, temperature: Json, maxTokens: Json,
                          server: ChatRequest -> StreamReply, loads: string -> Option<Json>)
      returns (out: StreamOutcome, request: ChatRequest)
      ensures request == ChatRequest(model, ChatMessages(prompt, system), temperature, maxTokens, true)
      ensures server(request).Refused? ==> out == StreamOutcome([], true)
      ensures server(request).Received? ==>
        var read := Streamed(server(request).lines, loads);
        out == StreamOutcome(read.fragments, read.failed || server(request).broken)
    {
      var messages := BuildMessages(prompt, system);
      request := ChatRequest(model, messages, temperature, maxTokens, true);
      var reply := server(request);
      if reply.Refused? {
        return StreamOutcome([], true), request;
      }
      var lines := reply.lines;
      var fragments: seq<Json> := [];
      var failed := false;
      var i := 0;
      while i < |lines| && !failed
        invariant 0 <= i <= |lines|
        invariant StreamOutcome(fragments, failed) == Streamed(lines[..i], loads)
        invariant failed ==> Streamed(lines, loads) == Streamed(lines[..i], loads)
      {
        assert lines[..i + 1][..i] == lines[..i];
        var line := lines[i];
        if line != "" && line != DoneLine && StartsWith(line, DataPrefix) {
          var data := loads(line[|DataPrefix|..]);
          if data.Some? {
            var choice := FirstUnder(data.value, "choices");
            if choice.Raises? {
              failed := true;
            } else if choice.Found? {
              var delta := Guarded(choice.value, "delta");
              if delta.Raises? {
                failed := true;
              } else if delta.Found? {
                var content := Guarded(delta.value, "content");
                if content.Raises? {
                  failed := true;
                } else if content.Found? {
                  fragments := fragments + [content.value];
                }
              }
            }
          }
        }
        if failed {
          assert lines[..i + 1] + lines[i + 1..] == lines;
          StreamedAppend(lines[..i + 1], lines[i + 1..], loads);
        }
        i := i + 1;
      }
      if !failed {
        assert lines[..i] == lines;
      }
      out := StreamOutcome(fragments, failed || reply.broken);
    }

    /** embed: the first vector of the reply, or an error. */
    method Embed(text: string, server: EmbedRequest -> Option<Json>)
      returns (r: Result<Json, GatewayError>, request: EmbedRequest)
      ensures request == EmbedRequest(model, text)
      ensures server(request).None? ==> r == Failure(RequestFailed)
      ensures server(request).Some? && EmbeddingOf(server(request).value) == Raises ==> r == Failure(MalformedReply)
      ensures server(request).Some? && EmbeddingOf(server(request).value) == Absent ==> r == Failure(NoEmbeddings)
      ensures server(request).Some? && EmbeddingOf(server(request).value).Found? ==>
        r == Success(EmbeddingOf(server(request).value).value)
    {
      request := EmbedRequest(model, text);
      var reply := server(request);
      if reply.None? {
        return Failure(RequestFailed), request;
      }
      var embedding := EmbeddingOf(reply.value);
      r := match embedding
        case Found(vector) => Success(vector)
        case Absent => Failure(NoEmbeddings)
        case Raises => Failure(MalformedReply);
    }

    /** load_model: selects the model only when the server lists it; an
        error raised while listing is caught and gives False. */
    method LoadModel(name: string, reply: Option<Json>) returns (ok: bool)
      modifies this
      ensures ok <==> ListModels(reply).Some? && JStr(name) in ListModels(reply).value
      ensures ok ==> model == name
      ensures !ok ==> model == old(model)
    {
      var models := ListModels(reply);
      if models.None? {
        return false;
      }
      if JStr(name) in models.value {
        model := name;
        ok := true;
      } else {
        ok := false;
      }
    }
  }
}
