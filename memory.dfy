/** The conversation buffer (app/memory.py): a bounded, oldest-first list of
    role-tagged messages and a metadata map per conversation key, held in the
    store under `chat:{k}:history` and `chat:{k}:metadata`. */
module Memory {
  import opened Wrappers
  import opened Json
  import opened Strings
  import opened KeyValue

  // ---------------------------------------------------------------------------
  // Keys

  /** The conversation key: the session id when one is given (and non-empty),
      else the user id. */
  function MemoryKey(userId: string, sessionId: Option<string>): string {
    if sessionId.Some? && sessionId.value != "" then sessionId.value else userId
  }

  function HistoryKey(k: string): string { "chat:" + k + ":history" }
  function MetadataKey(k: string): string { "chat:" + k + ":metadata" }
  function MarkerKey(k: string): string { "chat:" + k + ":session" }

  /** The three key formats never collide, whatever the conversation keys. */
  lemma ChatKeysDistinct(a: string, b: string)
    ensures HistoryKey(a) != MetadataKey(b)
    ensures HistoryKey(a) != MarkerKey(b)
    ensures MetadataKey(a) != MarkerKey(b)
  {
    var h, m, s := HistoryKey(a), MetadataKey(b), MarkerKey(b);
    assert h[|h| - 1] == 'y';
    assert m[|m| - 1] == 'a';
    assert s[|s| - 1] == 'n';
  }

  /** Each key format determines the conversation key it was built from. */
  lemma HistoryKeyInjective(a: string, b: string)
    requires HistoryKey(a) == HistoryKey(b)
    ensures a == b
  {
    var h := HistoryKey(a);
    assert |a| == |b|;
    assert a == h[5..5 + |a|] == b;
  }

  // ---------------------------------------------------------------------------
  // Messages

  /** A stored message; timestamp and metadata are absent in entries written
      by something other than `add_message`. */
  datatype Message = Message(role: string, content: string, timestamp: Option<string>, metadata: Option<Record>)

  /** The message `add_message` builds: metadata defaults to an empty map. */
  function NewMessage(role: string, content: string, metadata: Option<Record>, stamp: string): (m: Message)
    ensures m.role == role && m.content == content && m.timestamp == Some(stamp)
    ensures m.metadata.Some? && (metadata.None? ==> m.metadata.value == map[])
    ensures metadata.Some? ==> m.metadata == metadata
  {
    Message(role, content, Some(stamp), Some(metadata.GetOr(map[])))
  }

  /** The JSON object a message is dumped as. */
  function MessageJson(m: Message): Json {
    JObj(map["role" := JStr(m.role), "content" := JStr(m.content)]
      + (if m.timestamp.Some? then map["timestamp" := JStr(m.timestamp.value)] else map[])
      + (if m.metadata.Some? then map["metadata" := JObj(m.metadata.value)] else map[]))
  }

  /** Reading one history entry back: None for text that does not parse or
      for a document without string `role` and `content`. */
  function DecodeMessage(t: Text): (r: Option<Message>)
    ensures r.Some? ==> LoadsRecord(t).Some?
  {
    match LoadsRecord(t)
    case None => None
    case Some(f) =>
      if "role" in f && f["role"].JStr? && "content" in f && f["content"].JStr? then
        Some(Message(f["role"].s, f["content"].s,
          if "timestamp" in f && f["timestamp"].JStr? then Some(f["timestamp"].s) else None,
          if "metadata" in f && f["metadata"].JObj? then Some(f["metadata"].fields) else None))
      else None
  }

  /** A message written to the history reads back as itself. */
  lemma MessageRoundTrip(m: Message)
    ensures DecodeMessage(Dumps(MessageJson(m))) == Some(m)
  {
    var f := MessageJson(m).fields;
    assert "role" in f && f["role"] == JStr(m.role);
    assert "content" in f && f["content"] == JStr(m.content);
    assert m.timestamp.Some? <==> "timestamp" in f;
    assert m.metadata.Some? <==> "metadata" in f;
  }

  /** The messages a list of history entries decodes to, entries that do not
      decode dropped. */
  function DecodeAll(items: seq<Text>): (r: seq<Message>)
    ensures |r| <= |items|
  {
    if items == [] then []
    else
      var rest := DecodeAll(items[..|items| - 1]);
      match DecodeMessage(items[|items| - 1])
      case Some(m) => rest + [m]
      case None => rest
  }

  lemma {:induction false} DecodeAllAppend(a: seq<Text>, b: seq<Text>)
    ensures DecodeAll(a + b) == DecodeAll(a) + DecodeAll(b)
    decreases |b|
  {
    if b == [] {
      assert a + b == a;
    } else {
      var b' := b[..|b| - 1];
      assert (a + b)[..|a + b| - 1] == a + b';
      DecodeAllAppend(a, b');
    }
  }

  /** The entries `add_message` writes for ms, one serialised message each, in order. */
  function EncodeAll(ms: seq<Message>): (r: seq<Text>)
    ensures |r| == |ms|
    ensures forall i :: 0 <= i < |ms| ==> r[i] == Dumps(MessageJson(ms[i]))
  {
    if ms == [] then [] else EncodeAll(ms[..|ms| - 1]) + [Dumps(MessageJson(ms[|ms| - 1]))]
  }

  /** Entries written by `add_message` all come back, in order. */
  lemma DecodeAllDumped(ms: seq<Message>)
    ensures DecodeAll(EncodeAll(ms)) == ms
  {
    var xs := EncodeAll(ms);
    forall i | 0 <= i < |xs| ensures DecodeMessage(xs[i]) == Some(ms[i]) {
      MessageRoundTrip(ms[i]);
    }
    DecodeAllEach(xs, ms);
  }

  /** Entries that each decode to a message decode, together, to those messages. */
  lemma {:induction false} DecodeAllEach(xs: seq<Text>, ms: seq<Message>)
    requires |xs| == |ms|
    requires forall i :: 0 <= i < |xs| ==> DecodeMessage(xs[i]) == Some(ms[i])
    ensures DecodeAll(xs) == ms
    decreases |xs|
  {
    if xs != [] {
      var n := |xs| - 1;
      DecodeAllEach(xs[..n], ms[..n]);
      assert ms == ms[..n] + [ms[n]];
    }
  }

  /** The decoding loop of get_messages: each entry parsed in turn, the ones
      that do not parse skipped. */
  method DecodeEntries(raw: seq<Text>) returns (messages: seq<Message>)
    ensures messages == DecodeAll(raw)
  {
    messages := [];
    for i := 0 to |raw|
      invariant messages == DecodeAll(raw[..i])
    {
      DecodeAllStep(raw, i);
      var decoded := DecodeMessage(raw[i]);
      if decoded.Some? {
        messages := messages + [decoded.value];
      }
    }
    assert raw[..|raw|] == raw;
  }

  lemma DecodeAllStep(raw: seq<Text>, i: nat)
    requires i < |raw|
    ensures DecodeAll(raw[..i + 1]) ==
      DecodeAll(raw[..i]) + (if DecodeMessage(raw[i]).Some? then [DecodeMessage(raw[i]).value] else [])
  {
    assert raw[..i + 1][..i] == raw[..i];
  }

  // ---------------------------------------------------------------------------
  // The bounded history: keep the newest n

  /** The newest n elements of s, in their original order. */
  function LastN<T>(s: seq<T>, n: int): (r: seq<T>)
    ensures |r| == if n <= 0 then 0 else if n < |s| then n else |s|
    ensures r == s[|s| - |r|..]
  {
    if n <= 0 then [] else if n < |s| then s[|s| - n..] else s
  }

  /** LRANGE -c -1 reads the newest c entries (c > 0). */
  lemma NewestSpan<T>(xs: seq<T>, c: int)
    requires c > 0
    ensures var span := Span(|xs|, -c, -1); xs[span.0..span.1] == LastN(xs, c)
  {
    var span := Span(|xs|, -c, -1);
    if |xs| > 0 {
      assert span == (if |xs| - c >= 0 then |xs| - c else 0, |xs|);
    }
  }

  /** FIFO eviction composes: trimming before more pushes changes nothing
      about what the final trim keeps. */
  lemma LastNOfLastN<T>(s: seq<T>, ys: seq<T>, n: int)
    ensures LastN(LastN(s, n) + ys, n) == LastN(s + ys, n)
  {
    var t := LastN(s, n);
    if n <= 0 {
    } else if n >= |s| {
      assert t == s;
    } else if n <= |ys| {
      assert LastN(t + ys, n) == ys[|ys| - n..] by {
        SuffixOfAppend(t, ys, n);
      }
      assert LastN(s + ys, n) == ys[|ys| - n..] by {
        SuffixOfAppend(s, ys, n);
      }
    } else {
      var m := s[|s| - (n - |ys|)..] + ys;
      assert LastN(t + ys, n) == m by {
        SuffixOfAppend(t, ys, n);
        assert t[|t| - (n - |ys|)..] == s[|s| - (n - |ys|)..];
      }
      assert LastN(s + ys, n) == m by {
        SuffixOfAppend(s, ys, n);
      }
    }
  }

  /** The last m elements of a + b: taken from b alone when b is long
      enough, otherwise the tail of a followed by all of b. */
  lemma SuffixOfAppend<T>(a: seq<T>, b: seq<T>, m: nat)
    requires m <= |a| + |b|
    ensures (a + b)[|a + b| - m..] == if m <= |b| then b[|b| - m..] else a[|a| - (m - |b|)..] + b
  {
    var l := (a + b)[|a + b| - m..];
    if m <= |b| {
      assert forall k | 0 <= k < m :: l[k] == b[|b| - m + k];
    } else {
      var r := a[|a| - (m - |b|)..] + b;
      assert |l| == |r|;
      forall k | 0 <= k < m ensures l[k] == r[k] {
        if k < m - |b| {
          assert l[k] == a[|a| - (m - |b|) + k];
        } else {
          assert l[k] == b[k - (m - |b|)];
        }
      }
    }
  }

  /** With room for at least one, the newest element after a push is the
      pushed one, and trimming again keeps everything. */
  lemma PushedIsNewest<T>(s: seq<T>, x: T, n: int)
    requires n > 0
    ensures LastN(s + [x], n) == LastN(s, n - 1) + [x]
    ensures LastN(LastN(s + [x], n), n) == LastN(s + [x], n)
  {
    assert LastN(s + [x], n) == LastN(s, n - 1) + [x] by {
      if n <= |s| {
        SuffixOfAppend(s, [x], n);
      } else {
        assert LastN(s, n - 1) == s;
      }
    }
    TrimIdempotent(s + [x], n);
  }

  /** Decoding a history that ends with a written message ends with that
      message. */
  lemma DecodeAllSnoc(xs: seq<Text>, m: Message)
    ensures DecodeAll(xs + [Dumps(MessageJson(m))]) == DecodeAll(xs) + [m]
  {
    var e := Dumps(MessageJson(m));
    DecodeAllAppend(xs, [e]);
    MessageRoundTrip(m);
    assert [e][..0] == [];
  }

  /** A message pushed into a buffer of capacity n is still the newest of
      the newest n - 1 entries (n > 1): the next push keeps it. */
  lemma PushedSurvives(before: seq<Text>, m: Message, n: int)
    requires n > 1
    ensures var d := DecodeAll(LastN(LastN(before + [Dumps(MessageJson(m))], n), n - 1));
      d != [] && d[|d| - 1] == m
  {
    var e := Dumps(MessageJson(m));
    PushedIsNewest(before, e, n);
    PushedIsNewest(LastN(before, n - 1), e, n - 1);
    DecodeAllSnoc(LastN(LastN(before, n - 1), n - 2), m);
  }

  /** m is the newest message of h. */
  predicate EndsWithMessage(h: seq<Message>, m: Message) {
    h != [] && h[|h| - 1] == m
  }

  /** h ends with the exchange turn, reply. */
  predicate EndsWithExchange(h: seq<Message>, turn: Message, reply: Message) {
    |h| >= 2 && h[|h| - 2] == turn && h[|h| - 1] == reply
  }

  /** A user turn pushed into a buffer of capacity n (n > 1), followed by a
      reply that the next push appends, reads back as those two messages,
      newest last. */
  lemma ReplyFollowsTurn(before: seq<Text>, turn: Message, reply: Message, n: int, h: seq<Message>)
    requires n > 1
    requires h == DecodeAll(LastN(LastN(before + [Dumps(MessageJson(turn))], n), n - 1)) + [reply]
    ensures EndsWithExchange(h, turn, reply)
  {
    var d := DecodeAll(LastN(LastN(before + [Dumps(MessageJson(turn))], n), n - 1));
    assert d != [] && d[|d| - 1] == turn by {
      PushedSurvives(before, turn, n);
    }
    assert h[|h| - 2] == d[|d| - 1];
  }

  /** A history that starts within capacity and receives pushes one by one. */
  function PushAll<T>(s: seq<T>, xs: seq<T>, n: int): seq<T>
    decreases |xs|
  {
    if xs == [] then s else PushAll(LastN(s + [xs[0]], n), xs[1..], n)
  }

  /** After any number of appends the buffer holds exactly the newest n of
      everything appended, in the original relative order. */
  lemma {:induction false} PushAllKeepsNewest<T>(s: seq<T>, xs: seq<T>, n: int)
    requires s == LastN(s, n)
    ensures PushAll(s, xs, n) == LastN(s + xs, n)
    decreases |xs|
  {
    if xs != [] {
      var s' := LastN(s + [xs[0]], n);
      assert PushAll(s, xs, n) == PushAll(s', xs[1..], n);
      TrimIdempotent(s + [xs[0]], n);
      PushAllKeepsNewest(s', xs[1..], n);
      PushThenRest(s, xs, n);
    }
  }

  /** Trimming twice keeps what trimming once keeps. */
  lemma TrimIdempotent<T>(s: seq<T>, n: int)
    ensures LastN(LastN(s, n), n) == LastN(s, n)
  {
    LastNOfLastN(s, [], n);
    assert LastN(s, n) + [] == LastN(s, n) && s + [] == s;
  }

  /** Pushing the first of xs and trimming, then appending the rest, keeps
      the same newest n as appending all of xs. */
  lemma PushThenRest<T>(s: seq<T>, xs: seq<T>, n: int)
    requires xs != []
    ensures LastN(LastN(s + [xs[0]], n) + xs[1..], n) == LastN(s + xs, n)
  {
    LastNOfLastN(s + [xs[0]], xs[1..], n);
    assert s + [xs[0]] + xs[1..] == s + xs;
  }

  // ---------------------------------------------------------------------------
  // Rendering

  /** One transcript line: `User: c` for role "user", `Assistant: c` otherwise. */
  function Line(m: Message): string {
    (if m.role == "user" then "User" else "Assistant") + ": " + m.content
  }

  function Lines(ms: seq<Message>): seq<string> {
    seq(|ms|, i requires 0 <= i < |ms| => Line(ms[i]))
  }

  function Transcript(ms: seq<Message>): string {
    Join(Lines(ms), "\n")
  }

  /** The transcript is empty exactly when there are no messages. */
  lemma TranscriptEmpty(ms: seq<Message>)
    ensures Transcript(ms) == "" <==> ms == []
  {
    JoinEmpty(Lines(ms), "\n");
  }

  /** A new message adds one line at the end of the transcript. */
  lemma TranscriptSnoc(ms: seq<Message>, m: Message)
    ensures Transcript(ms + [m]) == if ms == [] then Line(m) else Transcript(ms) + "\n" + Line(m)
  {
    assert Lines(ms + [m]) == Lines(ms) + [Line(m)];
    if ms != [] {
      JoinSnoc(Lines(ms), Line(m), "\n");
    }
  }

  /** The transcript ends with the line of its newest message. */
  lemma TranscriptEndsWithNewest(ms: seq<Message>, m: Message)
    ensures EndsWith(Transcript(ms + [m]), Line(m))
  {
    TranscriptSnoc(ms, m);
    var t := Transcript(ms + [m]);
    if ms != [] {
      assert t == (Transcript(ms) + "\n") + Line(m);
    }
    assert t[|t| - |Line(m)|..] == Line(m);
  }

  /** A user message renders as `User: ` and its content. */
  lemma UserLine(content: string, stamp: string)
    ensures Line(NewMessage("user", content, None, stamp)) == "User: " + content
  {
  }

  /** LTRIM key (len - n) -1 on a list longer than n keeps its newest n. */
  lemma TrimKeepsNewest<T>(xs: seq<T>, n: int)
    requires |xs| > n
    ensures var span := Span(|xs|, |xs| - n, -1); xs[span.0..span.1] == LastN(xs, n)
  {
    var span := Span(|xs|, |xs| - n, -1);
    if n > 0 {
      assert span == (|xs| - n, |xs|);
    } else {
      assert span == (0, 0);
    }
  }

  /** The LangChain message classes the history converts to. */
  datatype ChatTurn = Human(content: string) | Ai(content: string)

  /** User and assistant messages as chat turns, in order; other roles dropped. */
  function Turns(ms: seq<Message>): (r: seq<ChatTurn>)
    ensures |r| <= |ms|
  {
    if ms == [] then []
    else
      var rest := Turns(ms[..|ms| - 1]);
      var m := ms[|ms| - 1];
      if m.role == "user" then rest + [Human(m.content)]
      else if m.role == "assistant" then rest + [Ai(m.content)]
      else rest
  }

  predicate IsTurn(m: Message) {
    m.role == "user" || m.role == "assistant"
  }

  /** The positions of the user and assistant messages among the first k. */
  function TurnPositions(ms: seq<Message>, k: nat): set<nat>
    requires k <= |ms|
  {
    set i: nat | i < k && IsTurn(ms[i])
  }

  /** Turns keeps every user or assistant message and only those. */
  lemma {:induction false} TurnsCount(ms: seq<Message>)
    ensures |Turns(ms)| == |TurnPositions(ms, |ms|)|
  {
    if ms != [] {
      TurnsCount(ms[..|ms| - 1]);
      TurnPositionsSnoc(ms);
    }
  }

  /** The conversion keeps order: each part of a history converts on its own. */
  lemma {:induction false} TurnsAppend(a: seq<Message>, b: seq<Message>)
    ensures Turns(a + b) == Turns(a) + Turns(b)
  {
    if b == [] {
      assert a + b == a;
    } else {
      var b' := b[..|b| - 1];
      assert (a + b)[..|a + b| - 1] == a + b';
      assert (a + b)[|a + b| - 1] == b[|b| - 1];
      TurnsAppend(a, b');
    }
  }

  /** The last message adds its own position to the count exactly when it is a turn. */
  lemma TurnPositionsSnoc(ms: seq<Message>)
    requires ms != []
    ensures |TurnPositions(ms, |ms|)| ==
      |TurnPositions(ms[..|ms| - 1], |ms| - 1)| + (if IsTurn(ms[|ms| - 1]) then 1 else 0)
  {
    var k := |ms| - 1;
    TurnPositionsPrefix(ms, k);
    TurnPositionsStep(ms, k);
    assert k !in TurnPositions(ms, k);
  }

  /** Positions below k depend only on the first k messages. */
  lemma TurnPositionsPrefix(ms: seq<Message>, k: nat)
    requires k <= |ms|
    ensures TurnPositions(ms[..k], k) == TurnPositions(ms, k)
  {
    assert forall i | 0 <= i < k :: ms[..k][i] == ms[i];
  }

  /** Looking one message further adds that position when it is a turn. */
  lemma TurnPositionsStep(ms: seq<Message>, k: nat)
    requires k < |ms|
    ensures TurnPositions(ms, k + 1) == TurnPositions(ms, k) + (if IsTurn(ms[k]) then {k} else {})
  {
  }

  /** The metadata map get_metadata reads from key: the stored object, or an
      empty map when the key is missing or its text does not decode to an
      object. */
  function MetadataAt(store: Store, key: string): (r: Record)
    reads store
    ensures store.Get(key).None? ==> r == map[]
    ensures store.Get(key).Some? && LoadsRecord(store.Get(key).value).None? ==> r == map[]
    ensures store.Get(key).Some? && LoadsRecord(store.Get(key).value).Some? ==> r == LoadsRecord(store.Get(key).value).value
  {
    match store.Get(key)
    case None => map[]
    case Some(t) => LoadsRecord(t).GetOr(map[])
  }

  /** What `get_session_info` reports. */
  datatype SessionInfo = SessionInfo(userId: string, messages: seq<Message>, metadata: Record, messageCount: nat)

  // ---------------------------------------------------------------------------

  class ChatMemoryManager {
    const store: Store
    const userId: string
    const sessionId: Option<string>
    const maxMessages: int
    const historyKey: string
    const metadataKey: string
    const sessionKey: string

    constructor (store: Store, userId: string, maxMessages: int, sessionId: Option<string>)
      ensures this.store == store && this.userId == userId
      ensures this.maxMessages == maxMessages && this.sessionId == sessionId
      ensures historyKey == HistoryKey(MemoryKey(userId, sessionId))
      ensures metadataKey == MetadataKey(MemoryKey(userId, sessionId))
      ensures sessionKey == MarkerKey(MemoryKey(userId, sessionId))
    {
      this.store := store;
      this.userId := userId;
      this.sessionId := sessionId;
      this.maxMessages := maxMessages;
      var k := MemoryKey(userId, sessionId);
      historyKey := HistoryKey(k);
      metadataKey := MetadataKey(k);
      sessionKey := MarkerKey(k);
    }

    ghost predicate Keyed()
    {
      var k := MemoryKey(userId, sessionId);
      historyKey == HistoryKey(k) && metadataKey == MetadataKey(k) && sessionKey == MarkerKey(k)
    }

    /** `limit or max_messages`: no limit, or a limit of 0, means the capacity. */
    function Count(limit: Option<int>): int {
      if limit.Some? && limit.value != 0 then limit.value else maxMessages
    }

    /** The messages `get_messages(limit)` returns. */
    function Recent(limit: Option<int>): seq<Message>
      reads store
    {
      DecodeAll(store.LRange(historyKey, -Count(limit), -1))
    }

    /** For a positive count, the newest `count` entries are the ones read. */
    lemma RecentIsNewest(limit: Option<int>)
      requires Count(limit) > 0
      ensures Recent(limit) == DecodeAll(LastN(store.ListAt(historyKey), Count(limit)))
    {
      NewestSpan(store.ListAt(historyKey), Count(limit));
    }

    /** add_message: push the message, then trim the list to the newest
        `max_messages`. Nothing but the history key changes. */
    method AddMessage(role: string, content: string, metadata: Option<Record>, stamp: string)
      requires store.Valid()
      modifies store
      ensures store.Valid() && store.now == old(store.now)
      ensures var entry := Dumps(MessageJson(NewMessage(role, content, metadata, stamp)));
        store.ListAt(historyKey) == LastN(old(store.ListAt(historyKey)) + [entry], maxMessages)
      ensures store.entries - {historyKey} == old(store.entries) - {historyKey}
      ensures maxMessages >= 0 ==> store.LLen(historyKey) <= maxMessages
      ensures maxMessages > 0 ==>
        Recent(None) == DecodeAll(LastN(old(store.ListAt(historyKey)), maxMessages - 1)) + [NewMessage(role, content, metadata, stamp)]
    {
      var entry := Dumps(MessageJson(NewMessage(role, content, metadata, stamp)));
      ghost var pushed := store.ListAt(historyKey) + [entry];
      var n := store.RPush(historyKey, entry);
      if n > maxMessages {
        store.LTrim(historyKey, n - maxMessages, -1);
        TrimKeepsNewest(pushed, maxMessages);
      }
      if maxMessages > 0 {
        AddedIsNewest(pushed[..|pushed| - 1], NewMessage(role, content, metadata, stamp));
      }
    }

    /** After a push and trim with room for at least one message, the newest
        message read back is the one pushed. */
    lemma AddedIsNewest(before: seq<Text>, m: Message)
      requires maxMessages > 0
      requires store.ListAt(historyKey) == LastN(before + [Dumps(MessageJson(m))], maxMessages)
      ensures Recent(None) == DecodeAll(LastN(before, maxMessages - 1)) + [m]
    {
      PushedIsNewest(before, Dumps(MessageJson(m)), maxMessages);
      RecentIsNewest(None);
      DecodeAllSnoc(LastN(before, maxMessages - 1), m);
    }

    /** get_messages: the newest `limit or max_messages` entries, oldest first,
        with entries that do not decode dropped. */
    method GetMessages(limit: Option<int>) returns (messages: seq<Message>)
      ensures messages == Recent(limit)
    {
      messages := DecodeEntries(store.LRange(historyKey, -Count(limit), -1));
    }

    /** get_langchain_messages: the recent user and assistant messages as
        chat turns, in order. */
    method GetLangchainMessages(limit: Option<int>) returns (turns: seq<ChatTurn>)
      ensures turns == Turns(Recent(limit))
    {
      var messages := GetMessages(limit);
      turns := [];
      for i := 0 to |messages|
        invariant turns == Turns(messages[..i])
      {
        assert messages[..i + 1][..i] == messages[..i];
        var m := messages[i];
        if m.role == "user" {
          turns := turns + [Human(m.content)];
        } else if m.role == "assistant" {
          turns := turns + [Ai(m.content)];
        }
      }
      assert messages[..|messages|] == messages;
    }

    /** get_context_window: the recent messages as `User: …` / `Assistant: …`
        lines joined by newlines; empty exactly when there are none. */
    method GetContextWindow() returns (context: string)
      ensures context == Transcript(Recent(None))
      ensures context == "" <==> Recent(None) == []
    {
      var messages := GetMessages(None);
      TranscriptEmpty(messages);
      if messages == [] {
        return "";
      }
      var lines := [];
      for i := 0 to |messages|
        invariant lines == Lines(messages[..i])
      {
        lines := lines + [Line(messages[i])];
      }
      assert messages[..|messages|] == messages;
      context := Join(lines, "\n");
    }

    /** get_metadata. */
    function GetMetadata(): Record
      reads store
    {
      MetadataAt(store, metadataKey)
    }

    /** set_metadata: a shallow merge; new entries override old ones and
        untouched entries stay. Only the metadata key changes. */
    method SetMetadata(metadata: Record)
      requires store.Valid()
      modifies store
      ensures store.Valid() && store.now == old(store.now)
      ensures store.entries == old(store.entries)[metadataKey := Entry(StringValue(Dumps(JObj(old(GetMetadata()) + metadata))), None)]
      ensures GetMetadata() == old(GetMetadata()) + metadata
      ensures forall key | key in old(GetMetadata()) && key !in metadata :: GetMetadata()[key] == old(GetMetadata())[key]
    {
      var current := GetMetadata();
      current := current + metadata;
      store.Set(metadataKey, Dumps(JObj(current)));
    }

    /** get_session_info. */
    method GetSessionInfo() returns (info: SessionInfo)
      ensures info.userId == userId && info.messages == Recent(None)
      ensures info.metadata == GetMetadata() && info.messageCount == store.LLen(historyKey)
    {
      var messages := GetMessages(None);
      info := SessionInfo(userId, messages, GetMetadata(), store.LLen(historyKey));
    }

    /** clear_history: drops the message list only; the metadata survives. */
    method ClearHistory()
      requires store.Valid() && Keyed()
      modifies store
      ensures store.Valid() && store.now == old(store.now)
      ensures store.entries == old(store.entries) - {historyKey}
      ensures GetMetadata() == old(GetMetadata())
    {
      ChatKeysDistinct(MemoryKey(userId, sessionId), MemoryKey(userId, sessionId));
      store.Delete(historyKey);
    }

    /** delete_session: drops the history, the metadata and the session marker,
        nothing else. */
    method DeleteSession()
      requires store.Valid()
      modifies store
      ensures store.Valid() && store.now == old(store.now)
      ensures store.entries == old(store.entries) - {historyKey, metadataKey, sessionKey}
    {
      store.Delete(historyKey);
      store.Delete(metadataKey);
      store.Delete(sessionKey);
    }
  }
}
