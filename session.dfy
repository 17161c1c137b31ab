/** The session registry (app/session.py): one record per user under
    `session:{user_id}`, written with a time-to-live, merged on update and
    enumerated with SCAN. */
module Sessions {
  import opened Wrappers
  import opened Json
  import opened Strings
  import opened KeyValue

  const SessionPrefix: string := "session:"

  function SessionKey(userId: string): string { SessionPrefix + userId }

  /** The cosmetic session id `session_{user_id}_{seconds}`. */
  function DisplaySessionId(userId: string, seconds: nat): string {
    "session_" + userId + "_" + DecimalDigits(seconds)
  }

  /** The user id the listing recovers from a scanned key:
      `key.replace("session:", "")`. */
  function UserIdOfKey(key: string): string {
    RemoveAll(key, SessionPrefix)
  }

  /** The listing names a session by its own user id exactly when that id has
      no `session:` inside it. */
  lemma UserIdOfKeyRoundTrip(userId: string)
    ensures UserIdOfKey(SessionKey(userId)) == userId <==> !Contains(userId, SessionPrefix)
  {
    RemoveAllAfterPrefix(SessionPrefix, userId);
  }

  function StripAll(keys: seq<string>): (r: seq<string>)
    ensures |r| == |keys| && forall i :: 0 <= i < |keys| ==> r[i] == UserIdOfKey(keys[i])
  {
    seq(|keys|, i requires 0 <= i < |keys| => UserIdOfKey(keys[i]))
  }

  lemma StripAllAppend(a: seq<string>, b: seq<string>)
    ensures StripAll(a + b) == StripAll(a) + StripAll(b)
  {
  }

  /** The inner loop of list_active_sessions: the user id of each key of one
      SCAN page appended in turn. */
  method AppendUserIds(users: seq<string>, keys: seq<string>) returns (r: seq<string>)
    ensures r == users + StripAll(keys)
  {
    r := users;
    for i := 0 to |keys|
      invariant r == users + StripAll(keys[..i])
    {
      r := r + [UserIdOfKey(keys[i])];
    }
    assert keys[..|keys|] == keys;
  }

  /** One SCAN call extends the walked prefix of the keyspace by exactly the
      page it returns. */
  lemma ScanAdvances(store: Store, cursor: nat, prefix: string)
    requires store.Valid() && cursor <= |store.order|
    ensures var page := store.Scan(cursor, prefix);
      var hi := if page.0 == 0 then |store.order| else page.0;
      WithPrefix(store.order[..hi], prefix) == WithPrefix(store.order[..cursor], prefix) + page.1
  {
    var page := store.Scan(cursor, prefix);
    var hi := if page.0 == 0 then |store.order| else page.0;
    if cursor < |store.order| {
      assert store.order[..hi] == store.order[..cursor] + store.order[cursor..hi];
      WithPrefixAppend(store.order[..cursor], store.order[cursor..hi], prefix);
    } else {
      assert page.1 == [];
    }
  }

  /** Every live session whose user id has no `session:` inside it is listed
      under that user id. */
  lemma SessionsListed(store: Store, users: seq<string>)
    requires store.Valid()
    requires users == StripAll(WithPrefix(store.order, SessionPrefix))
    ensures forall u | SessionKey(u) in store.entries && !Contains(u, SessionPrefix) :: u in users
  {
    var ks := WithPrefix(store.order, SessionPrefix);
    forall u | SessionKey(u) in store.entries && !Contains(u, SessionPrefix) ensures u in users {
      UserIdOfKeyRoundTrip(u);
      assert StartsWith(SessionKey(u), SessionPrefix);
      assert SessionKey(u) in ks;
      var j :| 0 <= j < |ks| && ks[j] == SessionKey(u);
      assert users[j] == u;
    }
  }

  /** The record `create_session` writes. */
  function NewSession(userId: string, persona: string, metadata: Option<Record>, stamp: string): (r: Record)
    ensures r.Keys == {"user_id", "persona", "created_at", "last_activity", "message_count", "metadata"}
    ensures r["user_id"] == JStr(userId) && r["persona"] == JStr(persona)
    ensures r["created_at"] == JStr(stamp) && r["last_activity"] == JStr(stamp)
    ensures r["message_count"] == JInt(0)
    ensures r["metadata"] == JObj(metadata.GetOr(map[]))
  {
    map["user_id" := JStr(userId), "persona" := JStr(persona),
        "created_at" := JStr(stamp), "last_activity" := JStr(stamp),
        "message_count" := JInt(0), "metadata" := JObj(metadata.GetOr(map[]))]
  }

  /** update_session's new record: the updates merged over the old record,
      then `last_activity` stamped, so the stamp wins over an update of it. */
  function Touched(current: Record, updates: Record, stamp: string): (r: Record)
    ensures r.Keys == current.Keys + updates.Keys + {"last_activity"}
    ensures r["last_activity"] == JStr(stamp)
    ensures forall k | k in updates && k != "last_activity" :: r[k] == updates[k]
    ensures forall k | k in current && k !in updates && k != "last_activity" :: r[k] == current[k]
  {
    (current + updates)["last_activity" := JStr(stamp)]
  }

  class SessionManager {
    const store: Store
    /** Any integer is accepted; a non-positive one makes every SETEX fail
        and every EXPIRE delete the key. */
    const sessionTimeout: int

    constructor (store: Store, sessionTimeout: int)
      ensures this.store == store && this.sessionTimeout == sessionTimeout
    {
      this.store := store;
      this.sessionTimeout := sessionTimeout;
    }

    /** get_session: the stored record; None when the key is missing (or
        expired) or its text does not decode to an object. */
    function GetSession(userId: string): (r: Option<Record>)
      reads store
      ensures SessionKey(userId) !in store.entries ==> r.None?
      ensures r.Some? ==> exists t :: store.Get(SessionKey(userId)) == Some(t) && LoadsRecord(t) == r
    {
      match store.Get(SessionKey(userId))
      case None => None
      case Some(t) => LoadsRecord(t)
    }

    /** Python truthiness of get_session's result: present and non-empty. */
    predicate Active(userId: string)
      reads store
    {
      GetSession(userId).Some? && GetSession(userId).value != map[]
    }

    /** create_session: writes a fresh record with the full TTL, replacing
        whatever was there; a non-positive timeout makes SETEX fail and the
        error propagates with nothing written. */
    method CreateSession(userId: string, persona: string, metadata: Option<Record>, stamp: string)
      returns (r: Result<Record, StoreError>)
      requires store.Valid()
      modifies store
      ensures store.Valid() && store.now == old(store.now)
      ensures r == if sessionTimeout > 0 then Success(NewSession(userId, persona, metadata, stamp)) else Failure(InvalidExpireTime)
      ensures r.Failure? ==> store.entries == old(store.entries)
      ensures r.Success? ==>
        store.entries == old(store.entries)[SessionKey(userId) := Entry(StringValue(Dumps(JObj(r.value))), Some(store.now + sessionTimeout))]
      ensures r.Success? ==> GetSession(userId) == Some(r.value) && store.Ttl(SessionKey(userId)) == Remaining(sessionTimeout)
      ensures store.entries - {SessionKey(userId)} == old(store.entries) - {SessionKey(userId)}
    {
      var data := NewSession(userId, persona, metadata, stamp);
      var written := store.SetEx(SessionKey(userId), sessionTimeout, Dumps(JObj(data)));
      if written.Failure? {
        return Failure(written.error);
      }
      r := Success(data);
    }

    /** update_session: False and no write when there is no (non-empty)
        record; otherwise the merged, stamped record is rewritten with the
        full TTL, and a non-positive timeout makes that SETEX fail. */
    method UpdateSession(userId: string, updates: Record, stamp: string) returns (r: Result<bool, StoreError>)
      requires store.Valid()
      modifies store
      ensures store.Valid() && store.now == old(store.now)
      ensures !old(Active(userId)) ==> r == Success(false)
      ensures old(Active(userId)) && sessionTimeout > 0 ==> r == Success(true)
      ensures old(Active(userId)) && sessionTimeout <= 0 ==> r == Failure(InvalidExpireTime)
      ensures r != Success(true) ==> store.entries == old(store.entries)
      ensures r == Success(true) ==> GetSession(userId) == Some(Touched(old(GetSession(userId)).value, updates, stamp))
      ensures r == Success(true) ==> store.Ttl(SessionKey(userId)) == Remaining(sessionTimeout)
      ensures store.entries - {SessionKey(userId)} == old(store.entries) - {SessionKey(userId)}
    {
      var current := GetSession(userId);
      if current.None? || current.value == map[] {
        return Success(false);
      }
      var merged := current.value + updates;
      merged := merged["last_activity" := JStr(stamp)];
      var written := store.SetEx(SessionKey(userId), sessionTimeout, Dumps(JObj(merged)));
      if written.Failure? {
        return Failure(written.error);
      }
      r := Success(true);
    }

    /** extend_session: True exactly when the key existed. Only the deadline
        moves, unless the timeout is not positive: then EXPIRE deletes the
        record. */
    method ExtendSession(userId: string) returns (ok: bool)
      requires store.Valid()
      modifies store
      ensures store.Valid() && store.now == old(store.now)
      ensures ok <==> SessionKey(userId) in old(store.entries)
      ensures sessionTimeout > 0 ==> GetSession(userId) == old(GetSession(userId))
      ensures ok && sessionTimeout > 0 ==> store.Ttl(SessionKey(userId)) == Remaining(sessionTimeout)
      ensures sessionTimeout <= 0 ==> store.entries == old(store.entries) - {SessionKey(userId)} && GetSession(userId).None?
      ensures !ok ==> store.entries == old(store.entries)
      ensures store.entries - {SessionKey(userId)} == old(store.entries) - {SessionKey(userId)}
    {
      var n := store.Expire(SessionKey(userId), sessionTimeout);
      ok := n > 0;
    }

    /** delete_session: unconditional. */
    method DeleteSession(userId: string)
      requires store.Valid()
      modifies store
      ensures store.Valid() && store.now == old(store.now)
      ensures store.entries == old(store.entries) - {SessionKey(userId)}
      ensures GetSession(userId).None?
    {
      store.Delete(SessionKey(userId));
    }

    /** get_session_ttl: the store's TTL reply for the key, unchanged. */
    function GetSessionTtl(userId: string): (r: TtlReply)
      reads store
      requires store.Valid()
      ensures r.NoKey? <==> SessionKey(userId) !in store.entries
      ensures r.Remaining? ==> 0 < r.seconds
    {
      store.Ttl(SessionKey(userId))
    }

    /** The live session keys in the order a full SCAN visits them. */
    function SessionKeys(): seq<string>
      reads store
    {
      WithPrefix(store.order, SessionPrefix)
    }

    /** list_active_sessions: walks SCAN from cursor 0 until it returns 0 and
        collects every `session:` key with the prefix removed. */
    method ListActiveSessions() returns (users: seq<string>)
      requires store.Valid()
      ensures users == StripAll(SessionKeys())
      ensures forall u | SessionKey(u) in store.entries && !Contains(u, SessionPrefix) :: u in users
    {
      var cursor: nat := 0;
      users := [];
      while true
        invariant cursor <= |store.order|
        invariant users == StripAll(WithPrefix(store.order[..cursor], SessionPrefix))
        decreases |store.order| - cursor
      {
        var page := store.Scan(cursor, SessionPrefix);
        var keys := page.1;
        ghost var done := WithPrefix(store.order[..cursor], SessionPrefix);
        users := AppendUserIds(users, keys);
        StripAllAppend(done, keys);
        ghost var hi := if page.0 == 0 then |store.order| else page.0;
        ScanAdvances(store, cursor, SessionPrefix);
        assert users == StripAll(WithPrefix(store.order[..hi], SessionPrefix));
        if page.0 == 0 {
          break;
        }
        cursor := page.0;
      }
      assert store.order[..|store.order|] == store.order;
      SessionsListed(store, users);
    }

    /** The records list_sessions_detailed reports for the given scanned keys:
        each key whose record is present and non-empty, with `session_id`
        added. */
    function Detailed(keys: seq<string>, seconds: nat): (r: seq<Record>)
      reads store
    {
      if keys == [] then []
      else Detailed(keys[..|keys| - 1], seconds) + Reported(keys[|keys| - 1], seconds)
    }

    /** What one scanned key contributes to the detailed listing. */
    function Reported(key: string, seconds: nat): (r: seq<Record>)
      reads store
    {
      var userId := UserIdOfKey(key);
      if Active(userId) then
        [GetSession(userId).value["session_id" := JStr(DisplaySessionId(userId, seconds))]]
      else []
    }

    lemma DetailedSnoc(keys: seq<string>, key: string, seconds: nat)
      ensures Detailed(keys + [key], seconds) == Detailed(keys, seconds) + Reported(key, seconds)
    {
      assert (keys + [key])[..|keys|] == keys;
    }

    /** The record list_sessions_detailed reports for one user. */
    function Tagged(userId: string, seconds: nat): Record
      reads store
      requires Active(userId)
    {
      GetSession(userId).value["session_id" := JStr(DisplaySessionId(userId, seconds))]
    }

    /** The detailed listing holds exactly the active sessions among the
        scanned keys, each with its `session_id` added. */
    lemma {:induction false} DetailedExact(keys: seq<string>, seconds: nat)
      ensures |Detailed(keys, seconds)| <= |keys|
      ensures forall k | k in keys && Active(UserIdOfKey(k)) :: Tagged(UserIdOfKey(k), seconds) in Detailed(keys, seconds)
      ensures forall r | r in Detailed(keys, seconds) ::
        exists k | k in keys :: Active(UserIdOfKey(k)) && r == Tagged(UserIdOfKey(k), seconds)
      decreases |keys|
    {
      if keys != [] {
        var init := keys[..|keys| - 1];
        var last := keys[|keys| - 1];
        assert keys == init + [last];
        DetailedExact(init, seconds);
        forall r | r in Detailed(keys, seconds)
          ensures exists k | k in keys :: Active(UserIdOfKey(k)) && r == Tagged(UserIdOfKey(k), seconds)
        {
          if r in Detailed(init, seconds) {
            var k :| k in init && Active(UserIdOfKey(k)) && r == Tagged(UserIdOfKey(k), seconds);
            assert k in keys;
          } else {
            assert r in Reported(last, seconds);
            assert last in keys;
          }
        }
      }
    }

    lemma DetailedStep(keys: seq<string>, i: nat, seconds: nat)
      requires i < |keys|
      ensures Detailed(keys[..i + 1], seconds) == Detailed(keys[..i], seconds) + Reported(keys[i], seconds)
    {
      assert keys[..i + 1] == keys[..i] + [keys[i]];
      DetailedSnoc(keys[..i], keys[i], seconds);
    }

    lemma {:induction false} DetailedAppend(a: seq<string>, b: seq<string>, seconds: nat)
      ensures Detailed(a + b, seconds) == Detailed(a, seconds) + Detailed(b, seconds)
      decreases |b|
    {
      if b == [] {
        assert a + b == a;
      } else {
        var init := b[..|b| - 1];
        assert a + b == (a + init) + [b[|b| - 1]];
        assert b == init + [b[|b| - 1]];
        DetailedAppend(a, init, seconds);
        DetailedSnoc(a + init, b[|b| - 1], seconds);
        DetailedSnoc(init, b[|b| - 1], seconds);
      }
    }

    /** The body of list_sessions_detailed's loop over one SCAN page. */
    method ReportPage(keys: seq<string>, seconds: nat) returns (found: seq<Record>)
      ensures found == Detailed(keys, seconds)
    {
      found := [];
      for i := 0 to |keys|
        invariant found == Detailed(keys[..i], seconds)
      {
        DetailedStep(keys, i, seconds);
        var userId := UserIdOfKey(keys[i]);
        var data := GetSession(userId);
        if data.Some? && data.value != map[] {
          found := found + [data.value["session_id" := JStr(DisplaySessionId(userId, seconds))]];
        }
      }
      assert keys[..|keys|] == keys;
    }

    /** list_sessions_detailed: the same SCAN walk, keeping only the keys whose
        session currently decodes to a non-empty record. */
    method ListSessionsDetailed(seconds: nat) returns (sessions: seq<Record>)
      requires store.Valid()
      ensures sessions == Detailed(SessionKeys(), seconds)
    {
      var cursor: nat := 0;
      sessions := [];
      while true
        invariant cursor <= |store.order|
        invariant sessions == Detailed(WithPrefix(store.order[..cursor], SessionPrefix), seconds)
        decreases |store.order| - cursor
      {
        var page := store.Scan(cursor, SessionPrefix);
        var keys := page.1;
        ghost var done := WithPrefix(store.order[..cursor], SessionPrefix);
        var found := ReportPage(keys, seconds);
        sessions := sessions + found;
        ghost var hi := if page.0 == 0 then |store.order| else page.0;
        assert sessions == Detailed(WithPrefix(store.order[..hi], SessionPrefix), seconds) by {
          assert keys[..|keys|] == keys;
          ScanAdvances(store, cursor, SessionPrefix);
          DetailedAppend(done, keys, seconds);
        }
        if page.0 == 0 {
          break;
        }
        cursor := page.0;
      }
      assert store.order[..|store.order|] == store.order;
    }
  }

  /** The life of one session record over logical time: present once
    created, and gone once its timeout has elapsed with no write. With a
    non-positive timeout the creation fails and the old record stays. */
  method Lifecycle(sessions: SessionManager, userId: string, persona: string, stamp: string, idle: nat)
    returns (created: Option<Record>, later: Option<Record>)
    requires sessions.store.Valid()
    modifies sessions.store
    ensures sessions.sessionTimeout > 0 ==> created == Some(NewSession(userId, persona, None, stamp))
    ensures sessions.sessionTimeout <= 0 ==> created == old(sessions.GetSession(userId))
    ensures sessions.sessionTimeout > 0 ==> (later.None? <==> idle >= sessions.sessionTimeout)
    ensures sessions.sessionTimeout > 0 && later.Some? ==> later == created
  {
    var data := sessions.CreateSession(userId, persona, None, stamp);
    created := sessions.GetSession(userId);
    sessions.store.Tick(idle);
    later := sessions.GetSession(userId);
  }
}
