/** The key-value store the conversation state lives in, seen through the
    handful of commands the application issues (RPUSH, LLEN, LRANGE, LTRIM,
    GET, SET, SETEX, EXPIRE, DEL, TTL, SCAN). A key holds a list of strings or a
    single string, and optionally a deadline on the store's logical clock;
    a key whose deadline has passed is gone. */
module KeyValue {
  import opened Wrappers
  import opened Json
  import opened Strings

  datatype Value = ListValue(items: seq<Text>) | StringValue(text: Text)

  /** `deadline` is the instant at which the key expires; None: it never does. */
  datatype Entry = Entry(value: Value, deadline: Option<nat>)

  /** The reply of TTL: the two sentinels are kept apart but left abstract. */
  datatype TtlReply = NoKey | NoExpiry | Remaining(seconds: nat)

  /** The error reply of a command the store refuses. */
  datatype StoreError = InvalidExpireTime

  predicate Alive(e: Entry, now: nat) {
    e.deadline.None? || now < e.deadline.value
  }

  predicate Distinct<T(==)>(s: seq<T>) {
    forall i, j | 0 <= i < j < |s| :: s[i] != s[j]
  }

  /** s with x taken out, order kept. */
  function Without(s: seq<string>, x: string): (r: seq<string>)
    ensures forall y :: y in r <==> y in s && y != x
    ensures Distinct(s) ==> Distinct(r)
  {
    if s == [] then []
    else
      var rest := Without(s[1..], x);
      if s[0] == x then rest
      else
        assert Distinct(s) ==> s[0] !in s[1..];
        [s[0]] + rest
  }

  /** The keys of s whose entries are still alive at `now`, order kept. */
  function KeepAlive(s: seq<string>, m: map<string, Entry>, now: nat): (r: seq<string>)
    ensures forall y :: y in r <==> y in s && y in m && Alive(m[y], now)
    ensures Distinct(s) ==> Distinct(r)
  {
    if s == [] then []
    else
      var rest := KeepAlive(s[1..], m, now);
      if s[0] in m && Alive(m[s[0]], now) then
        assert Distinct(s) ==> s[0] !in s[1..];
        [s[0]] + rest
      else rest
  }

  /** The keys of s that start with p, order kept (SCAN's MATCH "p*"). */
  function WithPrefix(s: seq<string>, p: string): (r: seq<string>)
    ensures forall y :: y in r <==> y in s && StartsWith(y, p)
  {
    if s == [] then []
    else if StartsWith(s[0], p) then [s[0]] + WithPrefix(s[1..], p)
    else WithPrefix(s[1..], p)
  }

  lemma {:induction false} WithPrefixAppend(a: seq<string>, b: seq<string>, p: string)
    ensures WithPrefix(a + b, p) == WithPrefix(a, p) + WithPrefix(b, p)
  {
    if a == [] {
      assert a + b == b;
    } else {
      assert (a + b)[1..] == a[1..] + b;
      WithPrefixAppend(a[1..], b, p);
    }
  }

  /** The string held at key in a keyspace, None when there is none. */
  function TextAt(entries: map<string, Entry>, key: string): Option<Text> {
    if key in entries && entries[key].value.StringValue? then Some(entries[key].value.text) else None
  }

  /** Two keyspaces that agree outside k agree at every other key. */
  lemma AgreeOutside(a: map<string, Entry>, b: map<string, Entry>, k: string, x: string)
    requires a - {k} == b - {k} && x != k
    ensures x in a <==> x in b
    ensures x in a ==> a[x] == b[x]
    ensures TextAt(a, x) == TextAt(b, x)
  {
    assert x in a <==> x in a - {k};
    assert x in b <==> x in b - {k};
    if x in a {
      assert a[x] == (a - {k})[x] == (b - {k})[x] == b[x];
    }
  }

  /** Two writes, each confined to its own keys, together leave every key
      outside a set holding both untouched. */
  lemma AgreeOutsideWithin(a: map<string, Entry>, b: map<string, Entry>, c: map<string, Entry>,
                           s: set<string>, t: set<string>, u: set<string>)
    requires b - s == a - s && c - t == b - t
    requires s <= u && t <= u
    ensures c - u == a - u
  {
    forall x | x !in u ensures (x in c <==> x in a) && (x in c ==> c[x] == a[x]) {
      assert x in c - t <==> x in c;
      assert x in b - t <==> x in b;
      assert x in b - s <==> x in b;
      assert x in a - s <==> x in a;
      if x in c {
        assert c[x] == (c - t)[x] == (b - t)[x] == b[x];
        assert b[x] == (b - s)[x] == (a - s)[x] == a[x];
      }
    }
  }

  /** Redis index normalisation for LRANGE and LTRIM: a negative position
      counts from the end, and the result is the half-open slice [lo, hi) of a
      list of length len; (0, 0) when the range is empty. */
  function Span(len: nat, start: int, stop: int): (r: (nat, nat))
    ensures r.0 <= r.1 <= len
  {
    var lo := if start >= 0 then start else if len + start >= 0 then len + start else 0;
    var hi := if stop < 0 then len + stop + 1 else if stop + 1 <= len then stop + 1 else len;
    if lo < hi then (lo, hi) else (0, 0)
  }

  class Store {
    var entries: map<string, Entry>
    /** The keyspace in the store's internal order, the order SCAN walks. */
    var order: seq<string>
    /** The logical clock that deadlines are measured on, in seconds. */
    var now: nat
    /** SCAN's COUNT: how many keyspace slots one SCAN call visits. */
    const scanCount: nat

    ghost predicate Valid()
      reads this
    {
      && scanCount > 0
      && (forall k | k in entries :: Alive(entries[k], now))
      && Distinct(order)
      && (forall k :: k in order <==> k in entries)
    }

    constructor (count: nat)
      requires count > 0
      ensures Valid() && entries == map[] && now == 0 && scanCount == count
    {
      entries, order, now, scanCount := map[], [], 0, count;
    }

    /** The list held at key; a missing key (or one holding a string) reads as empty. */
    function ListAt(key: string): seq<Text>
      reads this
    {
      if key in entries && entries[key].value.ListValue? then entries[key].value.items else []
    }

    /** The deadline a list at key carries; None when there is no list there. */
    function ListDeadline(key: string): Option<nat>
      reads this
    {
      if key in entries && entries[key].value.ListValue? then entries[key].deadline else None
    }

    /** GET: the string held at key, None when there is none. */
    function Get(key: string): Option<Text>
      reads this
    {
      TextAt(entries, key)
    }

    /** LLEN. */
    function LLen(key: string): nat
      reads this
    {
      |ListAt(key)|
    }

    /** LRANGE key start stop. */
    function LRange(key: string, start: int, stop: int): seq<Text>
      reads this
    {
      var xs := ListAt(key);
      var span := Span(|xs|, start, stop);
      xs[span.0..span.1]
    }

    /** TTL. */
    function Ttl(key: string): TtlReply
      reads this
      requires Valid()
    {
      if key !in entries then NoKey
      else match entries[key].deadline
        case None => NoExpiry
        case Some(d) => Remaining(d - now)
    }

    /** SCAN cursor MATCH prefix*: visits `scanCount` slots of the keyspace from
        the cursor and returns the next cursor (0 once the walk is complete) and
        the visited keys that match. */
    function Scan(cursor: nat, prefix: string): (page: (nat, seq<string>))
      reads this
      requires Valid()
      ensures page.0 == 0 || cursor < page.0 <= |order|
      ensures cursor >= |order| ==> page == (0, [])
      ensures cursor < |order| ==>
        page.1 == WithPrefix(order[cursor..if page.0 == 0 then |order| else page.0], prefix)
    {
      if cursor >= |order| then (0, [])
      else
        var hi := if cursor + scanCount < |order| then cursor + scanCount else |order|;
        (if hi == |order| then 0 else hi, WithPrefix(order[cursor..hi], prefix))
    }

    /** Writes one entry, keeping the keyspace order in step. */
    method Put(key: string, e: Entry)
      requires Valid() && Alive(e, now)
      modifies this
      ensures Valid() && now == old(now)
      ensures entries == old(entries)[key := e]
    {
      if key !in order {
        order := order + [key];
      }
      entries := entries[key := e];
    }

    /** Removes one key, keeping the keyspace order in step. */
    method Remove(key: string)
      requires Valid()
      modifies this
      ensures Valid() && now == old(now)
      ensures entries == old(entries) - {key}
    {
      order := Without(order, key);
      entries := entries - {key};
    }

    /** Advances the clock; every key whose deadline has come is gone. */
    method Tick(seconds: nat)
      requires Valid()
      modifies this
      ensures Valid() && now == old(now) + seconds
      ensures entries == map k | k in old(entries) && Alive(old(entries)[k], now) :: old(entries)[k]
    {
      now := now + seconds;
      order := KeepAlive(order, entries, now);
      entries := map k | k in entries && Alive(entries[k], now) :: entries[k];
    }

    /** RPUSH key item: appends to the list (creating it if needed) and
        returns the new length. */
    method RPush(key: string, item: Text) returns (len: nat)
      requires Valid()
      modifies this
      ensures Valid() && now == old(now)
      ensures entries == old(entries)[key := Entry(ListValue(old(ListAt(key)) + [item]), old(ListDeadline(key)))]
      ensures ListAt(key) == old(ListAt(key)) + [item] && len == |ListAt(key)|
      ensures entries - {key} == old(entries) - {key}
    {
      var xs := ListAt(key);
      Put(key, Entry(ListValue(xs + [item]), ListDeadline(key)));
      len := |xs| + 1;
    }

    /** LTRIM key start stop: keeps only LRANGE key start stop; an emptied
        list disappears. */
    method LTrim(key: string, start: int, stop: int)
      requires Valid()
      modifies this
      ensures Valid() && now == old(now)
      ensures var kept := old(LRange(key, start, stop));
        entries ==
          if !old(key in entries && entries[key].value.ListValue?) then old(entries)
          else if kept == [] then old(entries) - {key}
          else old(entries)[key := Entry(ListValue(kept), old(entries[key].deadline))]
      ensures ListAt(key) == old(LRange(key, start, stop))
      ensures entries - {key} == old(entries) - {key}
    {
      if key in entries && entries[key].value.ListValue? {
        var kept := LRange(key, start, stop);
        if kept == [] {
          Remove(key);
        } else {
          Put(key, Entry(ListValue(kept), entries[key].deadline));
        }
      }
    }

    /** SET key text: no deadline. */
    method Set(key: string, text: Text)
      requires Valid()
      modifies this
      ensures Valid() && now == old(now)
      ensures entries == old(entries)[key := Entry(StringValue(text), None)]
    {
      Put(key, Entry(StringValue(text), None));
    }

    /** SETEX key seconds text: a non-positive time is refused with "invalid
        expire time" and nothing is written. */
    method SetEx(key: string, seconds: int, text: Text) returns (r: Result<(), StoreError>)
      requires Valid()
      modifies this
      ensures Valid() && now == old(now)
      ensures r.Success? <==> seconds > 0
      ensures r.Failure? ==> r.error == InvalidExpireTime && entries == old(entries)
      ensures seconds > 0 ==> entries == old(entries)[key := Entry(StringValue(text), Some(now + seconds))]
    {
      if seconds <= 0 {
        return Failure(InvalidExpireTime);
      }
      Put(key, Entry(StringValue(text), Some(now + seconds)));
      r := Success(());
    }

    /** EXPIRE key seconds: 1 when the key exists, 0 when it does not. An
        existing key gets the new deadline, or is deleted at once when the
        time is not positive. */
    method Expire(key: string, seconds: int) returns (n: nat)
      requires Valid()
      modifies this
      ensures Valid() && now == old(now)
      ensures n == (if key in old(entries) then 1 else 0)
      ensures entries ==
        if key !in old(entries) then old(entries)
        else if seconds <= 0 then old(entries) - {key}
        else old(entries)[key := old(entries)[key].(deadline := Some(now + seconds))]
    {
      if key !in entries {
        n := 0;
      } else if seconds <= 0 {
        Remove(key);
        n := 1;
      } else {
        Put(key, entries[key].(deadline := Some(now + seconds)));
        n := 1;
      }
    }

    /** DEL key. */
    method Delete(key: string)
      requires Valid()
      modifies this
      ensures Valid() && now == old(now)
      ensures entries == old(entries) - {key}
    {
      Remove(key);
    }
  }
}
