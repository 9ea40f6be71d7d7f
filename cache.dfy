/**
  The cache-aside engine of strava-ui/src/cache.ts.

  `fetch(key, fetcher, expires, bypass)` reads `key` from Redis first, always;
  with `bypass` it then runs the producer, writes the result and returns it;
  otherwise it returns the stored value when there is one and produces, writes
  and returns it when there is none. `set` awaits the producer, writes its
  JSON text under `key` with expiry `expires` and returns the value; `get`
  reads and parses.

  Redis is a map from keys to entries. What happens is also recorded as a
  sequence of events (Redis reads, producer calls, Redis writes), so that the
  order of the steps and the number of producer calls can be stated.
*/
module Cache {
  import opened Json
  import opened Runtime

  /** What Redis holds under a key: the JSON text and the expiry ("EX", in seconds) it was written with. */
  datatype Entry = Entry(text: Text, ttl: int)

  type Store = map<string, Entry>

  /** One observable step of the engine. */
  datatype Event =
    | Read(key: string)                         // redis.get(key)
    | Invoke                                    // the producer was called
    | Write(key: string, text: Text, ttl: int)  // redis.set(key, text, "EX", ttl)

  /** What a producer's promise settles to: its value, or its rejection. */
  type Producer = Result<JsonValue>

  /** One call of fetch: its arguments and what it returned. */
  datatype Request = Request(key: string, ttl: int, bypass: bool, producer: Producer, result: Result<JsonValue>)

  /** The effect of one engine operation: its result, the store after it, and its events. */
  datatype Step = Step(result: Result<JsonValue>, store: Store, events: seq<Event>)

  /** The number of producer calls among `events`. */
  function Invocations(events: seq<Event>): nat {
    multiset(events)[Invoke]
  }

  /** `get(key)`: null when nothing is stored; otherwise JSON.parse of the stored text, which may throw. */
  function Lookup(store: Store, key: string): Result<JsonValue> {
    if key !in store then Ok(JNull)
    else match Parse(store[key].text)
      case None => Err(SyntaxError)
      case Some(v) => Ok(v)
  }

  /** `set(key, fetcher, expires)`: await the producer, then write its JSON text. */
  function SetStep(store: Store, key: string, producer: Producer, expires: int): Step {
    match producer
    case Err(e) => Step(Err(e), store, [Invoke])
    case Ok(v) =>
      var text := Stringify(v);
      Step(Ok(v), store[key := Entry(text, expires)], [Invoke, Write(key, text, expires)])
  }

  /** `fetch(key, fetcher, expires, bypass)`. */
  function FetchStep(store: Store, key: string, producer: Producer, expires: int, bypass: bool): Step {
    var existing := Lookup(store, key);
    if existing.Err? then Step(existing, store, [Read(key)])
    else if bypass then
      var s := SetStep(store, key, producer, expires);
      Step(s.result, s.store, [Read(key)] + s.events)
    else if existing.value != JNull then Step(existing, store, [Read(key)])
    else
      var s := SetStep(store, key, producer, expires);
      Step(s.result, s.store, [Read(key)] + s.events)
  }

  /** No key of the store holds the text of a JSON null. */
  ghost predicate NoStoredNull(store: Store) {
    forall k :: k in store ==> Parse(store[k].text) != Some(JNull)
  }

  /** The Redis-backed cache: the shared store and the history of what the engine did. */
  class Engine {
    var store: Store
    var log: seq<Event>
    ghost var requests: seq<Request>

    constructor (initial: Store)
      ensures store == initial && log == [] && requests == []
    {
      store := initial;
      log := [];
      requests := [];
    }

    /** get: one Redis read, then JSON.parse of what it found. */
    method Get(key: string) returns (r: Result<JsonValue>)
      modifies this`log
      ensures log == old(log) + [Read(key)]
      ensures r == Lookup(store, key)
    {
      log := log + [Read(key)];
      if key !in store {
        r := Ok(JNull);
      } else {
        var parsed := Parse(store[key].text);
        r := if parsed.Some? then Ok(parsed.value) else Err(SyntaxError);
      }
    }

    /** set: the producer is awaited before the write, so a rejection writes nothing. */
    method Set(key: string, producer: Producer, expires: int) returns (r: Result<JsonValue>)
      modifies this`store, this`log
      ensures var s := SetStep(old(store), key, producer, expires);
        r == s.result && store == s.store && log == old(log) + s.events
    {
      log := log + [Invoke];
      if producer.Err? {
        r := producer;
        return;
      }
      var value := producer.value;
      var text := Stringify(value);
      log := log + [Write(key, text, expires)];
      store := store[key := Entry(text, expires)];
      r := Ok(value);
    }

    method Fetch(key: string, producer: Producer, expires: int, bypass: bool) returns (r: Result<JsonValue>)
      modifies this`store, this`log, this`requests
      ensures var s := FetchStep(old(store), key, producer, expires, bypass);
        r == s.result && store == s.store && log == old(log) + s.events
      ensures requests == old(requests) + [Request(key, expires, bypass, producer, r)]
    {
      var existing := Get(key);
      if existing.Err? {
        r := existing;  // JSON.parse threw before bypass was looked at
      } else if bypass {
        r := Set(key, producer, expires);
      } else if existing.value != JNull {
        r := existing;
      } else {
        r := Set(key, producer, expires);
      }
      requests := requests + [Request(key, expires, bypass, producer, r)];
    }
  }

  // ---------------------------------------------------------------------------
  // Properties of one operation

  /**
    Every fetch starts with the Redis read of its own key, bypass or not, and
    then does at most one producer call and at most one write, of `key` with
    the given expiry.
  */
  lemma FetchReadsFirst(store: Store, key: string, producer: Producer, expires: int, bypass: bool)
    ensures var s := FetchStep(store, key, producer, expires, bypass);
      && 1 <= |s.events| <= 3
      && s.events[0] == Read(key)
      && (|s.events| >= 2 ==> s.events[1] == Invoke)
      && (|s.events| == 3 ==> s.events[2].Write? && s.events[2].key == key && s.events[2].ttl == expires)
  {
  }

  /**
    With bypass, whatever was stored: exactly one producer call; a produced
    value is written under `key` with expiry `expires` and returned. Only a
    stored text that JSON.parse rejects stops it, before the producer runs.
  */
  lemma FetchBypass(store: Store, key: string, v: JsonValue, expires: int)
    requires Lookup(store, key).Ok?
    ensures var s := FetchStep(store, key, Ok(v), expires, true);
      && s.result == Ok(v)
      && s.store == store[key := Entry(Stringify(v), expires)]
      && s.events == [Read(key), Invoke, Write(key, Stringify(v), expires)]
      && Invocations(s.events) == 1
  {
  }

  /** Without bypass and with a stored non-null value: that value, no producer call, the store untouched. */
  lemma FetchHit(store: Store, key: string, producer: Producer, expires: int)
    requires key in store && Parse(store[key].text).Some? && Parse(store[key].text) != Some(JNull)
    ensures var s := FetchStep(store, key, producer, expires, false);
      && s.result == Ok(Parse(store[key].text).value)
      && s.store == store
      && s.events == [Read(key)]
      && Invocations(s.events) == 0
  {
  }

  /**
    Without bypass and with nothing stored (or a stored null, which `get`
    cannot tell apart from nothing): exactly one producer call, whose value is
    written under `key` and returned.
  */
  lemma FetchMiss(store: Store, key: string, v: JsonValue, expires: int)
    requires key !in store || Parse(store[key].text) == Some(JNull)
    ensures var s := FetchStep(store, key, Ok(v), expires, false);
      && s.result == Ok(v)
      && s.store == store[key := Entry(Stringify(v), expires)]
      && s.events == [Read(key), Invoke, Write(key, Stringify(v), expires)]
      && Invocations(s.events) == 1
  {
    assert Lookup(store, key) == Ok(JNull);
    var written := SetStep(store, key, Ok(v), expires);
    var events := [Read(key), Invoke, Write(key, Stringify(v), expires)];
    assert [Read(key)] + written.events == events;
    assert FetchStep(store, key, Ok(v), expires, false) == Step(Ok(v), written.store, events);
    WriteCallsOnce(key, Stringify(v), expires);
  }

  /** A read, a producer call and a write: one producer call. */
  lemma WriteCallsOnce(key: string, text: Text, expires: int)
    ensures Invocations([Read(key), Invoke, Write(key, text, expires)]) == 1
  {
    var events := [Read(key), Invoke, Write(key, text, expires)];
    assert events == [Read(key)] + [Invoke] + [Write(key, text, expires)];
  }

  /**
    A producer that rejects is called exactly when the stored text parses and
    either bypass is set or it reads as null; fetch then rejects with its
    error. Otherwise fetch returns what `get` gave. Nothing is written.
  */
  lemma FetchProducerFails(store: Store, key: string, e: Error, expires: int, bypass: bool)
    ensures var s := FetchStep(store, key, Err(e), expires, bypass);
      var called := Lookup(store, key).Ok? && (bypass || Lookup(store, key).value == JNull);
      && s.store == store
      && Invocations(s.events) == (if called then 1 else 0)
      && s.result == (if called then Err(e) else Lookup(store, key))
  {
    var s := FetchStep(store, key, Err(e), expires, bypass);
    if Lookup(store, key).Ok? && (bypass || Lookup(store, key).value == JNull) {
      assert s.events == [Read(key)] + [Invoke];
    } else {
      assert s.events == [Read(key)];
    }
  }

  /** A stored text JSON.parse rejects makes every fetch of that key throw, bypass or not. */
  lemma FetchUnparseable(store: Store, key: string, producer: Producer, expires: int, bypass: bool)
    requires key in store && Parse(store[key].text).None?
    ensures var s := FetchStep(store, key, producer, expires, bypass);
      s.result == Err(SyntaxError) && s.store == store && Invocations(s.events) == 0
  {
  }

  /** Whatever fetch returns successfully is what the store then holds under `key`. */
  lemma FetchResultIsStored(store: Store, key: string, producer: Producer, expires: int, bypass: bool)
    ensures var s := FetchStep(store, key, producer, expires, bypass);
      s.result.Ok? ==> Lookup(s.store, key) == s.result
  {
    if producer.Ok? {
      ParseStringify(producer.value);
    }
  }

  /** set changes only `key`, writes it with exactly the expiry it was given, and returns the produced value. */
  lemma SetWritesOnlyKey(store: Store, key: string, producer: Producer, expires: int)
    ensures var s := SetStep(store, key, producer, expires);
      && s.result == producer
      && (forall k :: k != key ==> (k in s.store <==> k in store))
      && (forall k :: k != key && k in store ==> s.store[k] == store[k])
      && (producer.Ok? ==> s.store[key] == Entry(Stringify(producer.value), expires))
  {
  }

  /** A rejected producer: set rejects with the same error and writes nothing. */
  lemma SetFailureWritesNothing(store: Store, key: string, e: Error, expires: int)
    ensures var s := SetStep(store, key, Err(e), expires);
      s.result == Err(e) && s.store == store && s.events == [Invoke]
  {
  }

  /** Round trip: after set returns v, get returns v. */
  lemma GetAfterSet(store: Store, key: string, v: JsonValue, expires: int)
    ensures var s := SetStep(store, key, Ok(v), expires);
      s.result == Ok(v) && Lookup(s.store, key) == Ok(v)
  {
    ParseStringify(v);
  }

  /**
    get returns null exactly when nothing is stored under the key or the stored
    text is that of null; in a store that holds no null, exactly when nothing is stored.
  */
  lemma GetNullIff(store: Store, key: string)
    ensures Lookup(store, key) == Ok(JNull) <==> key !in store || Parse(store[key].text) == Some(JNull)
    ensures NoStoredNull(store) ==> (Lookup(store, key) == Ok(JNull) <==> key !in store)
  {
  }

  /** Writing a value other than null keeps a store free of nulls. */
  lemma SetKeepsNoStoredNull(store: Store, key: string, v: JsonValue, expires: int)
    requires NoStoredNull(store) && v != JNull
    ensures NoStoredNull(SetStep(store, key, Ok(v), expires).store)
  {
    ParseStringify(v);
  }

  /**
    A fetch whose producer cannot yield null keeps a store free of nulls, so
    that in such a store `get` reads null exactly when nothing is stored.
  */
  lemma FetchKeepsNoStoredNull(store: Store, key: string, producer: Producer, expires: int, bypass: bool)
    requires NoStoredNull(store) && (producer.Ok? ==> producer.value != JNull)
    ensures NoStoredNull(FetchStep(store, key, producer, expires, bypass).store)
  {
    if producer.Ok? {
      SetKeepsNoStoredNull(store, key, producer.value, expires);
    }
  }

  // ---------------------------------------------------------------------------
  // Properties of consecutive calls

  /**
    Two fetches of the same key without bypass, nothing expiring in between,
    with a producer whose value is not null: at most one producer call in
    total, and the same result twice.
  */
  lemma FetchTwice(store: Store, key: string, v: JsonValue, later: Producer, expires: int)
    requires v != JNull
    ensures var s1 := FetchStep(store, key, Ok(v), expires, false);
      var s2 := FetchStep(s1.store, key, later, expires, false);
      && s2.result == s1.result
      && s2.store == s1.store
      && Invocations(s2.events) == 0
      && Invocations(s1.events + s2.events) <= 1
  {
    var s1 := FetchStep(store, key, Ok(v), expires, false);
    var s2 := FetchStep(s1.store, key, later, expires, false);
    ParseStringify(v);
  }

  /**
    A producer whose value is null is called again on the next fetch: its
    text is stored, but `get` reads it as a miss.
  */
  lemma NullIsProducedAgain(store: Store, key: string, expires: int)
    requires key !in store
    ensures var s1 := FetchStep(store, key, Ok(JNull), expires, false);
      var s2 := FetchStep(s1.store, key, Ok(JNull), expires, false);
      && key in s1.store
      && Invocations(s1.events) == 1
      && Invocations(s2.events) == 1
  {
    var s1 := FetchStep(store, key, Ok(JNull), expires, false);
    assert Parse(Stringify(JNull)) == Some(JNull);
    assert Lookup(s1.store, key) == Ok(JNull);
  }

  /**
    A producer that rejects is called again on the next fetch: nothing was
    written, so the key is still missing.
  */
  lemma RejectionIsProducedAgain(store: Store, key: string, e: Error, expires: int)
    requires key !in store
    ensures var s1 := FetchStep(store, key, Err(e), expires, false);
      var s2 := FetchStep(s1.store, key, Err(e), expires, false);
      && s1.store == store && s2.store == store
      && s1.result == Err(e) && s2.result == Err(e)
      && Invocations(s1.events) == 1
      && Invocations(s2.events) == 1
  {
  }

  /** On a fresh cache the first fetch stores its value; the second returns it without calling its producer. */
  method FetchScenario() {
    var cache := new Engine(map[]);
    var a := cache.Fetch("k", Ok(JNum(42)), 3600, false);
    assert a == Ok(JNum(42));
    GetAfterSet(map[], "k", JNum(42), 3600);
    var b := cache.Fetch("k", Ok(JNum(7)), 3600, false);
    assert b == Ok(JNum(42)) && Invocations(cache.log) == 1;
  }

  /** Bypass replaces what is stored; a producer that fails leaves the store as it was. */
  method BypassScenario(e: Error) {
    var cache := new Engine(map["k" := Entry(Stringify(JNum(42)), 3600)]);
    var c := cache.Fetch("k", Ok(JNum(99)), 3600, true);
    assert c == Ok(JNum(99));
    var before := cache.store;
    var d := cache.Fetch("k", Err(e), 3600, true);
    assert d == Err(e) && cache.store == before;
  }
}
