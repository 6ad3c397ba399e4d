/** The get-or-compute cache of lib/cache.ts over an Upstash Redis store.

    The store is a map from keys to a payload (the JSON text of the cached
    value) and an optional expiry instant on a clock in seconds. The
    environment variables are fields ("" stands for an unset or empty
    variable, which the source treats alike), the lazily created client is a
    flag plus a construction counter, and the calls of `fetchFn` are counted.
    The outcome of each remote operation (a read or write that throws) and of
    `fetchFn` is a parameter of the call. */
module Cache {
  import opened Common

  /** A stored value: its JSON text and, for SETEX, its expiry instant. */
  datatype Entry = Entry(payload: string, expiresAt: Option<int>)

  /** What `fetchFn` does when awaited: it resolves to a value, given as
      its JSON text, or it throws. */
  datatype FetchOutcome = Resolves(payload: string) | Throws

  /** What a call of `withCache` does: it returns a value or rethrows. */
  datatype Outcome = Returned(payload: string) | Rethrown

  /** The value Redis GET answers at instant `now`: the stored payload
      unless the key is absent or its expiry has passed. */
  function Live(store: map<string, Entry>, now: int, key: string): (r: Option<string>)
    ensures r.Some? <==> key in store && (store[key].expiresAt.None? || now < store[key].expiresAt.value)
    ensures r.Some? ==> r.value == store[key].payload
  {
    if key in store && (store[key].expiresAt.None? || now < store[key].expiresAt.value)
    then Some(store[key].payload) else None
  }

  /** A GET result counts as a hit when it is a non-empty string (`if (cached)`). */
  predicate IsHit(cached: Option<string>) {
    cached.Some? && cached.value != ""
  }

  /** SETEX at `now` with a positive ttl keeps the value readable for exactly
      `ttl` seconds: at `now + dt` it is served when dt < ttl and gone after. */
  lemma SetexLifetime(store: map<string, Entry>, now: int, key: string, payload: string, ttl: int, dt: nat)
    requires ttl > 0
    ensures Live(store[key := Entry(payload, Some(now + ttl))], now + dt, key) ==
      if dt < ttl then Some(payload) else None
  {
  }

  /** SET without expiry keeps the value readable at every later instant. */
  lemma SetNeverExpires(store: map<string, Entry>, now: int, key: string, payload: string, later: int)
    ensures Live(store[key := Entry(payload, None)], later, key) == Some(payload)
  {
  }

  /** Writing one key leaves what every other key reads unchanged. */
  lemma WriteIsolated(store: map<string, Entry>, now: int, key: string, e: Entry, other: string)
    requires other != key
    ensures Live(store[key := e], now, other) == Live(store, now, other)
  {
  }

  class RedisCache {
    /** UPSTASH_REDIS_REST_URL and UPSTASH_REDIS_REST_TOKEN; "" when unset. */
    var url: string
    var token: string
    /** The module-level `redis` variable: whether a client exists, and how
        many times `new Redis(..)` has run. */
    var clientCreated: bool
    var constructions: nat
    /** The remote store, and the clock it expires keys against. */
    var store: map<string, Entry>
    var now: int
    /** How many times a `fetchFn` has been awaited. */
    var fetchCalls: nat

    /** The singleton invariant: the client is built at most once, and it
        exists exactly when it has been built. */
    ghost predicate Valid()
      reads this
    {
      constructions <= 1 && (clientCreated <==> constructions == 1)
    }

    /** The credentials check of getRedis. */
    predicate Configured()
      reads this
    {
      url != "" && token != ""
    }

    constructor(url: string, token: string, store: map<string, Entry>, now: int)
      ensures Valid()
      ensures this.url == url && this.token == token && this.store == store && this.now == now
      ensures !clientCreated && constructions == 0 && fetchCalls == 0
    {
      this.url := url;
      this.token := token;
      this.store := store;
      this.now := now;
      clientCreated := false;
      constructions := 0;
      fetchCalls := 0;
    }

    /** getRedis: null without both credentials; otherwise the existing
        client, created on first use. */
    method GetRedis() returns (available: bool)
      requires Valid()
      modifies this
      ensures Valid()
      ensures available == Configured()
      ensures clientCreated == (old(clientCreated) || Configured())
      ensures constructions == if Configured() && !old(clientCreated) then 1 else old(constructions)
      ensures url == old(url) && token == old(token) && store == old(store) && now == old(now) && fetchCalls == old(fetchCalls)
    {
      if !Configured() {
        return false;
      }
      if !clientCreated {
        clientCreated := true;
        constructions := constructions + 1;
      }
      return true;
    }

    /** Whether withCache would answer `key` from the store: a client is
        available, the read succeeds and finds a non-empty string. */
    predicate Hits(key: string, readFails: bool)
      reads this
    {
      Configured() && !readFails && IsHit(Live(store, now, key))
    }

    /** withCache(key, ttlSeconds, fetchFn). `readFails` and `writeFails`
        say whether client.get and client.setex throw. */
    method WithCache(key: string, ttlSeconds: int, fetch: FetchOutcome, readFails: bool, writeFails: bool)
      returns (r: Outcome)
      requires Valid()
      modifies this
      ensures Valid()
      ensures old(Hits(key, readFails)) ==> r == Returned(old(Live(store, now, key)).value) && fetchCalls == old(fetchCalls)
      ensures !old(Hits(key, readFails)) ==>
        fetchCalls == old(fetchCalls) + 1 && r == (if fetch.Resolves? then Returned(fetch.payload) else Rethrown)
      ensures store == (if !old(Hits(key, readFails)) && old(Configured()) && fetch.Resolves? && !writeFails && ttlSeconds > 0
                        then old(store)[key := Entry(fetch.payload, Some(old(now) + ttlSeconds))]
                        else old(store))
      ensures clientCreated == (old(clientCreated) || Configured())
      ensures url == old(url) && token == old(token) && now == old(now)
    {
      var client := GetRedis();
      if !client {
        fetchCalls := fetchCalls + 1;
        return if fetch.Resolves? then Returned(fetch.payload) else Rethrown;
      }
      if !readFails {
        var cached := Live(store, now, key);
        if cached.Some? && cached.value != "" {
          return Returned(cached.value);
        }
      }
      fetchCalls := fetchCalls + 1;
      if fetch.Throws? {
        return Rethrown;
      }
      if !writeFails && ttlSeconds > 0 {
        store := store[key := Entry(fetch.payload, Some(now + ttlSeconds))];
      }
      return Returned(fetch.payload);
    }

    /** getCached(key): the stored payload, or null when there is no client,
        the key is absent or empty, or the read throws. */
    method GetCached(key: string, readFails: bool) returns (r: Option<string>)
      requires Valid()
      modifies this
      ensures Valid()
      ensures r == if old(Hits(key, readFails)) then old(Live(store, now, key)) else None
      ensures clientCreated == (old(clientCreated) || Configured())
      ensures url == old(url) && token == old(token) && store == old(store) && now == old(now) && fetchCalls == old(fetchCalls)
    {
      var client := GetRedis();
      if !client {
        return None;
      }
      if readFails {
        return None;
      }
      var cached := Live(store, now, key);
      r := if cached.Some? && cached.value != "" then cached else None;
    }

    /** setCached(key, value, ttlSeconds): SETEX for a positive ttl, SET
        without expiry otherwise; nothing without a client; a failing write
        is swallowed. */
    method SetCached(key: string, payload: string, ttlSeconds: int, writeFails: bool)
      requires Valid()
      modifies this
      ensures Valid()
      ensures store == (if old(Configured()) && !writeFails
                        then old(store)[key := Entry(payload, if ttlSeconds > 0 then Some(old(now) + ttlSeconds) else None)]
                        else old(store))
      ensures clientCreated == (old(clientCreated) || Configured())
      ensures url == old(url) && token == old(token) && now == old(now) && fetchCalls == old(fetchCalls)
    {
      var client := GetRedis();
      if !client {
        return;
      }
      if !writeFails {
        if ttlSeconds > 0 {
          store := store[key := Entry(payload, Some(now + ttlSeconds))];
        } else {
          store := store[key := Entry(payload, None)];
        }
      }
    }

    /** The passage of `dt` seconds. */
    method Advance(dt: nat)
      modifies this
      ensures now == old(now) + dt
      ensures url == old(url) && token == old(token) && store == old(store)
      ensures clientCreated == old(clientCreated) && constructions == old(constructions) && fetchCalls == old(fetchCalls)
    {
      now := now + dt;
    }
  }

  /** Two withCache calls for the same key, `dt` seconds apart, with reads
      and writes that succeed. When the first misses and computes a non-empty
      payload and ttl exceeds dt, the second is served from the store without
      calling its fetchFn, so fetchFn ran once for both. */
  method RepeatWithinTtl(c: RedisCache, key: string, ttlSeconds: int, first: FetchOutcome, second: FetchOutcome, dt: nat)
    returns (r1: Outcome, r2: Outcome)
    requires c.Valid() && c.Configured()
    requires first.Resolves? && first.payload != "" && 0 <= dt < ttlSeconds
    modifies c
    ensures c.Valid()
    ensures !old(c.Hits(key, false)) ==> r1 == Returned(first.payload) && r2 == r1 && c.fetchCalls == old(c.fetchCalls) + 1
    ensures old(c.Hits(key, false)) ==> r1 == Returned(old(Live(c.store, c.now, key)).value)
  {
    r1 := c.WithCache(key, ttlSeconds, first, false, false);
    c.Advance(dt);
    r2 := c.WithCache(key, ttlSeconds, second, false, false);
  }
}
