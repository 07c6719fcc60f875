/** The signing-key cache (handlerAPI/auth.py, class JwksCache): a time-to-live cache over a rotating
    origin that also refreshes when a key id is unknown. Keys are selected by `kid`, the key id of
    section 4.5 of RFC 7517. The lock makes each lookup atomic. */
module JwksCache {
  import opened Models

  datatype Jwk = Jwk(kid: Option<string>, material: string)

  /** What the origin answers to a request: an error, or its current key set. */
  datatype Response = Error | Keys(keys: seq<Jwk>)

  /** A lookup with what its environment does meanwhile: the clock when it starts, and what the
      origin would answer to a first and a second request, with the clock after each. */
  datatype Query = Query(kid: Option<string>, start: int, first: Response, t1: int, second: Response, t2: int) {
    predicate ClockOk() { start <= t1 <= t2 }
  }

  datatype Answer = Found(key: Jwk) | NoMatch | FetchFailed

  /** A successful fetch. */
  datatype Fetched = Fetched(at: int, keys: seq<Jwk>)

  /** `{k.key_id: k for k in keys}`: a later key replaces an earlier one of the same id. */
  function ById(keys: seq<Jwk>): map<Option<string>, Jwk> {
    if keys == [] then map[] else ById(keys[..|keys| - 1])[keys[|keys| - 1].kid := keys[|keys| - 1]]
  }

  /** Position `i` is the last one with this key id. */
  predicate LastWithKid(keys: seq<Jwk>, i: int, kid: Option<string>) {
    && 0 <= i < |keys| && keys[i].kid == kid
    && forall j :: i < j < |keys| ==> keys[j].kid != kid
  }

  predicate HasKid(keys: seq<Jwk>, kid: Option<string>) {
    exists i :: 0 <= i < |keys| && keys[i].kid == kid
  }

  lemma HasKidSnoc(init: seq<Jwk>, last: Jwk, kid: Option<string>)
    ensures HasKid(init + [last], kid) <==> HasKid(init, kid) || last.kid == kid
  {
    if HasKid(init, kid) {
      var i :| 0 <= i < |init| && init[i].kid == kid;
      assert (init + [last])[i].kid == kid;
    }
    assert (init + [last])[|init|] == last;
  }

  /** The map holds exactly the ids of the set, each with its last key. */
  lemma {:induction false} ByIdExact(keys: seq<Jwk>, kid: Option<string>)
    ensures kid in ById(keys) <==> HasKid(keys, kid)
    ensures kid in ById(keys) ==> exists i :: LastWithKid(keys, i, kid) && ById(keys)[kid] == keys[i]
  {
    if keys != [] {
      var n := |keys| - 1;
      var init, last := keys[..n], keys[n];
      assert keys == init + [last];
      ByIdExact(init, kid);
      HasKidSnoc(init, last, kid);
      if last.kid == kid {
        assert LastWithKid(keys, n, kid);
      } else if kid in ById(init) {
        var i :| LastWithKid(init, i, kid) && ById(init)[kid] == init[i];
        assert LastWithKid(keys, i, kid);
      }
    }
  }

  /** The cache, with the log of its successful fetches and a count of its requests. */
  datatype Cache = Cache(keys: map<Option<string>, Jwk>, fetchedAt: int, log: seq<Fetched>, requests: nat)

  const EMPTY := Cache(map[], 0, [], 0)

  predicate Stale(c: Cache, ttl: int, now: int) {
    now - c.fetchedAt > ttl
  }

  function Refresh(c: Cache, r: Response, now: int): Cache {
    if r.Error? then c.(requests := c.requests + 1)
    else Cache(ById(r.keys), now, c.log + [Fetched(now, r.keys)], c.requests + 1)
  }

  function Lookup(c: Cache, ttl: int, q: Query): (Cache, Answer) {
    if q.kid in c.keys && !Stale(c, ttl, q.start) then (c, Found(c.keys[q.kid]))
    else
      var c1 := Refresh(c, q.first, q.t1);
      if q.first.Error? then (c1, FetchFailed)
      else if q.kid in c1.keys then (c1, Found(c1.keys[q.kid]))
      else
        var c2 := Refresh(c1, q.second, q.t2);
        if q.second.Error? then (c2, FetchFailed)
        else if q.kid in c2.keys then (c2, Found(c2.keys[q.kid]))
        else (c2, NoMatch)
  }

  /** What one lookup answers and leaves, told without the cache's own operations. A cached id is
      answered from the cache while the last fetch is no more than `ttl` old, and nothing else happens.
      Otherwise the origin is asked once, and a second time exactly when it answers with a set that
      lacks the id. An answered request is logged and replaces the cached set; the lookup fails exactly
      when a request it had to make was answered by an error, and finds the key exactly when the last
      set it had to fetch has the id. */
  ghost predicate Answered(c: Cache, ttl: int, q: Query, d: Cache, a: Answer) {
    if q.kid in c.keys && q.start - c.fetchedAt <= ttl then d == c && a == Found(c.keys[q.kid])
    else if q.first == Error then d == c.(requests := c.requests + 1) && a == FetchFailed
    else if HasKid(q.first.keys, q.kid) then
      && d.requests == c.requests + 1 && Holds(d, q.t1, q.first.keys)
      && d.log == c.log + [Fetched(q.t1, q.first.keys)]
      && FoundIn(q.first.keys, q.kid, a)
    else if q.second == Error then
      && d.requests == c.requests + 2 && Holds(d, q.t1, q.first.keys)
      && d.log == c.log + [Fetched(q.t1, q.first.keys)]
      && a == FetchFailed
    else
      && d.requests == c.requests + 2 && Holds(d, q.t2, q.second.keys)
      && d.log == c.log + [Fetched(q.t1, q.first.keys), Fetched(q.t2, q.second.keys)]
      && if HasKid(q.second.keys, q.kid) then FoundIn(q.second.keys, q.kid, a) else a == NoMatch
  }

  /** The answer is the last key of this id in the set. */
  ghost predicate FoundIn(keys: seq<Jwk>, kid: Option<string>, a: Answer) {
    a.Found? && exists i :: LastWithKid(keys, i, kid) && keys[i] == a.key
  }

  /** The cache holds exactly this set, fetched at this time: each id with its last key. */
  ghost predicate Holds(c: Cache, at: int, keys: seq<Jwk>) {
    && c.fetchedAt == at
    && (forall kid :: kid in c.keys <==> HasKid(keys, kid))
    && (forall kid :: kid in c.keys ==> exists i :: LastWithKid(keys, i, kid) && c.keys[kid] == keys[i])
  }

  lemma HoldsFetched(c: Cache, at: int, keys: seq<Jwk>)
    requires c.keys == ById(keys) && c.fetchedAt == at
    ensures Holds(c, at, keys)
  {
    forall kid
      ensures kid in c.keys <==> HasKid(keys, kid)
      ensures kid in c.keys ==> exists i :: LastWithKid(keys, i, kid) && c.keys[kid] == keys[i]
    {
      ByIdExact(keys, kid);
    }
  }

  /** Every cache, every time-to-live, every behaviour of the origin and the clock. */
  lemma LookupExact(c: Cache, ttl: int, q: Query)
    ensures var (d, a) := Lookup(c, ttl, q); Answered(c, ttl, q, d, a)
  {
    if q.first.Keys? {
      ByIdExact(q.first.keys, q.kid);
      HoldsFetched(Refresh(c, q.first, q.t1), q.t1, q.first.keys);
      if q.second.Keys? {
        ByIdExact(q.second.keys, q.kid);
        HoldsFetched(Refresh(Refresh(c, q.first, q.t1), q.second, q.t2), q.t2, q.second.keys);
        assert (c.log + [Fetched(q.t1, q.first.keys)]) + [Fetched(q.t2, q.second.keys)]
            == c.log + [Fetched(q.t1, q.first.keys), Fetched(q.t2, q.second.keys)];
      }
    }
  }

  /** The cached keys are those of the latest fetch. */
  predicate CacheOk(c: Cache) {
    if c.log == [] then c.keys == map[]
    else c.keys == ById(c.log[|c.log| - 1].keys) && c.fetchedAt == c.log[|c.log| - 1].at
  }

  class JwksCache {
    const ttl: int
    var keys: map<Option<string>, Jwk>
    var fetchedAt: int
    ghost var log: seq<Fetched>
    ghost var requests: nat

    ghost function State(): Cache
      reads this
    {
      Cache(keys, fetchedAt, log, requests)
    }

    constructor (ttl: int)
      ensures State() == EMPTY && this.ttl == ttl
    {
      this.ttl := ttl;
      keys, fetchedAt, log, requests := map[], 0, [], 0;
    }

    /** `_refresh`: on an error nothing is replaced and the error propagates. */
    method RefreshKeys(r: Response, now: int) returns (ok: bool)
      modifies this
      ensures ok == r.Keys? && State() == Refresh(old(State()), r, now)
      ensures requests == old(requests) + 1
      ensures r == Error ==> keys == old(keys) && fetchedAt == old(fetchedAt) && log == old(log)
      ensures r != Error ==> Holds(State(), now, r.keys) && log == old(log) + [Fetched(now, r.keys)]
    {
      requests := requests + 1;
      if r.Error? {
        return false;
      }
      keys := map[];
      for i := 0 to |r.keys|
        invariant keys == ById(r.keys[..i])
        invariant fetchedAt == old(fetchedAt) && log == old(log) && requests == old(requests) + 1
      {
        assert r.keys[..i + 1][..i] == r.keys[..i];
        keys := keys[r.keys[i].kid := r.keys[i]];
      }
      assert r.keys[..|r.keys|] == r.keys;
      fetchedAt := now;
      log := log + [Fetched(now, r.keys)];
      HoldsFetched(State(), now, r.keys);
      ok := true;
    }

    method GetKey(q: Query) returns (a: Answer)
      modifies this
      ensures (State(), a) == Lookup(old(State()), ttl, q)
      ensures Answered(old(State()), ttl, q, State(), a)
    {
      LookupExact(State(), ttl, q);
      var stale := q.start - fetchedAt > ttl;
      if q.kid !in keys || stale {
        var ok := RefreshKeys(q.first, q.t1);
        if !ok {
          return FetchFailed;
        }
      }
      if q.kid !in keys {
        var ok := RefreshKeys(q.second, q.t2);
        if !ok {
          return FetchFailed;
        }
      }
      a := if q.kid in keys then Found(keys[q.kid]) else NoMatch;
    }
  }

  // ----- one lookup --------------------------------------------------------------------------------

  /** The key is the one the latest fetch gave for this id, and that fetch was made during this
      lookup or no more than `ttl` before it. */
  ghost predicate FreshKey(c: Cache, ttl: int, q: Query, key: Jwk) {
    && c.log != []
    && var f := c.log[|c.log| - 1];
    && (exists i :: LastWithKid(f.keys, i, q.kid) && f.keys[i] == key)
    && (q.start <= f.at || q.start - f.at <= ttl)
  }

  /** The last two fetches, both made during this lookup, lacked the key id. */
  ghost predicate RejectedTwice(c: Cache, d: Cache, q: Query) {
    && q.first.Keys? && q.second.Keys?
    && d.log == c.log + [Fetched(q.t1, q.first.keys), Fetched(q.t2, q.second.keys)]
    && !HasKid(q.first.keys, q.kid) && !HasKid(q.second.keys, q.kid)
  }

  /** A request that the lookup had to make was answered by an error: the first one, or the second
      after a set without the id. */
  ghost predicate FailsOn(c: Cache, ttl: int, q: Query) {
    && !(q.kid in c.keys && q.start - c.fetchedAt <= ttl)
    && (q.first.Error? || (!HasKid(q.first.keys, q.kid) && q.second.Error?))
  }

  /** The id is cached and the fetch recent enough, or the first answer has it, or the first answer is
      a set without it and the second has it. */
  ghost predicate FindsOn(c: Cache, ttl: int, q: Query) {
    || (q.kid in c.keys && q.start - c.fetchedAt <= ttl)
    || (q.first.Keys? && HasKid(q.first.keys, q.kid))
    || (q.first.Keys? && !HasKid(q.first.keys, q.kid) && q.second.Keys? && HasKid(q.second.keys, q.kid))
  }

  lemma LookupKeeps(c: Cache, ttl: int, q: Query)
    requires CacheOk(c)
    ensures CacheOk(Lookup(c, ttl, q).0)
    ensures c.requests <= Lookup(c, ttl, q).0.requests <= c.requests + 2
    ensures Lookup(c, ttl, q).0.requests == c.requests <==> q.kid in c.keys && q.start - c.fetchedAt <= ttl
  {
  }

  lemma LookupAnswers(c: Cache, ttl: int, q: Query)
    requires CacheOk(c) && q.ClockOk()
    ensures var (d, a) := Lookup(c, ttl, q);
      && (a.Found? ==> FreshKey(d, ttl, q, a.key))
      && (a.NoMatch? ==> RejectedTwice(c, d, q))
      && (a.FetchFailed? <==> FailsOn(c, ttl, q))
      && (a.Found? <==> FindsOn(c, ttl, q))
  {
    var (d, a) := Lookup(c, ttl, q);
    if q.first.Keys? {
      ByIdExact(q.first.keys, q.kid);
    }
    if q.second.Keys? {
      ByIdExact(q.second.keys, q.kid);
    }
    if d.log != [] {
      ByIdExact(d.log[|d.log| - 1].keys, q.kid);
    }
    assert a.NoMatch? ==> (c.log + [Fetched(q.t1, q.first.keys)]) + [Fetched(q.t2, q.second.keys)]
                          == c.log + [Fetched(q.t1, q.first.keys), Fetched(q.t2, q.second.keys)];
  }

  // ----- every sequence of lookups -----------------------------------------------------------------

  /** The cache after the first `n` lookups, from a new cache. */
  function After(ttl: int, qs: seq<Query>, n: nat): Cache
    requires n <= |qs|
  {
    if n == 0 then EMPTY else Lookup(After(ttl, qs, n - 1), ttl, qs[n - 1]).0
  }

  lemma {:induction false} CacheAlwaysOk(ttl: int, qs: seq<Query>, n: nat)
    requires n <= |qs|
    ensures CacheOk(After(ttl, qs, n))
    decreases n
  {
    if n > 0 {
      CacheAlwaysOk(ttl, qs, n - 1);
      LookupKeeps(After(ttl, qs, n - 1), ttl, qs[n - 1]);
    }
  }

  /** Freshness: in every sequence of lookups against an arbitrarily rotating origin, a returned key
      was in the origin's set at a fetch no older than `ttl`; a hit that is not stale makes no
      request, every lookup makes at most two, and a rejection follows two successive fetches that
      both lacked the key id. */
  lemma CacheFreshness(ttl: int, qs: seq<Query>, n: nat)
    requires n < |qs| && qs[n].ClockOk()
    ensures var (c, q) := (After(ttl, qs, n), qs[n]);
      var (d, a) := Lookup(c, ttl, q);
      && d == After(ttl, qs, n + 1)
      && Answered(c, ttl, q, d, a)
      && (a.Found? ==> FreshKey(d, ttl, q, a.key))
      && (a.NoMatch? ==> RejectedTwice(c, d, q))
      && c.requests <= d.requests <= c.requests + 2
      && (d.requests == c.requests <==> q.kid in c.keys && q.start - c.fetchedAt <= ttl)
  {
    CacheAlwaysOk(ttl, qs, n);
    LookupExact(After(ttl, qs, n), ttl, qs[n]);
    LookupKeeps(After(ttl, qs, n), ttl, qs[n]);
    LookupAnswers(After(ttl, qs, n), ttl, qs[n]);
  }
}
