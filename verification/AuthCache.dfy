/** The authentication cache: bounded, expiring, emptied by every administrative
    change, and in agreement with the key tables along every run. */
module AuthCache {
  import opened Model
  import opened StoreSpec
  import opened CoordinatorSpec
  import opened System
  import opened Storage
  import ExecutionLaws
  import ExactlyOnce

  datatype CacheEntry = CacheEntry(principal: Principal, expires: Time)

  type Cache = map<Str, CacheEntry>

  /** What a request presents, once its signature or its hash has been computed. */
  datatype Credential = ApiKeyHash(hash: Str) | JwtSubject(sub: Str)

  const API_PREFIX: Str := Ascii("apikey:")
  const JWT_PREFIX: Str := Ascii("jwt:")

  function CacheKey(cred: Credential): Str {
    match cred
    case ApiKeyHash(hash) => API_PREFIX + hash
    case JwtSubject(sub) => JWT_PREFIX + sub
  }

  lemma CacheKeyInjective(a: Credential, b: Credential)
    requires CacheKey(a) == CacheKey(b)
    ensures a == b
  {
    assert API_PREFIX[0] == 0x61 && JWT_PREFIX[0] == 0x6A;
    assert CacheKey(a)[0] == if a.ApiKeyHash? then 0x61 else 0x6A;
    assert CacheKey(b)[0] == if b.ApiKeyHash? then 0x61 else 0x6A;
    if a.ApiKeyHash? {
      assert CacheKey(a)[|API_PREFIX|..] == a.hash && CacheKey(b)[|API_PREFIX|..] == b.hash;
    } else {
      assert CacheKey(a)[|JWT_PREFIX|..] == a.sub && CacheKey(b)[|JWT_PREFIX|..] == b.sub;
    }
  }

  /** What the key tables say now. */
  function Resolve(d: Snapshot, cred: Credential): Option<Principal> {
    match cred
    case ApiKeyHash(hash) => ResolveKey(d, hash)
    case JwtSubject(sub) => ResolveSubject(d, sub)
  }

  predicate Live(cache: Cache, k: Str, now: Time) {
    k in cache && now <= cache[k].expires
  }

  /** A lookup that misses also removes the entry it found expired. */
  function Looked(cache: Cache, k: Str, now: Time): Cache {
    if Live(cache, k, now) then cache else cache - {k}
  }

  /** A full cache first loses one entry, whichever the map iteration yields. */
  function Filled(cache: Cache, k: Str, entry: CacheEntry, max: int, victim: Str): Cache {
    (if max > 0 && |cache| >= max then cache - {victim} else cache)[k := entry]
  }

  /** One authentication: the cache it leaves and its answer. */
  function Authenticated(d: Snapshot, cache: Cache, cred: Credential, now: Time, later: Time,
                         ttl: Time, max: int, victim: Str): (Cache, Option<Principal>) {
    var k := CacheKey(cred);
    if Live(cache, k, now) then (cache, Some(cache[k].principal))
    else
      var looked, p := Looked(cache, k, now), Resolve(d, cred);
      if p == None then (looked, None)
      else (Filled(looked, k, CacheEntry(p.value, later + ttl), max, victim), p)
  }

  /** The entry given up for a new one, if any, is one that is there. */
  predicate VictimOk(d: Snapshot, cache: Cache, cred: Credential, now: Time, max: int, victim: Str) {
    var looked := Looked(cache, CacheKey(cred), now);
    !Live(cache, CacheKey(cred), now) && Resolve(d, cred).Some? && max > 0 && |looked| >= max ==> victim in looked
  }

  class Authenticator {
    const store: Store
    const apiKeyHash: Bytes -> Str
    const ttl: Time
    const max: int
    var cache: Cache

    constructor (store: Store, apiKeyHash: Bytes -> Str, ttl: Time, max: int)
      ensures this.store == store && this.apiKeyHash == apiKeyHash && this.ttl == ttl && this.max == max
      ensures cache == map[]
    {
      this.store, this.apiKeyHash, this.ttl, this.max := store, apiKeyHash, ttl, max;
      cache := map[];
    }

    /** The cache and the answer are those of one authentication from `was`, which
        evicted `victim` if it had to evict. */
    ghost predicate AnswersWith(was: Cache, cred: Credential, now: Time, later: Time, p: Option<Principal>, victim: Str)
      reads this, store
    {
      && (cache, p) == Authenticated(store.data, was, cred, now, later, ttl, max, victim)
      && VictimOk(store.data, was, cred, now, max, victim)
    }

    ghost predicate Answers(was: Cache, cred: Credential, now: Time, later: Time, p: Option<Principal>)
      reads this, store
    {
      exists victim :: AnswersWith(was, cred, now, later, p, victim)
    }

    method Invalidate()
      modifies this
      ensures cache == map[]
    {
      cache := map[];
    }

    method AuthenticateAPIKey(key: Bytes, now: Time, later: Time) returns (p: Option<Principal>)
      modifies this
      ensures key == [] ==> p == None && cache == old(cache)
      ensures key != [] ==> Answers(old(cache), ApiKeyHash(apiKeyHash(key)), now, later, p)
    {
      if key == [] {
        return None;
      }
      var hash := apiKeyHash(key);
      var k := API_PREFIX + hash;
      ghost var was := cache;
      p := GetCache(k, now);
      if p.Some? {
        assert AnswersWith(was, ApiKeyHash(hash), now, later, p, k);
        return;
      }
      p := store.ResolveAPIKeyHash(hash);
      if p == None {
        assert AnswersWith(was, ApiKeyHash(hash), now, later, p, k);
        return;
      }
      ghost var victim := SetCache(k, p.value, later);
      assert AnswersWith(was, ApiKeyHash(hash), now, later, p, victim);
    }

    /** The branch for a bearer token whose verified subject is sub. */
    method AuthenticateSubject(sub: Str, now: Time, later: Time) returns (p: Option<Principal>)
      modifies this
      ensures Answers(old(cache), JwtSubject(sub), now, later, p)
    {
      var k := JWT_PREFIX + sub;
      ghost var was := cache;
      p := GetCache(k, now);
      if p.Some? {
        assert AnswersWith(was, JwtSubject(sub), now, later, p, k);
        return;
      }
      p := store.ResolveJWTSubject(sub);
      if p == None {
        assert AnswersWith(was, JwtSubject(sub), now, later, p, k);
        return;
      }
      ghost var victim := SetCache(k, p.value, later);
      assert AnswersWith(was, JwtSubject(sub), now, later, p, victim);
    }

    method GetCache(k: Str, now: Time) returns (p: Option<Principal>)
      modifies this
      ensures p == if Live(old(cache), k, now) then Some(old(cache)[k].principal) else None
      ensures cache == Looked(old(cache), k, now)
    {
      if k !in cache || now > cache[k].expires {
        cache := cache - {k};
        return None;
      }
      return Some(cache[k].principal);
    }

    method SetCache(k: Str, p: Principal, now: Time) returns (ghost victim: Str)
      modifies this
      ensures cache == Filled(old(cache), k, CacheEntry(p, now + ttl), max, victim)
      ensures max > 0 && |old(cache)| >= max ==> victim in old(cache)
    {
      victim := k;
      if max > 0 && |cache| >= max {
        assert cache.Keys != {};
        var evicted :| evicted in cache.Keys;
        cache := cache - {evicted};
        victim := evicted;
      }
      cache := cache[k := CacheEntry(p, now + ttl)];
    }
  }

  // ---- agreement along every run ----

  /** Every entry, live or not, says what the key tables say now. */
  ghost predicate Agrees(d: Snapshot, cache: Cache) {
    forall cred :: CacheKey(cred) in cache ==> Resolve(d, cred) == Some(cache[CacheKey(cred)].principal)
  }

  predicate Bounded(cache: Cache, max: int) {
    max > 0 ==> |cache| <= max
  }

  /** An authentication, or a call of the server; the administrative calls that
      succeed empty the cache before they answer. */
  datatype AuthEvent =
    | Authenticate(cred: Credential, now: Time, later: Time, victim: Str)
    | Serve(e: Event)

  predicate IsAdmin(e: Event) {
    e.CreateUserspace? || e.DeleteUserspace? || e.RotateApiKey?
  }

  function AuthNext(c: Config, ttl: Time, max: int, d: Snapshot, cache: Cache, a: AuthEvent): (Snapshot, Cache) {
    match a
    case Authenticate(cred, now, later, victim) => (d, Authenticated(d, cache, cred, now, later, ttl, max, victim).0)
    case Serve(e) =>
      var r := Step(c, d, e);
      (r.0, if IsAdmin(e) && r.1 == Administered(None) then map[] else cache)
  }

  function AuthRun(c: Config, ttl: Time, max: int, d: Snapshot, cache: Cache, es: seq<AuthEvent>): (Snapshot, Cache) {
    if es == [] then (d, cache)
    else
      var before := AuthRun(c, ttl, max, d, cache, es[..|es| - 1]);
      AuthNext(c, ttl, max, before.0, before.1, es[|es| - 1])
  }

  lemma ExecutionKeepsTables(lib: Library, clock: Clock, d: Snapshot, t: Transaction)
    ensures ExecuteIn(lib, clock, d, t).apiKeys == d.apiKeys && ExecuteIn(lib, clock, d, t).jwtSubjects == d.jwtSubjects
  {
    ExecutionLaws.ExecutionIsLocal(lib, clock, d, t.userspaceID, t.ops, t.totalOps);
  }

  lemma {:induction false} TxCallKeepsTables(c: Config, d: Snapshot, e: Event)
    requires IsTxCall(e)
    ensures Next(c, d, e).apiKeys == d.apiKeys && Next(c, d, e).jwtSubjects == d.jwtSubjects
  {
    match DecisionOf(c, d, e)
    case Answer(_) =>
    case Save(_, _) =>
    case Execute(t) => ExecutionKeepsTables(c.lib, ClockOf(e), d, t);
  }

  /** Only administrative calls that succeed change the key tables. */
  lemma KeyTablesChangeOnlyByAdmin(c: Config, d: Snapshot, e: Event)
    requires !(IsAdmin(e) && Step(c, d, e).1 == Administered(None))
    ensures Next(c, d, e).apiKeys == d.apiKeys && Next(c, d, e).jwtSubjects == d.jwtSubjects
  {
    if IsTxCall(e) {
      TxCallKeepsTables(c, d, e);
    } else if e.Import? {
      ExactlyOnce.ImportFrame(c.lib, e.clock, d, e.u, e.records, e.mode, |e.records|);
    }
  }

  lemma AuthenticateKeepsAgreement(d: Snapshot, cache: Cache, cred: Credential, now: Time, later: Time,
                                   ttl: Time, max: int, victim: Str)
    requires Agrees(d, cache)
    ensures Agrees(d, Authenticated(d, cache, cred, now, later, ttl, max, victim).0)
    ensures Authenticated(d, cache, cred, now, later, ttl, max, victim).1 == Resolve(d, cred)
  {
    var after := Authenticated(d, cache, cred, now, later, ttl, max, victim).0;
    forall other | CacheKey(other) in after ensures Resolve(d, other) == Some(after[CacheKey(other)].principal) {
      if CacheKey(other) == CacheKey(cred) {
        CacheKeyInjective(other, cred);
      }
    }
  }

  lemma AuthStepKeepsAgreement(c: Config, ttl: Time, max: int, d: Snapshot, cache: Cache, a: AuthEvent)
    requires Agrees(d, cache)
    ensures var r := AuthNext(c, ttl, max, d, cache, a); Agrees(r.0, r.1)
  {
    match a
    case Authenticate(cred, now, later, victim) =>
      AuthenticateKeepsAgreement(d, cache, cred, now, later, ttl, max, victim);
    case Serve(e) =>
      if !(IsAdmin(e) && Step(c, d, e).1 == Administered(None)) {
        KeyTablesChangeOnlyByAdmin(c, d, e);
        SameTablesAgree(d, Next(c, d, e), cache);
      }
  }

  lemma SameTablesAgree(d: Snapshot, e: Snapshot, cache: Cache)
    requires Agrees(d, cache) && d.apiKeys == e.apiKeys && d.jwtSubjects == e.jwtSubjects
    ensures Agrees(e, cache)
  {
    forall cred | CacheKey(cred) in cache ensures Resolve(e, cred) == Some(cache[CacheKey(cred)].principal) {
      assert Resolve(d, cred) == Resolve(e, cred);
    }
  }

  lemma {:induction false} RunKeepsAgreement(c: Config, ttl: Time, max: int, d: Snapshot, cache: Cache,
                                             es: seq<AuthEvent>)
    requires Agrees(d, cache)
    ensures var r := AuthRun(c, ttl, max, d, cache, es); Agrees(r.0, r.1)
  {
    if es != [] {
      var init := es[..|es| - 1];
      RunKeepsAgreement(c, ttl, max, d, cache, init);
      var before := AuthRun(c, ttl, max, d, cache, init);
      AuthStepKeepsAgreement(c, ttl, max, before.0, before.1, es[|es| - 1]);
    }
  }

  /** After any run from an empty cache, an authentication answers exactly what the
      key tables say at that moment: the cache is invisible. */
  lemma CacheIsInvisible(c: Config, ttl: Time, max: int, d: Snapshot, es: seq<AuthEvent>,
                         cred: Credential, now: Time, later: Time, victim: Str)
    ensures var (e, cache) := AuthRun(c, ttl, max, d, map[], es);
            Authenticated(e, cache, cred, now, later, ttl, max, victim).1 == Resolve(e, cred)
  {
    RunKeepsAgreement(c, ttl, max, d, map[], es);
    var (e, cache) := AuthRun(c, ttl, max, d, map[], es);
    AuthenticateKeepsAgreement(e, cache, cred, now, later, ttl, max, victim);
  }

  // ---- size along every run ----

  lemma FilledBounded(cache: Cache, k: Str, entry: CacheEntry, max: int, victim: Str)
    requires Bounded(cache, max) && (max > 0 && |cache| >= max ==> victim in cache)
    ensures Bounded(Filled(cache, k, entry, max, victim), max)
  {
    var kept := if max > 0 && |cache| >= max then cache - {victim} else cache;
    assert kept == cache || |kept.Keys| < |cache.Keys| by {
      if kept != cache {
        assert cache.Keys == kept.Keys + {victim};
      }
    }
    assert kept[k := entry].Keys == kept.Keys + {k};
  }

  /** Every eviction of the run names an entry that was there. */
  predicate Evicts(c: Config, ttl: Time, max: int, d: Snapshot, cache: Cache, es: seq<AuthEvent>) {
    es != [] ==>
      var init, last := es[..|es| - 1], es[|es| - 1];
      var before := AuthRun(c, ttl, max, d, cache, init);
      && Evicts(c, ttl, max, d, cache, init)
      && (last.Authenticate? ==> VictimOk(before.0, before.1, last.cred, last.now, max, last.victim))
  }

  lemma AuthenticateKeepsBound(d: Snapshot, cache: Cache, cred: Credential, now: Time, later: Time,
                               ttl: Time, max: int, victim: Str)
    requires Bounded(cache, max) && VictimOk(d, cache, cred, now, max, victim)
    ensures Bounded(Authenticated(d, cache, cred, now, later, ttl, max, victim).0, max)
  {
    var k := CacheKey(cred);
    var looked := Looked(cache, k, now);
    assert |looked| <= |cache| by {
      assert cache.Keys == looked.Keys + if k in cache && k !in looked then {k} else {};
    }
    if !Live(cache, k, now) && Resolve(d, cred).Some? {
      FilledBounded(looked, k, CacheEntry(Resolve(d, cred).value, later + ttl), max, victim);
    }
  }

  /** A cache with a positive limit never exceeds it. */
  lemma {:induction false} CacheStaysBounded(c: Config, ttl: Time, max: int, d: Snapshot, cache: Cache,
                                             es: seq<AuthEvent>)
    requires Bounded(cache, max) && Evicts(c, ttl, max, d, cache, es)
    ensures Bounded(AuthRun(c, ttl, max, d, cache, es).1, max)
  {
    if es != [] {
      var init, last := es[..|es| - 1], es[|es| - 1];
      CacheStaysBounded(c, ttl, max, d, cache, init);
      var before := AuthRun(c, ttl, max, d, cache, init);
      if last.Authenticate? {
        AuthenticateKeepsBound(before.0, before.1, last.cred, last.now, last.later, ttl, max, last.victim);
      }
    }
  }
}
