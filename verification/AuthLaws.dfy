/** Whom a credential stands for, read off the key tables, and how long a cached
    answer lives. */
module AuthLaws {
  import opened Model
  import opened StoreSpec
  import opened CoordinatorSpec
  import opened AuthCache

  /** The table holds an active record for the credential. */
  predicate Active(d: Snapshot, cred: Credential) {
    match cred
    case ApiKeyHash(hash) => hash in d.apiKeys && d.apiKeys[hash].active
    case JwtSubject(sub) => sub in d.jwtSubjects && d.jwtSubjects[sub].active
  }

  /** The principal recorded for the credential. */
  function Recorded(d: Snapshot, cred: Credential): Principal
    requires Active(d, cred)
  {
    match cred
    case ApiKeyHash(hash) => d.apiKeys[hash].principal
    case JwtSubject(sub) => d.jwtSubjects[sub].principal
  }

  /** The answer is the recorded user, userspace and roles, by the method of the
      credential, if the table holds an active record, and a refusal otherwise. */
  predicate RightPrincipal(d: Snapshot, cred: Credential, p: Option<Principal>) {
    && (p.Some? <==> Active(d, cred))
    && (p.Some? && Active(d, cred) ==>
          && p.value.userID == Recorded(d, cred).userID && p.value.userspaceID == Recorded(d, cred).userspaceID
          && p.value.roles == Recorded(d, cred).roles
          && p.value.authMethod == if cred.ApiKeyHash? then ViaApiKey else ViaJwt)
  }

  lemma ResolvesRightly(d: Snapshot, cred: Credential)
    ensures RightPrincipal(d, cred, Resolve(d, cred))
  {
  }

  /** After any run from an empty cache, an uninterrupted authentication answers whom
      the tables record at that moment. */
  lemma {:induction false} AnswersRecorded(c: Config, ttl: Time, max: int, d: Snapshot, es: seq<AuthEvent>,
                                          cred: Credential, now: Time, later: Time, victim: Str)
    ensures var (e, cache) := AuthRun(c, ttl, max, d, map[], es);
            RightPrincipal(e, cred, Authenticated(e, cache, cred, now, later, ttl, max, victim).1)
  {
    CacheIsInvisible(c, ttl, max, d, es, cred, now, later, victim);
    var (e, cache) := AuthRun(c, ttl, max, d, map[], es);
    ResolvesRightly(e, cred);
  }

  /** After a start on tables that know neither, the administrator is authenticated by
      subject and, unless the hash is empty, by key, in the userspace given. */
  lemma StartAuthenticates(d: Snapshot, user: Str, u: Str, hash: Str, now: Time, later: Time, ttl: Time, max: int,
                           victim: Str)
    ensures var e := Bootstrap(d, user, u, hash);
            && (user !in d.jwtSubjects ==>
                  Authenticated(e, map[], JwtSubject(user), now, later, ttl, max, victim).1 ==
                  Some(Principal(user, u, [Ascii("admin")], ViaJwt)))
            && (hash != [] && hash !in d.apiKeys ==>
                  Authenticated(e, map[], ApiKeyHash(hash), now, later, ttl, max, victim).1 ==
                  Some(Principal(user, u, [Ascii("admin")], ViaApiKey)))
  {
  }

  /** An answer that was not cached is cached from `later` for the lifetime of an
      entry, to the instant: until then it is given again, whatever the tables say
      meanwhile, and afterwards the tables decide anew. */
  lemma LivesForTtl(d: Snapshot, cache: Cache, cred: Credential, now: Time, later: Time, ttl: Time, max: int,
                    victim: Str, e: Snapshot, at: Time, after: Time, other: Str)
    requires !Live(cache, CacheKey(cred), now) && Active(d, cred)
    ensures var first := Authenticated(d, cache, cred, now, later, ttl, max, victim);
            var second := Authenticated(e, first.0, cred, at, after, ttl, max, other);
            if at <= later + ttl then second == first else RightPrincipal(e, cred, second.1)
  {
    ResolvesRightly(d, cred);
    ResolvesRightly(e, cred);
  }

  /** Authenticating changes no other entry, but for the one given up when the cache
      is full; nothing is cached for a refused credential. */
  lemma OtherEntriesKept(d: Snapshot, cache: Cache, cred: Credential, now: Time, later: Time, ttl: Time, max: int,
                         victim: Str, k: Str)
    requires k != CacheKey(cred)
    ensures var r := Authenticated(d, cache, cred, now, later, ttl, max, victim);
            && (k in r.0 ==> k in cache && r.0[k] == cache[k])
            && (k in cache && k !in r.0 ==>
                  k == victim && max > 0 && |Looked(cache, CacheKey(cred), now)| >= max && r.1.Some?)
            && (r.1 == None ==> CacheKey(cred) !in r.0)
  {
  }
}
