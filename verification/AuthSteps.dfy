/** Authentication at the grain of its steps. Looking up, resolving and filling are
    three accesses, and an administrative call changes the key tables and empties
    the cache in two; none of them waits for another request's. */
module AuthSteps {
  import opened Model
  import opened StoreSpec
  import opened CoordinatorSpec
  import opened System
  import opened AuthCache

  /** `epoch` counts the administrative changes before the resolution. */
  datatype AuthPhase = Free | Missed(cred: Credential) | Resolved(cred: Credential, p: Principal, epoch: nat)

  /** `dirty` while an administrative call has changed the tables and not yet
      emptied the cache. */
  datatype AuthState = AuthState(d: Snapshot, cache: Cache, phases: map<int, AuthPhase>, dirty: bool, epoch: nat)

  datatype AuthStep =
    | Lookup(i: int, cred: Credential, now: Time)
    | Consult(i: int)
    | Fill(i: int, later: Time, victim: Str)
    | Change(e: Event)
    | Empty

  datatype Settings = Settings(c: Config, ttl: Time, max: int)

  function Opened(d: Snapshot): AuthState {
    AuthState(d, map[], map[], false, 0)
  }

  function PhaseIn(s: AuthState, i: int): AuthPhase {
    if i in s.phases then s.phases[i] else Free
  }

  predicate Changes(a: Settings, d: Snapshot, e: Event) {
    IsAdmin(e) && Step(a.c, d, e).1 == Administered(None)
  }

  /** Administrative calls hold the global lock until the cache is empty. */
  predicate CanTake(s: AuthState, step: AuthStep) {
    match step
    case Lookup(i, _, _) => PhaseIn(s, i).Free?
    case Consult(i) => PhaseIn(s, i).Missed?
    case Fill(i, _, _) => PhaseIn(s, i).Resolved?
    case Change(e) => IsAdmin(e) ==> !s.dirty
    case Empty => s.dirty
  }

  function Take(a: Settings, s: AuthState, step: AuthStep): AuthState {
    if !CanTake(s, step) then s
    else match step
      case Lookup(i, cred, now) =>
        s.(cache := Looked(s.cache, CacheKey(cred), now),
           phases := if Live(s.cache, CacheKey(cred), now) then s.phases else s.phases[i := Missed(cred)])
      case Consult(i) =>
        var cred := PhaseIn(s, i).cred;
        var p := Resolve(s.d, cred);
        s.(phases := s.phases[i := if p == None then Free else Resolved(cred, p.value, s.epoch)])
      case Fill(i, later, victim) =>
        var r := PhaseIn(s, i);
        s.(cache := Filled(s.cache, CacheKey(r.cred), CacheEntry(r.p, later + a.ttl), a.max, victim),
           phases := s.phases[i := Free])
      case Change(e) =>
        var changes := Changes(a, s.d, e);
        s.(d := Next(a.c, s.d, e), dirty := s.dirty || changes, epoch := s.epoch + if changes then 1 else 0)
      case Empty => s.(cache := map[], dirty := false)
  }

  /** What a step answers its request, if it ends it. */
  function AnswerOf(s: AuthState, step: AuthStep): Option<Option<Principal>>
    requires CanTake(s, step)
  {
    match step
    case Lookup(_, cred, now) =>
      if Live(s.cache, CacheKey(cred), now) then Some(Some(s.cache[CacheKey(cred)].principal)) else None
    case Consult(i) => if Resolve(s.d, PhaseIn(s, i).cred) == None then Some(None) else None
    case Fill(i, _, _) => Some(Some(PhaseIn(s, i).p))
    case _ => None
  }

  predicate CanRun(a: Settings, s: AuthState, steps: seq<AuthStep>) {
    steps == [] || (CanRun(a, s, steps[..|steps| - 1])
                    && CanTake(After(a, s, steps[..|steps| - 1]), steps[|steps| - 1]))
  }

  function After(a: Settings, s: AuthState, steps: seq<AuthStep>): AuthState {
    if steps == [] then s else Take(a, After(a, s, steps[..|steps| - 1]), steps[|steps| - 1])
  }

  // ---- the three steps in one go ----

  /** Taken without interruption, the steps are one authentication. */
  lemma StepsCompose(a: Settings, s: AuthState, i: int, cred: Credential, now: Time, later: Time, victim: Str)
    requires PhaseIn(s, i).Free?
    ensures var whole := Authenticated(s.d, s.cache, cred, now, later, a.ttl, a.max, victim);
            var s1 := Take(a, s, Lookup(i, cred, now));
            if Live(s.cache, CacheKey(cred), now) then
              s1.cache == whole.0 && AnswerOf(s, Lookup(i, cred, now)) == Some(whole.1)
            else
              && CanTake(s1, Consult(i))
              && var s2 := Take(a, s1, Consult(i));
                 if Resolve(s.d, cred) == None then s2.cache == whole.0 && AnswerOf(s1, Consult(i)) == Some(whole.1)
                 else
                   && CanTake(s2, Fill(i, later, victim))
                   && Take(a, s2, Fill(i, later, victim)).cache == whole.0
                   && AnswerOf(s2, Fill(i, later, victim)) == Some(whole.1)
  {
  }

  // ---- the tables within one epoch ----

  ghost predicate SameTables(d: Snapshot, e: Snapshot) {
    d.apiKeys == e.apiKeys && d.jwtSubjects == e.jwtSubjects
  }

  lemma {:induction false} EpochsGrow(a: Settings, s: AuthState, steps: seq<AuthStep>, m: nat)
    requires CanRun(a, s, steps) && m <= |steps|
    ensures CanRun(a, s, steps[..m])
    ensures After(a, s, steps[..m]).epoch <= After(a, s, steps).epoch
    ensures After(a, s, steps[..m]).epoch == After(a, s, steps).epoch ==>
              SameTables(After(a, s, steps[..m]).d, After(a, s, steps).d)
  {
    if m == |steps| {
      assert steps[..m] == steps;
    } else {
      var before := steps[..|steps| - 1];
      EpochsGrow(a, s, before, m);
      assert before[..m] == steps[..m];
      TakeKeepsTables(a, After(a, s, before), steps[|steps| - 1]);
    }
  }

  lemma TakeKeepsTables(a: Settings, s: AuthState, step: AuthStep)
    requires CanTake(s, step)
    ensures s.epoch <= Take(a, s, step).epoch
    ensures Take(a, s, step).epoch == s.epoch ==> SameTables(s.d, Take(a, s, step).d)
  {
    if step.Change? && !Changes(a, s.d, step.e) {
      KeyTablesChangeOnlyByAdmin(a.c, s.d, step.e);
    }
  }

  // ---- agreement ----

  /** Nothing resolved since the last administrative change is out of date. */
  ghost predicate FreshResolutions(s: AuthState) {
    forall i :: PhaseIn(s, i).Resolved? && PhaseIn(s, i).epoch == s.epoch ==>
      Resolve(s.d, PhaseIn(s, i).cred) == Some(PhaseIn(s, i).p)
  }

  ghost predicate KnownEpochs(s: AuthState) {
    forall i :: PhaseIn(s, i).Resolved? ==> PhaseIn(s, i).epoch <= s.epoch
  }

  lemma TakeKeepsResolutions(a: Settings, s: AuthState, step: AuthStep)
    requires FreshResolutions(s) && KnownEpochs(s) && CanTake(s, step)
    ensures FreshResolutions(Take(a, s, step)) && KnownEpochs(Take(a, s, step))
  {
    var s' := Take(a, s, step);
    TakeKeepsTables(a, s, step);
    assert forall i :: PhaseIn(s', i).Resolved? && !(step.Consult? && i == step.i) ==> PhaseIn(s', i) == PhaseIn(s, i);
  }

  /** No resolution outlives an administrative change to fill the emptied cache. */
  predicate Prompt(s: AuthState, step: AuthStep)
    requires CanTake(s, step)
  {
    step.Fill? ==> s.dirty || PhaseIn(s, step.i).epoch == s.epoch
  }

  ghost predicate AllPrompt(a: Settings, s: AuthState, steps: seq<AuthStep>)
    requires CanRun(a, s, steps)
  {
    steps != [] ==>
      && AllPrompt(a, s, steps[..|steps| - 1])
      && Prompt(After(a, s, steps[..|steps| - 1]), steps[|steps| - 1])
  }

  /** From a cache that agrees, filling in a resolution leaves one that agrees if and
      only if the resolution is what the tables still say. */
  lemma FillAgreesIff(a: Settings, s: AuthState, i: int, later: Time, victim: Str)
    requires Agrees(s.d, s.cache) && CanTake(s, Fill(i, later, victim))
    ensures Agrees(s.d, Take(a, s, Fill(i, later, victim)).cache) <==>
            Resolve(s.d, PhaseIn(s, i).cred) == Some(PhaseIn(s, i).p)
  {
    var r, after := PhaseIn(s, i), Take(a, s, Fill(i, later, victim)).cache;
    assert CacheKey(r.cred) in after && after[CacheKey(r.cred)].principal == r.p;
    forall other | CacheKey(other) in after && CacheKey(other) != CacheKey(r.cred)
      ensures Resolve(s.d, other) == Some(after[CacheKey(other)].principal)
    {
      assert CacheKey(other) in s.cache && after[CacheKey(other)] == s.cache[CacheKey(other)];
    }
    forall other | CacheKey(other) == CacheKey(r.cred) ensures other == r.cred {
      CacheKeyInjective(other, r.cred);
    }
  }

  lemma TakeKeepsAgreement(a: Settings, s: AuthState, step: AuthStep)
    requires FreshResolutions(s) && (!s.dirty ==> Agrees(s.d, s.cache)) && CanTake(s, step) && Prompt(s, step)
    ensures var s' := Take(a, s, step); !s'.dirty ==> Agrees(s'.d, s'.cache)
  {
    if !s.dirty {
      match step
      case Lookup(_, _, _) =>
      case Consult(_) =>
      case Fill(i, later, victim) => FillAgreesIff(a, s, i, later, victim);
      case Change(e) =>
        if !Changes(a, s.d, e) {
          KeyTablesChangeOnlyByAdmin(a.c, s.d, e);
          SameTablesAgree(s.d, Next(a.c, s.d, e), s.cache);
        }
      case Empty =>
    }
  }

  /** In every interleaving of authentications and calls in which no fill is older
      than an administrative change that has emptied the cache, every cached entry
      is what the tables say, whenever no such change is under way. */
  lemma {:induction false} PromptFillsAgree(a: Settings, d: Snapshot, steps: seq<AuthStep>)
    requires CanRun(a, Opened(d), steps) && AllPrompt(a, Opened(d), steps)
    ensures var s := After(a, Opened(d), steps);
            FreshResolutions(s) && KnownEpochs(s) && (!s.dirty ==> Agrees(s.d, s.cache))
  {
    if steps != [] {
      var before, last := steps[..|steps| - 1], steps[|steps| - 1];
      PromptFillsAgree(a, d, before);
      TakeKeepsResolutions(a, After(a, Opened(d), before), last);
      TakeKeepsAgreement(a, After(a, Opened(d), before), last);
    }
  }

  // ---- how far a cached answer can be out of date ----

  /** Step m consulted the tables and they resolved the credential to p. */
  ghost predicate ResolvedAt(a: Settings, s: AuthState, steps: seq<AuthStep>, m: nat, cred: Credential, p: Principal,
                             epoch: nat)
  {
    && m < |steps| && steps[m].Consult? && CanRun(a, s, steps[..m])
    && Resolve(After(a, s, steps[..m]).d, cred) == Some(p) && After(a, s, steps[..m]).epoch == epoch
  }

  lemma ResolvedEarlier(a: Settings, s: AuthState, steps: seq<AuthStep>, m: nat, cred: Credential, p: Principal,
                        epoch: nat)
    requires steps != [] && ResolvedAt(a, s, steps[..|steps| - 1], m, cred, p, epoch)
    ensures ResolvedAt(a, s, steps, m, cred, p, epoch)
  {
    assert steps[..|steps| - 1][..m] == steps[..m];
  }

  /** Every resolution a request carries was made by a step of the run. */
  lemma {:induction false} ResolutionsAreReal(a: Settings, d: Snapshot, steps: seq<AuthStep>, i: int) returns (m: nat)
    requires CanRun(a, Opened(d), steps) && PhaseIn(After(a, Opened(d), steps), i).Resolved?
    ensures var r := PhaseIn(After(a, Opened(d), steps), i);
            ResolvedAt(a, Opened(d), steps, m, r.cred, r.p, r.epoch)
  {
    var before, last := steps[..|steps| - 1], steps[|steps| - 1];
    var s, r := After(a, Opened(d), before), PhaseIn(After(a, Opened(d), steps), i);
    if last.Consult? && last.i == i {
      m := |before|;
      assert steps[..m] == before;
    } else {
      assert PhaseIn(s, i) == r;
      m := ResolutionsAreReal(a, d, before, i);
      ResolvedEarlier(a, Opened(d), steps, m, r.cred, r.p, r.epoch);
    }
  }

  /** Step n filled in the entry that is cached for the credential, and the cache has
      not been emptied since. */
  ghost predicate FilledAt(a: Settings, s: AuthState, steps: seq<AuthStep>, n: nat, k: Str, entry: CacheEntry)
  {
    && n < |steps| && steps[n].Fill? && CanRun(a, s, steps[..n])
    && (forall j :: n < j < |steps| ==> !steps[j].Empty?)
    && var r := PhaseIn(After(a, s, steps[..n]), steps[n].i);
       r.Resolved? && CacheKey(r.cred) == k && entry == CacheEntry(r.p, steps[n].later + a.ttl)
  }

  lemma EntryOrigin(a: Settings, s: AuthState, step: AuthStep, k: Str)
    requires CanTake(s, step) && k in Take(a, s, step).cache
    ensures var entry := Take(a, s, step).cache[k];
            || (step.Fill? && CacheKey(PhaseIn(s, step.i).cred) == k
                && entry == CacheEntry(PhaseIn(s, step.i).p, step.later + a.ttl))
            || (!step.Empty? && k in s.cache && s.cache[k] == entry)
  {
  }

  lemma FilledEarlier(a: Settings, s: AuthState, steps: seq<AuthStep>, n: nat, k: Str, entry: CacheEntry)
    requires steps != [] && !steps[|steps| - 1].Empty?
    requires FilledAt(a, s, steps[..|steps| - 1], n, k, entry)
    ensures FilledAt(a, s, steps, n, k, entry)
  {
    SamePrefix(steps, n);
  }

  lemma SamePrefix(steps: seq<AuthStep>, n: nat)
    requires n < |steps| - 1
    ensures var before := steps[..|steps| - 1];
            before[..n] == steps[..n] && forall j :: 0 <= j < |before| ==> before[j] == steps[j]
  {
  }

  lemma {:induction false} EntriesAreReal(a: Settings, d: Snapshot, steps: seq<AuthStep>, k: Str) returns (n: nat)
    requires CanRun(a, Opened(d), steps) && k in After(a, Opened(d), steps).cache
    ensures FilledAt(a, Opened(d), steps, n, k, After(a, Opened(d), steps).cache[k])
  {
    var before, last := steps[..|steps| - 1], steps[|steps| - 1];
    var s, entry := After(a, Opened(d), before), After(a, Opened(d), steps).cache[k];
    EntryOrigin(a, s, last, k);
    if !last.Empty? && k in s.cache && s.cache[k] == entry {
      n := EntriesAreReal(a, d, before, k);
      FilledEarlier(a, Opened(d), steps, n, k, entry);
    } else {
      n := |before|;
      assert steps[..n] == before;
    }
  }

  /** Whatever the interleaving, an answer from the cache is a resolution that the
      tables gave at an earlier step, was filled in no longer than the lifetime of an
      entry ago and not before the cache was last emptied, and is what the tables
      say now unless an administrative change came after that step. */
  lemma {:induction false} CachedAnswersAreRecent(a: Settings, d: Snapshot, steps: seq<AuthStep>, i: int,
                                                 cred: Credential, now: Time) returns (m: nat, n: nat)
    requires CanRun(a, Opened(d), steps) && CanTake(After(a, Opened(d), steps), Lookup(i, cred, now))
    requires Live(After(a, Opened(d), steps).cache, CacheKey(cred), now)
    ensures var s, p := After(a, Opened(d), steps), After(a, Opened(d), steps).cache[CacheKey(cred)].principal;
            && AnswerOf(s, Lookup(i, cred, now)) == Some(Some(p))
            && m < n < |steps| && steps[n].Fill? && now <= steps[n].later + a.ttl
            && (forall j :: n < j < |steps| ==> !steps[j].Empty?)
            && CanRun(a, Opened(d), steps[..m]) && steps[m].Consult?
            && Resolve(After(a, Opened(d), steps[..m]).d, cred) == Some(p)
            && (After(a, Opened(d), steps[..m]).epoch == s.epoch ==> Resolve(s.d, cred) == Some(p))
  {
    var s, k := After(a, Opened(d), steps), CacheKey(cred);
    n := EntriesAreReal(a, d, steps, k);
    var at := After(a, Opened(d), steps[..n]);
    var r := PhaseIn(at, steps[n].i);
    CacheKeyInjective(r.cred, cred);
    m := ResolutionsAreReal(a, d, steps[..n], steps[n].i);
    assert steps[..n][..m] == steps[..m];
    EpochsGrow(a, Opened(d), steps, m);
  }

  // ---- a revoked key that still authenticates ----

  /** A request resolves a key, the key is rotated and the cache emptied, and only
      then does the request fill the cache. */
  function StaleFill(u: Str, hash: Str, newHash: Str, owner: Str, now: Time, later: Time): seq<AuthStep> {
    [Lookup(1, ApiKeyHash(hash), now)] + [Consult(1)] + [Change(RotateApiKey(u, newHash, owner))] + [Empty]
    + [Fill(1, later, [])]
  }

  lemma AfterStep(a: Settings, s: AuthState, steps: seq<AuthStep>, step: AuthStep)
    requires CanRun(a, s, steps) && CanTake(After(a, s, steps), step)
    ensures CanRun(a, s, steps + [step]) && After(a, s, steps + [step]) == Take(a, After(a, s, steps), step)
  {
    assert (steps + [step])[..|steps + [step]| - 1] == steps;
  }

  lemma RotationRevokes(d: Snapshot, u: Str, hash: Str, newHash: Str, owner: Str)
    requires hash in d.apiKeys && d.apiKeys[hash].principal.userspaceID == u && newHash != hash
    ensures RotateKey(d, u, newHash, owner).Ok? && ResolveKey(RotateKey(d, u, newHash, owner).value, hash) == None
  {
  }

  /** The old key then still authenticates, for as long as an entry lives. */
  lemma RevokedKeyStillAnswers(a: Settings, d: Snapshot, u: Str, hash: Str, newHash: Str, owner: Str,
                               now: Time, later: Time, at: Time)
    requires ResolveKey(d, hash).Some? && d.apiKeys[hash].principal.userspaceID == u && newHash != hash
    requires at <= later + a.ttl
    ensures var steps := StaleFill(u, hash, newHash, owner, now, later); var cred := ApiKeyHash(hash);
            && CanRun(a, Opened(d), steps)
            && var s := After(a, Opened(d), steps);
               && !s.dirty && CanTake(s, Lookup(2, cred, at))
               && AnswerOf(s, Lookup(2, cred, at)) == Some(ResolveKey(d, hash)) && Resolve(s.d, cred) == None
  {
    var cred := ApiKeyHash(hash);
    Resolves(a, d, hash, now);
    var s2 := Take(a, Take(a, Opened(d), Lookup(1, cred, now)), Consult(1));
    RotatesAndEmpties(a, s2, u, hash, newHash, owner);
    var s4 := Take(a, Take(a, s2, Change(RotateApiKey(u, newHash, owner))), Empty);
    FillsAndAnswers(a, s4, cred, later, at);
    FiveSteps(a, Opened(d), Lookup(1, cred, now), Consult(1), Change(RotateApiKey(u, newHash, owner)), Empty,
              Fill(1, later, []));
  }

  lemma Resolves(a: Settings, d: Snapshot, hash: Str, now: Time)
    requires ResolveKey(d, hash).Some?
    ensures var s, cred := Opened(d), ApiKeyHash(hash);
            var s1 := Take(a, s, Lookup(1, cred, now));
            var s2 := Take(a, s1, Consult(1));
            && CanTake(s, Lookup(1, cred, now)) && CanTake(s1, Consult(1))
            && PhaseIn(s2, 1) == Resolved(cred, ResolveKey(d, hash).value, 0) && PhaseIn(s2, 2) == Free
            && s2.d == d && s2.cache == map[] && !s2.dirty
  {
  }

  lemma RotatesAndEmpties(a: Settings, s: AuthState, u: Str, hash: Str, newHash: Str, owner: Str)
    requires hash in s.d.apiKeys && s.d.apiKeys[hash].principal.userspaceID == u && newHash != hash && !s.dirty
    ensures var s1 := Take(a, s, Change(RotateApiKey(u, newHash, owner)));
            var s2 := Take(a, s1, Empty);
            && CanTake(s, Change(RotateApiKey(u, newHash, owner))) && CanTake(s1, Empty)
            && s2.phases == s.phases && s2.cache == map[] && !s2.dirty && ResolveKey(s2.d, hash) == None
  {
    RotationRevokes(s.d, u, hash, newHash, owner);
  }

  lemma FillsAndAnswers(a: Settings, s: AuthState, cred: Credential, later: Time, at: Time)
    requires PhaseIn(s, 1).Resolved? && PhaseIn(s, 1).cred == cred && PhaseIn(s, 2) == Free && s.cache == map[]
    requires at <= later + a.ttl
    ensures var s1 := Take(a, s, Fill(1, later, []));
            && CanTake(s, Fill(1, later, [])) && CanTake(s1, Lookup(2, cred, at))
            && s1.d == s.d && s1.dirty == s.dirty
            && AnswerOf(s1, Lookup(2, cred, at)) == Some(Some(PhaseIn(s, 1).p))
  {
  }

  lemma FiveSteps(a: Settings, s: AuthState, t1: AuthStep, t2: AuthStep, t3: AuthStep, t4: AuthStep, t5: AuthStep)
    requires CanTake(s, t1) && CanTake(Take(a, s, t1), t2) && CanTake(Take(a, Take(a, s, t1), t2), t3)
    requires var s3 := Take(a, Take(a, Take(a, s, t1), t2), t3);
             CanTake(s3, t4) && CanTake(Take(a, s3, t4), t5)
    ensures var s3 := Take(a, Take(a, Take(a, s, t1), t2), t3);
            var steps := [t1] + [t2] + [t3] + [t4] + [t5];
            CanRun(a, s, steps) && After(a, s, steps) == Take(a, Take(a, s3, t4), t5)
  {
    assert [] + [t1] == [t1];
    AfterStep(a, s, [], t1);
    AfterStep(a, s, [t1], t2);
    AfterStep(a, s, [t1] + [t2], t3);
    AfterStep(a, s, [t1] + [t2] + [t3], t4);
    AfterStep(a, s, [t1] + [t2] + [t3] + [t4], t5);
  }

  // ---- size ----

  /** Every fill of a full cache gives up an entry that is there. */
  ghost predicate AllEvict(a: Settings, s: AuthState, steps: seq<AuthStep>)
    requires CanRun(a, s, steps)
  {
    steps != [] ==>
      var before, last := After(a, s, steps[..|steps| - 1]), steps[|steps| - 1];
      && AllEvict(a, s, steps[..|steps| - 1])
      && (last.Fill? && a.max > 0 && |before.cache| >= a.max ==> last.victim in before.cache)
  }

  lemma {:induction false} StepsStayBounded(a: Settings, d: Snapshot, steps: seq<AuthStep>)
    requires CanRun(a, Opened(d), steps) && AllEvict(a, Opened(d), steps)
    ensures Bounded(After(a, Opened(d), steps).cache, a.max)
  {
    if steps != [] {
      var before, last := steps[..|steps| - 1], steps[|steps| - 1];
      StepsStayBounded(a, d, before);
      var s := After(a, Opened(d), before);
      match last
      case Lookup(_, cred, now) => LookedBounded(s.cache, CacheKey(cred), now, a.max);
      case Fill(i, later, victim) =>
        var r := PhaseIn(s, i);
        FilledBounded(s.cache, CacheKey(r.cred), CacheEntry(r.p, later + a.ttl), a.max, victim);
      case _ =>
    }
  }

  lemma LookedBounded(cache: Cache, k: Str, now: Time, max: int)
    requires Bounded(cache, max)
    ensures Bounded(Looked(cache, k, now), max)
  {
    var looked := Looked(cache, k, now);
    assert cache.Keys == looked.Keys + if k in cache && k !in looked then {k} else {};
  }
}
