/** The store, its atomic transactions and the global lock, as mutable objects. */
module Storage {
  import opened Model
  import opened Ordering
  import opened StoreSpec

  /** The global lock. A caller that finds it held does not proceed. */
  class Serializable {
    var held: bool

    constructor ()
      ensures !held
    {
      held := false;
    }

    method Lock()
      requires !held
      modifies this
      ensures held
    {
      held := true;
    }

    method Unlock()
      requires held
      modifies this
      ensures !held
    {
      held := false;
    }
  }

  /** `records` are the records of the space, each once, in the order of `keys`. */
  ghost predicate Lists(keys: seq<Str>, records: seq<KVRecord>, space: Space) {
    && SortedListing(keys, space.Keys)
    && |records| == |keys|
    && forall i :: 0 <= i < |keys| ==> records[i] == space[keys[i]]
  }

  ghost predicate ListsSpace(records: seq<KVRecord>, space: Space) {
    exists keys :: Lists(keys, records, space)
  }

  /** A space has one listing. */
  lemma OneListing(a: seq<KVRecord>, b: seq<KVRecord>, space: Space)
    requires ListsSpace(a, space) && ListsSpace(b, space)
    ensures a == b
  {
    var keys :| Lists(keys, a, space);
    var others :| Lists(others, b, space);
    SortedListingUnique(keys, others, space.Keys);
  }

  /** The table built by ListUserspaces before any key is looked at. */
  method ListSpaces(d: Snapshot) returns (infos: map<Str, UserspaceInfo>)
    ensures Counted(d, infos, {}) && OwnersShown(d, infos, {})
  {
    infos := map[];
    var names := d.userspaces.Keys;
    while names != {}
      invariant names <= d.userspaces.Keys
      invariant infos.Keys == d.userspaces.Keys - names
      invariant forall u :: u in infos ==> infos[u] == UserspaceInfo(u, u, |SpaceOf(d, u)|, 0)
      decreases names
    {
      var u :| u in names;
      infos := infos[u := UserspaceInfo(u, u, |d.userspaces[u]|, 0)];
      names := names - {u};
    }
    NoneCounted(d, infos);
  }

  /** Count one more key, listing its userspace if it was not listed yet. */
  method CountKey(d: Snapshot, infos: map<Str, UserspaceInfo>, h: Str, ghost done: set<Str>)
      returns (next: map<Str, UserspaceInfo>)
    requires h in d.apiKeys && h !in done
    requires Counted(d, infos, done) && OwnersShown(d, infos, done)
    ensures Counted(d, next, done + {h}) && OwnersShown(d, next, done + {h})
  {
    var rec := d.apiKeys[h];
    if !rec.active {
      InactiveCounted(d, infos, h, done);
      OwnersKept(d, infos, h, done);
      return infos;
    }
    var u := rec.principal.userspaceID;
    var info := if u in infos then infos[u] else UserspaceInfo([], [], 0, 0);
    if info.userspaceID == [] {
      info := info.(userspaceID := u, keyCount := |SpaceOf(d, u)|);
    }
    if info.userID == [] || info.userID == info.userspaceID {
      info := info.(userID := rec.principal.userID);
    }
    info := info.(apiKeyCount := info.apiKeyCount + 1);
    ActiveCounted(d, infos, h, done, info);
    OwnersNext(d, infos, h, done, info);
    return infos[u := info];
  }

  /** The table of userspaces as a sorted list. */
  method InOrder(d: Snapshot, infos: map<Str, UserspaceInfo>) returns (out: seq<UserspaceInfo>)
    requires Counted(d, infos, d.apiKeys.Keys) && OwnersShown(d, infos, d.apiKeys.Keys)
    ensures IsListing(d, out) && ShowsOwners(d, out)
  {
    var order := SortStrings(infos.Keys);
    out := seq(|order|, i requires 0 <= i < |order| => infos[order[i]]);
    CountedIsListing(d, infos, order, out);
  }

  class Store {
    var data: Snapshot

    constructor ()
      ensures data == EMPTY_SNAPSHOT
    {
      data := EMPTY_SNAPSHOT;
    }

    method Bootstrap(user: Str, u: Str, hash: Str)
      modifies this
      ensures data == StoreSpec.Bootstrap(old(data), user, u, hash)
    {
      ghost var was := data;
      if u !in data.userspaces {
        data := data.(userspaces := data.userspaces[u := map[]]);
      }
      assert data.userspaces == was.userspaces[u := SpaceOf(was, u)];
      if hash != [] {
        if hash !in data.apiKeys {
          var p := Principal(user, u, [ROLE_ADMIN], ViaApiKey);
          data := data.(apiKeys := data.apiKeys[hash := APIKeyRecord(hash, p, true)]);
        }
      }
      if user !in data.jwtSubjects {
        var p := Principal(user, u, [ROLE_ADMIN], ViaJwt);
        data := data.(jwtSubjects := data.jwtSubjects[user := JWTSubjectRecord(user, p, true)]);
      }
    }

    method UserspaceExistsLocked(u: Str) returns (found: bool)
      ensures found == UserspaceExists(data, u)
    {
      if u in data.userspaces {
        return true;
      }
      var hashes := data.apiKeys.Keys;
      while hashes != {}
        invariant hashes <= data.apiKeys.Keys
        invariant forall h :: h in data.apiKeys && h !in hashes ==> data.apiKeys[h].principal.userspaceID != u
        decreases hashes
      {
        var h :| h in hashes;
        if data.apiKeys[h].principal.userspaceID == u {
          return true;
        }
        hashes := hashes - {h};
      }
      var subjects := data.jwtSubjects.Keys;
      while subjects != {}
        invariant subjects <= data.jwtSubjects.Keys
        invariant forall s :: s in data.jwtSubjects && s !in subjects ==> data.jwtSubjects[s].principal.userspaceID != u
        decreases subjects
      {
        var s :| s in subjects;
        if data.jwtSubjects[s].principal.userspaceID == u {
          return true;
        }
        subjects := subjects - {s};
      }
      return false;
    }

    method CreateUserspace(u: Str, userID: Str, hash: Str) returns (error: Option<StoreError>)
      modifies this
      ensures match CreateSpace(old(data), u, userID, hash)
              case Ok(d) => error == None && data == d
              case Err(e) => error == Some(e) && data == old(data)
    {
      if !ValidUserspaceID(u) {
        return Some(InvalidUserspaceID);
      }
      var user := if userID == [] then u else userID;
      var found := UserspaceExistsLocked(u);
      if found {
        return Some(AlreadyExists);
      }
      data := data.(userspaces := data.userspaces[u := map[]]);
      if hash != [] {
        data := data.(apiKeys := data.apiKeys[hash := UserKey(user, u, hash)]);
      }
      return None;
    }

    method DeleteUserspace(u: Str) returns (error: Option<StoreError>)
      modifies this
      ensures match DeleteSpace(old(data), u)
              case Ok(d) => error == None && data == d
              case Err(e) => error == Some(e) && data == old(data)
    {
      var found := UserspaceExistsLocked(u);
      if !found {
        return Some(NotFound);
      }
      data := data.(userspaces := data.userspaces - {u});
      var _ := RemoveKeysOf(u);
      RemoveSubjectsOf(u);
      RemoveTxsOf(u);
      return None;
    }

    /** The sweeps of a deletion over the subjects and over the transactions. */
    method RemoveSubjectsOf(u: Str)
      modifies this
      ensures data == old(data).(jwtSubjects := OtherSubjects(old(data), u))
    {
      ghost var was := data;
      var subjects := data.jwtSubjects.Keys;
      while subjects != {}
        invariant subjects <= was.jwtSubjects.Keys
        invariant data == was.(jwtSubjects := map s | s in was.jwtSubjects &&
                     (s in subjects || was.jwtSubjects[s].principal.userspaceID != u) :: was.jwtSubjects[s])
        decreases subjects
      {
        var s :| s in subjects;
        if data.jwtSubjects[s].principal.userspaceID == u {
          data := data.(jwtSubjects := data.jwtSubjects - {s});
        }
        subjects := subjects - {s};
      }
    }

    method RemoveTxsOf(u: Str)
      modifies this
      ensures data == old(data).(txs := OtherTxs(old(data), u))
    {
      ghost var was := data;
      var ids := data.txs.Keys;
      while ids != {}
        invariant ids <= was.txs.Keys
        invariant data == was.(txs := map id | id in was.txs &&
                     (id in ids || was.txs[id].userspaceID != u) :: was.txs[id])
        decreases ids
      {
        var id :| id in ids;
        if data.txs[id].userspaceID == u {
          data := data.(txs := data.txs - {id});
        }
        ids := ids - {id};
      }
    }

    /** The sweep over the key table that deletion and rotation share. */
    method RemoveKeysOf(u: Str) returns (owner: Str)
      modifies this
      ensures data == old(data).(apiKeys := OtherKeys(old(data), u))
      ensures OwnerCandidate(old(data), u, owner)
    {
      owner := u;
      ghost var was := data;
      ghost var seen: set<Str> := {};
      var hashes := data.apiKeys.Keys;
      while hashes != {}
        invariant hashes !! seen && forall h :: h in was.apiKeys.Keys <==> h in hashes || h in seen
        invariant data == was.(apiKeys := map h | h in was.apiKeys &&
                     (h in hashes || was.apiKeys[h].principal.userspaceID != u) :: was.apiKeys[h])
        invariant OwnerAmong(was, u, owner, seen)
        decreases hashes
      {
        var h :| h in hashes;
        var rec := data.apiKeys[h];
        OwnerNext(was, u, owner, seen, h);
        if rec.principal.userspaceID == u {
          if rec.principal.userID != [] {
            owner := rec.principal.userID;
          }
          data := data.(apiKeys := data.apiKeys - {h});
        }
        hashes := hashes - {h};
        seen := seen + {h};
      }
      OwnerByKeys(was, was, u, owner, seen);
    }

    method ReplaceUserspaceAPIKeyHash(u: Str, hash: Str) returns (r: Result<Principal, StoreError>)
      modifies this
      ensures r.Ok? ==> r.value.userspaceID == u && OwnerCandidate(old(data), u, r.value.userID)
                        && RotateKey(old(data), u, hash, r.value.userID) == Ok(data)
                        && ResolveKey(data, hash) == Some(r.value)
      ensures r.Err? ==> RotateKey(old(data), u, hash, u) == Err(r.error) && data == old(data)
    {
      var found := UserspaceExistsLocked(u);
      if !found {
        return Err(NotFound);
      }
      if u !in data.userspaces {
        data := data.(userspaces := data.userspaces[u := map[]]);
      }
      assert data.userspaces == old(data).userspaces[u := SpaceOf(old(data), u)];
      ghost var spaced := data;
      var user := RemoveKeysOf(u);
      OwnerByKeys(spaced, old(data), u, user, spaced.apiKeys.Keys);
      var rec := UserKey(user, u, hash);
      data := data.(apiKeys := data.apiKeys[hash := rec]);
      return Ok(rec.principal);
    }

    method ListUserspaces() returns (out: seq<UserspaceInfo>)
      ensures IsListing(data, out) && ShowsOwners(data, out)
    {
      var infos := ListSpaces(data);
      var hashes := data.apiKeys.Keys;
      ghost var done: set<Str> := {};
      while hashes != {}
        invariant hashes !! done && forall h :: h in data.apiKeys.Keys <==> h in hashes || h in done
        invariant Counted(data, infos, done) && OwnersShown(data, infos, done)
        decreases hashes
      {
        var h :| h in hashes;
        infos := CountKey(data, infos, h, done);
        hashes := hashes - {h};
        done := done + {h};
      }
      assert done == data.apiKeys.Keys;
      out := InOrder(data, infos);
    }

    /** The records of a userspace without their values, in key order. */
    method ListUserspaceKeys(u: Str) returns (r: Result<seq<KVRecord>, StoreError>)
      ensures r.Err? <==> !UserspaceExists(data, u)
      ensures r.Err? ==> r.error == NotFound
      ensures r.Ok? ==> ListsSpace(r.value, map k | k in SpaceOf(data, u) :: SpaceOf(data, u)[k].(value := []))
    {
      if u !in data.userspaces {
        var found := UserspaceExistsLocked(u);
        if !found {
          return Err(NotFound);
        }
      }
      var space := SpaceOf(data, u);
      var keys := SortStrings(space.Keys);
      var records := seq(|keys|, i requires 0 <= i < |keys| => space[keys[i]].(value := []));
      assert Lists(keys, records, map k | k in space :: space[k].(value := []));
      return Ok(records);
    }

    method Get(u: Str, k: Str) returns (rec: Option<KVRecord>)
      ensures rec == GetFrom(data, u, k)
    {
      rec := GetFrom(data, u, k);
    }

    method Put(lib: Library, now: Time, u: Str, k: Str, v: Bytes, ct: Str) returns (version: nat)
      modifies this
      ensures data == PutInto(lib, now, old(data), u, k, v, ct)
      ensures version == data.version
    {
      ghost var was := data;
      if u !in data.userspaces {
        data := data.(userspaces := data.userspaces[u := map[]]);
      }
      var created := if k in data.userspaces[u] then data.userspaces[u][k].createdAt else now;
      data := data.(version := data.version + 1);
      var rec := KVRecord(u, k, v, ct, lib.valueType(ct), data.version, created, now, lib.checksum(v));
      data := data.(userspaces := data.userspaces[u := data.userspaces[u][k := rec]]);
      assert data.userspaces == PutInto(lib, now, was, u, k, v, ct).userspaces;
      return data.version;
    }

    method Delete(u: Str, k: Str) returns (version: Option<nat>)
      modifies this
      ensures GetFrom(old(data), u, k) == None ==> version == None && data == old(data)
      ensures GetFrom(old(data), u, k).Some? ==> version == Some(data.version) && data == DeleteFrom(old(data), u, k)
    {
      if GetFrom(data, u, k) == None {
        return None;
      }
      data := data.(version := data.version + 1);
      data := data.(userspaces := data.userspaces[u := data.userspaces[u] - {k}]);
      return Some(data.version);
    }

    method Exists(u: Str, k: Str) returns (found: bool)
      ensures found == GetFrom(data, u, k).Some?
    {
      found := GetFrom(data, u, k).Some?;
    }

    method ExportUserspace(u: Str) returns (records: seq<KVRecord>)
      ensures ListsSpace(records, SpaceOf(data, u))
    {
      var space := SpaceOf(data, u);
      var keys := SortStrings(space.Keys);
      records := seq(|keys|, i requires 0 <= i < |keys| => space[keys[i]]);
      assert Lists(keys, records, space);
    }

    method ImportUserspace(lib: Library, clock: Clock, u: Str, records: seq<KVRecord>, mode: ImportMode)
        returns (res: ImportResult)
      modifies this
      ensures (data, res) == ImportAll(lib, clock, old(data), u, records, mode)
    {
      var tx := BeginAtomic();
      res := tx.ImportUserspace(lib, clock, u, records, mode);
      var error := tx.Commit();
    }

    method ResolveAPIKeyHash(hash: Str) returns (p: Option<Principal>)
      ensures p == ResolveKey(data, hash)
    {
      p := ResolveKey(data, hash);
    }

    method ResolveJWTSubject(sub: Str) returns (p: Option<Principal>)
      ensures p == ResolveSubject(data, sub)
    {
      p := ResolveSubject(data, sub);
    }

    method SaveTx(t: Transaction)
      modifies this
      ensures data == SaveTxIn(old(data), t)
    {
      data := data.(txs := data.txs[t.txID := t]);
    }

    method GetTx(id: Str) returns (t: Option<Transaction>)
      ensures t == if id in data.txs then Some(data.txs[id]) else None
    {
      t := if id in data.txs then Some(data.txs[id]) else None;
    }

    method BeginAtomic() returns (tx: AtomicTx)
      ensures fresh(tx) && tx.store == this && tx.data == data && !tx.done
    {
      tx := new AtomicTx(this);
    }
  }

  /** A private copy of the store's content, installed as a whole or dropped. */
  class AtomicTx {
    const store: Store
    var data: Snapshot
    var done: bool

    constructor (store: Store)
      ensures this.store == store && data == store.data && !done
    {
      this.store := store;
      data := store.data;
      done := false;
    }

    method Get(u: Str, k: Str) returns (rec: Option<KVRecord>)
      ensures rec == GetFrom(data, u, k)
    {
      rec := GetFrom(data, u, k);
    }

    method Put(lib: Library, now: Time, u: Str, k: Str, v: Bytes, ct: Str) returns (rec: KVRecord)
      modifies this`data
      ensures data == PutInto(lib, now, old(data), u, k, v, ct)
      ensures rec == PutRecord(lib, now, old(data), u, k, v, ct)
    {
      ghost var was := data;
      if u !in data.userspaces {
        data := data.(userspaces := data.userspaces[u := map[]]);
      }
      var created := if k in data.userspaces[u] then data.userspaces[u][k].createdAt else now;
      data := data.(version := data.version + 1);
      rec := KVRecord(u, k, v, ct, lib.valueType(ct), data.version, created, now, lib.checksum(v));
      data := data.(userspaces := data.userspaces[u := data.userspaces[u][k := rec]]);
      assert data.userspaces == PutInto(lib, now, was, u, k, v, ct).userspaces;
    }

    method Delete(u: Str, k: Str) returns (version: Option<nat>)
      modifies this`data
      ensures GetFrom(old(data), u, k) == None ==> version == None && data == old(data)
      ensures GetFrom(old(data), u, k).Some? ==> version == Some(data.version) && data == DeleteFrom(old(data), u, k)
    {
      if GetFrom(data, u, k) == None {
        return None;
      }
      data := data.(version := data.version + 1);
      data := data.(userspaces := data.userspaces[u := data.userspaces[u] - {k}]);
      return Some(data.version);
    }

    method Exists(u: Str, k: Str) returns (found: bool)
      ensures found == GetFrom(data, u, k).Some?
    {
      found := GetFrom(data, u, k).Some?;
    }

    method ImportUserspace(lib: Library, clock: Clock, u: Str, records: seq<KVRecord>, mode: ImportMode)
        returns (res: ImportResult)
      modifies this`data
      ensures (data, res) == ImportAll(lib, clock, old(data), u, records, mode)
    {
      if mode == Replace {
        data := data.(userspaces := data.userspaces[u := map[]]);
      }
      if u !in data.userspaces {
        data := data.(userspaces := data.userspaces[u := map[]]);
      }
      assert data == ImportBase(old(data), u, mode);
      res := ImportResult(0, 0, 0);
      for i := 0 to |records|
        invariant (data, res) == ImportPrefix(lib, clock, old(data), u, records, mode, i)
        invariant u in data.userspaces
      {
        res := ImportNext(lib, clock(i), u, mode, records[i], res);
      }
    }

    /** The body of the import loop. */
    method ImportNext(lib: Library, now: Time, u: Str, mode: ImportMode, input: KVRecord, sofar: ImportResult)
        returns (res: ImportResult)
      requires u in data.userspaces
      modifies this`data
      ensures (data, res) == ImportOne(lib, now, u, mode, old(data), sofar, input)
      ensures u in data.userspaces
    {
      res := sofar;
      var present := input.key in data.userspaces[u];
      if present && mode == MergeSkip {
        return res.(skipped := res.skipped + 1);
      }
      if present {
        res := res.(replaced := res.replaced + 1);
      }
      data := data.(version := data.version + 1);
      var rec := ImportRecord(lib, now, u, data.version, input);
      data := data.(userspaces := data.userspaces[u := data.userspaces[u][rec.key := rec]]);
      res := res.(imported := res.imported + 1);
    }

    method SaveTx(t: Transaction)
      modifies this`data
      ensures data == SaveTxIn(old(data), t)
    {
      data := data.(txs := data.txs[t.txID := t]);
    }

    method Commit() returns (error: Option<StoreError>)
      modifies this`done, store
      ensures old(done) ==> error == Some(AtomicClosed) && store.data == old(store.data)
      ensures !old(done) ==> error == None && store.data == data
      ensures done
    {
      if done {
        return Some(AtomicClosed);
      }
      store.data := data;
      done := true;
      return None;
    }

    method Rollback()
      modifies this`done
      ensures done
    {
      done := true;
    }
  }
}
