/** What the store's calls do, as functions of its content. The classes of
    module Storage are proved against these; the laws are proved about them. */
module StoreSpec {
  import opened Model
  import opened Ordering

  datatype StoreError = NotFound | TxNotFound | AlreadyExists | InvalidUserspaceID | AtomicClosed

  function SpaceOf(d: Snapshot, u: Str): Space {
    if u in d.userspaces then d.userspaces[u] else map[]
  }

  function GetFrom(d: Snapshot, u: Str, k: Str): Option<KVRecord> {
    if u in d.userspaces && k in d.userspaces[u] then Some(d.userspaces[u][k]) else None
  }

  function PutRecord(lib: Library, now: Time, d: Snapshot, u: Str, k: Str, v: Bytes, ct: Str): KVRecord {
    var prior := GetFrom(d, u, k);
    KVRecord(u, k, v, ct, lib.valueType(ct), d.version + 1,
             if prior.Some? then prior.value.createdAt else now, now, lib.checksum(v))
  }

  function SetRecord(d: Snapshot, u: Str, rec: KVRecord): Snapshot {
    d.(version := d.version + 1, userspaces := d.userspaces[u := SpaceOf(d, u)[rec.key := rec]])
  }

  function PutInto(lib: Library, now: Time, d: Snapshot, u: Str, k: Str, v: Bytes, ct: Str): Snapshot {
    SetRecord(d, u, PutRecord(lib, now, d, u, k, v, ct))
  }

  /** The content after removing a key that is present. */
  function DeleteFrom(d: Snapshot, u: Str, k: Str): Snapshot {
    d.(version := d.version + 1, userspaces := d.userspaces[u := SpaceOf(d, u) - {k}])
  }

  function SaveTxIn(d: Snapshot, t: Transaction): Snapshot {
    d.(txs := d.txs[t.txID := t])
  }

  // ---- import ----

  function ImportBase(d: Snapshot, u: Str, mode: ImportMode): Snapshot {
    d.(userspaces := d.userspaces[u := if mode == Replace then map[] else SpaceOf(d, u)])
  }

  function ImportRecord(lib: Library, now: Time, u: Str, version: nat, rec: KVRecord): KVRecord {
    rec.(userspaceID := u, version := version,
         createdAt := if rec.createdAt == ZERO_TIME then now else rec.createdAt,
         updatedAt := now, checksum := lib.checksum(rec.value), valueType := lib.valueType(rec.contentType))
  }

  function ImportOne(lib: Library, now: Time, u: Str, mode: ImportMode,
                     d: Snapshot, res: ImportResult, rec: KVRecord): (Snapshot, ImportResult) {
    var present := rec.key in SpaceOf(d, u);
    if present && mode == MergeSkip then (d, res.(skipped := res.skipped + 1))
    else (SetRecord(d, u, ImportRecord(lib, now, u, d.version + 1, rec)),
          res.(imported := res.imported + 1, replaced := res.replaced + if present then 1 else 0))
  }

  /** Content and counters after the first n records. */
  function ImportPrefix(lib: Library, clock: Clock, d: Snapshot, u: Str,
                        records: seq<KVRecord>, mode: ImportMode, n: nat): (Snapshot, ImportResult)
    requires n <= |records|
  {
    if n == 0 then (ImportBase(d, u, mode), ImportResult(0, 0, 0))
    else
      var prev := ImportPrefix(lib, clock, d, u, records, mode, n - 1);
      ImportOne(lib, clock(n - 1), u, mode, prev.0, prev.1, records[n - 1])
  }

  function ImportAll(lib: Library, clock: Clock, d: Snapshot, u: Str,
                     records: seq<KVRecord>, mode: ImportMode): (Snapshot, ImportResult) {
    ImportPrefix(lib, clock, d, u, records, mode, |records|)
  }

  // ---- administration ----

  predicate IsAlnum(b: byte) {
    0x30 <= b <= 0x39 || 0x41 <= b <= 0x5A || 0x61 <= b <= 0x7A
  }

  predicate ValidUserspaceID(u: Str) {
    && 1 <= |u| <= 128
    && IsAlnum(u[0])
    && forall i :: 0 <= i < |u| ==> IsAlnum(u[i]) || u[i] in [0x2E, 0x5F, 0x2D]
  }

  predicate HasKey(d: Snapshot, u: Str) {
    exists h :: h in d.apiKeys && d.apiKeys[h].principal.userspaceID == u
  }

  predicate HasSubject(d: Snapshot, u: Str) {
    exists s :: s in d.jwtSubjects && d.jwtSubjects[s].principal.userspaceID == u
  }

  predicate UserspaceExists(d: Snapshot, u: Str) {
    u in d.userspaces || HasKey(d, u) || HasSubject(d, u)
  }

  const ROLE_USER: Str := Ascii("user")
  const ROLE_ADMIN: Str := Ascii("admin")

  function UserKey(user: Str, u: Str, hash: Str): APIKeyRecord {
    APIKeyRecord(hash, Principal(user, u, [ROLE_USER], ViaApiKey), true)
  }

  function OtherKeys(d: Snapshot, u: Str): map<Str, APIKeyRecord> {
    map h | h in d.apiKeys && d.apiKeys[h].principal.userspaceID != u :: d.apiKeys[h]
  }

  function OtherSubjects(d: Snapshot, u: Str): map<Str, JWTSubjectRecord> {
    map s | s in d.jwtSubjects && d.jwtSubjects[s].principal.userspaceID != u :: d.jwtSubjects[s]
  }

  function OtherTxs(d: Snapshot, u: Str): map<Str, Transaction> {
    map id | id in d.txs && d.txs[id].userspaceID != u :: d.txs[id]
  }

  function CreateSpace(d: Snapshot, u: Str, user: Str, hash: Str): Result<Snapshot, StoreError> {
    if !ValidUserspaceID(u) then Err(InvalidUserspaceID)
    else if UserspaceExists(d, u) then Err(AlreadyExists)
    else
      var keys := if hash == [] then d.apiKeys
                  else d.apiKeys[hash := UserKey(if user == [] then u else user, u, hash)];
      Ok(d.(userspaces := d.userspaces[u := map[]], apiKeys := keys))
  }

  function DeleteSpace(d: Snapshot, u: Str): Result<Snapshot, StoreError> {
    if !UserspaceExists(d, u) then Err(NotFound)
    else Ok(d.(userspaces := d.userspaces - {u}, apiKeys := OtherKeys(d, u),
               jwtSubjects := OtherSubjects(d, u), txs := OtherTxs(d, u)))
  }

  /** The key names the user as owner of the userspace. */
  predicate NamesOwner(d: Snapshot, u: Str, h: Str, user: Str) {
    h in d.apiKeys && d.apiKeys[h].principal.userspaceID == u && d.apiKeys[h].principal.userID == user
  }

  /** The owner read off the keys in `seen`: one that a key of the userspace names, or
      the userspace itself if they name none. */
  ghost predicate OwnerAmong(d: Snapshot, u: Str, user: Str, seen: set<Str>) {
    || (user != [] && exists h :: h in seen && NamesOwner(d, u, h, user))
    || (user == u && forall h :: h in seen && h in d.apiKeys && d.apiKeys[h].principal.userspaceID == u ==>
                                   NamesOwner(d, u, h, []))
  }

  /** The owner that a rotation records; which of several, depends on the iteration order. */
  ghost predicate OwnerCandidate(d: Snapshot, u: Str, user: Str) {
    OwnerAmong(d, u, user, d.apiKeys.Keys)
  }

  lemma OwnerNext(d: Snapshot, u: Str, user: Str, seen: set<Str>, h: Str)
    requires OwnerAmong(d, u, user, seen) && h in d.apiKeys
    ensures var p := d.apiKeys[h].principal;
            OwnerAmong(d, u, if p.userspaceID == u && p.userID != [] then p.userID else user, seen + {h})
  {
    var p := d.apiKeys[h].principal;
    if p.userspaceID == u && p.userID != [] {
      assert h in seen + {h} && NamesOwner(d, u, h, p.userID);
    } else if g :| user != [] && g in seen && NamesOwner(d, u, g, user) {
      assert g in seen + {h};
    }
  }

  lemma OwnerByKeys(d: Snapshot, e: Snapshot, u: Str, user: Str, seen: set<Str>)
    requires OwnerAmong(d, u, user, seen) && d.apiKeys == e.apiKeys && seen == d.apiKeys.Keys
    ensures OwnerCandidate(e, u, user)
  {
    if h :| user != [] && h in seen && NamesOwner(d, u, h, user) {
      assert NamesOwner(e, u, h, user);
    }
  }

  function RotateKey(d: Snapshot, u: Str, hash: Str, user: Str): Result<Snapshot, StoreError> {
    if !UserspaceExists(d, u) then Err(NotFound)
    else Ok(d.(userspaces := d.userspaces[u := SpaceOf(d, u)],
               apiKeys := OtherKeys(d, u)[hash := UserKey(user, u, hash)]))
  }

  function Bootstrap(d: Snapshot, user: Str, u: Str, hash: Str): Snapshot {
    d.(userspaces := d.userspaces[u := SpaceOf(d, u)],
       apiKeys := if hash == [] || hash in d.apiKeys then d.apiKeys
                  else d.apiKeys[hash := APIKeyRecord(hash, Principal(user, u, [ROLE_ADMIN], ViaApiKey), true)],
       jwtSubjects := if user in d.jwtSubjects then d.jwtSubjects
                      else d.jwtSubjects[user := JWTSubjectRecord(user, Principal(user, u, [ROLE_ADMIN], ViaJwt),
                                                                  true)])
  }

  function ResolveKey(d: Snapshot, hash: Str): Option<Principal> {
    if hash in d.apiKeys && d.apiKeys[hash].active
    then Some(d.apiKeys[hash].principal.(authMethod := ViaApiKey)) else None
  }

  function ResolveSubject(d: Snapshot, sub: Str): Option<Principal> {
    if sub in d.jwtSubjects && d.jwtSubjects[sub].active
    then Some(d.jwtSubjects[sub].principal.(authMethod := ViaJwt)) else None
  }

  // ---- listings ----

  datatype UserspaceInfo = UserspaceInfo(userspaceID: Str, userID: Str, keyCount: nat, apiKeyCount: nat)

  /** The hashes of the active keys of one userspace. */
  function ActiveKeys(d: Snapshot, u: Str): set<Str> {
    set h | h in d.apiKeys && d.apiKeys[h].active && d.apiKeys[h].principal.userspaceID == u
  }

  /** The userspaces that hold values or own one of the given active keys. */
  function NamedBy(d: Snapshot, hashes: set<Str>): set<Str> {
    d.userspaces.Keys
    + set h | h in d.apiKeys && h in hashes && d.apiKeys[h].active :: d.apiKeys[h].principal.userspaceID
  }

  function ListedSpaces(d: Snapshot): set<Str> {
    NamedBy(d, d.apiKeys.Keys)
  }

  function Names(infos: seq<UserspaceInfo>): (r: seq<Str>) {
    seq(|infos|, i requires 0 <= i < |infos| => infos[i].userspaceID)
  }

  /** Every userspace with values or an active key once, in order, with its counts. */
  ghost predicate IsListing(d: Snapshot, infos: seq<UserspaceInfo>) {
    && SortedListing(Names(infos), ListedSpaces(d))
    && forall i :: 0 <= i < |infos| ==>
         infos[i].keyCount == |SpaceOf(d, infos[i].userspaceID)|
         && infos[i].apiKeyCount == |ActiveKeys(d, infos[i].userspaceID)|
  }

  function KeysSeen(d: Snapshot, u: Str, done: set<Str>): nat {
    |ActiveKeys(d, u) * done|
  }

  /** The line for u when only the keys in `done` have been counted. */
  predicate CountedLine(d: Snapshot, u: Str, info: UserspaceInfo, done: set<Str>) {
    info.userspaceID == u && info.keyCount == |SpaceOf(d, u)| && info.apiKeyCount == KeysSeen(d, u, done)
  }

  /** The table of userspaces when only the keys in `done` have been counted. */
  ghost predicate Counted(d: Snapshot, infos: map<Str, UserspaceInfo>, done: set<Str>) {
    && infos.Keys == NamedBy(d, done)
    && forall u :: u in infos ==> CountedLine(d, u, infos[u], done)
  }

  /** The owner shown for u is that of one of its active keys among those counted, or
      its own name when there is none; which key depends on the iteration order. */
  ghost predicate OwnerShown(d: Snapshot, u: Str, owner: Str, done: set<Str>) {
    if exists h :: h in ActiveKeys(d, u) && h in done
    then exists h :: h in ActiveKeys(d, u) && h in done && owner == d.apiKeys[h].principal.userID
    else owner == u
  }

  ghost predicate OwnersShown(d: Snapshot, infos: map<Str, UserspaceInfo>, done: set<Str>) {
    forall u :: u in infos ==> OwnerShown(d, u, infos[u].userID, done)
  }

  lemma OtherOwnerShown(d: Snapshot, u: Str, owner: Str, done: set<Str>, h: Str)
    requires OwnerShown(d, u, owner, done) && h !in ActiveKeys(d, u)
    ensures OwnerShown(d, u, owner, done + {h})
  {
    if g :| g in ActiveKeys(d, u) && g in done && owner == d.apiKeys[g].principal.userID {
      assert g in done + {h};
    }
  }

  lemma OwnersKept(d: Snapshot, infos: map<Str, UserspaceInfo>, h: Str, done: set<Str>)
    requires OwnersShown(d, infos, done) && (h in d.apiKeys ==> !d.apiKeys[h].active)
    ensures OwnersShown(d, infos, done + {h})
  {
    forall u | u in infos ensures OwnerShown(d, u, infos[u].userID, done + {h}) {
      OtherOwnerShown(d, u, infos[u].userID, done, h);
    }
  }

  /** One more active key: its owner is shown, or the owner shown before still is. */
  lemma OwnersNext(d: Snapshot, infos: map<Str, UserspaceInfo>, h: Str, done: set<Str>, info: UserspaceInfo)
    requires h in d.apiKeys && d.apiKeys[h].active && OwnersShown(d, infos, done)
    requires var u, owner := d.apiKeys[h].principal.userspaceID, d.apiKeys[h].principal.userID;
             && info.userspaceID == u
             && (info.userID == owner || (u in infos && info.userID == infos[u].userID && info.userID != u))
    ensures OwnersShown(d, infos[info.userspaceID := info], done + {h})
  {
    var u, next := info.userspaceID, infos[info.userspaceID := info];
    forall v | v in next ensures OwnerShown(d, v, next[v].userID, done + {h}) {
      if v != u {
        OtherOwnerShown(d, v, infos[v].userID, done, h);
      } else {
        assert h in ActiveKeys(d, u) && h in done + {h};
        if info.userID != d.apiKeys[h].principal.userID {
          var g :| g in ActiveKeys(d, u) && g in done && info.userID == d.apiKeys[g].principal.userID;
          assert g in done + {h};
        }
      }
    }
  }

  /** A listing shows for each userspace the owner of one of its active keys, or its
      own name when it has none. */
  ghost predicate ShowsOwners(d: Snapshot, infos: seq<UserspaceInfo>) {
    forall i :: 0 <= i < |infos| ==> OwnerShown(d, infos[i].userspaceID, infos[i].userID, d.apiKeys.Keys)
  }

  lemma NoneCounted(d: Snapshot, infos: map<Str, UserspaceInfo>)
    requires infos.Keys == d.userspaces.Keys
    requires forall u :: u in infos ==> infos[u] == UserspaceInfo(u, u, |SpaceOf(d, u)|, 0)
    ensures Counted(d, infos, {})
  {
    assert NamedBy(d, {}) == d.userspaces.Keys;
    forall u | u in infos ensures KeysSeen(d, u, {}) == 0 {
      assert ActiveKeys(d, u) * {} == {};
    }
  }

  /** Looking at one more hash adds it to the count of its own userspace only. */
  lemma KeysSeenStep(d: Snapshot, done: set<Str>, h: Str, u: Str)
    requires h in d.apiKeys && h !in done
    ensures KeysSeen(d, u, done + {h}) == KeysSeen(d, u, done) + if h in ActiveKeys(d, u) then 1 else 0
  {
    if h in ActiveKeys(d, u) {
      assert ActiveKeys(d, u) * (done + {h}) == ActiveKeys(d, u) * done + {h};
    } else {
      assert ActiveKeys(d, u) * (done + {h}) == ActiveKeys(d, u) * done;
    }
  }

  lemma {:induction false} InactiveCounted(d: Snapshot, infos: map<Str, UserspaceInfo>, h: Str, done: set<Str>)
    requires h in d.apiKeys && h !in done && !d.apiKeys[h].active
    requires Counted(d, infos, done)
    ensures Counted(d, infos, done + {h})
  {
    assert NamedBy(d, done + {h}) == NamedBy(d, done);
    forall u | u in infos ensures KeysSeen(d, u, done + {h}) == KeysSeen(d, u, done) {
      KeysSeenStep(d, done, h, u);
    }
  }

  lemma ActiveNamed(d: Snapshot, done: set<Str>, h: Str)
    requires h in d.apiKeys && d.apiKeys[h].active
    ensures NamedBy(d, done + {h}) == NamedBy(d, done) + {d.apiKeys[h].principal.userspaceID}
  {
  }

  lemma UnlistedUnseen(d: Snapshot, done: set<Str>, u: Str)
    requires u !in NamedBy(d, done)
    ensures KeysSeen(d, u, done) == 0
  {
    assert ActiveKeys(d, u) * done == {};
  }

  lemma {:induction false} ActiveCounted(d: Snapshot, infos: map<Str, UserspaceInfo>, h: Str, done: set<Str>,
                                         info: UserspaceInfo)
    requires h in d.apiKeys && h !in done && d.apiKeys[h].active
    requires Counted(d, infos, done)
    requires var u := d.apiKeys[h].principal.userspaceID;
             && info.userspaceID == u && info.keyCount == |SpaceOf(d, u)|
             && info.apiKeyCount == 1 + if u in infos then infos[u].apiKeyCount else 0
    ensures Counted(d, infos[info.userspaceID := info], done + {h})
  {
    ActiveListed(d, infos.Keys, h, done);
    var next := infos[info.userspaceID := info];
    assert next.Keys == infos.Keys + {info.userspaceID};
    forall v | v in next ensures CountedLine(d, v, next[v], done + {h}) {
      ActiveLine(d, infos, h, done, info, v);
    }
  }

  /** One line of the table after one more active key. */
  lemma ActiveLine(d: Snapshot, infos: map<Str, UserspaceInfo>, h: Str, done: set<Str>, info: UserspaceInfo, v: Str)
    requires h in d.apiKeys && h !in done && d.apiKeys[h].active
    requires Counted(d, infos, done)
    requires var u := d.apiKeys[h].principal.userspaceID;
             && info.userspaceID == u && info.keyCount == |SpaceOf(d, u)|
             && info.apiKeyCount == 1 + if u in infos then infos[u].apiKeyCount else 0
    requires v in infos[info.userspaceID := info]
    ensures CountedLine(d, v, infos[info.userspaceID := info][v], done + {h})
  {
    if v == info.userspaceID {
      OwnKeySeen(d, infos, h, done, v);
    } else {
      OtherKeySeen(d, done, h, v);
      assert CountedLine(d, v, infos[v], done);
    }
  }

  lemma ActiveListed(d: Snapshot, names: set<Str>, h: Str, done: set<Str>)
    requires h in d.apiKeys && d.apiKeys[h].active && names == NamedBy(d, done)
    ensures names + {d.apiKeys[h].principal.userspaceID} == NamedBy(d, done + {h})
  {
    ActiveNamed(d, done, h);
  }

  lemma OwnKeySeen(d: Snapshot, infos: map<Str, UserspaceInfo>, h: Str, done: set<Str>, u: Str)
    requires h in d.apiKeys && h !in done && d.apiKeys[h].active && d.apiKeys[h].principal.userspaceID == u
    requires Counted(d, infos, done)
    ensures KeysSeen(d, u, done + {h}) == 1 + if u in infos then infos[u].apiKeyCount else 0
  {
    KeysSeenStep(d, done, h, u);
    if u !in infos {
      UnlistedUnseen(d, done, u);
    }
  }

  lemma OtherKeySeen(d: Snapshot, done: set<Str>, h: Str, v: Str)
    requires h in d.apiKeys && h !in done && d.apiKeys[h].principal.userspaceID != v
    ensures KeysSeen(d, v, done + {h}) == KeysSeen(d, v, done)
  {
    KeysSeenStep(d, done, h, v);
  }

  lemma AllKeysSeen(d: Snapshot, u: Str)
    ensures KeysSeen(d, u, d.apiKeys.Keys) == |ActiveKeys(d, u)|
  {
    assert ActiveKeys(d, u) * d.apiKeys.Keys == ActiveKeys(d, u);
  }

  lemma {:induction false} CountedIsListing(d: Snapshot, infos: map<Str, UserspaceInfo>, order: seq<Str>,
                                            out: seq<UserspaceInfo>)
    requires Counted(d, infos, d.apiKeys.Keys)
    requires SortedListing(order, infos.Keys)
    requires |out| == |order| && forall i :: 0 <= i < |order| ==> order[i] in infos && out[i] == infos[order[i]]
    ensures IsListing(d, out)
  {
    assert Names(out) == order;
    forall i | 0 <= i < |out|
      ensures out[i].keyCount == |SpaceOf(d, out[i].userspaceID)|
      ensures out[i].apiKeyCount == |ActiveKeys(d, out[i].userspaceID)|
    {
      AllKeysSeen(d, order[i]);
    }
  }
}
