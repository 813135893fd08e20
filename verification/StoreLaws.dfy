/** Laws of the store's calls: what every call keeps, what an import leaves in
    each mode, and how the administrative calls keep the tables consistent. */
module StoreLaws {
  import opened Model
  import opened Ordering
  import opened StoreSpec

  // ---- versions and stored records ----

  predicate Stored(d: Snapshot, u: Str, k: Str) {
    u in d.userspaces && k in d.userspaces[u]
  }

  function At(d: Snapshot, u: Str, k: Str): KVRecord
    requires Stored(d, u, k)
  {
    d.userspaces[u][k]
  }

  /** A record is filed under its own userspace and key, carries the checksum and
      the type of what it holds, and a version the counter has already reached. */
  predicate WellKept(lib: Library, d: Snapshot, u: Str, k: Str)
    requires Stored(d, u, k)
  {
    var rec := At(d, u, k);
    && rec.userspaceID == u && rec.key == k
    && rec.checksum == lib.checksum(rec.value)
    && rec.valueType == lib.valueType(rec.contentType)
    && 1 <= rec.version <= d.version
  }

  ghost predicate DistinctVersions(d: Snapshot) {
    forall u, k, v, j :: Stored(d, u, k) && Stored(d, v, j) && At(d, u, k).version == At(d, v, j).version
                         ==> u == v && k == j
  }

  ghost predicate StoreInv(lib: Library, d: Snapshot) {
    && (forall u, k :: Stored(d, u, k) ==> WellKept(lib, d, u, k))
    && DistinctVersions(d)
  }

  /** Every record of e was in d, under the same key. */
  ghost predicate KeepsRecords(d: Snapshot, e: Snapshot) {
    forall u, k :: Stored(e, u, k) ==> Stored(d, u, k) && At(d, u, k) == At(e, u, k)
  }

  lemma FewerRecordsKeepInv(lib: Library, d: Snapshot, e: Snapshot)
    requires StoreInv(lib, d)
    requires KeepsRecords(d, e) && d.version <= e.version
    ensures StoreInv(lib, e)
  {
    forall u, k | Stored(e, u, k) ensures WellKept(lib, e, u, k) {
      assert WellKept(lib, d, u, k);
    }
  }

  lemma SetRecordKeepsInv(lib: Library, d: Snapshot, u: Str, rec: KVRecord)
    requires StoreInv(lib, d)
    requires rec.userspaceID == u && rec.checksum == lib.checksum(rec.value)
    requires rec.valueType == lib.valueType(rec.contentType) && rec.version == d.version + 1
    ensures StoreInv(lib, SetRecord(d, u, rec))
  {
    var e := SetRecord(d, u, rec);
    forall v, j | Stored(e, v, j) && !(v == u && j == rec.key)
      ensures Stored(d, v, j) && At(e, v, j) == At(d, v, j) && WellKept(lib, d, v, j) {
      assert v != u ==> e.userspaces[v] == d.userspaces[v];
    }
    assert Stored(e, u, rec.key) && At(e, u, rec.key) == rec;
  }

  lemma PutKeepsInv(lib: Library, now: Time, d: Snapshot, u: Str, k: Str, v: Bytes, ct: Str)
    requires StoreInv(lib, d)
    ensures StoreInv(lib, PutInto(lib, now, d, u, k, v, ct))
  {
    SetRecordKeepsInv(lib, d, u, PutRecord(lib, now, d, u, k, v, ct));
  }

  lemma DeleteKeepsInv(lib: Library, d: Snapshot, u: Str, k: Str)
    requires StoreInv(lib, d)
    ensures StoreInv(lib, DeleteFrom(d, u, k))
  {
    var e := DeleteFrom(d, u, k);
    assert forall v :: v != u && v in e.userspaces ==> v in d.userspaces && e.userspaces[v] == d.userspaces[v];
    FewerRecordsKeepInv(lib, d, e);
  }

  lemma {:induction false} ImportKeepsInv(lib: Library, clock: Clock, d: Snapshot, u: Str,
                                         records: seq<KVRecord>, mode: ImportMode, n: nat)
    requires StoreInv(lib, d) && n <= |records|
    ensures StoreInv(lib, ImportPrefix(lib, clock, d, u, records, mode, n).0)
  {
    if n == 0 {
      FewerRecordsKeepInv(lib, d, ImportBase(d, u, mode));
    } else {
      ImportKeepsInv(lib, clock, d, u, records, mode, n - 1);
      var prev := ImportPrefix(lib, clock, d, u, records, mode, n - 1);
      SetRecordKeepsInv(lib, prev.0, u, ImportRecord(lib, clock(n - 1), u, prev.0.version + 1, records[n - 1]));
    }
  }

  lemma AdminKeepsInv(lib: Library, d: Snapshot, u: Str, user: Str, hash: Str)
    requires StoreInv(lib, d)
    ensures CreateSpace(d, u, user, hash).Ok? ==> StoreInv(lib, CreateSpace(d, u, user, hash).value)
    ensures DeleteSpace(d, u).Ok? ==> StoreInv(lib, DeleteSpace(d, u).value)
    ensures RotateKey(d, u, hash, user).Ok? ==> StoreInv(lib, RotateKey(d, u, hash, user).value)
  {
    if CreateSpace(d, u, user, hash).Ok? {
      FewerRecordsKeepInv(lib, d, CreateSpace(d, u, user, hash).value);
    }
    if DeleteSpace(d, u).Ok? {
      FewerRecordsKeepInv(lib, d, DeleteSpace(d, u).value);
    }
    if RotateKey(d, u, hash, user).Ok? {
      FewerRecordsKeepInv(lib, d, RotateKey(d, u, hash, user).value);
    }
  }

  // ---- import against its map specification ----

  /** Key k occurs among the first n records. */
  predicate Occurs(records: seq<KVRecord>, n: nat, k: Str)
    requires n <= |records|
  {
    exists i :: 0 <= i < n && records[i].key == k
  }

  predicate FirstAt(records: seq<KVRecord>, n: nat, k: Str, i: nat)
    requires n <= |records|
  {
    i < n && records[i].key == k && forall j :: 0 <= j < i ==> records[j].key != k
  }

  predicate LastAt(records: seq<KVRecord>, n: nat, k: Str, i: nat)
    requires n <= |records|
  {
    i < n && records[i].key == k && forall j :: i < j < n ==> records[j].key != k
  }

  /** The space an import starts from: empty for replace, the present one otherwise. */
  function Cleared(d: Snapshot, u: Str, mode: ImportMode): Space {
    if mode == Replace then map[] else SpaceOf(d, u)
  }

  /** rec is records[i] as the import stores it at its own time: under the userspace,
      with the value and content type given, its type and checksum computed anew, and
      the time of creation given unless that is the zero time. */
  predicate ImportedAs(lib: Library, clock: Clock, u: Str, records: seq<KVRecord>, i: nat, rec: KVRecord)
    requires i < |records|
  {
    var given := records[i];
    && rec.userspaceID == u && rec.key == given.key && rec.value == given.value && rec.contentType == given.contentType
    && rec.valueType == lib.valueType(given.contentType) && rec.checksum == lib.checksum(given.value)
    && rec.updatedAt == clock(i)
    && rec.createdAt == if given.createdAt == ZERO_TIME then clock(i) else given.createdAt
  }

  /** What a mode promises for one key after the first n records. */
  ghost predicate KeyImported(lib: Library, clock: Clock, d: Snapshot, e: Snapshot, u: Str,
                              records: seq<KVRecord>, mode: ImportMode, n: nat, k: Str)
    requires n <= |records|
  {
    var base, space := Cleared(d, u, mode), SpaceOf(e, u);
    && (k in space <==> k in base || Occurs(records, n, k))
    && (k in base && (mode == MergeSkip || !Occurs(records, n, k)) ==> space[k] == base[k])
    && (mode != MergeSkip ==>
          forall i :: LastAt(records, n, k, i) ==>
            ImportedAs(lib, clock, u, records, i, space[k]) && space[k].version == d.version + i + 1)
    && (mode == MergeSkip && k !in base ==>
          forall i :: FirstAt(records, n, k, i) ==>
            ImportedAs(lib, clock, u, records, i, space[k]) && d.version < space[k].version)
  }

  ghost predicate ImportCounts(d: Snapshot, e: Snapshot, res: ImportResult, u: Str, mode: ImportMode, n: nat) {
    && res.imported + res.skipped == n
    && (mode != MergeSkip ==> res.skipped == 0)
    && (mode == MergeSkip ==> res.replaced == 0)
    && e.version == d.version + res.imported
    && |SpaceOf(e, u)| == |Cleared(d, u, mode)| + res.imported - res.replaced
    && e == d.(version := e.version, userspaces := d.userspaces[u := SpaceOf(e, u)])
  }

  ghost predicate ImportSpec(lib: Library, clock: Clock, d: Snapshot, e: Snapshot, res: ImportResult, u: Str,
                             records: seq<KVRecord>, mode: ImportMode, n: nat)
    requires n <= |records|
  {
    && (forall k :: KeyImported(lib, clock, d, e, u, records, mode, n, k))
    && ImportCounts(d, e, res, u, mode, n)
  }

  /** For replace and merge-overwrite the last of several records with one key
      wins; for merge-skip the stored record, or else the first. The counters add
      up to the records read, the version rises once a record written, and the
      space grows by the keys it did not hold. Nothing else changes. */
  lemma {:induction false} ImportMeetsSpec(lib: Library, clock: Clock, d: Snapshot, u: Str,
                                          records: seq<KVRecord>, mode: ImportMode, n: nat)
    requires n <= |records|
    ensures PrefixMeetsSpec(lib, clock, d, u, records, mode, n)
  {
    if n == 0 {
      ImportBaseMeetsSpec(lib, clock, d, u, records, mode);
    } else {
      ImportMeetsSpec(lib, clock, d, u, records, mode, n - 1);
      ImportStepMeetsSpec(lib, clock, d, u, records, mode, n);
    }
  }

  /** Content and counters after the first n records are as specified. */
  ghost predicate PrefixMeetsSpec(lib: Library, clock: Clock, d: Snapshot, u: Str,
                                  records: seq<KVRecord>, mode: ImportMode, n: nat)
    requires n <= |records|
  {
    MeetsSpec(lib, clock, d, ImportPrefix(lib, clock, d, u, records, mode, n), u, records, mode, n)
  }

  ghost predicate MeetsSpec(lib: Library, clock: Clock, d: Snapshot, r: (Snapshot, ImportResult), u: Str,
                            records: seq<KVRecord>, mode: ImportMode, n: nat)
    requires n <= |records|
  {
    ImportSpec(lib, clock, d, r.0, r.1, u, records, mode, n)
  }

  lemma ImportBaseMeetsSpec(lib: Library, clock: Clock, d: Snapshot, u: Str, records: seq<KVRecord>, mode: ImportMode)
    ensures PrefixMeetsSpec(lib, clock, d, u, records, mode, 0)
  {
    var e := ImportBase(d, u, mode);
    assert e.userspaces == d.userspaces[u := SpaceOf(e, u)];
    forall k ensures KeyImported(lib, clock, d, e, u, records, mode, 0, k) {}
  }

  lemma ImportStepMeetsSpec(lib: Library, clock: Clock, d: Snapshot, u: Str, records: seq<KVRecord>, mode: ImportMode,
                            n: nat)
    requires 0 < n <= |records| && PrefixMeetsSpec(lib, clock, d, u, records, mode, n - 1)
    ensures PrefixMeetsSpec(lib, clock, d, u, records, mode, n)
  {
    var prev := ImportPrefix(lib, clock, d, u, records, mode, n - 1);
    var r := ImportPrefix(lib, clock, d, u, records, mode, n);
    ImportStepCounts(lib, clock(n - 1), d, u, mode, n, prev, r, records[n - 1]);
    forall k ensures KeyImported(lib, clock, d, r.0, u, records, mode, n, k) {
      assert KeyImported(lib, clock, d, prev.0, u, records, mode, n - 1, k);
      ImportStepKey(lib, clock, d, u, records, mode, n, k, prev, r);
    }
  }

  lemma ImportStepCounts(lib: Library, now: Time, d: Snapshot, u: Str, mode: ImportMode, n: nat,
                         prev: (Snapshot, ImportResult), r: (Snapshot, ImportResult), rec: KVRecord)
    requires 0 < n && ImportCounts(d, prev.0, prev.1, u, mode, n - 1)
    requires r == ImportOne(lib, now, u, mode, prev.0, prev.1, rec)
    ensures ImportCounts(d, r.0, r.1, u, mode, n)
  {
    assert r.0.userspaces == d.userspaces[u := SpaceOf(r.0, u)];
  }

  lemma OccurrencesNext(records: seq<KVRecord>, n: nat, k: Str)
    requires 0 < n <= |records|
    ensures Occurs(records, n, k) <==> Occurs(records, n - 1, k) || records[n - 1].key == k
    ensures forall i :: FirstAt(records, n, k, i) ==>
              FirstAt(records, n - 1, k, i) || (i == n - 1 && !Occurs(records, n - 1, k))
    ensures records[n - 1].key == k ==> forall i :: LastAt(records, n, k, i) ==> i == n - 1
    ensures records[n - 1].key != k ==> forall i :: LastAt(records, n, k, i) ==> LastAt(records, n - 1, k, i)
  {
  }

  lemma OtherKeyImported(lib: Library, clock: Clock, d: Snapshot, u: Str, records: seq<KVRecord>, mode: ImportMode,
                 n: nat, k: Str, prev: (Snapshot, ImportResult), r: (Snapshot, ImportResult))
    requires 0 < n <= |records|
    requires KeyImported(lib, clock, d, prev.0, u, records, mode, n - 1, k)
    requires d.version <= prev.0.version && (mode != MergeSkip ==> prev.0.version == d.version + n - 1)
    requires r == ImportOne(lib, clock(n - 1), u, mode, prev.0, prev.1, records[n - 1])
    requires records[n - 1].key != k
    ensures KeyImported(lib, clock, d, r.0, u, records, mode, n, k)
  {
    OccurrencesNext(records, n, k);
  }

  lemma OwnKeyImported(lib: Library, clock: Clock, d: Snapshot, u: Str, records: seq<KVRecord>, mode: ImportMode,
                 n: nat, k: Str, prev: (Snapshot, ImportResult), r: (Snapshot, ImportResult))
    requires 0 < n <= |records|
    requires KeyImported(lib, clock, d, prev.0, u, records, mode, n - 1, k)
    requires d.version <= prev.0.version && (mode != MergeSkip ==> prev.0.version == d.version + n - 1)
    requires r == ImportOne(lib, clock(n - 1), u, mode, prev.0, prev.1, records[n - 1])
    requires records[n - 1].key == k
    ensures KeyImported(lib, clock, d, r.0, u, records, mode, n, k)
  {
    OccurrencesNext(records, n, k);
  }

  lemma ImportStepKey(lib: Library, clock: Clock, d: Snapshot, u: Str, records: seq<KVRecord>, mode: ImportMode,
                 n: nat, k: Str, prev: (Snapshot, ImportResult), r: (Snapshot, ImportResult))
    requires 0 < n <= |records|
    requires KeyImported(lib, clock, d, prev.0, u, records, mode, n - 1, k)
    requires d.version <= prev.0.version && (mode != MergeSkip ==> prev.0.version == d.version + n - 1)
    requires r == ImportOne(lib, clock(n - 1), u, mode, prev.0, prev.1, records[n - 1])
    ensures KeyImported(lib, clock, d, r.0, u, records, mode, n, k)
  {
    if records[n - 1].key == k {
      OwnKeyImported(lib, clock, d, u, records, mode, n, k, prev, r);
    } else {
      OtherKeyImported(lib, clock, d, u, records, mode, n, k, prev, r);
    }
  }

  // ---- the catalogue ----

  function KeysOf(d: Snapshot, u: Str): set<Str> {
    set h | h in d.apiKeys && d.apiKeys[h].principal.userspaceID == u
  }

  /** After a deletion nothing mentions the userspace, it does not exist, and it
      can be created anew exactly when its name is well formed; every other
      userspace keeps its values, keys, subjects, transactions and existence. */
  lemma DeletedSpaceIsGone(d: Snapshot, u: Str, user: Str, hash: Str)
    requires UserspaceExists(d, u)
    ensures DeleteSpace(d, u).Ok?
    ensures var e := DeleteSpace(d, u).value;
            && !UserspaceExists(e, u) && KeysOf(e, u) == {}
            && (forall id :: id in e.txs ==> e.txs[id].userspaceID != u)
            && DeleteSpace(e, u) == Err(NotFound)
            && (CreateSpace(e, u, user, hash).Ok? <==> ValidUserspaceID(u))
            && forall v :: v != u ==> SameCatalogue(d, e, v)
  {
    var e := DeleteSpace(d, u).value;
    forall v | v != u ensures SameCatalogue(d, e, v) {
      if HasKey(d, v) {
        var h :| h in d.apiKeys && d.apiKeys[h].principal.userspaceID == v;
        assert h in e.apiKeys;
      }
      if HasSubject(d, v) {
        var s :| s in d.jwtSubjects && d.jwtSubjects[s].principal.userspaceID == v;
        assert s in e.jwtSubjects;
      }
    }
  }

  /** The two contents agree on one userspace, version counter aside. */
  ghost predicate SameCatalogue(d: Snapshot, e: Snapshot, v: Str) {
    && (v in d.userspaces <==> v in e.userspaces)
    && SpaceOf(d, v) == SpaceOf(e, v)
    && KeysOf(d, v) == KeysOf(e, v)
    && (forall h :: h in KeysOf(d, v) ==> d.apiKeys[h] == e.apiKeys[h])
    && (forall s :: s in d.jwtSubjects && d.jwtSubjects[s].principal.userspaceID == v ==>
          s in e.jwtSubjects && e.jwtSubjects[s] == d.jwtSubjects[s])
    && (forall id :: id in d.txs && d.txs[id].userspaceID == v ==> id in e.txs && e.txs[id] == d.txs[id])
    && UserspaceExists(d, v) == UserspaceExists(e, v)
  }

  /** After a rotation exactly the new hash belongs to the userspace, and it
      resolves to it. Another userspace keeps its keys unless it owned that hash. */
  lemma RotationLeavesOneKey(d: Snapshot, u: Str, hash: Str, user: Str)
    requires UserspaceExists(d, u)
    ensures RotateKey(d, u, hash, user).Ok?
    ensures var e := RotateKey(d, u, hash, user).value;
            && KeysOf(e, u) == {hash} && ActiveKeys(e, u) == {hash}
            && ResolveKey(e, hash) == Some(Principal(user, u, [ROLE_USER], ViaApiKey))
            && SpaceOf(e, u) == SpaceOf(d, u) && u in e.userspaces
            && forall v :: v != u ==> (SameCatalogue(d, e, v) <==> hash !in KeysOf(d, v))
  {
    var e := RotateKey(d, u, hash, user).value;
    forall v | v != u ensures SameCatalogue(d, e, v) <==> hash !in KeysOf(d, v) {
      RotationKeepsOther(d, e, u, hash, user, v);
    }
  }

  lemma HasKeyIffKeys(d: Snapshot, v: Str)
    ensures HasKey(d, v) <==> KeysOf(d, v) != {}
  {
    if HasKey(d, v) {
      var h :| h in d.apiKeys && d.apiKeys[h].principal.userspaceID == v;
      assert h in KeysOf(d, v);
    }
  }

  lemma RotationKeepsOther(d: Snapshot, e: Snapshot, u: Str, hash: Str, user: Str, v: Str)
    requires RotateKey(d, u, hash, user) == Ok(e) && v != u
    ensures SameCatalogue(d, e, v) <==> hash !in KeysOf(d, v)
  {
    assert KeysOf(e, v) == KeysOf(d, v) - {hash};
    if hash !in KeysOf(d, v) {
      HasKeyIffKeys(d, v);
      HasKeyIffKeys(e, v);
      assert HasSubject(d, v) == HasSubject(e, v);
    }
  }

  // ---- the listing accounts for every record and every active key ----

  function AllRecords(d: Snapshot): set<(Str, Str)> {
    set u, k | u in d.userspaces && k in d.userspaces[u] :: (u, k)
  }

  function AllActiveKeys(d: Snapshot): set<Str> {
    set h | h in d.apiKeys && d.apiKeys[h].active
  }

  function KeyTotal(infos: seq<UserspaceInfo>): nat {
    if infos == [] then 0 else KeyTotal(infos[..|infos| - 1]) + infos[|infos| - 1].keyCount
  }

  function ApiKeyTotal(infos: seq<UserspaceInfo>): nat {
    if infos == [] then 0 else ApiKeyTotal(infos[..|infos| - 1]) + infos[|infos| - 1].apiKeyCount
  }

  function RecordsOf(d: Snapshot, u: Str): set<(Str, Str)> {
    set k | k in SpaceOf(d, u) :: (u, k)
  }

  function RecordsIn(d: Snapshot, names: seq<Str>): set<(Str, Str)> {
    if names == [] then {} else RecordsIn(d, names[..|names| - 1]) + RecordsOf(d, names[|names| - 1])
  }

  function ActiveKeysIn(d: Snapshot, names: seq<Str>): set<Str> {
    if names == [] then {} else ActiveKeysIn(d, names[..|names| - 1]) + ActiveKeys(d, names[|names| - 1])
  }

  lemma {:induction false} InNames(d: Snapshot, names: seq<Str>)
    ensures forall r :: r in RecordsIn(d, names) <==> r.0 in names && r.1 in SpaceOf(d, r.0)
    ensures forall h :: h in ActiveKeysIn(d, names) <==>
        h in AllActiveKeys(d) && d.apiKeys[h].principal.userspaceID in names
  {
    if names != [] {
      var init, last := names[..|names| - 1], names[|names| - 1];
      InNames(d, init);
      assert names == init + [last];
    }
  }

  lemma RecordsOfSize(u: Str, space: Space)
    ensures |set k | k in space :: (u, k)| == |space|
    decreases |space|
  {
    if space != map[] {
      var k :| k in space;
      var rest := space - {k};
      RecordsOfSize(u, rest);
      assert (set j | j in space :: (u, j)) == (set j | j in rest :: (u, j)) + {(u, k)};
      assert space.Keys == rest.Keys + {k};
    } else {
      assert (set j | j in space :: (u, j)) == {};
    }
  }

  predicate DistinctNames(infos: seq<UserspaceInfo>) {
    forall i, j :: 0 <= i < j < |infos| ==> infos[i].userspaceID != infos[j].userspaceID
  }

  predicate RightCounts(d: Snapshot, infos: seq<UserspaceInfo>) {
    forall i :: 0 <= i < |infos| ==>
      infos[i].keyCount == |SpaceOf(d, infos[i].userspaceID)|
      && infos[i].apiKeyCount == |ActiveKeys(d, infos[i].userspaceID)|
  }

  lemma {:induction false} TotalsOf(d: Snapshot, infos: seq<UserspaceInfo>)
    requires DistinctNames(infos) && RightCounts(d, infos)
    ensures KeyTotal(infos) == |RecordsIn(d, Names(infos))|
    ensures ApiKeyTotal(infos) == |ActiveKeysIn(d, Names(infos))|
  {
    if infos != [] {
      var init, u := infos[..|infos| - 1], infos[|infos| - 1].userspaceID;
      TotalsOf(d, init);
      LastName(infos);
      OneMoreName(d, Names(init), u);
    }
  }

  lemma LastName(infos: seq<UserspaceInfo>)
    requires infos != [] && DistinctNames(infos)
    ensures var init, u := infos[..|infos| - 1], infos[|infos| - 1].userspaceID;
            Names(infos) == Names(init) + [u] && u !in Names(init)
  {
  }

  lemma OneMoreName(d: Snapshot, names: seq<Str>, u: Str)
    requires u !in names
    ensures |RecordsIn(d, names + [u])| == |RecordsIn(d, names)| + |SpaceOf(d, u)|
    ensures |ActiveKeysIn(d, names + [u])| == |ActiveKeysIn(d, names)| + |ActiveKeys(d, u)|
  {
    InNames(d, names);
    RecordsOfSize(u, SpaceOf(d, u));
    assert (names + [u])[..|names|] == names;
    assert RecordsIn(d, names) !! RecordsOf(d, u);
    assert ActiveKeysIn(d, names) !! ActiveKeys(d, u);
  }

  lemma SortedDistinct(s: seq<Str>, i: nat, j: nat)
    requires Sorted(s) && i < j < |s|
    ensures s[i] != s[j]
  {
    StrLessTotal(s[i], s[j]);
  }

  lemma ListedRecords(d: Snapshot, names: seq<Str>)
    requires forall u :: u in names <==> u in ListedSpaces(d)
    ensures RecordsIn(d, names) == AllRecords(d)
    ensures ActiveKeysIn(d, names) == AllActiveKeys(d)
  {
    InNames(d, names);
    forall r ensures r in RecordsIn(d, names) <==> r in AllRecords(d) {
      assert r.0 in d.userspaces ==> r.0 in ListedSpaces(d);
    }
    forall h ensures h in ActiveKeysIn(d, names) <==> h in AllActiveKeys(d) {
      assert h in AllActiveKeys(d) ==> d.apiKeys[h].principal.userspaceID in ListedSpaces(d);
    }
  }

  /** The key counts of a listing sum to the number of stored records, and its
      API key counts to the number of active keys. */
  lemma ListingIsComplete(d: Snapshot, infos: seq<UserspaceInfo>)
    requires IsListing(d, infos)
    ensures KeyTotal(infos) == |AllRecords(d)|
    ensures ApiKeyTotal(infos) == |AllActiveKeys(d)|
  {
    var names := Names(infos);
    forall i, j | 0 <= i < j < |infos| ensures infos[i].userspaceID != infos[j].userspaceID {
      SortedDistinct(names, i, j);
      assert names[i] == infos[i].userspaceID && names[j] == infos[j].userspaceID;
    }
    TotalsOf(d, infos);
    ListedRecords(d, names);
  }
}
