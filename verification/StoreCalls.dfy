/** What each call on the store answers and leaves, field by field, and when it is
    refused. */
module StoreCalls {
  import opened Model
  import opened StoreSpec
  import opened StoreLaws
  import opened CoordinatorSpec
  import opened System

  /** Nothing but values of userspace u and the counter differs. */
  predicate OnlyValuesOf(d: Snapshot, e: Snapshot, u: Str) {
    && e.apiKeys == d.apiKeys && e.jwtSubjects == d.jwtSubjects && e.txs == d.txs
    && (forall v :: v in d.userspaces && v != u ==> v in e.userspaces && e.userspaces[v] == d.userspaces[v])
    && (forall v :: v in e.userspaces && v != u ==> v in d.userspaces)
  }

  /** Every key of u but k has what it had. */
  ghost predicate OtherKeysKept(d: Snapshot, e: Snapshot, u: Str, k: Str) {
    forall j :: j != k ==> (Stored(d, u, j) <==> Stored(e, u, j)) && (Stored(d, u, j) ==> At(d, u, j) == At(e, u, j))
  }

  // ---- values ----

  /** A PUT stores the value with its type and checksum under the next version, which
      it answers; an overwrite keeps the time of creation; all else is kept. */
  lemma PutStores(c: Config, d: Snapshot, e: Event)
    requires e.KvPut?
    ensures var (after, answer) := Step(c, d, e);
            && Stored(after, e.u, e.k) && OnlyValuesOf(d, after, e.u) && OtherKeysKept(d, after, e.u, e.k)
            && var rec := At(after, e.u, e.k);
               && rec.userspaceID == e.u && rec.key == e.k && rec.value == e.v && rec.contentType == e.ct
               && rec.valueType == c.lib.valueType(e.ct) && rec.checksum == c.lib.checksum(e.v)
               && rec.version == after.version == d.version + 1 && answer == Version(Some(rec.version))
               && rec.updatedAt == e.now
               && rec.createdAt == if Stored(d, e.u, e.k) then At(d, e.u, e.k).createdAt else e.now
  {
  }

  /** A GET answers the record under the key, if there is one, and changes nothing. */
  lemma GetAnswers(c: Config, d: Snapshot, e: Event)
    requires e.KvGet?
    ensures Step(c, d, e) == (d, Found(if Stored(d, e.u, e.k) then Some(At(d, e.u, e.k)) else None))
  {
  }

  /** A DELETE removes a key that is there, under the next version, which it answers,
      and refuses one that is not; all else is kept. */
  lemma DeleteRemoves(c: Config, d: Snapshot, e: Event)
    requires e.KvDelete?
    ensures var (after, answer) := Step(c, d, e);
            && !Stored(after, e.u, e.k) && OnlyValuesOf(d, after, e.u) && OtherKeysKept(d, after, e.u, e.k)
            && if Stored(d, e.u, e.k) then after.version == d.version + 1 && answer == Version(Some(after.version))
               else after == d && answer == Version(None)
  {
  }

  /** An export answers exactly the records of the userspace and changes nothing. */
  lemma ExportAnswers(c: Config, d: Snapshot, e: Event)
    requires e.Export?
    ensures var (after, answer) := Step(c, d, e);
            && after == d && answer.Exported?
            && forall k :: (k in answer.space <==> Stored(d, e.u, k))
                           && (Stored(d, e.u, k) ==> answer.space[k] == At(d, e.u, k))
  {
  }

  // ---- administration ----

  /** The characters of names, as the pattern of the code lists them. */
  const ALNUM: Str := Ascii("ABCDEFGHIJKLMNOPQRSTUVWXYZ") + Ascii("abcdefghijklmnopqrstuvwxyz") + Ascii("0123456789")

  lemma AlnumExact(b: byte)
    ensures IsAlnum(b) <==> b in ALNUM
  {
    RunOfOctets("ABCDEFGHIJKLMNOPQRSTUVWXYZ", 0x41, b);
    RunOfOctets("abcdefghijklmnopqrstuvwxyz", 0x61, b);
    RunOfOctets("0123456789", 0x30, b);
  }

  lemma RunOfOctets(s: string, first: nat, b: byte)
    requires first + |s| <= 256 && forall i :: 0 <= i < |s| ==> s[i] as int == first + i
    ensures b in Ascii(s) <==> first <= b < first + |s|
  {
    if first <= b < first + |s| {
      assert Ascii(s)[b - first] == b;
    }
  }

  /** A name of a userspace: 1 to 128 letters, digits, dots, underscores and hyphens,
      of which the first is a letter or a digit. */
  lemma UserspaceNames(u: Str)
    ensures ValidUserspaceID(u) <==>
            && u != [] && |u| <= 128 && u[0] in ALNUM
            && forall b :: b in u ==> b in ALNUM || b in Ascii("._-")
  {
    var marks := Ascii("._-");
    assert marks == [0x2E, 0x5F, 0x2D];
    forall b ensures IsAlnum(b) <==> b in ALNUM {
      AlnumExact(b);
    }
  }

  /** An identifier of a transaction: 1 to 128 letters, digits, and any of "_.:-". */
  lemma TransactionNames(id: Str)
    ensures ValidTxID(id) <==>
            1 <= |id| <= 128 && forall b :: b in id ==> b in ALNUM || b in Ascii("_.:-")
  {
    var marks := Ascii("_.:-");
    assert marks == [0x5F, 0x2E, 0x3A, 0x2D];
    forall b ensures IsAlnum(b) <==> b in ALNUM {
      AlnumExact(b);
    }
  }

  /** Something mentions the userspace: values, a key or a subject. */
  ghost predicate Mentioned(d: Snapshot, u: Str) {
    || u in d.userspaces
    || (exists h :: h in d.apiKeys && d.apiKeys[h].principal.userspaceID == u)
    || (exists s :: s in d.jwtSubjects && d.jwtSubjects[s].principal.userspaceID == u)
  }

  /** The key of an ordinary user. */
  predicate UserKeyIs(rec: APIKeyRecord, hash: Str, user: Str, u: Str) {
    rec == APIKeyRecord(hash, Principal(user, u, [Ascii("user")], ViaApiKey), true)
  }

  /** A creation is refused for a malformed name or one in use, and then changes
      nothing; otherwise there is an empty userspace and, unless the hash is empty,
      an active key of the user, by default named like the userspace. */
  lemma CreationLeaves(c: Config, d: Snapshot, e: Event)
    requires e.CreateUserspace?
    ensures var (after, answer) := Step(c, d, e);
            if !ValidUserspaceID(e.u) then after == d && answer == Administered(Some(InvalidUserspaceID))
            else if Mentioned(d, e.u) then after == d && answer == Administered(Some(AlreadyExists))
            else
              && answer == Administered(None)
              && after.userspaces == d.userspaces[e.u := map[]]
              && after.version == d.version && after.jwtSubjects == d.jwtSubjects && after.txs == d.txs
              && (forall h :: h != e.hash || h == [] ==> (h in after.apiKeys <==> h in d.apiKeys))
              && (forall h :: h in d.apiKeys && (h != e.hash || h == []) ==> after.apiKeys[h] == d.apiKeys[h])
              && (e.hash != [] ==>
                    e.hash in after.apiKeys
                    && UserKeyIs(after.apiKeys[e.hash], e.hash, if e.user == [] then e.u else e.user, e.u))
  {
  }

  /** A deletion is refused for a userspace that nothing mentions; otherwise exactly
      what belongs to it is gone. */
  lemma DeletionLeaves(c: Config, d: Snapshot, e: Event)
    requires e.DeleteUserspace?
    ensures var (after, answer) := Step(c, d, e);
            if !Mentioned(d, e.u) then after == d && answer == Administered(Some(NotFound))
            else
              && answer == Administered(None) && after.version == d.version
              && (forall v :: v in after.userspaces <==> v in d.userspaces && v != e.u)
              && (forall v :: v in after.userspaces ==> after.userspaces[v] == d.userspaces[v])
              && (forall h :: h in after.apiKeys <==> h in d.apiKeys && d.apiKeys[h].principal.userspaceID != e.u)
              && (forall h :: h in after.apiKeys ==> after.apiKeys[h] == d.apiKeys[h])
              && (forall s :: s in after.jwtSubjects <==>
                                s in d.jwtSubjects && d.jwtSubjects[s].principal.userspaceID != e.u)
              && (forall s :: s in after.jwtSubjects ==> after.jwtSubjects[s] == d.jwtSubjects[s])
              && (forall id :: id in after.txs <==> id in d.txs && d.txs[id].userspaceID != e.u)
              && (forall id :: id in after.txs ==> after.txs[id] == d.txs[id])
  {
  }

  /** A rotation is refused for a userspace that nothing mentions; otherwise its keys
      are replaced by the new one, it has a table of values, and all else is kept. */
  lemma RotationLeaves(c: Config, d: Snapshot, e: Event)
    requires e.RotateApiKey?
    ensures var (after, answer) := Step(c, d, e);
            if !Mentioned(d, e.u) then after == d && answer == Administered(Some(NotFound))
            else
              && answer == Administered(None) && after.version == d.version
              && after.jwtSubjects == d.jwtSubjects && after.txs == d.txs
              && after.userspaces == d.userspaces[e.u := if e.u in d.userspaces then d.userspaces[e.u] else map[]]
              && e.hash in after.apiKeys && UserKeyIs(after.apiKeys[e.hash], e.hash, e.owner, e.u)
              && (forall h :: h != e.hash ==>
                    (h in after.apiKeys <==> h in d.apiKeys && d.apiKeys[h].principal.userspaceID != e.u))
              && (forall h :: h != e.hash && h in after.apiKeys ==> after.apiKeys[h] == d.apiKeys[h])
  {
  }

  /** A start adds an empty userspace, an administrator's key unless the hash is empty
      or taken, and an administrator's subject unless it is taken; it replaces nothing. */
  lemma StartLeaves(d: Snapshot, user: Str, u: Str, hash: Str)
    ensures var after := Bootstrap(d, user, u, hash);
            && after.version == d.version && after.txs == d.txs
            && after.userspaces == (if u in d.userspaces then d.userspaces else d.userspaces[u := map[]])
            && after.apiKeys.Keys == d.apiKeys.Keys + (if hash == [] then {} else {hash})
            && (forall h :: h in d.apiKeys ==> after.apiKeys[h] == d.apiKeys[h])
            && (hash != [] && hash !in d.apiKeys ==>
                  after.apiKeys[hash] == APIKeyRecord(hash, Principal(user, u, [Ascii("admin")], ViaApiKey), true))
            && after.jwtSubjects.Keys == d.jwtSubjects.Keys + {user}
            && (forall s :: s in d.jwtSubjects ==> after.jwtSubjects[s] == d.jwtSubjects[s])
            && (user !in d.jwtSubjects ==>
                  after.jwtSubjects[user] == JWTSubjectRecord(user, Principal(user, u, [Ascii("admin")], ViaJwt), true))
  {
  }
}
