/** An export followed by an import request with replacement, across the handlers,
    the format and the store: exactly when the userspace is restored as it was. */
module Backup {
  import opened Model
  import opened Ordering
  import opened StoreSpec
  import opened StoreLaws
  import opened Storage
  import opened CodecSpec
  import opened CodecLaws
  import opened RoundTrip
  import opened Admission
  import CoordinatorSpec
  import System
  import Lifecycle

  /** `copy` is the record restored from `rec`: its key, value, types and checksum
      are the same, its creation time is kept to the millisecond, and it belongs to
      its new userspace. */
  predicate RestoredAs(v: Str, rec: KVRecord, copy: KVRecord) {
    && copy.userspaceID == v && copy.key == rec.key && copy.value == rec.value
    && copy.contentType == rec.contentType && copy.valueType == rec.valueType && copy.checksum == rec.checksum
    && (FromMillis(Millis(rec.createdAt)) != ZERO_TIME ==> copy.createdAt == FromMillis(Millis(rec.createdAt)))
  }

  /** In a listing a key has one place. */
  lemma OnePlace(keys: seq<Str>, members: set<Str>, i: nat, j: nat)
    requires SortedListing(keys, members) && i < |keys| && j < |keys| && keys[i] == keys[j]
    ensures i == j
  {
    StrLessTotal(keys[i], keys[j]);
  }

  lemma KeysOfListing(lib: Library, d: Snapshot, u: Str, keys: seq<Str>, records: seq<KVRecord>)
    requires StoreInv(lib, d) && Lists(keys, records, SpaceOf(d, u))
    ensures forall i :: 0 <= i < |keys| ==>
        records[i].key == keys[i] && Stored(d, u, keys[i]) && WellKept(lib, d, u, keys[i])
  {
    forall i | 0 <= i < |keys|
      ensures records[i].key == keys[i] && Stored(d, u, keys[i]) && WellKept(lib, d, u, keys[i])
    {
      assert keys[i] in keys;
      assert Stored(d, u, keys[i]);
    }
  }

  /** What the import leaves under one key. */
  lemma KeyRestored(lib: Library, clock: Clock, d: Snapshot, u: Str, e: Snapshot, e': Snapshot, v: Str,
                    keys: seq<Str>, records: seq<KVRecord>, k: Str)
    requires StoreInv(lib, d) && Lists(keys, records, SpaceOf(d, u))
    requires KeyImported(lib, clock, e, e', v, RestoredAll(lib, records), Replace, |records|, k)
    ensures k in SpaceOf(e', v) <==> k in SpaceOf(d, u)
    ensures k in SpaceOf(d, u) ==> RestoredAs(v, SpaceOf(d, u)[k], SpaceOf(e', v)[k])
  {
    KeysOfListing(lib, d, u, keys, records);
    var back := RestoredAll(lib, records);
    if k in SpaceOf(d, u) {
      assert k in keys;
      var i :| 0 <= i < |keys| && keys[i] == k;
      assert back[i].key == k && Occurs(back, |records|, k);
      forall j | i < j < |records| ensures back[j].key != k {
        if keys[j] == k {
          OnePlace(keys, SpaceOf(d, u).Keys, i, j);
        }
      }
      assert LastAt(back, |records|, k, i);
      assert WellKept(lib, d, u, keys[i]);
    }
  }

  /** Userspace v of e holds what userspace u of d holds, key for key. */
  ghost predicate Restores(d: Snapshot, u: Str, e: Snapshot, v: Str) {
    && SpaceOf(e, v).Keys == SpaceOf(d, u).Keys
    && forall k :: k in SpaceOf(d, u) ==> RestoredAs(v, SpaceOf(d, u)[k], SpaceOf(e, v)[k])
  }

  /** The number of octets of the export file of a list of records. */
  function FileLength(records: seq<KVRecord>): nat {
    60 + RecordsLength(records)
  }

  function RecordsLength(records: seq<KVRecord>): nat {
    if records == [] then 0
    else 71 + |records[0].key| + |records[0].contentType| + |records[0].value| + RecordsLength(records[1..])
  }

  lemma {:induction false} RawsLength(lib: Library, records: seq<KVRecord>)
    ensures |EncodeRaws(ToRaws(lib, records), [])| == RecordsLength(records)
  {
    if records != [] {
      var rs := ToRaws(lib, records);
      assert rs[1..] == ToRaws(lib, records[1..]);
      RawsLength(lib, records[1..]);
      EncodingSize(rs[0], EncodeRaws(rs[1..], []));
    }
  }

  lemma EncodedLength(lib: Library, now: Time, records: seq<KVRecord>)
    ensures |Encoded(lib, now, records)| == FileLength(records)
  {
    RawsLength(lib, records);
  }

  lemma {:induction false} LastOccurrence(records: seq<KVRecord>, n: nat, k: Str) returns (i: nat)
    requires n <= |records| && Occurs(records, n, k)
    ensures LastAt(records, n, k, i)
  {
    if records[n - 1].key == k {
      i := n - 1;
    } else {
      i := LastOccurrence(records, n - 1, k);
    }
  }

  /** What a restored key had to be in the file: a record within the limits. */
  lemma RestoredWasInFile(lib: Library, maxKey: int, maxValue: int, clock: Clock, d: Snapshot, u: Str,
                          e: Snapshot, v: Str, rs: seq<Raw>, k: Str)
    requires AllOk(lib, maxKey, maxValue, rs) && k in SpaceOf(d, u) && SpaceOf(d, u)[k].key == k
    requires Restores(d, u, ImportAll(lib, clock, e, v, FromRaws(lib, rs), Replace).0, v)
    requires InWidth(SpaceOf(d, u)[k])
    ensures Importable(lib, maxKey, maxValue, SpaceOf(d, u)[k])
  {
    var back := FromRaws(lib, rs);
    var e' := ImportAll(lib, clock, e, v, back, Replace).0;
    ImportMeetsSpec(lib, clock, e, v, back, Replace, |back|);
    assert KeyImported(lib, clock, e, e', v, back, Replace, |back|, k);
    assert k in SpaceOf(e', v);
    var i := LastOccurrence(back, |back|, k);
    assert ImportedAs(lib, clock, v, back, i, SpaceOf(e', v)[k]);
    assert RestoredAs(v, SpaceOf(d, u)[k], SpaceOf(e', v)[k]);
    assert RawOk(lib, maxKey, maxValue, rs[i]);
  }

  /** An export followed by an import of the file with replacement, into any
      userspace of any store, is accepted and restores the userspace if and only if
      every record can be carried and the whole file keeps the limit on one value. */
  lemma {:induction false} BackupExact(lib: Library, maxKey: int, maxValue: int, now: Time, clock: Clock,
                                      d: Snapshot, u: Str, e: Snapshot, v: Str, records: seq<KVRecord>)
    requires StoreInv(lib, d) && ListsSpace(records, SpaceOf(d, u)) && |records| <= MAX_INT
    requires forall i :: 0 <= i < |records| ==> InWidth(records[i])
    ensures var r := ImportReply(lib, maxKey, maxValue, clock, e, v, Some(Replace), Encoded(lib, now, records));
            r.0 == 200 && Restores(d, u, r.1, v) <==>
            AllImportable(lib, maxKey, maxValue, records) && FileLength(records) <= maxValue
  {
    var file := Encoded(lib, now, records);
    EncodedLength(lib, now, records);
    if AllImportable(lib, maxKey, maxValue, records) && FileLength(records) <= maxValue {
      BackupRestores(lib, maxKey, maxValue, now, clock, d, u, e, v, records);
    }
    var r := ImportReply(lib, maxKey, maxValue, clock, e, v, Some(Replace), file);
    if r.0 == 200 && Restores(d, u, r.1, v) {
      AcceptedWasImportable(lib, maxKey, maxValue, now, clock, d, u, e, v, records);
    }
  }

  lemma {:induction false} AcceptedWasImportable(lib: Library, maxKey: int, maxValue: int, now: Time, clock: Clock,
                                                d: Snapshot, u: Str, e: Snapshot, v: Str, records: seq<KVRecord>)
    requires StoreInv(lib, d) && ListsSpace(records, SpaceOf(d, u)) && |records| <= MAX_INT
    requires forall i :: 0 <= i < |records| ==> InWidth(records[i])
    requires var r := ImportReply(lib, maxKey, maxValue, clock, e, v, Some(Replace), Encoded(lib, now, records));
             r.0 == 200 && Restores(d, u, r.1, v)
    ensures AllImportable(lib, maxKey, maxValue, records)
  {
    var rs := FileContents(lib, maxKey, maxValue, Encoded(lib, now, records));
    RestoredWereInFile(lib, maxKey, maxValue, clock, d, u, e, v, records, rs);
  }

  lemma FileContents(lib: Library, maxKey: int, maxValue: int, file: Bytes) returns (rs: seq<Raw>)
    requires Decoded(lib, maxKey, maxValue, file).Ok?
    ensures AllOk(lib, maxKey, maxValue, rs) && Decoded(lib, maxKey, maxValue, file) == Ok(FromRaws(lib, rs))
  {
    var (created, raws) := ParseFile(lib, maxKey, maxValue, file).value;
    FileExact(lib, maxKey, maxValue, file, created, raws);
    rs := raws;
  }

  lemma RestoredWereInFile(lib: Library, maxKey: int, maxValue: int, clock: Clock, d: Snapshot, u: Str,
                           e: Snapshot, v: Str, records: seq<KVRecord>, rs: seq<Raw>)
    requires StoreInv(lib, d) && ListsSpace(records, SpaceOf(d, u)) && |records| <= MAX_INT
    requires forall i :: 0 <= i < |records| ==> InWidth(records[i])
    requires AllOk(lib, maxKey, maxValue, rs)
    requires Restores(d, u, ImportAll(lib, clock, e, v, FromRaws(lib, rs), Replace).0, v)
    ensures AllImportable(lib, maxKey, maxValue, records)
  {
    var keys :| Lists(keys, records, SpaceOf(d, u));
    KeysOfListing(lib, d, u, keys, records);
    forall i | 0 <= i < |records| ensures Importable(lib, maxKey, maxValue, records[i]) {
      RestoredWasInFile(lib, maxKey, maxValue, clock, d, u, e, v, rs, keys[i]);
    }
  }

  /** The file of importable records within the limit is decoded, every record is
      imported, and nothing else is touched. */
  lemma {:induction false} BackupRestores(lib: Library, maxKey: int, maxValue: int, now: Time, clock: Clock,
                                         d: Snapshot, u: Str, e: Snapshot, v: Str, records: seq<KVRecord>)
    requires StoreInv(lib, d) && ListsSpace(records, SpaceOf(d, u))
    requires AllImportable(lib, maxKey, maxValue, records) && FileLength(records) <= maxValue
    ensures var back := RestoredAll(lib, records);
            var r := ImportAll(lib, clock, e, v, back, Replace);
            && Decoded(lib, maxKey, maxValue, Encoded(lib, now, records)) == Ok(back)
            && ImportReply(lib, maxKey, maxValue, clock, e, v, Some(Replace), Encoded(lib, now, records)) == (200, r.0)
            && Restores(d, u, r.0, v)
            && r.1.imported == |SpaceOf(d, u)| && r.1.skipped == 0 && r.1.replaced == 0
            && r.0.version == e.version + |SpaceOf(d, u)|
            && forall w :: w != v ==> SpaceOf(r.0, w) == SpaceOf(e, w)
  {
    EncodedLength(lib, now, records);
    RoundTripExact(lib, maxKey, maxValue, now, records);
    ImportRestores(lib, clock, d, u, e, v, records);
  }

  /** The limit bites: one value of the greatest size that a PUT may store makes an
      export of importable records that no import accepts. */
  lemma LargestValueRefused(lib: Library, maxKey: int, maxValue: int, now: Time, clock: Clock, e: Snapshot, v: Str,
                            mode: ImportMode, rec: KVRecord)
    requires Importable(lib, maxKey, maxValue, rec) && |rec.value| == maxValue
    ensures ValueAdmitted(lib, maxKey, maxValue, rec.key, rec.value, rec.contentType)
    ensures AllImportable(lib, maxKey, maxValue, [rec]) && FileLength([rec]) > maxValue
    ensures ImportReply(lib, maxKey, maxValue, clock, e, v, Some(mode), Encoded(lib, now, [rec])) == (413, e)
  {
    EncodedLength(lib, now, [rec]);
  }

  /** For what the handlers let in, on any run of admitted calls: an export is
      restored by an import if and only if its content types have at most 255
      octets and the file keeps the limit. */
  lemma {:induction false} BackupOfAdmitted(c: CoordinatorSpec.Config, maxKey: int, maxValue: int, now: Time,
                                           clock: Clock, es: seq<System.Event>, d: Snapshot, u: Str, e: Snapshot,
                                               v: Str, records: seq<KVRecord>)
    requires d == System.Run(c, EMPTY_SNAPSHOT, es) && ListsSpace(records, SpaceOf(d, u))
    requires RunAdmitted(c.lib, maxKey, maxValue, es) && LimitsOk(maxKey, maxValue) && |records| <= MAX_INT
    requires forall i :: 0 <= i < |records| ==> InWidth(records[i])
    ensures var r := ImportReply(c.lib, maxKey, maxValue, clock, e, v, Some(Replace), Encoded(c.lib, now, records));
            r.0 == 200 && Restores(d, u, r.1, v) <==>
            && (forall i :: 0 <= i < |records| ==> |records[i].contentType| <= MAX_CONTENT_TYPE)
            && FileLength(records) <= maxValue
  {
    Lifecycle.EmptyStoreInv(c);
    Lifecycle.RunKeepsInv(c, EMPTY_SNAPSHOT, es);
    BackupExact(c.lib, maxKey, maxValue, now, clock, d, u, e, v, records);
    var keys :| Lists(keys, records, SpaceOf(d, u));
    KeysOfListing(c.lib, d, u, keys, records);
    forall i | 0 <= i < |records|
      ensures Importable(c.lib, maxKey, maxValue, records[i]) <==> |records[i].contentType| <= MAX_CONTENT_TYPE
    {
      AdmittedImportable(c, maxKey, maxValue, EMPTY_SNAPSHOT, es, u, keys[i]);
    }
  }

  lemma KeysRestored(lib: Library, clock: Clock, d: Snapshot, u: Str, e: Snapshot, v: Str,
                     keys: seq<Str>, records: seq<KVRecord>)
    requires StoreInv(lib, d) && Lists(keys, records, SpaceOf(d, u))
    ensures Restores(d, u, ImportAll(lib, clock, e, v, RestoredAll(lib, records), Replace).0, v)
  {
    var back := RestoredAll(lib, records);
    var after := ImportAll(lib, clock, e, v, back, Replace).0;
    forall k ensures (k in SpaceOf(after, v) <==> k in SpaceOf(d, u))
      && (k in SpaceOf(d, u) ==> RestoredAs(v, SpaceOf(d, u)[k], SpaceOf(after, v)[k]))
    {
      KeyAfterImport(lib, clock, e, v, back, k);
      KeyRestored(lib, clock, d, u, e, after, v, keys, records, k);
    }
  }

  lemma KeyAfterImport(lib: Library, clock: Clock, e: Snapshot, v: Str, back: seq<KVRecord>, k: Str)
    ensures KeyImported(lib, clock, e, ImportAll(lib, clock, e, v, back, Replace).0, v, back, Replace, |back|, k)
  {
    ImportMeetsSpec(lib, clock, e, v, back, Replace, |back|);
  }

  lemma CountsAfterImport(lib: Library, clock: Clock, e: Snapshot, v: Str, back: seq<KVRecord>)
    ensures var r := ImportAll(lib, clock, e, v, back, Replace);
            && r.1.imported == |back| && r.1.skipped == 0 && |SpaceOf(r.0, v)| == |back| - r.1.replaced
            && r.0.version == e.version + |back|
            && forall w :: w != v ==> SpaceOf(r.0, w) == SpaceOf(e, w)
  {
    ImportMeetsSpec(lib, clock, e, v, back, Replace, |back|);
  }

  lemma ImportRestores(lib: Library, clock: Clock, d: Snapshot, u: Str, e: Snapshot, v: Str, records: seq<KVRecord>)
    requires StoreInv(lib, d) && ListsSpace(records, SpaceOf(d, u))
    ensures var r := ImportAll(lib, clock, e, v, RestoredAll(lib, records), Replace);
            && Restores(d, u, r.0, v)
            && r.1.imported == |SpaceOf(d, u)| && r.1.skipped == 0 && r.1.replaced == 0
            && r.0.version == e.version + |SpaceOf(d, u)|
            && forall w :: w != v ==> SpaceOf(r.0, w) == SpaceOf(e, w)
  {
    var keys :| Lists(keys, records, SpaceOf(d, u));
    KeysRestored(lib, clock, d, u, e, v, keys, records);
    CountsAfterImport(lib, clock, e, v, RestoredAll(lib, records));
    ListingSize(keys, SpaceOf(d, u).Keys);
    SameSize(SpaceOf(ImportAll(lib, clock, e, v, RestoredAll(lib, records), Replace).0, v), SpaceOf(d, u));
  }

  lemma SameSize(a: Space, b: Space)
    requires forall k :: k in a <==> k in b
    ensures a.Keys == b.Keys && |a| == |b|
  {
    assert a.Keys == b.Keys;
    assert |a| == |a.Keys| && |b| == |b.Keys|;
  }

  lemma {:induction false} ListingSize(keys: seq<Str>, members: set<Str>)
    requires SortedListing(keys, members)
    ensures |keys| == |members|
  {
    if keys == [] {
      assert members == {};
    } else {
      var last := |keys| - 1;
      var others := members - {keys[last]};
      forall x ensures x in keys[..last] <==> x in others {
        if x in keys[..last] {
          var i :| 0 <= i < last && keys[i] == x;
          if x == keys[last] {
            OnePlace(keys, members, i, last);
          }
        }
        if x in others {
          assert x in keys;
        }
      }
      ListingSize(keys[..last], others);
    }
  }
}
