/** What the exactness of the format means for records: what an export followed by
    an import preserves, when, and when two files with equal content are equal. */
module RoundTrip {
  import opened Model
  import opened BigEndian
  import opened CodecSpec
  import opened CodecLaws

  /** A record that a file can carry and the decoder admits. */
  predicate Importable(lib: Library, maxKey: int, maxValue: int, rec: KVRecord) {
    && KeyFits(lib, maxKey, rec.key)
    && |rec.contentType| <= MAX_CONTENT_TYPE
    && |rec.value| <= ToUint64(maxValue) && |rec.value| <= MAX_INT
    && ValidValue(lib, rec.contentType, rec.value)
    && rec.version < 0x1_0000_0000_0000_0000
    && IsInt64(Millis(rec.createdAt)) && IsInt64(Millis(rec.updatedAt))
  }

  /** A record as it comes back: key, value, types and version unchanged, its
      times cut to the millisecond, its checksum that of the value, no owner. */
  function Restored(lib: Library, rec: KVRecord): KVRecord {
    rec.(userspaceID := [], createdAt := FromMillis(Millis(rec.createdAt)),
         updatedAt := FromMillis(Millis(rec.updatedAt)), checksum := lib.checksum(rec.value))
  }

  function RestoredAll(lib: Library, records: seq<KVRecord>): (r: seq<KVRecord>)
    ensures |r| == |records|
  {
    seq(|records|, i requires 0 <= i < |records| => Restored(lib, records[i]))
  }

  predicate AllImportable(lib: Library, maxKey: int, maxValue: int, records: seq<KVRecord>) {
    |records| < 0x1_0000_0000_0000_0000 && forall i :: 0 <= i < |records| ==>
        Importable(lib, maxKey, maxValue, records[i])
  }

  lemma RawOfImportable(lib: Library, maxKey: int, maxValue: int, rec: KVRecord)
    requires Importable(lib, maxKey, maxValue, rec)
    ensures RawOk(lib, maxKey, maxValue, ToRaw(lib, rec)) && FromRaw(lib, ToRaw(lib, rec)) == Restored(lib, rec)
  {
    SignedRoundTrip(Millis(rec.createdAt));
    SignedRoundTrip(Millis(rec.updatedAt));
  }

  lemma ImportableOfRaw(lib: Library, maxKey: int, maxValue: int, r: Raw, rec: KVRecord)
    requires RawOk(lib, maxKey, maxValue, r) && FromRaw(lib, r) == Restored(lib, rec)
    ensures Importable(lib, maxKey, maxValue, rec)
  {
    UnsignedRoundTrip(r.createdMS);
    UnsignedRoundTrip(r.updatedMS);
  }

  /** The encoding of any list of records decodes to the same list, up to what the
      format does not carry, exactly when every record is importable. */
  lemma {:induction false} RoundTripExact(lib: Library, maxKey: int, maxValue: int, now: Time, records: seq<KVRecord>)
    ensures Decoded(lib, maxKey, maxValue, Encoded(lib, now, records)) == Ok(RestoredAll(lib, records)) <==>
            AllImportable(lib, maxKey, maxValue, records)
  {
    var data, made := Encoded(lib, now, records), ToUint64(Millis(now));
    if AllImportable(lib, maxKey, maxValue, records) {
      var rs := ToRaws(lib, records);
      forall i | 0 <= i < |records|
        ensures RawOk(lib, maxKey, maxValue, rs[i]) && FromRaw(lib, rs[i]) == Restored(lib, records[i])
      {
        RawOfImportable(lib, maxKey, maxValue, records[i]);
      }
      FileExact(lib, maxKey, maxValue, data, made, rs);
      assert FromRaws(lib, rs) == RestoredAll(lib, records);
    }
    if Decoded(lib, maxKey, maxValue, data) == Ok(RestoredAll(lib, records)) {
      var (created, rs) := ParseFile(lib, maxKey, maxValue, data).value;
      FileExact(lib, maxKey, maxValue, data, created, rs);
      assert FromRaws(lib, rs) == RestoredAll(lib, records);
      forall i | 0 <= i < |records| ensures Importable(lib, maxKey, maxValue, records[i]) {
        assert FromRaws(lib, rs)[i] == RestoredAll(lib, records)[i];
        ImportableOfRaw(lib, maxKey, maxValue, rs[i], records[i]);
      }
    }
  }

  lemma RawIsStable(lib: Library, maxKey: int, maxValue: int, r: Raw)
    requires RawOk(lib, maxKey, maxValue, r)
    ensures Importable(lib, maxKey, maxValue, FromRaw(lib, r)) && Restored(lib, FromRaw(lib, r)) == FromRaw(lib, r)
  {
    MillisBack(r.createdMS);
    MillisBack(r.updatedMS);
  }

  /** Whatever the decoder accepts is importable again as it stands, and carries its
      own checksum: a second trip changes nothing. */
  lemma {:induction false} DecodedIsStable(lib: Library, maxKey: int, maxValue: int, data: Bytes, now: Time)
    requires Decoded(lib, maxKey, maxValue, data).Ok?
    ensures var records := Decoded(lib, maxKey, maxValue, data).value;
            && AllImportable(lib, maxKey, maxValue, records)
            && (forall i :: 0 <= i < |records| ==> records[i].checksum == lib.checksum(records[i].value))
            && Decoded(lib, maxKey, maxValue, Encoded(lib, now, records)) == Ok(records)
  {
    var (created, rs) := ParseFile(lib, maxKey, maxValue, data).value;
    FileExact(lib, maxKey, maxValue, data, created, rs);
    AllStable(lib, maxKey, maxValue, rs);
    RoundTripExact(lib, maxKey, maxValue, now, FromRaws(lib, rs));
  }

  lemma AllStable(lib: Library, maxKey: int, maxValue: int, rs: seq<Raw>)
    requires AllOk(lib, maxKey, maxValue, rs) && |rs| < 0x1_0000_0000_0000_0000
    ensures AllImportable(lib, maxKey, maxValue, FromRaws(lib, rs))
    ensures RestoredAll(lib, FromRaws(lib, rs)) == FromRaws(lib, rs)
  {
    forall i | 0 <= i < |rs|
      ensures Importable(lib, maxKey, maxValue, FromRaw(lib, rs[i]))
          && Restored(lib, FromRaw(lib, rs[i])) == FromRaw(lib, rs[i])
    {
      assert RawOk(lib, maxKey, maxValue, rs[i]);
      RawIsStable(lib, maxKey, maxValue, rs[i]);
    }
  }

  lemma MillisBack(ms: nat)
    requires ms < 0x1_0000_0000_0000_0000
    ensures Millis(FromMillis(ToInt64(ms))) == ToInt64(ms)
    ensures ToUint64(Millis(FromMillis(ToInt64(ms)))) == ms && IsInt64(ToInt64(ms))
  {
    UnsignedRoundTrip(ms);
  }

  predicate CanonicalTypes(rs: seq<Raw>) {
    forall i :: 0 <= i < |rs| ==> 1 <= rs[i].typeByte <= 3
  }

  lemma RawAgain(lib: Library, maxKey: int, maxValue: int, r: Raw)
    requires RawOk(lib, maxKey, maxValue, r)
    ensures RawOk(lib, maxKey, maxValue, ToRaw(lib, FromRaw(lib, r)))
    ensures ToRaw(lib, FromRaw(lib, r)) == r <==> 1 <= r.typeByte <= 3
  {
    UnsignedRoundTrip(r.createdMS);
    UnsignedRoundTrip(r.updatedMS);
  }

  /** Canonicity: an accepted file is the encoding of the records it decodes to,
      with its own header time, exactly when its value-type octets are 1, 2 or 3. */
  lemma {:induction false} CanonicalExact(lib: Library, maxKey: int, maxValue: int, data: Bytes, created: nat,
                                          rs: seq<Raw>, now: Time)
    requires ParseFile(lib, maxKey, maxValue, data) == Ok((created, rs)) && ToUint64(Millis(now)) == created
    ensures Encoded(lib, now, FromRaws(lib, rs)) == data <==> CanonicalTypes(rs)
  {
    FileExact(lib, maxKey, maxValue, data, created, rs);
    var again := ToRaws(lib, FromRaws(lib, rs));
    forall i | 0 <= i < |rs|
      ensures RawOk(lib, maxKey, maxValue, again[i]) && (again[i] == rs[i] <==> 1 <= rs[i].typeByte <= 3)
    {
      assert RawOk(lib, maxKey, maxValue, rs[i]);
      RawAgain(lib, maxKey, maxValue, rs[i]);
    }
    if CanonicalTypes(rs) {
      assert again == rs;
    }
    if Encoded(lib, now, FromRaws(lib, rs)) == data {
      FileExact(lib, maxKey, maxValue, data, created, again);
      assert again == rs;
    }
  }

  /** Two accepted files with canonical types, the same header time and the same
      decoded records are the same file. */
  lemma {:induction false} SameRecordsSameFile(lib: Library, maxKey: int, maxValue: int, a: Bytes, b: Bytes,
                                               created: nat, rs: seq<Raw>, ss: seq<Raw>)
    requires ParseFile(lib, maxKey, maxValue, a) == Ok((created, rs)) && CanonicalTypes(rs)
    requires ParseFile(lib, maxKey, maxValue, b) == Ok((created, ss)) && CanonicalTypes(ss)
    requires FromRaws(lib, rs) == FromRaws(lib, ss)
    ensures a == b
  {
    FileExact(lib, maxKey, maxValue, a, created, rs);
    var now := FromMillis(ToInt64(created));
    MillisBack(created);
    CanonicalExact(lib, maxKey, maxValue, a, created, rs, now);
    CanonicalExact(lib, maxKey, maxValue, b, created, ss, now);
  }

  /** The law is bounded by the content type: a record whose content type has 256
      to 65535 octets is written, and its file is then refused. */
  lemma LongContentTypeRefused(lib: Library, maxKey: int, maxValue: int, now: Time, rec: KVRecord)
    requires KeyFits(lib, maxKey, rec.key) && MAX_CONTENT_TYPE < |rec.contentType| < 0x1_0000
    ensures Decoded(lib, maxKey, maxValue, Encoded(lib, now, [rec])) == Err(InvalidFormat)
  {
    Widths();
    var made, rs := ToUint64(Millis(now)), ToRaws(lib, [rec]);
    var r, body := ToRaw(lib, rec), Body(ToUint64(Millis(now)), ToRaws(lib, [rec]));
    assert rs == [r] && rs[1..] == [];
    var t4 := EncodeRaw(r, []);
    assert EncodeRaws(rs, []) == t4;
    var t3 := Put(1, 8) + t4;
    var t2 := Put(made, 8) + t3;
    var t1 := Put(FORMAT_VERSION, 4) + t2;
    GetPut(FORMAT_VERSION, 4);
    GetPut(1, 8);
    FieldExact(body, 8, MAGIC, t1);
    FieldExact(t1, 4, Put(FORMAT_VERSION, 4), t2);
    FieldExact(t2, 8, Put(made, 8), t3);
    FieldExact(t3, 8, Put(1, 8), t4);
    EncodingSize(r, []);
    LongContentTypeStops(lib, maxKey, maxValue, r);
    assert ParseMany(RecordParser(lib, maxKey, maxValue), t4, 1) == Err(InvalidFormat);
    SealExact(lib, Sealed(lib, body), body);
    BodyLength(made, rs);
  }

  lemma {:induction false} LongContentTypeStops(lib: Library, maxKey: int, maxValue: int, r: Raw)
    requires KeyFits(lib, maxKey, r.key) && MAX_CONTENT_TYPE < |r.contentType| < 0x1_0000
    ensures ParseRecord(lib, maxKey, maxValue, EncodeRaw(r, [])) == Err(InvalidFormat)
  {
    Widths();
    var t := r.contentType + ([r.typeByte] + (Put(|r.value|, 8) + (r.value + (Put(r.version, 8) +
             (Put(r.createdMS, 8) + (Put(r.updatedMS, 8) + (r.sum + [])))))));
    KeyExact(lib, maxKey, EncodeRaw(r, []), r.key, Put(|r.contentType|, 2) + t);
    GetPut(|r.contentType|, 2);
    FieldExact(Put(|r.contentType|, 2) + t, 2, Put(|r.contentType|, 2), t);
  }
}
