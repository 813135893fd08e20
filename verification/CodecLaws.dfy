/** The format is exact: a file decodes to given header time and records exactly
    when it is their encoding and they are within the decoder's limits. */
module CodecLaws {
  import opened Model
  import opened BigEndian
  import opened CodecSpec

  // ---- one record ----

  /** The limits a record in a file must keep. */
  predicate RawOk(lib: Library, maxKey: int, maxValue: int, r: Raw) {
    && KeyFits(lib, maxKey, r.key)
    && |r.contentType| <= MAX_CONTENT_TYPE
    && |r.value| <= ToUint64(maxValue) && |r.value| <= MAX_INT
    && r.version < 0x1_0000_0000_0000_0000
    && r.createdMS < 0x1_0000_0000_0000_0000 && r.updatedMS < 0x1_0000_0000_0000_0000
    && r.sum == lib.sha256(r.value)
    && ValidValue(lib, r.contentType, r.value)
  }

  predicate KeyFits(lib: Library, maxKey: int, key: Bytes) {
    ValidKey(lib, key, maxKey) && |key| <= ToUint32(maxKey) && |key| <= ToUint64(maxKey) && |key| <= MAX_INT
  }

  lemma FieldExact(rest: Bytes, n: nat, a: Bytes, tail: Bytes)
    ensures Field(rest, n) == Ok((a, tail)) <==> |a| == n && rest == a + tail
  {
    if |a| == n && rest == a + tail {
      TakeConcat(a, tail);
    }
  }

  lemma Uint64Exact(rest: Bytes, n: nat, tail: Bytes)
    ensures ParseUint64(rest) == Ok((n, tail)) <==> n < 0x1_0000_0000_0000_0000 && rest == Put(n, 8) + tail
  {
    Widths();
    GetPut(n, 8);
    FieldExact(rest, 8, Put(n, 8), tail);
    if |rest| >= 8 {
      PutGet(rest[..8]);
      GetBound(rest[..8]);
    }
  }

  /** A length of w octets and that many octets. */
  lemma {:induction false} PrefixedWritten(w: nat, x: Bytes, tail: Bytes)
    requires |x| < Pow256(w)
    ensures var rest := Put(|x|, w) + (x + tail);
            && Field(rest, w) == Ok((Put(|x|, w), x + tail)) && Get(Put(|x|, w)) == |x|
            && Field(x + tail, |x|) == Ok((x, tail))
  {
    GetPut(|x|, w);
    FieldExact(Put(|x|, w) + (x + tail), w, Put(|x|, w), x + tail);
    FieldExact(x + tail, |x|, x, tail);
  }

  lemma PrefixedRead(w: nat, rest: Bytes, len: Bytes, r: Bytes, x: Bytes, tail: Bytes)
    requires Field(rest, w) == Ok((len, r)) && Field(r, Get(len)) == Ok((x, tail))
    ensures rest == Put(|x|, w) + (x + tail)
  {
    FieldExact(rest, w, len, r);
    FieldExact(r, Get(len), x, tail);
    PutGet(len);
  }

  lemma KeyExact(lib: Library, maxKey: int, rest: Bytes, key: Bytes, tail: Bytes)
    ensures ParseKey(lib, maxKey, rest) == Ok((key, tail)) <==>
            KeyFits(lib, maxKey, key) && rest == Put(|key|, 4) + (key + tail)
  {
    if KeyFits(lib, maxKey, key) && rest == Put(|key|, 4) + (key + tail) {
      Widths();
      PrefixedWritten(4, key, tail);
    }
    if ParseKey(lib, maxKey, rest) == Ok((key, tail)) {
      var (len, r) := Field(rest, 4).value;
      PrefixedRead(4, rest, len, r, key, tail);
    }
  }

  lemma ContentTypeExact(rest: Bytes, ct: Bytes, tail: Bytes)
    ensures ParseContentType(rest) == Ok((ct, tail)) <==>
            |ct| <= MAX_CONTENT_TYPE && rest == Put(|ct|, 2) + (ct + tail)
  {
    if |ct| <= MAX_CONTENT_TYPE && rest == Put(|ct|, 2) + (ct + tail) {
      Widths();
      PrefixedWritten(2, ct, tail);
    }
    if ParseContentType(rest) == Ok((ct, tail)) {
      var (len, r) := Field(rest, 2).value;
      PrefixedRead(2, rest, len, r, ct, tail);
    }
  }

  lemma ValueExact(maxValue: int, rest: Bytes, value: Bytes, tail: Bytes)
    ensures ParseValue(maxValue, rest) == Ok((value, tail)) <==>
            |value| <= ToUint64(maxValue) && |value| <= MAX_INT && rest == Put(|value|, 8) + (value + tail)
  {
    Uint64Exact(rest, |value|, value + tail);
    FieldExact(value + tail, |value|, value, tail);
    if ParseUint64(rest).Ok? {
      var (n, r) := ParseUint64(rest).value;
      Uint64Exact(rest, n, r);
      FieldExact(r, n, value, tail);
    }
  }

  lemma StampsExact(rest: Bytes, v: nat, c: nat, u: nat, tail: Bytes)
    ensures ParseStamps(rest) == Ok(((v, c, u), tail)) <==>
            && v < 0x1_0000_0000_0000_0000 && c < 0x1_0000_0000_0000_0000 && u < 0x1_0000_0000_0000_0000
            && rest == Put(v, 8) + (Put(c, 8) + (Put(u, 8) + tail))
  {
    var t2 := Put(u, 8) + tail;
    var t1 := Put(c, 8) + t2;
    Uint64Exact(rest, v, t1);
    Uint64Exact(t1, c, t2);
    Uint64Exact(t2, u, tail);
    if ParseStamps(rest) == Ok(((v, c, u), tail)) {
      var r1 := ParseUint64(rest).value.1;
      Uint64Exact(rest, v, r1);
      var r2 := ParseUint64(r1).value.1;
      Uint64Exact(r1, c, r2);
      Uint64Exact(r2, u, tail);
    }
  }

  lemma ParseOfEncoding(lib: Library, maxKey: int, maxValue: int, r: Raw, tail: Bytes)
    requires RawOk(lib, maxKey, maxValue, r)
    ensures ParseRecord(lib, maxKey, maxValue, EncodeRaw(r, tail)) == Ok((r, tail))
  {
    var t7 := r.sum + tail;
    var t6 := Put(r.updatedMS, 8) + t7;
    var t5 := Put(r.createdMS, 8) + t6;
    var t4 := Put(r.version, 8) + t5;
    var t3 := Put(|r.value|, 8) + (r.value + t4);
    var t2 := [r.typeByte] + t3;
    var t1 := Put(|r.contentType|, 2) + (r.contentType + t2);
    KeyExact(lib, maxKey, EncodeRaw(r, tail), r.key, t1);
    ContentTypeExact(t1, r.contentType, t2);
    FieldExact(t2, 1, [r.typeByte], t3);
    ValueExact(maxValue, t3, r.value, t4);
    StampsExact(t4, r.version, r.createdMS, r.updatedMS, t7);
    FieldExact(t7, 32, r.sum, tail);
  }

  lemma {:induction false} EncodingOfParse(lib: Library, maxKey: int, maxValue: int, rest: Bytes)
    requires ParseRecord(lib, maxKey, maxValue, rest).Ok?
    ensures var (r, tail) := ParseRecord(lib, maxKey, maxValue, rest).value;
            RawOk(lib, maxKey, maxValue, r) && rest == EncodeRaw(r, tail)
  {
    var (key, r1) := ParseKey(lib, maxKey, rest).value;
    KeyExact(lib, maxKey, rest, key, r1);
    var (ct, r2) := ParseContentType(r1).value;
    ContentTypeExact(r1, ct, r2);
    var (vt, r3) := Field(r2, 1).value;
    FieldExact(r2, 1, vt, r3);
    assert vt == [vt[0]];
    var (value, r4) := ParseValue(maxValue, r3).value;
    ValueExact(maxValue, r3, value, r4);
    var (stamps, r5) := ParseStamps(r4).value;
    StampsExact(r4, stamps.0, stamps.1, stamps.2, r5);
    var (sum, r6) := Field(r5, 32).value;
    FieldExact(r5, 32, sum, r6);
  }

  /** A record is read, with what follows it left over, exactly when it keeps the
      limits and the octets begin with its encoding. */
  lemma ParseRecordExact(lib: Library, maxKey: int, maxValue: int, rest: Bytes, r: Raw, tail: Bytes)
    ensures ParseRecord(lib, maxKey, maxValue, rest) == Ok((r, tail)) <==>
            RawOk(lib, maxKey, maxValue, r) && rest == EncodeRaw(r, tail)
  {
    if ParseRecord(lib, maxKey, maxValue, rest) == Ok((r, tail)) {
      EncodingOfParse(lib, maxKey, maxValue, rest);
    }
    if RawOk(lib, maxKey, maxValue, r) && rest == EncodeRaw(r, tail) {
      ParseOfEncoding(lib, maxKey, maxValue, r, tail);
    }
  }

  // ---- lists of records ----

  predicate AllOk(lib: Library, maxKey: int, maxValue: int, rs: seq<Raw>) {
    forall i :: 0 <= i < |rs| ==> RawOk(lib, maxKey, maxValue, rs[i])
  }

  lemma {:induction false} ParseRecordsExact(lib: Library, maxKey: int, maxValue: int, rest: Bytes, rs: seq<Raw>,
                                             tail: Bytes)
    ensures ParseMany(RecordParser(lib, maxKey, maxValue), rest, |rs|) == Ok((rs, tail)) <==>
            AllOk(lib, maxKey, maxValue, rs) && rest == EncodeRaws(rs, tail)
    decreases |rs|
  {
    if rs != [] {
      var after := EncodeRaws(rs[1..], tail);
      assert rs == [rs[0]] + rs[1..];
      assert AllOk(lib, maxKey, maxValue, rs) <==>
          RawOk(lib, maxKey, maxValue, rs[0]) && AllOk(lib, maxKey, maxValue, rs[1..]);
      ParseRecordExact(lib, maxKey, maxValue, rest, rs[0], after);
      ParseRecordsExact(lib, maxKey, maxValue, after, rs[1..], tail);
      match ParseRecord(lib, maxKey, maxValue, rest)
      case Err(_) =>
      case Ok(p) =>
        ParseRecordExact(lib, maxKey, maxValue, rest, p.0, p.1);
        ParseRecordsExact(lib, maxKey, maxValue, p.1, rs[1..], tail);
    }
  }

  // ---- the record-count guard ----

  lemma EncodingSize(r: Raw, tail: Bytes)
    requires |r.sum| == 32
    ensures |EncodeRaw(r, tail)| == MIN_RECORD - 1 + |r.key| + |r.contentType| + |r.value| + |tail|
  {
  }

  /** Every record that is read consumes at least the minimal encoded length. */
  lemma RecordConsumes(lib: Library, maxKey: int, maxValue: int, rest: Bytes)
    requires ParseRecord(lib, maxKey, maxValue, rest).Ok?
    ensures |ParseRecord(lib, maxKey, maxValue, rest).value.1| + MIN_RECORD <= |rest|
  {
    EncodingOfParse(lib, maxKey, maxValue, rest);
    EncodingSize(ParseRecord(lib, maxKey, maxValue, rest).value.0, ParseRecord(lib, maxKey, maxValue, rest).value.1);
  }

  lemma {:induction false} EncodingsSize(lib: Library, maxKey: int, maxValue: int, rs: seq<Raw>, tail: Bytes)
    requires AllOk(lib, maxKey, maxValue, rs)
    ensures |rs| * MIN_RECORD + |tail| <= |EncodeRaws(rs, tail)|
  {
    if rs != [] {
      EncodingsSize(lib, maxKey, maxValue, rs[1..], tail);
      EncodingSize(rs[0], EncodeRaws(rs[1..], tail));
      assert RawOk(lib, maxKey, maxValue, rs[0]);
    }
  }

  /** The guard on the record count never rejects the encoding of valid records. */
  lemma GuardAdmitsEncodings(lib: Library, maxKey: int, maxValue: int, rs: seq<Raw>)
    requires AllOk(lib, maxKey, maxValue, rs)
    ensures |rs| <= MaxRecordCount(|EncodeRaws(rs, [])|)
  {
    EncodingsSize(lib, maxKey, maxValue, rs, []);
  }

  // ---- files ----

  lemma {:induction false} BodyExact(lib: Library, maxKey: int, maxValue: int, payload: Bytes, created: nat,
                                     rs: seq<Raw>)
    ensures ParseBody(lib, maxKey, maxValue, payload) == Ok((created, rs)) <==>
            && AllOk(lib, maxKey, maxValue, rs)
            && created < 0x1_0000_0000_0000_0000 && |rs| < 0x1_0000_0000_0000_0000
            && payload == Body(created, rs)
  {
    Widths();
    var t4 := EncodeRaws(rs, []);
    var t3 := Put(|rs|, 8) + t4;
    var t2 := Put(created, 8) + t3;
    var t1 := Put(FORMAT_VERSION, 4) + t2;
    GetPut(FORMAT_VERSION, 4);
    FieldExact(payload, 8, MAGIC, t1);
    FieldExact(t1, 4, Put(FORMAT_VERSION, 4), t2);
    Uint64Exact(t2, created, t3);
    Uint64Exact(t3, |rs|, t4);
    ParseRecordsExact(lib, maxKey, maxValue, t4, rs, []);
    if AllOk(lib, maxKey, maxValue, rs) {
      GuardAdmitsEncodings(lib, maxKey, maxValue, rs);
    }
    if ParseBody(lib, maxKey, maxValue, payload) == Ok((created, rs)) {
      BodyParsed(lib, maxKey, maxValue, payload, created, rs);
    }
  }

  lemma {:induction false} BodyParsed(lib: Library, maxKey: int, maxValue: int, payload: Bytes, created: nat,
                                      rs: seq<Raw>)
    requires ParseBody(lib, maxKey, maxValue, payload) == Ok((created, rs))
    ensures AllOk(lib, maxKey, maxValue, rs)
    ensures created < 0x1_0000_0000_0000_0000 && |rs| < 0x1_0000_0000_0000_0000
    ensures payload == Body(created, rs)
  {
    Widths();
    var (magic, r1) := Field(payload, 8).value;
    FieldExact(payload, 8, magic, r1);
    var (version, r2) := Field(r1, 4).value;
    FieldExact(r1, 4, version, r2);
    PutGet(version);
    var (made, r3) := Field(r2, 8).value;
    FieldExact(r2, 8, made, r3);
    PutGet(made);
    GetBound(made);
    var (count, r4) := Field(r3, 8).value;
    FieldExact(r3, 8, count, r4);
    PutGet(count);
    GetBound(count);
    ParseRecordsExact(lib, maxKey, maxValue, r4, rs, []);
  }

  /** A file decodes to given header time and records exactly when the records keep
      the limits and the file is their encoding. Round trip, canonicity and
      injectivity of the format are its two directions. */
  lemma {:induction false} FileExact(lib: Library, maxKey: int, maxValue: int, data: Bytes, created: nat, rs: seq<Raw>)
    ensures ParseFile(lib, maxKey, maxValue, data) == Ok((created, rs)) <==>
            && AllOk(lib, maxKey, maxValue, rs)
            && created < 0x1_0000_0000_0000_0000 && |rs| < 0x1_0000_0000_0000_0000
            && data == Sealed(lib, Body(created, rs))
  {
    var body := Body(created, rs);
    SealExact(lib, data, body);
    BodyLength(created, rs);
    BodyExact(lib, maxKey, maxValue, body, created, rs);
    if ParseFile(lib, maxKey, maxValue, data) == Ok((created, rs)) {
      BodyExact(lib, maxKey, maxValue, data[..|data| - 32], created, rs);
    }
  }

  lemma SealExact(lib: Library, data: Bytes, body: Bytes)
    ensures data == Sealed(lib, body) <==>
            |data| >= 32 && data[..|data| - 32] == body && data[|data| - 32..] == lib.sha256(body)
  {
    if data == Sealed(lib, body) {
      TakeConcat(body, lib.sha256(body));
    }
  }

  lemma BodyLength(created: nat, rs: seq<Raw>)
    ensures |Body(created, rs)| >= 8 + 4 + 8 + 8
  {
  }
}
