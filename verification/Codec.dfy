/** Encode and Decode as the code performs them: a buffer that grows field by
    field, and a reader that moves through the octets. */
module Codec {
  import opened Model
  import opened BigEndian
  import opened CodecSpec

  lemma Regroup(a: Bytes, b: Bytes, c: Bytes)
    ensures (a + b) + c == a + (b + c)
  {
  }

  /** Write one record at the end of the buffer. */
  method EncodeRecord(lib: Library, body: Bytes, rec: KVRecord, ghost tail: Bytes) returns (next: Bytes)
    ensures next + tail == body + EncodeRaw(ToRaw(lib, rec), tail)
  {
    ghost var r := ToRaw(lib, rec);
    var b1 := body + Put(|rec.key|, 4);
    var b2 := b1 + rec.key;
    var b3 := b2 + Put(|rec.contentType|, 2);
    var b4 := b3 + rec.contentType;
    var b5 := b4 + [TypeByte(rec.valueType)];
    var b6 := b5 + Put(|rec.value|, 8);
    var b7 := b6 + rec.value;
    var b8 := b7 + Put(rec.version, 8);
    var b9 := b8 + Put(ToUint64(Millis(rec.createdAt)), 8);
    var b10 := b9 + Put(ToUint64(Millis(rec.updatedAt)), 8);
    next := b10 + lib.sha256(rec.value);
    ghost var t11 := r.sum + tail;
    ghost var t10 := Put(r.updatedMS, 8) + t11;
    ghost var t9 := Put(r.createdMS, 8) + t10;
    ghost var t8 := Put(r.version, 8) + t9;
    ghost var t7 := r.value + t8;
    ghost var t6 := Put(|r.value|, 8) + t7;
    ghost var t5 := [r.typeByte] + t6;
    ghost var t4 := r.contentType + t5;
    ghost var t3 := Put(|r.contentType|, 2) + t4;
    ghost var t2 := r.key + t3;
    Regroup(b10, r.sum, tail);
    Regroup(b9, Put(r.updatedMS, 8), t11);
    Regroup(b8, Put(r.createdMS, 8), t10);
    Regroup(b7, Put(r.version, 8), t9);
    Regroup(b6, r.value, t8);
    Regroup(b5, Put(|r.value|, 8), t7);
    Regroup(b4, [r.typeByte], t6);
    Regroup(b3, r.contentType, t5);
    Regroup(b2, Put(|r.contentType|, 2), t4);
    Regroup(b1, r.key, t3);
    Regroup(body, Put(|r.key|, 4), t2);
  }

  method Encode(lib: Library, now: Time, records: seq<KVRecord>) returns (data: Bytes)
    ensures data == Encoded(lib, now, records)
  {
    ghost var rs := ToRaws(lib, records);
    var body := MAGIC;
    body := body + Put(FORMAT_VERSION, 4);
    body := body + Put(ToUint64(Millis(now)), 8);
    body := body + Put(|records|, 8);
    ghost var whole := Body(ToUint64(Millis(now)), rs);
    assert whole == body + EncodeRaws(rs, []);
    assert rs[0..] == rs;
    var i := 0;
    while i < |records|
      invariant i <= |records|
      invariant whole == body + EncodeRaws(rs[i..], [])
    {
      assert rs[i..][0] == rs[i] && rs[i..][1..] == rs[i + 1..];
      body := EncodeRecord(lib, body, records[i], EncodeRaws(rs[i + 1..], []));
      i := i + 1;
    }
    assert rs[i..] == [] && body + [] == body;
    data := body + lib.sha256(body);
  }

  // ---- reading ----

  method ReadField(r: Reader, n: nat) returns (b: Result<Bytes, DecodeError>)
    requires r.Valid()
    modifies r
    ensures r.Valid()
    ensures match Field(old(r.Rest()), n)
            case Ok(p) => b == Ok(p.0) && r.Rest() == p.1
            case Err(e) => b == Err(e)
  {
    var read := r.ReadFull(n);
    match read
    case Some(x) => return Ok(x);
    case None => return Err(InvalidFormat);
  }

  /** readBoundedBytes. */
  method ReadBounded(r: Reader, n: nat, max: nat) returns (b: Result<Bytes, DecodeError>)
    requires r.Valid()
    modifies r
    ensures r.Valid()
    ensures match Bounded(old(r.Rest()), n, max)
            case Ok(p) => b == Ok(p.0) && r.Rest() == p.1
            case Err(e) => b == Err(e)
  {
    var left := r.Len();
    if n > max || n > left || n > MAX_INT {
      return Err(InvalidFormat);
    }
    b := ReadField(r, n);
  }

  method ReadUint64(r: Reader) returns (n: Result<nat, DecodeError>)
    requires r.Valid()
    modifies r
    ensures r.Valid()
    ensures match ParseUint64(old(r.Rest()))
            case Ok(p) => n == Ok(p.0) && r.Rest() == p.1
            case Err(e) => n == Err(e)
  {
    var b :- ReadField(r, 8);
    return Ok(Get(b));
  }

  method ReadKey(lib: Library, maxKey: int, r: Reader) returns (key: Result<Bytes, DecodeError>)
    requires r.Valid()
    modifies r
    ensures r.Valid()
    ensures match ParseKey(lib, maxKey, old(r.Rest()))
            case Ok(p) => key == Ok(p.0) && r.Rest() == p.1
            case Err(e) => key == Err(e)
  {
    var keyLen :- ReadField(r, 4);
    if Get(keyLen) == 0 || Get(keyLen) > ToUint32(maxKey) {
      return Err(InvalidFormat);
    }
    var k :- ReadBounded(r, Get(keyLen), ToUint64(maxKey));
    if !ValidKey(lib, k, maxKey) {
      return Err(InvalidKey);
    }
    return Ok(k);
  }

  method ReadContentType(r: Reader) returns (ct: Result<Bytes, DecodeError>)
    requires r.Valid()
    modifies r
    ensures r.Valid()
    ensures match ParseContentType(old(r.Rest()))
            case Ok(p) => ct == Ok(p.0) && r.Rest() == p.1
            case Err(e) => ct == Err(e)
  {
    var ctLen :- ReadField(r, 2);
    ct := ReadBounded(r, Get(ctLen), MAX_CONTENT_TYPE);
  }

  method ReadValue(maxValue: int, r: Reader) returns (value: Result<Bytes, DecodeError>)
    requires r.Valid()
    modifies r
    ensures r.Valid()
    ensures match ParseValue(maxValue, old(r.Rest()))
            case Ok(p) => value == Ok(p.0) && r.Rest() == p.1
            case Err(e) => value == Err(e)
  {
    var valueLen :- ReadUint64(r);
    if valueLen > ToUint64(maxValue) {
      return Err(InvalidFormat);
    }
    value := ReadBounded(r, valueLen, ToUint64(maxValue));
  }

  method ReadStamps(r: Reader) returns (stamps: Result<(nat, nat, nat), DecodeError>)
    requires r.Valid()
    modifies r
    ensures r.Valid()
    ensures match ParseStamps(old(r.Rest()))
            case Ok(p) => stamps == Ok(p.0) && r.Rest() == p.1
            case Err(e) => stamps == Err(e)
  {
    var version :- ReadUint64(r);
    var createdMS :- ReadUint64(r);
    var updatedMS :- ReadUint64(r);
    return Ok((version, createdMS, updatedMS));
  }

  /** The body of the decoding loop. */
  method ReadRecord(lib: Library, maxKey: int, maxValue: int, r: Reader) returns (rec: Result<KVRecord, DecodeError>)
    requires r.Valid()
    modifies r
    ensures r.Valid()
    ensures match ParseRecord(lib, maxKey, maxValue, old(r.Rest()))
            case Ok(p) => rec == Ok(FromRaw(lib, p.0)) && r.Rest() == p.1
            case Err(e) => rec == Err(e)
  {
    var key :- ReadKey(lib, maxKey, r);
    var ct :- ReadContentType(r);
    var vt :- ReadField(r, 1);
    var value :- ReadValue(maxValue, r);
    var stamps :- ReadStamps(r);
    var valueSum :- ReadField(r, 32);
    rec := CheckRecord(lib, Raw(key, ct, vt[0], value, stamps.0, stamps.1, stamps.2, valueSum));
  }

  /** A record that has been read is checked against its sum and its type. */
  method CheckRecord(lib: Library, raw: Raw) returns (rec: Result<KVRecord, DecodeError>)
    ensures rec == if raw.sum != lib.sha256(raw.value) then Err(ChecksumMismatch)
                   else if !ValidValue(lib, raw.contentType, raw.value) then Err(InvalidJson)
                   else Ok(FromRaw(lib, raw))
  {
    if lib.sha256(raw.value) != raw.sum {
      return Err(ChecksumMismatch);
    }
    if !ValidValue(lib, raw.contentType, raw.value) {
      return Err(InvalidJson);
    }
    return Ok(KVRecord([], raw.key, raw.value, raw.contentType, TypeOfByte(raw.typeByte), raw.version,
                       FromMillis(ToInt64(raw.createdMS)), FromMillis(ToInt64(raw.updatedMS)),
                       lib.checksum(raw.value)));
  }

  method Decode(lib: Library, maxKey: int, maxValue: int, data: Bytes)
      returns (records: Result<seq<KVRecord>, DecodeError>)
    ensures records == Decoded(lib, maxKey, maxValue, data)
  {
    if |data| < 8 + 4 + 8 + 8 + 32 {
      return Err(InvalidFormat);
    }
    var payload := data[..|data| - 32];
    var footer := data[|data| - 32..];
    if lib.sha256(payload) != footer {
      return Err(ChecksumMismatch);
    }
    var r := new Reader(payload);
    records := DecodeBody(lib, maxKey, maxValue, r);
  }

  /** Everything between the length test and the footer. */
  method DecodeBody(lib: Library, maxKey: int, maxValue: int, r: Reader)
      returns (records: Result<seq<KVRecord>, DecodeError>)
    requires r.Valid()
    modifies r
    ensures match ParseBody(lib, maxKey, maxValue, old(r.Rest()))
            case Ok(p) => records == Ok(FromRaws(lib, p.1))
            case Err(e) => records == Err(e)
  {
    var magic :- ReadField(r, 8);
    if magic != MAGIC {
      return Err(InvalidFormat);
    }
    var version :- ReadField(r, 4);
    if Get(version) != FORMAT_VERSION {
      return Err(InvalidFormat);
    }
    var created :- ReadField(r, 8);
    var count :- ReadField(r, 8);
    var left := r.Len();
    if Get(count) > MaxRecordCount(left) {
      return Err(InvalidFormat);
    }
    records := ReadRecords(lib, maxKey, maxValue, r, Get(count));
    if records.Ok? {
      left := r.Len();
      if left != 0 {
        return Err(InvalidFormat);
      }
    }
  }

  /** What has been read, and what is left, after n records: the loop's own view. */
  function ReadSoFar(parse: Parser, start: Bytes, n: nat): Result<(seq<Raw>, Bytes), DecodeError> {
    if n == 0 then Ok(([], start)) else
    var (rs, rest) :- ReadSoFar(parse, start, n - 1);
    var (r, more) :- parse(rest);
    Ok((rs + [r], more))
  }

  lemma {:induction false} ReadFirst(parse: Parser, start: Bytes, n: nat)
    requires n > 0
    ensures ReadSoFar(parse, start, n) ==
            match parse(start)
            case Err(e) => Err(e)
            case Ok(p) => match ReadSoFar(parse, p.1, n - 1)
                          case Err(e) => Err(e)
                          case Ok(q) => Ok(([p.0] + q.0, q.1))
  {
    if n > 1 {
      ReadFirst(parse, start, n - 1);
      if parse(start).Ok? {
        var p := parse(start).value;
        match ReadSoFar(parse, p.1, n - 2)
        case Err(_) =>
        case Ok(q) =>
          match parse(q.1)
          case Err(_) =>
          case Ok(l) => assert ([p.0] + q.0) + [l.0] == [p.0] + (q.0 + [l.0]);
      }
    } else if parse(start).Ok? {
      assert [] + [parse(start).value.0] == [parse(start).value.0] + [];
    }
  }

  lemma {:induction false} ReadIsParse(parse: Parser, start: Bytes, n: nat)
    ensures ReadSoFar(parse, start, n) == ParseMany(parse, start, n)
    decreases n
  {
    if n > 0 {
      ReadFirst(parse, start, n);
      if parse(start).Ok? {
        ReadIsParse(parse, parse(start).value.1, n - 1);
      }
    }
  }

  /** An error found in the loop is the error of the whole. */
  lemma {:induction false} ErrorIsFinal(parse: Parser, start: Bytes, n: nat, m: nat)
    requires n <= m && ReadSoFar(parse, start, n).Err?
    ensures ReadSoFar(parse, start, m) == ReadSoFar(parse, start, n)
  {
    if n < m {
      ErrorIsFinal(parse, start, n, m - 1);
    }
  }

  /** One more record. */
  method ReadNext(lib: Library, maxKey: int, maxValue: int, r: Reader, ghost start: Bytes, ghost i: nat,
                  ghost sofar: seq<Raw>)
      returns (rec: Result<KVRecord, DecodeError>, ghost now: seq<Raw>)
    requires r.Valid() && ReadSoFar(RecordParser(lib, maxKey, maxValue), start, i) == Ok((sofar, r.Rest()))
    modifies r
    ensures r.Valid()
    ensures rec.Err? ==> ReadSoFar(RecordParser(lib, maxKey, maxValue), start, i + 1) == Err(rec.error)
    ensures rec.Ok? ==> ReadSoFar(RecordParser(lib, maxKey, maxValue), start, i + 1) == Ok((now, r.Rest()))
    ensures rec.Ok? ==> FromRaws(lib, now) == FromRaws(lib, sofar) + [rec.value]
  {
    ghost var p := ParseRecord(lib, maxKey, maxValue, r.Rest());
    rec := ReadRecord(lib, maxKey, maxValue, r);
    now := if p.Ok? then sofar + [p.value.0] else sofar;
  }

  /** The decoding loop. */
  method ReadRecords(lib: Library, maxKey: int, maxValue: int, r: Reader, count: nat)
      returns (records: Result<seq<KVRecord>, DecodeError>)
    requires r.Valid()
    modifies r
    ensures r.Valid()
    ensures match ParseMany(RecordParser(lib, maxKey, maxValue), old(r.Rest()), count)
            case Ok(p) => records == Ok(FromRaws(lib, p.0)) && r.Rest() == p.1
            case Err(e) => records == Err(e)
  {
    ghost var start := r.Rest();
    ghost var sofar: seq<Raw> := [];
    var got: seq<KVRecord> := [];
    var i := 0;
    ReadIsParse(RecordParser(lib, maxKey, maxValue), start, count);
    while i < count
      invariant i <= count && r.Valid()
      invariant got == FromRaws(lib, sofar)
      invariant ReadSoFar(RecordParser(lib, maxKey, maxValue), start, i) == Ok((sofar, r.Rest()))
    {
      var rec;
      rec, sofar := ReadNext(lib, maxKey, maxValue, r, start, i, sofar);
      if rec.Err? {
        ErrorIsFinal(RecordParser(lib, maxKey, maxValue), start, i + 1, count);
        return Err(rec.error);
      }
      got := got + [rec.value];
      i := i + 1;
    }
    return Ok(got);
  }
}
