/** The export format: what a list of records is written as, and what a sequence
    of octets is read as, in the order in which the code checks it. */
module CodecSpec {
  import opened Model
  import opened BigEndian

  const MAGIC: Bytes := Ascii("KVHTTP01")
  const FORMAT_VERSION: nat := 1
  const MIN_RECORD: nat := 4 + 1 + 2 + 1 + 8 + 8 + 8 + 8 + 32
  const MAX_CONTENT_TYPE: nat := 255
  const MAX_INT: nat := 0x7FFF_FFFF_FFFF_FFFF

  datatype DecodeError = InvalidFormat | ChecksumMismatch | InvalidKey | InvalidJson

  function TypeByte(v: ValueType): byte {
    match v
    case StringValue => 1
    case JsonValue => 2
    case BinaryValue => 3
  }

  function TypeOfByte(b: byte): ValueType {
    if b == 1 then StringValue else if b == 2 then JsonValue else BinaryValue
  }

  /** time.Time.UnixMilli and time.UnixMilli. */
  function Millis(t: Time): int { t / 1000000 }

  function FromMillis(ms: int): Time { ms * 1000000 }

  /** One record as it stands in the file. */
  datatype Raw = Raw(key: Bytes, contentType: Bytes, typeByte: byte, value: Bytes,
                     version: nat, createdMS: nat, updatedMS: nat, sum: Bytes)

  function ToRaw(lib: Library, rec: KVRecord): Raw {
    Raw(rec.key, rec.contentType, TypeByte(rec.valueType), rec.value, rec.version,
        ToUint64(Millis(rec.createdAt)), ToUint64(Millis(rec.updatedAt)), lib.sha256(rec.value))
  }

  function FromRaw(lib: Library, r: Raw): KVRecord {
    KVRecord([], r.key, r.value, r.contentType, TypeOfByte(r.typeByte), r.version,
             FromMillis(ToInt64(r.createdMS)), FromMillis(ToInt64(r.updatedMS)), lib.checksum(r.value))
  }

  // ---- writing ----

  function EncodeRaw(r: Raw, tail: Bytes): Bytes {
    Put(|r.key|, 4) + (r.key + (Put(|r.contentType|, 2) + (r.contentType + ([r.typeByte] + (
      Put(|r.value|, 8) + (r.value + (Put(r.version, 8) +
      (Put(r.createdMS, 8) + (Put(r.updatedMS, 8) + (r.sum + tail))))))))))
  }

  function EncodeRaws(rs: seq<Raw>, tail: Bytes): Bytes {
    if rs == [] then tail else EncodeRaw(rs[0], EncodeRaws(rs[1..], tail))
  }

  function Body(createdMS: nat, rs: seq<Raw>): Bytes {
    MAGIC + (Put(FORMAT_VERSION, 4) + (Put(createdMS, 8) + (Put(|rs|, 8) + EncodeRaws(rs, []))))
  }

  function Sealed(lib: Library, body: Bytes): Bytes {
    body + lib.sha256(body)
  }

  function ToRaws(lib: Library, records: seq<KVRecord>): (rs: seq<Raw>)
    ensures |rs| == |records|
  {
    seq(|records|, i requires 0 <= i < |records| => ToRaw(lib, records[i]))
  }

  /** The export file of a list of records, made at the given time. */
  function Encoded(lib: Library, now: Time, records: seq<KVRecord>): Bytes {
    Sealed(lib, Body(ToUint64(Millis(now)), ToRaws(lib, records)))
  }

  // ---- reading ----

  function Field(rest: Bytes, n: nat): Result<(Bytes, Bytes), DecodeError> {
    match Take(rest, n)
    case Some(p) => Ok(p)
    case None => Err(InvalidFormat)
  }

  function Bounded(rest: Bytes, n: nat, max: nat): Result<(Bytes, Bytes), DecodeError> {
    if n > max || n > MAX_INT then Err(InvalidFormat) else Field(rest, n)
  }

  function ToUint32(n: int): nat {
    n % 0x1_0000_0000
  }

  predicate ValidKey(lib: Library, key: Bytes, max: int) {
    key != [] && |key| <= max && lib.validUtf8(key)
  }

  predicate ValidValue(lib: Library, ct: Str, value: Bytes) {
    lib.valueType(ct) == JsonValue ==> lib.validJson(value)
  }

  function ParseUint64(rest: Bytes): Result<(nat, Bytes), DecodeError> {
    var (n, tail) :- Field(rest, 8);
    Ok((Get(n), tail))
  }

  function ParseKey(lib: Library, maxKey: int, rest: Bytes): Result<(Bytes, Bytes), DecodeError> {
    var (keyLen, r) :- Field(rest, 4);
    if Get(keyLen) == 0 || Get(keyLen) > ToUint32(maxKey) then Err(InvalidFormat) else
    var (key, tail) :- Bounded(r, Get(keyLen), ToUint64(maxKey));
    if ValidKey(lib, key, maxKey) then Ok((key, tail)) else Err(InvalidKey)
  }

  function ParseContentType(rest: Bytes): Result<(Bytes, Bytes), DecodeError> {
    var (ctLen, r) :- Field(rest, 2);
    Bounded(r, Get(ctLen), MAX_CONTENT_TYPE)
  }

  function ParseValue(maxValue: int, rest: Bytes): Result<(Bytes, Bytes), DecodeError> {
    var (valueLen, r) :- ParseUint64(rest);
    if valueLen > ToUint64(maxValue) then Err(InvalidFormat) else Bounded(r, valueLen, ToUint64(maxValue))
  }

  /** Version, creation time and update time. */
  function ParseStamps(rest: Bytes): Result<((nat, nat, nat), Bytes), DecodeError> {
    var (version, r1) :- ParseUint64(rest);
    var (created, r2) :- ParseUint64(r1);
    var (updated, r3) :- ParseUint64(r2);
    Ok(((version, created, updated), r3))
  }

  function ParseRecord(lib: Library, maxKey: int, maxValue: int, rest: Bytes): Result<(Raw, Bytes), DecodeError> {
    var (key, r1) :- ParseKey(lib, maxKey, rest);
    var (ct, r2) :- ParseContentType(r1);
    var (vt, r3) :- Field(r2, 1);
    var (value, r4) :- ParseValue(maxValue, r3);
    var (stamps, r5) :- ParseStamps(r4);
    var (sum, r6) :- Field(r5, 32);
    if sum != lib.sha256(value) then Err(ChecksumMismatch)
    else if !ValidValue(lib, ct, value) then Err(InvalidJson)
    else Ok((Raw(key, ct, vt[0], value, stamps.0, stamps.1, stamps.2, sum), r6))
  }

  type Parser = Bytes -> Result<(Raw, Bytes), DecodeError>

  function RecordParser(lib: Library, maxKey: int, maxValue: int): Parser {
    b => ParseRecord(lib, maxKey, maxValue, b)
  }

  /** n records in a row. */
  function ParseMany(parse: Parser, rest: Bytes, n: nat): (r: Result<(seq<Raw>, Bytes), DecodeError>)
    ensures r.Ok? ==> |r.value.0| == n
    decreases n
  {
    if n == 0 then Ok(([], rest)) else
    var (first, more) :- parse(rest);
    var (others, tail) :- ParseMany(parse, more, n - 1);
    Ok(([first] + others, tail))
  }

  /** The number of records that the octets left can hold at most. */
  function MaxRecordCount(remaining: nat): nat {
    remaining / MIN_RECORD
  }

  /** Header time and records of a file, or the error that decoding it reports. */
  function ParseBody(lib: Library, maxKey: int, maxValue: int, payload: Bytes): Result<(nat, seq<Raw>), DecodeError> {
    var (magic, r1) :- Field(payload, 8);
    if magic != MAGIC then Err(InvalidFormat) else
    var (version, r2) :- Field(r1, 4);
    if Get(version) != FORMAT_VERSION then Err(InvalidFormat) else
    var (created, r3) :- Field(r2, 8);
    var (count, r4) :- Field(r3, 8);
    if Get(count) > MaxRecordCount(|r4|) then Err(InvalidFormat) else
    var (rs, tail) :- ParseMany(RecordParser(lib, maxKey, maxValue), r4, Get(count));
    if tail != [] then Err(InvalidFormat) else Ok((Get(created), rs))
  }

  function ParseFile(lib: Library, maxKey: int, maxValue: int, data: Bytes): Result<(nat, seq<Raw>), DecodeError> {
    if |data| < 8 + 4 + 8 + 8 + 32 then Err(InvalidFormat)
    else
      var payload := data[..|data| - 32];
      if lib.sha256(payload) != data[|data| - 32..] then Err(ChecksumMismatch)
      else ParseBody(lib, maxKey, maxValue, payload)
  }

  function FromRaws(lib: Library, rs: seq<Raw>): (records: seq<KVRecord>)
    ensures |records| == |rs|
  {
    seq(|rs|, i requires 0 <= i < |rs| => FromRaw(lib, rs[i]))
  }

  /** What decoding a file yields. */
  function Decoded(lib: Library, maxKey: int, maxValue: int, data: Bytes): Result<seq<KVRecord>, DecodeError> {
    var (_, rs) :- ParseFile(lib, maxKey, maxValue, data);
    Ok(FromRaws(lib, rs))
  }
}
