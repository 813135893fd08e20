/** Which error a well-delimited file is refused with: that of the first record that
    has a defect, by the first check that it fails. */
module DecodeErrors {
  import opened Model
  import opened BigEndian
  import opened CodecSpec
  import opened CodecLaws

  /** The first check that a record in a file fails, if any. */
  function Defect(lib: Library, maxKey: int, maxValue: int, r: Raw): Option<DecodeError> {
    if r.key == [] || |r.key| > maxKey % 0x1_0000_0000 || |r.key| > MAX_INT then Some(InvalidFormat)
    else if |r.key| > maxKey || !lib.validUtf8(r.key) then Some(InvalidKey)
    else if |r.contentType| > 255 then Some(InvalidFormat)
    else if |r.value| > maxValue % 0x1_0000_0000_0000_0000 || |r.value| > MAX_INT then Some(InvalidFormat)
    else if r.sum != lib.sha256(r.value) then Some(ChecksumMismatch)
    else if lib.valueType(r.contentType) == JsonValue && !lib.validJson(r.value) then Some(InvalidJson)
    else None
  }

  /** The lengths and numbers of the record fit the widths of its fields. */
  predicate Wide(r: Raw) {
    && |r.key| < 0x1_0000_0000 && |r.contentType| < 0x1_0000 && |r.value| < 0x1_0000_0000_0000_0000
    && r.version < 0x1_0000_0000_0000_0000 && r.createdMS < 0x1_0000_0000_0000_0000
    && r.updatedMS < 0x1_0000_0000_0000_0000 && |r.sum| == 32
  }

  lemma Modulus(max: int, n: nat)
    requires n <= max % 0x1_0000_0000
    ensures n <= max % 0x1_0000_0000_0000_0000
  {
    var q := max / 0x1_0000_0000_0000_0000;
    var rest := max % 0x1_0000_0000_0000_0000;
    assert max == (q * 0x1_0000_0000) * 0x1_0000_0000 + rest;
    assert max % 0x1_0000_0000 == rest % 0x1_0000_0000;
  }

  lemma KeyDefect(lib: Library, maxKey: int, rest: Bytes, key: Bytes, tail: Bytes)
    requires |key| < 0x1_0000_0000 && rest == Put(|key|, 4) + (key + tail)
    ensures ParseKey(lib, maxKey, rest) ==
            if key == [] || |key| > maxKey % 0x1_0000_0000 || |key| > MAX_INT then Err(InvalidFormat)
            else if |key| > maxKey || !lib.validUtf8(key) then Err(InvalidKey)
            else Ok((key, tail))
  {
    Widths();
    PrefixedWritten(4, key, tail);
    if |key| <= maxKey % 0x1_0000_0000 {
      Modulus(maxKey, |key|);
    }
  }

  lemma ContentTypeDefect(rest: Bytes, ct: Bytes, tail: Bytes)
    requires |ct| < 0x1_0000 && rest == Put(|ct|, 2) + (ct + tail)
    ensures ParseContentType(rest) == if |ct| > 255 then Err(InvalidFormat) else Ok((ct, tail))
  {
    Widths();
    PrefixedWritten(2, ct, tail);
  }

  lemma ValueDefect(maxValue: int, rest: Bytes, value: Bytes, tail: Bytes)
    requires |value| < 0x1_0000_0000_0000_0000 && rest == Put(|value|, 8) + (value + tail)
    ensures ParseValue(maxValue, rest) ==
            if |value| > maxValue % 0x1_0000_0000_0000_0000 || |value| > MAX_INT then Err(InvalidFormat)
            else Ok((value, tail))
  {
    Uint64Exact(rest, |value|, value + tail);
    FieldExact(value + tail, |value|, value, tail);
  }

  /** A record that is followed by anything is read, or refused for its first defect. */
  lemma RecordRefused(lib: Library, maxKey: int, maxValue: int, r: Raw, tail: Bytes)
    requires Wide(r)
    ensures ParseRecord(lib, maxKey, maxValue, EncodeRaw(r, tail)) ==
            match Defect(lib, maxKey, maxValue, r)
            case None => Ok((r, tail))
            case Some(e) => Err(e)
  {
    var t7 := r.sum + tail;
    var t4 := Put(r.version, 8) + (Put(r.createdMS, 8) + (Put(r.updatedMS, 8) + t7));
    var t3 := Put(|r.value|, 8) + (r.value + t4);
    var t2 := [r.typeByte] + t3;
    var t1 := Put(|r.contentType|, 2) + (r.contentType + t2);
    var s := EncodeRaw(r, tail);
    assert s == Put(|r.key|, 4) + (r.key + t1);
    KeyDefect(lib, maxKey, s, r.key, t1);
    ContentTypeDefect(t1, r.contentType, t2);
    FieldExact(t2, 1, [r.typeByte], t3);
    ValueDefect(maxValue, t3, r.value, t4);
    StampsExact(t4, r.version, r.createdMS, r.updatedMS, t7);
    FieldExact(t7, 32, r.sum, tail);
    FieldsRefused(lib, maxKey, maxValue, r, s, t1, t2, t3, t4, t7, tail);
  }

  /** Reading field after field stops at the first defect. */
  lemma FieldsRefused(lib: Library, maxKey: int, maxValue: int, r: Raw, s: Bytes, t1: Bytes, t2: Bytes, t3: Bytes,
                      t4: Bytes, t7: Bytes, tail: Bytes)
    requires ParseKey(lib, maxKey, s) ==
             if r.key == [] || |r.key| > maxKey % 0x1_0000_0000 || |r.key| > MAX_INT then Err(InvalidFormat)
             else if |r.key| > maxKey || !lib.validUtf8(r.key) then Err(InvalidKey)
             else Ok((r.key, t1))
    requires ParseContentType(t1) == if |r.contentType| > 255 then Err(InvalidFormat) else Ok((r.contentType, t2))
    requires Field(t2, 1) == Ok(([r.typeByte], t3))
    requires ParseValue(maxValue, t3) ==
             if |r.value| > maxValue % 0x1_0000_0000_0000_0000 || |r.value| > MAX_INT then Err(InvalidFormat)
             else Ok((r.value, t4))
    requires ParseStamps(t4) == Ok(((r.version, r.createdMS, r.updatedMS), t7))
    requires Field(t7, 32) == Ok((r.sum, tail))
    ensures ParseRecord(lib, maxKey, maxValue, s) ==
            match Defect(lib, maxKey, maxValue, r)
            case None => Ok((r, tail))
            case Some(e) => Err(e)
  {
  }

  /** The defect of the first record that has one. */
  function FirstDefect(lib: Library, maxKey: int, maxValue: int, rs: seq<Raw>): Option<DecodeError> {
    if rs == [] then None
    else if Defect(lib, maxKey, maxValue, rs[0]).Some? then Defect(lib, maxKey, maxValue, rs[0])
    else FirstDefect(lib, maxKey, maxValue, rs[1..])
  }

  lemma {:induction false} RecordsRefused(lib: Library, maxKey: int, maxValue: int, rs: seq<Raw>, tail: Bytes)
    requires forall i :: 0 <= i < |rs| ==> Wide(rs[i])
    ensures ParseMany(RecordParser(lib, maxKey, maxValue), EncodeRaws(rs, tail), |rs|) ==
            match FirstDefect(lib, maxKey, maxValue, rs)
            case None => Ok((rs, tail))
            case Some(e) => Err(e)
    decreases |rs|
  {
    if rs != [] {
      var more := EncodeRaws(rs[1..], tail);
      RecordRefused(lib, maxKey, maxValue, rs[0], more);
      RecordsRefused(lib, maxKey, maxValue, rs[1..], tail);
      assert rs == [rs[0]] + rs[1..];
      FirstRefused(RecordParser(lib, maxKey, maxValue), EncodeRaw(rs[0], more), |rs|);
    }
  }

  lemma FirstRefused(parse: Parser, s: Bytes, n: nat)
    requires n > 0
    ensures parse(s).Err? ==> ParseMany(parse, s, n) == Err(parse(s).error)
    ensures parse(s).Ok? ==>
              var (r, more) := parse(s).value;
              ParseMany(parse, s, n) == match ParseMany(parse, more, n - 1)
                                        case Err(e) => Err(e)
                                        case Ok((rs, tail)) => Ok(([r] + rs, tail))
  {
  }

  lemma {:induction false} KeysMakeRoom(rs: seq<Raw>, tail: Bytes)
    requires forall i :: 0 <= i < |rs| ==> rs[i].key != [] && |rs[i].sum| == 32
    ensures |rs| * MIN_RECORD <= |EncodeRaws(rs, tail)|
  {
    if rs != [] {
      KeysMakeRoom(rs[1..], tail);
      EncodingSize(rs[0], EncodeRaws(rs[1..], tail));
    }
  }

  /** A header that announces the records, the records, and what follows them. */
  function BodyBefore(created: nat, rs: seq<Raw>, tail: Bytes): Bytes {
    MAGIC + (Put(FORMAT_VERSION, 4) + (Put(created, 8) + (Put(|rs|, 8) + EncodeRaws(rs, tail))))
  }

  /** A sealed file of records with keys, of any content, decodes to them, or is refused
      with the first defect of the first record that has one, and else for octets left
      over. */
  lemma {:induction false} DecodesOrRefuses(lib: Library, maxKey: int, maxValue: int, created: nat, rs: seq<Raw>,
                                           tail: Bytes)
    requires created < 0x1_0000_0000_0000_0000 && |rs| < 0x1_0000_0000_0000_0000
    requires forall i :: 0 <= i < |rs| ==> Wide(rs[i]) && rs[i].key != []
    ensures Decoded(lib, maxKey, maxValue, Sealed(lib, BodyBefore(created, rs, tail))) ==
            match FirstDefect(lib, maxKey, maxValue, rs)
            case None => if tail == [] then Ok(FromRaws(lib, rs)) else Err(InvalidFormat)
            case Some(e) => Err(e)
  {
    var body := BodyBefore(created, rs, tail);
    SealExact(lib, Sealed(lib, body), body);
    BodyRefused(lib, maxKey, maxValue, created, rs, tail);
  }

  lemma BodyRefused(lib: Library, maxKey: int, maxValue: int, created: nat, rs: seq<Raw>, tail: Bytes)
    requires created < 0x1_0000_0000_0000_0000 && |rs| < 0x1_0000_0000_0000_0000
    requires forall i :: 0 <= i < |rs| ==> Wide(rs[i]) && rs[i].key != []
    ensures ParseBody(lib, maxKey, maxValue, BodyBefore(created, rs, tail)) ==
            match FirstDefect(lib, maxKey, maxValue, rs)
            case None => if tail == [] then Ok((created, rs)) else Err(InvalidFormat)
            case Some(e) => Err(e)
  {
    Widths();
    var t4 := EncodeRaws(rs, tail);
    var t3 := Put(|rs|, 8) + t4;
    var t2 := Put(created, 8) + t3;
    var t1 := Put(FORMAT_VERSION, 4) + t2;
    GetPut(FORMAT_VERSION, 4);
    GetPut(created, 8);
    GetPut(|rs|, 8);
    FieldExact(BodyBefore(created, rs, tail), 8, MAGIC, t1);
    FieldExact(t1, 4, Put(FORMAT_VERSION, 4), t2);
    FieldExact(t2, 8, Put(created, 8), t3);
    FieldExact(t3, 8, Put(|rs|, 8), t4);
    KeysMakeRoom(rs, tail);
    RecordsRefused(lib, maxKey, maxValue, rs, tail);
  }

  /** A file with a header that is not of this format, or that announces more records
      than 72 octets each leave room for, is refused before any record is read. */
  lemma HeaderRefused(lib: Library, maxKey: int, maxValue: int, file: Bytes)
    requires |file| >= 60 && lib.sha256(file[..|file| - 32]) == file[|file| - 32..]
    requires file[..8] != Ascii("KVHTTP01") || Get(file[8..12]) != 1 || Get(file[20..28]) * 72 > |file| - 60
    ensures Decoded(lib, maxKey, maxValue, file) == Err(InvalidFormat)
  {
    var p := file[..|file| - 32];
    var r1 := p[8..];
    var r2 := r1[4..];
    var r3 := r2[8..];
    assert p[..8] == file[..8] && r1[..4] == file[8..12] && r3[..8] == file[20..28] && |r3[8..]| == |file| - 60;
  }

  /** A file whose sum does not agree is refused for that, whatever it holds, unless it
      is too short to hold anything. */
  lemma BrokenSealRefused(lib: Library, maxKey: int, maxValue: int, file: Bytes)
    ensures |file| < 60 ==> Decoded(lib, maxKey, maxValue, file) == Err(InvalidFormat)
    ensures |file| >= 60 && lib.sha256(file[..|file| - 32]) != file[|file| - 32..] ==>
              Decoded(lib, maxKey, maxValue, file) == Err(ChecksumMismatch)
  {
  }
}
