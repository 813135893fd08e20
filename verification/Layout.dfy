/** The octets of the export file, by their offsets, and the text of the digest, by
    its fields: what other programs rely on to read the one and to compute the other. */
module Layout {
  import opened Model
  import opened BigEndian
  import opened CodecSpec
  import opened TxDigest

  // ---- numbers ----

  /** The first octets are the high-order ones. */
  lemma {:induction false} HighFirst(a: Bytes, b: Bytes)
    ensures Get(a + b) == Get(a) * Pow256(|b|) + Get(b)
  {
    if b == [] {
      assert a + b == a;
    } else {
      var init, last := b[..|b| - 1], b[|b| - 1];
      assert (a + b)[..|a + b| - 1] == a + init;
      HighFirst(a, init);
      Times256(Get(a), Pow256(|init|));
    }
  }

  lemma Times256(a: nat, p: nat)
    ensures a * (256 * p) == 256 * (a * p)
  {
  }

  /** The number that a decimal text denotes. */
  function NumberOf(s: Str): int
    decreases |s|
  {
    if s == [] then 0
    else if s[0] == 0x2D then -NumberOf(s[1..])
    else 10 * NumberOf(s[..|s| - 1]) + (s[|s| - 1] as int - 0x30)
  }

  lemma {:induction false} DecimalNatDenotes(n: nat)
    ensures NumberOf(DecimalNat(n)) == n
  {
    var s := DecimalNat(n);
    assert s[0] != 0x2D;
    if n < 10 {
      assert s[..0] == [];
    } else {
      assert s[..|s| - 1] == DecimalNat(n / 10);
      DecimalNatDenotes(n / 10);
    }
  }

  lemma DecimalDenotes(n: int)
    ensures NumberOf(Decimal(n)) == n
  {
    if n < 0 {
      assert Decimal(n)[1..] == DecimalNat(-n);
      DecimalNatDenotes(-n);
    } else {
      DecimalNatDenotes(n);
    }
  }

  // ---- the digest text ----

  /** What precedes the first separator, and what follows it. */
  function Before(s: Str, sep: byte): Str {
    if s == [] || s[0] == sep then [] else [s[0]] + Before(s[1..], sep)
  }

  function Behind(s: Str, sep: byte): Str {
    if s == [] then [] else if s[0] == sep then s[1..] else Behind(s[1..], sep)
  }

  lemma {:induction false} CutAt(a: Str, sep: byte, b: Str)
    requires sep !in a
    ensures Before(a + [sep] + b, sep) == a && Behind(a + [sep] + b, sep) == b
  {
    var s := a + [sep] + b;
    if a == [] {
      assert s == [sep] + b;
    } else {
      assert s[1..] == a[1..] + [sep] + b;
      CutAt(a[1..], sep, b);
    }
  }

  /** A line is five fields: the number in decimals, operation id, type and key, each
      ended by a NUL, and the body hash, ended by a newline. */
  lemma LineFields(op: TxOperation)
    requires Clean(op)
    ensures var s1 := Behind(Line(op), 0); var s2 := Behind(s1, 0); var s3 := Behind(s2, 0); var s4 := Behind(s3, 0);
            && NumberOf(Before(Line(op), 0)) == op.seqNo
            && Before(s1, 0) == op.opID && Before(s2, 0) == op.opType && Before(s3, 0) == op.key
            && Before(s4, 0x0A) == op.bodyHash && Behind(s4, 0x0A) == []
  {
    DecimalDenotes(op.seqNo);
    DecimalHasNoNul(op.seqNo);
    var t4 := op.bodyHash + [0x0A] + [];
    var t3 := op.key + [0] + t4;
    var t2 := op.opType + [0] + t3;
    var t1 := op.opID + [0] + t2;
    assert Line(op) == Decimal(op.seqNo) + [0] + t1;
    CutAt(Decimal(op.seqNo), 0, t1);
    CutAt(op.opID, 0, t2);
    CutAt(op.opType, 0, t3);
    CutAt(op.key, 0, t4);
    CutAt(op.bodyHash, 0x0A, []);
  }

  /** The text is the lines of the fragments in increasing order of their numbers. */
  lemma LeastFirst(ops: map<int, TxOperation>, n: int)
    requires n in ops && forall m :: m in ops ==> n <= m
    ensures Preimage(ops) == Line(ops[n]) + Preimage(ops - {n})
    ensures Preimage(map[]) == []
  {
    assert Least(ops.Keys) == n;
    var rest := ops - {n};
    assert rest.Keys == ops.Keys - {n};
    AscendingMembers(rest.Keys);
    var order := Ascending(rest.Keys);
    forall i | 0 <= i < |order| ensures order[i] in rest && ops[order[i]] == rest[order[i]] {
      assert order[i] in order;
    }
    SameLines(ops, rest, Ascending(rest.Keys));
  }

  lemma {:induction false} SameLines(p: map<int, TxOperation>, q: map<int, TxOperation>, s: seq<int>)
    requires forall i :: 0 <= i < |s| ==> s[i] in p && s[i] in q && p[s[i]] == q[s[i]]
    ensures Lines(p, s) == Lines(q, s)
  {
    if s != [] {
      SameLines(p, q, s[1..]);
    }
  }

  // ---- the file ----

  lemma Slice(a: Bytes, b: Bytes, c: Bytes)
    ensures (a + b + c)[|a|..|a| + |b|] == b && (a + b + c)[|a| + |b|..] == c && (a + b + c)[..|a|] == a
  {
  }

  /** Octets from..to of s are x. */
  predicate AtOffset(s: Bytes, from: nat, x: Bytes) {
    from + |x| <= |s| && s[from..from + |x|] == x
  }

  /** Octets from..from + w of s are the number n. */
  predicate NumberAt(s: Bytes, from: nat, w: nat, n: nat) {
    from + w <= |s| && Get(s[from..from + w]) == n
  }

  lemma PlacedAt(s: Bytes, before: Bytes, x: Bytes, tail: Bytes)
    requires s == before + (x + tail)
    ensures AtOffset(s, |before|, x) && s == (before + x) + tail
  {
    assert before + (x + tail) == before + x + tail;
    Slice(before, x, tail);
  }

  lemma NumberPlaced(s: Bytes, before: Bytes, n: nat, w: nat, tail: Bytes)
    requires s == before + (Put(n, w) + tail) && n < Pow256(w)
    ensures NumberAt(s, |before|, w, n) && s == (before + Put(n, w)) + tail
  {
    PlacedAt(s, before, Put(n, w), tail);
    GetPut(n, w);
  }

  /** The lengths and numbers of a record fit their fields. */
  predicate Fits(rec: KVRecord) {
    && |rec.key| < 0x1_0000_0000 && |rec.contentType| < 0x1_0000 && |rec.value| < 0x1_0000_0000_0000_0000
    && rec.version < 0x1_0000_0000_0000_0000
  }

  /** Version, times and sum. */
  function StampOctets(r: Raw, tail: Bytes): Bytes {
    Put(r.version, 8) + (Put(r.createdMS, 8) + (Put(r.updatedMS, 8) + (r.sum + tail)))
  }

  /** Value type and value, and what follows them. */
  function ValueOctets(r: Raw, tail: Bytes): Bytes {
    [r.typeByte] + (Put(|r.value|, 8) + (r.value + StampOctets(r, tail)))
  }

  /** 4 octets of key length, the key, 2 of content type length, the content type. */
  predicate HeadAt(s: Bytes, key: Bytes, ct: Bytes) {
    && NumberAt(s, 0, 4, |key|) && AtOffset(s, 4, key)
    && NumberAt(s, 4 + |key|, 2, |ct|) && AtOffset(s, 6 + |key|, ct)
  }

  /** 1 octet of value type, 8 of value length, the value. */
  predicate ValueAt(s: Bytes, t: nat, vt: byte, value: Bytes) {
    AtOffset(s, t, [vt]) && NumberAt(s, t + 1, 8, |value|) && AtOffset(s, t + 9, value)
  }

  /** 8 octets of version, 8 each of creation and update time, and the 32 of a sum. */
  predicate StampsAt(s: Bytes, v: nat, version: nat, created: nat, updated: nat, sum: Bytes, tail: Bytes) {
    && NumberAt(s, v, 8, version) && NumberAt(s, v + 8, 8, created) && NumberAt(s, v + 16, 8, updated)
    && AtOffset(s, v + 24, sum) && AtOffset(s, v + 56, tail) && |s| == v + 56 + |tail|
  }

  lemma HeadLayout(s: Bytes, r: Raw, tail: Bytes) returns (b: Bytes)
    requires |r.key| < 0x1_0000_0000 && |r.contentType| < 0x1_0000 && s == EncodeRaw(r, tail)
    ensures HeadAt(s, r.key, r.contentType)
    ensures |b| == 6 + |r.key| + |r.contentType| && s == b + ValueOctets(r, tail)
  {
    Widths();
    var t2 := r.contentType + ValueOctets(r, tail);
    var t1 := Put(|r.contentType|, 2) + t2;
    assert s == [] + (Put(|r.key|, 4) + (r.key + t1));
    NumberPlaced(s, [], |r.key|, 4, r.key + t1);
    b := [] + Put(|r.key|, 4);
    PlacedAt(s, b, r.key, t1);
    b := b + r.key;
    NumberPlaced(s, b, |r.contentType|, 2, t2);
    b := b + Put(|r.contentType|, 2);
    PlacedAt(s, b, r.contentType, ValueOctets(r, tail));
    b := b + r.contentType;
  }

  lemma ValueLayout(s: Bytes, before: Bytes, r: Raw, tail: Bytes) returns (b: Bytes)
    requires |r.value| < 0x1_0000_0000_0000_0000 && s == before + ValueOctets(r, tail)
    ensures ValueAt(s, |before|, r.typeByte, r.value)
    ensures |b| == |before| + 9 + |r.value| && s == b + StampOctets(r, tail)
  {
    Widths();
    b := before;
    PlacedAt(s, b, [r.typeByte], Put(|r.value|, 8) + (r.value + StampOctets(r, tail)));
    b := b + [r.typeByte];
    NumberPlaced(s, b, |r.value|, 8, r.value + StampOctets(r, tail));
    b := b + Put(|r.value|, 8);
    PlacedAt(s, b, r.value, StampOctets(r, tail));
    b := b + r.value;
  }

  lemma StampLayout(s: Bytes, before: Bytes, r: Raw, tail: Bytes)
    requires r.version < 0x1_0000_0000_0000_0000 && |r.sum| == 32
    requires r.createdMS < 0x1_0000_0000_0000_0000 && r.updatedMS < 0x1_0000_0000_0000_0000
    requires s == before + StampOctets(r, tail)
    ensures StampsAt(s, |before|, r.version, r.createdMS, r.updatedMS, r.sum, tail)
  {
    Widths();
    var b := before;
    NumberPlaced(s, b, r.version, 8, Put(r.createdMS, 8) + (Put(r.updatedMS, 8) + (r.sum + tail)));
    b := b + Put(r.version, 8);
    NumberPlaced(s, b, r.createdMS, 8, Put(r.updatedMS, 8) + (r.sum + tail));
    b := b + Put(r.createdMS, 8);
    NumberPlaced(s, b, r.updatedMS, 8, r.sum + tail);
    b := b + Put(r.updatedMS, 8);
    PlacedAt(s, b, r.sum, tail);
  }

  /** The octet that stands for a value type. */
  function TypeOctet(v: ValueType): byte {
    match v
    case StringValue => 1
    case JsonValue => 2
    case BinaryValue => 3
  }

  /** The octets s are a record's, followed by tail: key and content type, value, and
      stamps, one after the other. */
  predicate LaidOut(s: Bytes, key: Bytes, ct: Bytes, vt: byte, value: Bytes, version: nat, created: nat, updated: nat,
                    sum: Bytes, tail: Bytes) {
    var t := 6 + |key| + |ct|;
    && HeadAt(s, key, ct)
    && ValueAt(s, t, vt, value)
    && StampsAt(s, t + 9 + |value|, version, created, updated, sum, tail)
  }

  lemma Joined(s: Bytes, t: nat, v: nat, r: Raw, tail: Bytes)
    requires t == 6 + |r.key| + |r.contentType| && v == t + 9 + |r.value|
    requires HeadAt(s, r.key, r.contentType) && ValueAt(s, t, r.typeByte, r.value)
    requires StampsAt(s, v, r.version, r.createdMS, r.updatedMS, r.sum, tail)
    ensures LaidOut(s, r.key, r.contentType, r.typeByte, r.value, r.version, r.createdMS, r.updatedMS, r.sum, tail)
  {
  }

  lemma RawLayout(s: Bytes, r: Raw, tail: Bytes)
    requires |r.key| < 0x1_0000_0000 && |r.contentType| < 0x1_0000 && |r.value| < 0x1_0000_0000_0000_0000
    requires r.version < 0x1_0000_0000_0000_0000 && |r.sum| == 32
    requires r.createdMS < 0x1_0000_0000_0000_0000 && r.updatedMS < 0x1_0000_0000_0000_0000
    requires s == EncodeRaw(r, tail)
    ensures LaidOut(s, r.key, r.contentType, r.typeByte, r.value, r.version, r.createdMS, r.updatedMS, r.sum, tail)
  {
    var b := HeadLayout(s, r, tail);
    BodyLayout(s, b, r, tail);
  }

  lemma BodyLayout(s: Bytes, b: Bytes, r: Raw, tail: Bytes)
    requires |r.value| < 0x1_0000_0000_0000_0000 && r.version < 0x1_0000_0000_0000_0000 && |r.sum| == 32
    requires r.createdMS < 0x1_0000_0000_0000_0000 && r.updatedMS < 0x1_0000_0000_0000_0000
    requires HeadAt(s, r.key, r.contentType)
    requires |b| == 6 + |r.key| + |r.contentType| && s == b + ValueOctets(r, tail)
    ensures LaidOut(s, r.key, r.contentType, r.typeByte, r.value, r.version, r.createdMS, r.updatedMS, r.sum, tail)
  {
    var h := ValueLayout(s, b, r, tail);
    StampLayout(s, h, r, tail);
    Joined(s, |b|, |h|, r, tail);
  }

  /** A record is laid out with its own fields, its times in milliseconds as 64-bit
      numbers and the sum of its value. */
  lemma RecordLayout(lib: Library, rec: KVRecord, tail: Bytes)
    requires Fits(rec)
    ensures LaidOut(EncodeRaw(ToRaw(lib, rec), tail), rec.key, rec.contentType, TypeOctet(rec.valueType), rec.value,
                    rec.version, (rec.createdAt / 1000000) % 0x1_0000_0000_0000_0000,
                    (rec.updatedAt / 1000000) % 0x1_0000_0000_0000_0000, lib.sha256(rec.value), tail)
  {
    var r := ToRaw(lib, rec);
    RawLayout(EncodeRaw(r, tail), r, tail);
  }

  /** The records of a file, one after the other. */
  function RecordOctets(lib: Library, records: seq<KVRecord>): Bytes {
    if records == [] then [] else EncodeRaw(ToRaw(lib, records[0]), RecordOctets(lib, records[1..]))
  }

  lemma {:induction false} RecordsInOrder(lib: Library, records: seq<KVRecord>)
    ensures EncodeRaws(ToRaws(lib, records), []) == RecordOctets(lib, records)
  {
    if records != [] {
      assert ToRaws(lib, records)[1..] == ToRaws(lib, records[1..]);
      RecordsInOrder(lib, records[1..]);
    }
  }

  /** The file: 8 octets of magic, 4 of format version, 8 of the time of export in
      milliseconds, 8 of the number of records, the records in order, and the 32 of the
      sum of all that precedes. */
  lemma FileLayout(lib: Library, now: Time, records: seq<KVRecord>)
    requires |records| < 0x1_0000_0000_0000_0000
    ensures var s := Encoded(lib, now, records); var n := |s| - 32;
            && n >= 28 && AtOffset(s, 0, Ascii("KVHTTP01")) && NumberAt(s, 8, 4, 1)
            && NumberAt(s, 12, 8, (now / 1000000) % 0x1_0000_0000_0000_0000) && NumberAt(s, 20, 8, |records|)
            && s[28..n] == RecordOctets(lib, records) && s[n..] == lib.sha256(s[..n])
  {
    RecordsInOrder(lib, records);
    var made, rs := ToUint64(Millis(now)), ToRaws(lib, records);
    var s, body := Encoded(lib, now, records), Body(made, rs);
    TakeConcat(body, lib.sha256(body));
    HeaderLayout(s, made, rs, lib.sha256(body));
  }

  lemma HeaderLayout(s: Bytes, made: nat, rs: seq<Raw>, sum: Bytes)
    requires made < 0x1_0000_0000_0000_0000 && |rs| < 0x1_0000_0000_0000_0000 && s == Body(made, rs) + sum
    ensures AtOffset(s, 0, Ascii("KVHTTP01")) && NumberAt(s, 8, 4, 1)
    ensures NumberAt(s, 12, 8, made) && NumberAt(s, 20, 8, |rs|) && AtOffset(s, 28, EncodeRaws(rs, []))
    ensures |s| == 28 + |EncodeRaws(rs, [])| + |sum|
  {
    Widths();
    var t4 := EncodeRaws(rs, []) + sum;
    var t3 := Put(|rs|, 8) + t4;
    var t2 := Put(made, 8) + t3;
    var t1 := Put(FORMAT_VERSION, 4) + t2;
    Regrouped(MAGIC, Put(FORMAT_VERSION, 4), Put(made, 8), Put(|rs|, 8), EncodeRaws(rs, []), sum);
    assert s == [] + (MAGIC + t1);
    PlacedAt(s, [], MAGIC, t1);
    var b := [] + MAGIC;
    NumberPlaced(s, b, FORMAT_VERSION, 4, t2);
    b := b + Put(FORMAT_VERSION, 4);
    NumberPlaced(s, b, made, 8, t3);
    b := b + Put(made, 8);
    NumberPlaced(s, b, |rs|, 8, t4);
    b := b + Put(|rs|, 8);
    PlacedAt(s, b, EncodeRaws(rs, []), sum);
  }

  lemma Regrouped(a: Bytes, b: Bytes, c: Bytes, d: Bytes, e: Bytes, f: Bytes)
    ensures a + (b + (c + (d + e))) + f == a + (b + (c + (d + (e + f))))
  {
    assert d + e + f == d + (e + f);
    assert c + (d + e) + f == c + (d + (e + f));
    assert b + (c + (d + e)) + f == b + (c + (d + (e + f)));
  }
}
