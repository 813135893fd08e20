/** What the handlers let through to the store, and what that makes true of every
    record a run of admitted calls can store. */
module Admission {
  import opened Model
  import opened StoreSpec
  import opened StoreLaws
  import opened TxDigest
  import opened CoordinatorSpec
  import opened ExecutionLaws
  import opened ExactlyOnce
  import opened System
  import opened BigEndian
  import opened CodecSpec
  import opened CodecLaws
  import opened RoundTrip

  const OCTET_STREAM: Str := Ascii("application/octet-stream")

  /** The content type that a value sent without one gets. */
  function TypeOrDefault(ct: Str): Str {
    if ct == [] then OCTET_STREAM else ct
  }

  /** The limit on a request body; a negative setting admits none. */
  function Limit(maxValue: int): nat {
    if maxValue < 0 then 0 else maxValue
  }

  predicate TooLarge(maxValue: int, body: Bytes) {
    |body| > Limit(maxValue)
  }

  /** The status code for an import file that does not decode. */
  function DecodeCode(e: DecodeError): int {
    if e == InvalidJson then 422 else 400
  }

  /** Status code and content after an import request. */
  function ImportReply(lib: Library, maxKey: int, maxValue: int, clock: Clock, d: Snapshot, u: Str,
                       mode: Option<ImportMode>, file: Bytes): (int, Snapshot) {
    if mode == None then (400, d)
    else if TooLarge(maxValue, file) then (413, d)
    else
      match Decoded(lib, maxKey, maxValue, file)
      case Err(e) => (DecodeCode(e), d)
      case Ok(records) => (200, ImportAll(lib, clock, d, u, records, mode.value).0)
  }

  predicate ValueAdmitted(lib: Library, maxKey: int, maxValue: int, k: Str, v: Bytes, ct: Str) {
    ValidKey(lib, k, maxKey) && ValidValue(lib, ct, v) && !TooLarge(maxValue, v)
  }

  predicate OpAdmitted(lib: Library, maxKey: int, maxValue: int, op: TxOperation) {
    op.opType == OP_PUT ==> ValueAdmitted(lib, maxKey, maxValue, op.key, op.body, op.contentType)
  }

  /** The calls that the handlers make. */
  ghost predicate Admitted(lib: Library, maxKey: int, maxValue: int, e: Event) {
    match e
    case KvPut(_, k, v, ct, _) => ValueAdmitted(lib, maxKey, maxValue, k, v, ct)
    case Import(_, records, _, _) =>
      forall i :: 0 <= i < |records| ==>
        ValueAdmitted(lib, maxKey, maxValue, records[i].key, records[i].value, records[i].contentType)
    case AddOp(_, _, op, _, _) => OpAdmitted(lib, maxKey, maxValue, op)
    case _ => true
  }

  /** A file within the limit holds only values within it. */
  lemma {:induction false} RawsFit(rs: seq<Raw>, i: nat)
    requires i < |rs|
    ensures |rs[i].value| <= |EncodeRaws(rs, [])|
  {
    if i > 0 {
      RawsFit(rs[1..], i - 1);
    }
  }

  lemma DecodedIsAdmitted(lib: Library, maxKey: int, maxValue: int, u: Str, mode: ImportMode, file: Bytes, clock: Clock)
    requires !TooLarge(maxValue, file) && Decoded(lib, maxKey, maxValue, file).Ok?
    ensures Admitted(lib, maxKey, maxValue, Event.Import(u, Decoded(lib, maxKey, maxValue, file).value, mode, clock))
  {
    var (created, rs) := ParseFile(lib, maxKey, maxValue, file).value;
    FileExact(lib, maxKey, maxValue, file, created, rs);
    var records := FromRaws(lib, rs);
    forall i | 0 <= i < |records|
      ensures ValueAdmitted(lib, maxKey, maxValue, records[i].key, records[i].value, records[i].contentType)
    {
      assert RawOk(lib, maxKey, maxValue, rs[i]);
      RawsFit(rs, i);
    }
  }

  // ---- what a run of admitted calls stores ----

  ghost predicate RecordsAdmitted(lib: Library, maxKey: int, maxValue: int, d: Snapshot) {
    forall u, k :: Stored(d, u, k) ==>
      var rec := At(d, u, k); ValueAdmitted(lib, maxKey, maxValue, rec.key, rec.value, rec.contentType)
  }

  ghost predicate OpsAdmitted(lib: Library, maxKey: int, maxValue: int, ops: map<int, TxOperation>) {
    forall n :: n in ops ==> OpAdmitted(lib, maxKey, maxValue, ops[n])
  }

  ghost predicate TxsAdmitted(lib: Library, maxKey: int, maxValue: int, d: Snapshot) {
    forall id :: id in d.txs ==> OpsAdmitted(lib, maxKey, maxValue, d.txs[id].ops)
  }

  ghost predicate AllAdmitted(lib: Library, maxKey: int, maxValue: int, d: Snapshot) {
    RecordsAdmitted(lib, maxKey, maxValue, d) && TxsAdmitted(lib, maxKey, maxValue, d)
  }

  lemma SetKeepsAdmitted(lib: Library, maxKey: int, maxValue: int, d: Snapshot, u: Str, rec: KVRecord)
    requires RecordsAdmitted(lib, maxKey, maxValue, d)
    requires ValueAdmitted(lib, maxKey, maxValue, rec.key, rec.value, rec.contentType)
    ensures RecordsAdmitted(lib, maxKey, maxValue, SetRecord(d, u, rec))
  {
    var e := SetRecord(d, u, rec);
    forall v, k | Stored(e, v, k)
      ensures ValueAdmitted(lib, maxKey, maxValue, At(e, v, k).key, At(e, v, k).value, At(e, v, k).contentType)
    {
      assert (v == u && k == rec.key) || (Stored(d, v, k) && At(e, v, k) == At(d, v, k));
    }
  }

  lemma FewerAdmitted(lib: Library, maxKey: int, maxValue: int, d: Snapshot, e: Snapshot)
    requires RecordsAdmitted(lib, maxKey, maxValue, d) && KeepsRecords(d, e)
    ensures RecordsAdmitted(lib, maxKey, maxValue, e)
  {
  }

  lemma {:induction false} ImportKeepsAdmitted(lib: Library, maxKey: int, maxValue: int, d: Snapshot, e: Event, n: nat)
    requires RecordsAdmitted(lib, maxKey, maxValue, d) && e.Import? && Admitted(lib, maxKey, maxValue, e)
    requires n <= |e.records|
    ensures RecordsAdmitted(lib, maxKey, maxValue, ImportPrefix(lib, e.clock, d, e.u, e.records, e.mode, n).0)
  {
    if n == 0 {
      FewerAdmitted(lib, maxKey, maxValue, d, ImportBase(d, e.u, e.mode));
    } else {
      ImportKeepsAdmitted(lib, maxKey, maxValue, d, e, n - 1);
      var prev, rec := ImportPrefix(lib, e.clock, d, e.u, e.records, e.mode, n - 1).0, e.records[n - 1];
      SetKeepsAdmitted(lib, maxKey, maxValue, prev, e.u, ImportRecord(lib, e.clock(n - 1), e.u, prev.version + 1, rec));
    }
  }

  lemma EffectKeepsAdmitted(lib: Library, maxKey: int, maxValue: int, now: Time, d: Snapshot, u: Str, op: TxOperation)
    requires RecordsAdmitted(lib, maxKey, maxValue, d) && OpAdmitted(lib, maxKey, maxValue, op)
    ensures RecordsAdmitted(lib, maxKey, maxValue, OpEffect(lib, now, d, u, op))
  {
    if op.opType == OP_PUT {
      SetKeepsAdmitted(lib, maxKey, maxValue, d, u, PutRecord(lib, now, d, u, op.key, op.body, op.contentType));
    } else {
      FewerAdmitted(lib, maxKey, maxValue, d, OpEffect(lib, now, d, u, op));
    }
  }

  lemma {:induction false} ExecutionKeepsAdmitted(lib: Library, maxKey: int, maxValue: int, clock: Clock, d: Snapshot,
                                                 u: Str, ops: map<int, TxOperation>, k: nat)
    requires RecordsAdmitted(lib, maxKey, maxValue, d) && OpsAdmitted(lib, maxKey, maxValue, ops)
    ensures RecordsAdmitted(lib, maxKey, maxValue, StateAfter(lib, clock, d, u, ops, k))
  {
    if k > 0 {
      ExecutionKeepsAdmitted(lib, maxKey, maxValue, clock, d, u, ops, k - 1);
      NoOpAdmitted(lib, maxKey, maxValue);
      EffectKeepsAdmitted(lib, maxKey, maxValue, clock(k), StateAfter(lib, clock, d, u, ops, k - 1), u, OpAt(ops, k));
    }
  }

  lemma NoOpAdmitted(lib: Library, maxKey: int, maxValue: int)
    ensures OpAdmitted(lib, maxKey, maxValue, NO_OP)
  {
    assert |OP_PUT| == 3;
  }

  lemma DecisionAdmitted(c: Config, maxKey: int, maxValue: int, d: Snapshot, e: Event)
    requires TxsAdmitted(c.lib, maxKey, maxValue, d) && IsTxCall(e) && Admitted(c.lib, maxKey, maxValue, e)
    ensures match DecisionOf(c, d, e)
            case Answer(_) => true
            case Save(t, _) => OpsAdmitted(c.lib, maxKey, maxValue, t.ops)
            case Execute(t) => OpsAdmitted(c.lib, maxKey, maxValue, t.ops)
  {
    if e.AddOp? {
      assert OpAdmitted(c.lib, maxKey, maxValue, Filing(c.lib, e.id, e.op, e.clock(0)));
    }
  }

  lemma TxCallKeepsAdmitted(c: Config, maxKey: int, maxValue: int, d: Snapshot, e: Event)
    requires AllAdmitted(c.lib, maxKey, maxValue, d) && IsTxCall(e) && Admitted(c.lib, maxKey, maxValue, e)
    ensures AllAdmitted(c.lib, maxKey, maxValue, Next(c, d, e))
  {
    DecisionAdmitted(c, maxKey, maxValue, d, e);
    match DecisionOf(c, d, e)
    case Answer(_) =>
    case Save(t, _) => FewerAdmitted(c.lib, maxKey, maxValue, d, SaveTxIn(d, t));
    case Execute(t) => ExecuteKeepsAdmitted(c, maxKey, maxValue, ClockOf(e), d, t);
  }

  lemma ExecuteKeepsAdmitted(c: Config, maxKey: int, maxValue: int, clock: Clock, d: Snapshot, t: Transaction)
    requires AllAdmitted(c.lib, maxKey, maxValue, d) && OpsAdmitted(c.lib, maxKey, maxValue, t.ops)
    ensures AllAdmitted(c.lib, maxKey, maxValue, ExecuteIn(c.lib, clock, d, t))
  {
    AllOrNothing(c.lib, clock, d, t);
    ExecutionKeepsAdmitted(c.lib, maxKey, maxValue, clock, d, t.userspaceID, t.ops, t.totalOps);
    var e, after := ExecuteIn(c.lib, clock, d, t), StateAfter(c.lib, clock, d, t.userspaceID, t.ops, t.totalOps);
    if OutcomeOf(c.lib, clock, d, t).status == Committed {
      assert e.userspaces == e.(txs := d.txs).userspaces == after.userspaces;
      FewerAdmitted(c.lib, maxKey, maxValue, after, e);
    } else {
      assert e.userspaces == e.(txs := d.txs).userspaces == d.userspaces;
      FewerAdmitted(c.lib, maxKey, maxValue, d, e);
    }
  }

  lemma ImportCallKeepsAdmitted(c: Config, maxKey: int, maxValue: int, d: Snapshot, e: Event)
    requires AllAdmitted(c.lib, maxKey, maxValue, d) && e.Import? && Admitted(c.lib, maxKey, maxValue, e)
    ensures AllAdmitted(c.lib, maxKey, maxValue, Next(c, d, e))
  {
    ImportKeepsAdmitted(c.lib, maxKey, maxValue, d, e, |e.records|);
    ImportFrame(c.lib, e.clock, d, e.u, e.records, e.mode, |e.records|);
  }

  /** Each fragment table of e was in d, or is empty. */
  ghost predicate KeepsFragments(d: Snapshot, e: Snapshot) {
    forall id :: id in e.txs ==> e.txs[id].ops == map[] || (id in d.txs && e.txs[id].ops == d.txs[id].ops)
  }

  lemma AdminCallFrame(c: Config, d: Snapshot, e: Event)
    requires e.CreateUserspace? || e.DeleteUserspace? || e.RotateApiKey?
    ensures KeepsRecords(d, Next(c, d, e)) && KeepsFragments(d, Next(c, d, e))
  {
  }

  /** The other calls write no value; those on records keep their fragments. */
  lemma OtherCallFrame(c: Config, d: Snapshot, e: Event)
    requires !IsTxCall(e) && !e.KvPut? && !e.Import?
    ensures KeepsRecords(d, Next(c, d, e)) && KeepsFragments(d, Next(c, d, e))
  {
    if e.CreateUserspace? || e.DeleteUserspace? || e.RotateApiKey? {
      AdminCallFrame(c, d, e);
    }
  }

  lemma StoreCallKeepsAdmitted(c: Config, maxKey: int, maxValue: int, d: Snapshot, e: Event)
    requires AllAdmitted(c.lib, maxKey, maxValue, d) && !IsTxCall(e) && Admitted(c.lib, maxKey, maxValue, e)
    ensures AllAdmitted(c.lib, maxKey, maxValue, Next(c, d, e))
  {
    if e.KvPut? {
      SetKeepsAdmitted(c.lib, maxKey, maxValue, d, e.u, PutRecord(c.lib, e.now, d, e.u, e.k, e.v, e.ct));
    } else if e.Import? {
      ImportCallKeepsAdmitted(c, maxKey, maxValue, d, e);
    } else {
      OtherCallFrame(c, d, e);
      FewerAdmitted(c.lib, maxKey, maxValue, d, Next(c, d, e));
    }
  }

  ghost predicate RunAdmitted(lib: Library, maxKey: int, maxValue: int, es: seq<Event>) {
    forall n :: 0 <= n < |es| ==> Admitted(lib, maxKey, maxValue, es[n])
  }

  /** Every value a run of admitted calls stores, or holds in a fragment, was admitted. */
  lemma {:induction false} RunKeepsAdmitted(c: Config, maxKey: int, maxValue: int, d: Snapshot, es: seq<Event>)
    requires AllAdmitted(c.lib, maxKey, maxValue, d) && RunAdmitted(c.lib, maxKey, maxValue, es)
    ensures AllAdmitted(c.lib, maxKey, maxValue, Run(c, d, es))
  {
    if es != [] {
      assert RunAdmitted(c.lib, maxKey, maxValue, Init(es)) && Admitted(c.lib, maxKey, maxValue, Last(es));
      RunKeepsAdmitted(c, maxKey, maxValue, d, Init(es));
      if IsTxCall(Last(es)) {
        TxCallKeepsAdmitted(c, maxKey, maxValue, Run(c, d, Init(es)), Last(es));
      } else {
        StoreCallKeepsAdmitted(c, maxKey, maxValue, Run(c, d, Init(es)), Last(es));
      }
    }
  }

  /** What the types of the program guarantee of a record: a 64-bit version and
      times that a 64-bit count of milliseconds holds. */
  predicate InWidth(rec: KVRecord) {
    rec.version < 0x1_0000_0000_0000_0000 && IsInt64(Millis(rec.createdAt)) && IsInt64(Millis(rec.updatedAt))
  }

  /** Limits that fit the widths the decoder converts them to. */
  predicate LimitsOk(maxKey: int, maxValue: int) {
    0 <= maxKey < 0x1_0000_0000 && maxValue <= MAX_INT
  }

  lemma ImportableIff(lib: Library, maxKey: int, maxValue: int, rec: KVRecord)
    requires ValueAdmitted(lib, maxKey, maxValue, rec.key, rec.value, rec.contentType)
    requires InWidth(rec) && LimitsOk(maxKey, maxValue)
    ensures Importable(lib, maxKey, maxValue, rec) <==> |rec.contentType| <= MAX_CONTENT_TYPE
  {
  }

  /** Of the records that the handlers let in, an export can carry exactly those
      with a content type of at most 255 octets. */
  lemma AdmittedImportable(c: Config, maxKey: int, maxValue: int, d: Snapshot, es: seq<Event>, u: Str, k: Str)
    requires AllAdmitted(c.lib, maxKey, maxValue, d) && RunAdmitted(c.lib, maxKey, maxValue, es)
    requires LimitsOk(maxKey, maxValue)
    requires Stored(Run(c, d, es), u, k) && InWidth(At(Run(c, d, es), u, k))
    ensures var rec := At(Run(c, d, es), u, k);
            Importable(c.lib, maxKey, maxValue, rec) <==> |rec.contentType| <= MAX_CONTENT_TYPE
  {
    RunKeepsAdmitted(c, maxKey, maxValue, d, es);
    var rec := At(Run(c, d, es), u, k);
    ImportableIff(c.lib, maxKey, maxValue, rec);
  }
}
