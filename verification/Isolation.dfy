/** Userspaces do not see each other: whatever is called in other userspaces, the
    calls made in one userspace find the same values, answer alike and succeed or
    fail alike, provided transaction identifiers and key hashes are not shared.
    Only version numbers, which count all writes, may differ. */
module Isolation {
  import opened Model
  import opened StoreSpec
  import opened TxDigest
  import opened CoordinatorSpec
  import opened System
  import opened ExactlyOnce
  import ExecutionLaws

  // ---- the same, version numbers aside ----

  predicate SameRecord(r: Option<KVRecord>, q: Option<KVRecord>) {
    match (r, q)
    case (None, None) => true
    case (Some(a), Some(b)) => a == b.(version := a.version)
    case _ => false
  }

  predicate SameItem(a: TxOperationResult, b: TxOperationResult) {
    a == b.(version := a.version)
  }

  predicate SameItems(a: seq<TxOperationResult>, b: seq<TxOperationResult>) {
    |a| == |b| && forall i :: 0 <= i < |a| ==> SameItem(a[i], b[i])
  }

  predicate SameResult(r: Option<TxResult>, q: Option<TxResult>) {
    match (r, q)
    case (None, None) => true
    case (Some(a), Some(b)) => a.txID == b.txID && a.status == b.status && SameItems(a.results, b.results)
    case _ => false
  }

  predicate SameTx(t: Transaction, s: Transaction) {
    t == s.(result := t.result) && SameResult(t.result, s.result)
  }

  predicate SameReply(r: Reply, q: Reply) {
    r.status == q.status && r.error == q.error && SameResult(r.result, q.result)
  }

  ghost predicate SameAnswer(r: Response, q: Response) {
    match (r, q)
    case (Version(a), Version(b)) => a.Some? == b.Some?
    case (Found(a), Found(b)) => SameRecord(a, b)
    case (Exported(a), Exported(b)) => a.Keys == b.Keys && forall k :: k in a ==> SameRecord(Some(a[k]), Some(b[k]))
    case (Imported(a), Imported(b)) => a == b
    case (Administered(a), Administered(b)) => a == b
    case (Created(Ok(t)), Created(Ok(s))) => SameTx(t, s)
    case (Created(Err(a)), Created(Err(b))) => a == b
    case (Replied(a), Replied(b)) => SameReply(a, b)
    case _ => false
  }

  // ---- what belongs to one userspace ----

  function OwnKey(d: Snapshot, u: Str, h: Str): Option<APIKeyRecord> {
    if h in d.apiKeys && d.apiKeys[h].principal.userspaceID == u then Some(d.apiKeys[h]) else None
  }

  function OwnSubject(d: Snapshot, u: Str, s: Str): Option<JWTSubjectRecord> {
    if s in d.jwtSubjects && d.jwtSubjects[s].principal.userspaceID == u then Some(d.jwtSubjects[s]) else None
  }

  predicate SameOwnTx(d: Snapshot, e: Snapshot, u: Str, id: Str) {
    var inD, inE := id in d.txs && d.txs[id].userspaceID == u, id in e.txs && e.txs[id].userspaceID == u;
    inD == inE && (inD ==> SameTx(d.txs[id], e.txs[id]))
  }

  ghost predicate SameValues(d: Snapshot, e: Snapshot, u: Str) {
    && (u in d.userspaces <==> u in e.userspaces)
    && forall k :: SameRecord(GetFrom(d, u, k), GetFrom(e, u, k))
  }

  ghost predicate SameTables(d: Snapshot, e: Snapshot, u: Str) {
    && (forall h :: OwnKey(d, u, h) == OwnKey(e, u, h))
    && (forall s :: OwnSubject(d, u, s) == OwnSubject(e, u, s))
  }

  ghost predicate SameTxs(d: Snapshot, e: Snapshot, u: Str) {
    forall id :: SameOwnTx(d, e, u, id)
  }

  /** Two contents that userspace u cannot tell apart, version numbers aside. */
  ghost predicate SameView(d: Snapshot, e: Snapshot, u: Str) {
    SameValues(d, e, u) && SameTables(d, e, u) && SameTxs(d, e, u)
  }

  /** The identifiers and hashes that userspace u and nobody else uses. */
  datatype Share = Share(ids: iset<Str>, hashes: iset<Str>)

  ghost predicate Apart(d: Snapshot, u: Str, own: Share) {
    && Keyed(d.txs)
    && (forall id :: id in d.txs ==> (id in own.ids <==> d.txs[id].userspaceID == u))
    && (forall h :: h in d.apiKeys ==> (h in own.hashes <==> d.apiKeys[h].principal.userspaceID == u))
  }

  /** The userspace a call is made in, or for. */
  function SpaceCalled(e: Event): Str {
    match e
    case KvPut(u, _, _, _, _) => u
    case KvGet(u, _) => u
    case KvDelete(u, _) => u
    case Export(u) => u
    case Import(u, _, _, _) => u
    case CreateUserspace(u, _, _) => u
    case DeleteUserspace(u) => u
    case RotateApiKey(u, _, _) => u
    case CreateTx(p, _, _, _, _, _) => p.userspaceID
    case ExpireDue(_) => []
    case _ => CallerOf(e).userspaceID
  }

  predicate CalledIn(e: Event, u: Str) {
    !e.ExpireDue? && SpaceCalled(e) == u
  }

  /** The call respects the sharing out of identifiers and hashes. */
  ghost predicate Respects(e: Event, u: Str, own: Share) {
    match e
    case CreateTx(p, _, _, _, _, _) => IdOf(e) in own.ids <==> p.userspaceID == u
    case AddOp(p, id, _, _, _) => p.userspaceID == u ==> id in own.ids
    case Commit(p, id, _, _, _, _) => p.userspaceID == u ==> id in own.ids
    case Abort(p, id) => p.userspaceID == u ==> id in own.ids
    case GetResult(p, id, _) => p.userspaceID == u ==> id in own.ids
    case CreateUserspace(v, _, hash) => hash != [] ==> (hash in own.hashes <==> v == u)
    case RotateApiKey(v, hash, _) => hash in own.hashes <==> v == u
    case _ => true
  }

  lemma ValuesDepend(d: Snapshot, e: Snapshot, d': Snapshot, e': Snapshot, u: Str)
    requires SameValues(d, e, u) && d'.userspaces == d.userspaces && e'.userspaces == e.userspaces
    ensures SameValues(d', e', u)
  {
    forall k ensures SameRecord(GetFrom(d', u, k), GetFrom(e', u, k)) {
      assert SameRecord(GetFrom(d, u, k), GetFrom(e, u, k));
    }
  }

  lemma TablesDepend(d: Snapshot, e: Snapshot, d': Snapshot, e': Snapshot, u: Str)
    requires SameTables(d, e, u)
    requires d'.apiKeys == d.apiKeys && e'.apiKeys == e.apiKeys && d'.jwtSubjects == d.jwtSubjects
        && e'.jwtSubjects == e.jwtSubjects
    ensures SameTables(d', e', u)
  {
    forall h ensures OwnKey(d', u, h) == OwnKey(e', u, h) {
      assert OwnKey(d, u, h) == OwnKey(e, u, h);
    }
    forall s ensures OwnSubject(d', u, s) == OwnSubject(e', u, s) {
      assert OwnSubject(d, u, s) == OwnSubject(e, u, s);
    }
  }

  lemma TxsDepend(d: Snapshot, e: Snapshot, d': Snapshot, e': Snapshot, u: Str)
    requires SameTxs(d, e, u) && d'.txs == d.txs && e'.txs == e.txs
    ensures SameTxs(d', e', u)
  {
    forall id ensures SameOwnTx(d', e', u, id) {
      assert SameOwnTx(d, e, u, id);
    }
  }

  // ---- values ----

  lemma SetSame(d: Snapshot, e: Snapshot, u: Str, r: KVRecord, q: KVRecord)
    requires SameValues(d, e, u) && r == q.(version := r.version)
    ensures SameValues(SetRecord(d, u, r), SetRecord(e, u, q), u)
  {
    var d', e' := SetRecord(d, u, r), SetRecord(e, u, q);
    forall k ensures SameRecord(GetFrom(d', u, k), GetFrom(e', u, k)) {
      assert SameRecord(GetFrom(d, u, k), GetFrom(e, u, k));
    }
  }

  lemma PutSame(lib: Library, now: Time, d: Snapshot, e: Snapshot, u: Str, k: Str, v: Bytes, ct: Str)
    requires SameValues(d, e, u)
    ensures SameValues(PutInto(lib, now, d, u, k, v, ct), PutInto(lib, now, e, u, k, v, ct), u)
  {
    assert SameRecord(GetFrom(d, u, k), GetFrom(e, u, k));
    SetSame(d, e, u, PutRecord(lib, now, d, u, k, v, ct), PutRecord(lib, now, e, u, k, v, ct));
  }

  lemma DeleteSame(d: Snapshot, e: Snapshot, u: Str, key: Str)
    requires SameValues(d, e, u)
    ensures SameValues(DeleteFrom(d, u, key), DeleteFrom(e, u, key), u)
  {
    forall k ensures SameRecord(GetFrom(DeleteFrom(d, u, key), u, k), GetFrom(DeleteFrom(e, u, key), u, k)) {
      assert SameRecord(GetFrom(d, u, k), GetFrom(e, u, k));
    }
  }

  lemma ImportBaseSame(d: Snapshot, e: Snapshot, u: Str, mode: ImportMode)
    requires SameValues(d, e, u)
    ensures SameValues(ImportBase(d, u, mode), ImportBase(e, u, mode), u)
  {
    forall k ensures SameRecord(GetFrom(ImportBase(d, u, mode), u, k), GetFrom(ImportBase(e, u, mode), u, k)) {
      assert SameRecord(GetFrom(d, u, k), GetFrom(e, u, k));
    }
  }

  lemma PresentSame(d: Snapshot, e: Snapshot, u: Str, k: Str)
    requires SameValues(d, e, u)
    ensures k in SpaceOf(d, u) <==> k in SpaceOf(e, u)
  {
    assert SameRecord(GetFrom(d, u, k), GetFrom(e, u, k));
  }

  lemma ImportOneSame(lib: Library, now: Time, d: Snapshot, e: Snapshot, u: Str, mode: ImportMode,
                      res: ImportResult, rec: KVRecord)
    requires SameValues(d, e, u)
    ensures var p, q := ImportOne(lib, now, u, mode, d, res, rec), ImportOne(lib, now, u, mode, e, res, rec);
            SameValues(p.0, q.0, u) && p.1 == q.1
  {
    PresentSame(d, e, u, rec.key);
    if !(rec.key in SpaceOf(d, u) && mode == MergeSkip) {
      var r, q := ImportRecord(lib, now, u, d.version + 1, rec), ImportRecord(lib, now, u, e.version + 1, rec);
      SetSame(d, e, u, r, q);
      assert ImportOne(lib, now, u, mode, d, res, rec).0 == SetRecord(d, u, r);
      assert ImportOne(lib, now, u, mode, e, res, rec).0 == SetRecord(e, u, q);
    }
  }

  /** After n records the values and the counters of two imports are the same. */
  ghost predicate PrefixSame(lib: Library, clock: Clock, d: Snapshot, e: Snapshot, u: Str,
                             records: seq<KVRecord>, mode: ImportMode, n: nat)
    requires n <= |records|
  {
    var p := ImportPrefix(lib, clock, d, u, records, mode, n);
    var q := ImportPrefix(lib, clock, e, u, records, mode, n);
    SameValues(p.0, q.0, u) && p.1 == q.1
  }

  lemma ImportNextSame(lib: Library, clock: Clock, d: Snapshot, e: Snapshot, u: Str,
                       records: seq<KVRecord>, mode: ImportMode, n: nat)
    requires 0 < n <= |records| && PrefixSame(lib, clock, d, e, u, records, mode, n - 1)
    ensures PrefixSame(lib, clock, d, e, u, records, mode, n)
  {
    var p := ImportPrefix(lib, clock, d, u, records, mode, n - 1);
    var q := ImportPrefix(lib, clock, e, u, records, mode, n - 1);
    ImportOneSame(lib, clock(n - 1), p.0, q.0, u, mode, p.1, records[n - 1]);
  }

  lemma NoneImportedSame(lib: Library, clock: Clock, d: Snapshot, e: Snapshot, u: Str,
                         records: seq<KVRecord>, mode: ImportMode)
    requires SameValues(d, e, u)
    ensures PrefixSame(lib, clock, d, e, u, records, mode, 0)
  {
    ImportBaseSame(d, e, u, mode);
  }

  lemma {:induction false} ImportSame(lib: Library, clock: Clock, d: Snapshot, e: Snapshot, u: Str,
                                     records: seq<KVRecord>, mode: ImportMode, n: nat)
    requires SameValues(d, e, u) && n <= |records|
    ensures PrefixSame(lib, clock, d, e, u, records, mode, n)
  {
    if n == 0 {
      NoneImportedSame(lib, clock, d, e, u, records, mode);
    } else {
      ImportSame(lib, clock, d, e, u, records, mode, n - 1);
      ImportNextSame(lib, clock, d, e, u, records, mode, n);
    }
  }

  // ---- executions ----

  lemma EffectSame(lib: Library, now: Time, d: Snapshot, e: Snapshot, u: Str, op: TxOperation)
    requires SameValues(d, e, u)
    ensures SameValues(OpEffect(lib, now, d, u, op), OpEffect(lib, now, e, u, op), u)
  {
    assert SameRecord(GetFrom(d, u, op.key), GetFrom(e, u, op.key));
    PutSame(lib, now, d, e, u, op.key, op.body, op.contentType);
    DeleteSame(d, e, u, op.key);
  }

  lemma OpSame(d: Snapshot, e: Snapshot, u: Str, n: int, op: TxOperation)
    requires SameValues(d, e, u)
    ensures OpFails(d, u, op) == OpFails(e, u, op)
    ensures SameItem(OpAnswer(d, u, n, op), OpAnswer(e, u, n, op))
  {
    assert SameRecord(GetFrom(d, u, op.key), GetFrom(e, u, op.key));
  }

  lemma {:induction false} StatesSame(lib: Library, clock: Clock, d: Snapshot, e: Snapshot, u: Str,
                                      ops: map<int, TxOperation>, k: nat)
    requires SameValues(d, e, u)
    ensures SameValues(StateAfter(lib, clock, d, u, ops, k), StateAfter(lib, clock, e, u, ops, k), u)
  {
    if k > 0 {
      StatesSame(lib, clock, d, e, u, ops, k - 1);
      EffectSame(lib, clock(k), StateAfter(lib, clock, d, u, ops, k - 1), StateAfter(lib, clock, e, u, ops, k - 1), u,
                 OpAt(ops, k));
    }
  }

  lemma SameItemsExtend(a: seq<TxOperationResult>, b: seq<TxOperationResult>, x: TxOperationResult,
                        y: TxOperationResult)
    requires SameItems(a, b) && SameItem(x, y)
    ensures SameItems(a + [x], b + [y])
  {
  }

  lemma {:induction false} AnswersSame(lib: Library, clock: Clock, d: Snapshot, e: Snapshot, u: Str,
                                       ops: map<int, TxOperation>, k: nat)
    requires SameValues(d, e, u)
    ensures SameItems(Answers(lib, clock, d, u, ops, k), Answers(lib, clock, e, u, ops, k))
  {
    if k == 0 {
      assert Answers(lib, clock, d, u, ops, k) == Answers(lib, clock, e, u, ops, k) == [];
    } else {
      AnswersSame(lib, clock, d, e, u, ops, k - 1);
      AnswerExtends(lib, clock, d, e, u, ops, k);
    }
  }

  lemma AnswerSame(lib: Library, clock: Clock, d: Snapshot, e: Snapshot, u: Str, ops: map<int, TxOperation>, k: nat)
    requires k > 0 && SameValues(d, e, u)
    ensures SameItem(OpAnswer(StateAfter(lib, clock, d, u, ops, k - 1), u, k, OpAt(ops, k)),
                     OpAnswer(StateAfter(lib, clock, e, u, ops, k - 1), u, k, OpAt(ops, k)))
  {
    StatesSame(lib, clock, d, e, u, ops, k - 1);
    var p, q := StateAfter(lib, clock, d, u, ops, k - 1), StateAfter(lib, clock, e, u, ops, k - 1);
    OpSame(p, q, u, k, OpAt(ops, k));
  }

  lemma AnswerExtends(lib: Library, clock: Clock, d: Snapshot, e: Snapshot, u: Str, ops: map<int, TxOperation>, k: nat)
    requires k > 0 && SameValues(d, e, u)
    requires SameItems(Answers(lib, clock, d, u, ops, k - 1), Answers(lib, clock, e, u, ops, k - 1))
    ensures SameItems(Answers(lib, clock, d, u, ops, k), Answers(lib, clock, e, u, ops, k))
  {
    AnswerSame(lib, clock, d, e, u, ops, k);
    var p, q := StateAfter(lib, clock, d, u, ops, k - 1), StateAfter(lib, clock, e, u, ops, k - 1);
    SameItemsExtend(Answers(lib, clock, d, u, ops, k - 1), Answers(lib, clock, e, u, ops, k - 1),
                    OpAnswer(p, u, k, OpAt(ops, k)), OpAnswer(q, u, k, OpAt(ops, k)));
  }

  lemma FailsSame(lib: Library, clock: Clock, d: Snapshot, e: Snapshot, u: Str, ops: map<int, TxOperation>, k: nat)
    requires SameValues(d, e, u)
    ensures FailsAfter(lib, clock, d, u, ops, k) == FailsAfter(lib, clock, e, u, ops, k)
  {
    StatesSame(lib, clock, d, e, u, ops, k);
    OpSame(StateAfter(lib, clock, d, u, ops, k), StateAfter(lib, clock, e, u, ops, k), u, k + 1, OpAt(ops, k + 1));
  }

  lemma {:induction false} PassedSame(lib: Library, clock: Clock, d: Snapshot, e: Snapshot, u: Str,
                                      ops: map<int, TxOperation>, n: nat, k: nat)
    requires SameValues(d, e, u) && k <= n
    ensures Passed(lib, clock, d, u, ops, n, k) == Passed(lib, clock, e, u, ops, n, k)
    decreases n - k
  {
    FailsSame(lib, clock, d, e, u, ops, k);
    if k < n {
      PassedSame(lib, clock, d, e, u, ops, n, k + 1);
    }
  }

  ghost predicate SameOutcome(o: Outcome, p: Outcome) {
    && o.status == p.status && o.reason == p.reason && o.error == p.error
    && SameResult(o.result, p.result) && SameResult(o.returned, p.returned)
  }

  lemma OutcomeFromSame(t: Transaction, s: Transaction, digestOk: bool, k: nat, a: seq<TxOperationResult>,
                        b: seq<TxOperationResult>)
    requires SameTx(t, s) && SameItems(a, b)
    ensures SameOutcome(OutcomeFrom(t, digestOk, k, a), OutcomeFrom(s, digestOk, k, b))
  {
  }

  lemma OutcomeSame(lib: Library, clock: Clock, d: Snapshot, e: Snapshot, t: Transaction, s: Transaction)
    requires SameValues(d, e, t.userspaceID) && SameTx(t, s)
    ensures SameOutcome(OutcomeOf(lib, clock, d, t), OutcomeOf(lib, clock, e, s))
  {
    var u := t.userspaceID;
    PassedSame(lib, clock, d, e, u, t.ops, t.totalOps, 0);
    var k := Passed(lib, clock, d, u, t.ops, t.totalOps, 0);
    AnswersSame(lib, clock, d, e, u, t.ops, k);
    assert DigestOk(lib, t) == DigestOk(lib, s);
    OutcomeFromSame(t, s, DigestOk(lib, t), k, Answers(lib, clock, d, u, t.ops, k),
                    Answers(lib, clock, e, u, t.ops, k));
  }

  // ---- calls made in the userspace ----

  ghost predicate SameDecision(a: Decision, b: Decision) {
    match (a, b)
    case (Answer(r), Answer(q)) => SameReply(r, q)
    case (Save(t, r), Save(s, q)) => SameTx(t, s) && SameReply(r, q)
    case (Execute(t), Execute(s)) => SameTx(t, s)
    case _ => false
  }

  lemma LoadSame(d: Snapshot, e: Snapshot, u: Str, own: Share, p: Principal, id: Str)
    requires SameTxs(d, e, u) && Apart(d, u, own) && Apart(e, u, own) && p.userspaceID == u && id in own.ids
    ensures match (LoadOwned(d, p, id), LoadOwned(e, p, id))
            case (Ok(t), Ok(s)) => SameTx(t, s) && t.txID == id && t.userspaceID == u
            case (Err(a), Err(b)) => a == b
            case _ => false
  {
    assert SameOwnTx(d, e, u, id);
  }

  lemma FragmentSame(t: Transaction, s: Transaction, op: TxOperation)
    requires SameTx(t, s)
    ensures SameDecision(AddFragment(t, op), AddFragment(s, op))
  {
  }

  lemma FragmentOnSame(c: Config, id: Str, t: Transaction, s: Transaction, op: TxOperation, now: Time, received: Time)
    requires SameTx(t, s)
    ensures SameDecision(FragmentDecision(c, id, t, op, now, received), FragmentDecision(c, id, s, op, now, received))
  {
    FragmentSame(t, s, Filing(c.lib, id, op, received));
  }

  lemma AddOpSame(c: Config, d: Snapshot, e: Snapshot, u: Str, own: Share, call: Event)
    requires SameTxs(d, e, u) && Apart(d, u, own) && Apart(e, u, own)
    requires call.AddOp? && call.p.userspaceID == u && call.id in own.ids
    ensures SameDecision(DecisionOf(c, d, call), DecisionOf(c, e, call))
  {
    LoadSame(d, e, u, own, call.p, call.id);
    var t, s := LoadOwned(d, call.p, call.id), LoadOwned(e, call.p, call.id);
    if t.Ok? {
      FragmentOnSame(c, call.id, t.value, s.value, call.op, call.now, call.clock(0));
    }
  }

  lemma CommitOnSame(t: Transaction, s: Transaction, totalOps: int, digest: Str, now: Time)
    requires SameTx(t, s)
    ensures SameDecision(CommitOn(t, totalOps, digest, now), CommitOn(s, totalOps, digest, now))
  {
  }

  lemma CommitSame(d: Snapshot, e: Snapshot, u: Str, own: Share, p: Principal, id: Str, totalOps: int, digest: Str,
                   now: Time)
    requires SameTxs(d, e, u) && Apart(d, u, own) && Apart(e, u, own) && p.userspaceID == u && id in own.ids
    ensures SameDecision(CommitDecision(d, p, id, totalOps, digest, now),
                         CommitDecision(e, p, id, totalOps, digest, now))
  {
    LoadSame(d, e, u, own, p, id);
    var t, s := LoadOwned(d, p, id), LoadOwned(e, p, id);
    if t.Ok? {
      CommitOnSame(t.value, s.value, totalOps, digest, now);
    }
  }

  lemma OtherCallSame(c: Config, d: Snapshot, e: Snapshot, u: Str, own: Share, call: Event)
    requires SameTxs(d, e, u) && Apart(d, u, own) && Apart(e, u, own)
    requires (call.Abort? || call.GetResult?) && call.p.userspaceID == u && call.id in own.ids
    ensures SameDecision(DecisionOf(c, d, call), DecisionOf(c, e, call))
  {
    LoadSame(d, e, u, own, call.p, call.id);
  }

  lemma DecisionNames(c: Config, d: Snapshot, u: Str, own: Share, call: Event)
    requires Apart(d, u, own) && IsTxCall(call)
    ensures match DecisionOf(c, d, call)
            case Answer(_) => true
            case Save(t, _) =>
                t.txID in d.txs && t.userspaceID == CallerOf(call).userspaceID == d.txs[t.txID].userspaceID
            case Execute(t) =>
                t.txID in d.txs && t.userspaceID == CallerOf(call).userspaceID == d.txs[t.txID].userspaceID
  {
  }

  lemma SaveSame(d: Snapshot, e: Snapshot, u: Str, t: Transaction, s: Transaction)
    requires SameTxs(d, e, u) && SameTx(t, s)
    ensures SameTxs(SaveTxIn(d, t), SaveTxIn(e, s), u)
  {
    forall id ensures SameOwnTx(SaveTxIn(d, t), SaveTxIn(e, s), u, id) {
      assert SameOwnTx(d, e, u, id);
    }
  }

  /** From d to e only values of userspace v, the counter and the records change. */
  lemma ExecutionFrame(lib: Library, clock: Clock, d: Snapshot, u: Str, ops: map<int, TxOperation>, k: nat)
    ensures var e := StateAfter(lib, clock, d, u, ops, k);
            e.txs == d.txs && e.apiKeys == d.apiKeys && e.jwtSubjects == d.jwtSubjects
            && forall v :: v != u ==> (v in e.userspaces <==> v in d.userspaces) && SpaceOf(e, v) == SpaceOf(d, v)
  {
    ExecutionLaws.ExecutionIsLocal(lib, clock, d, u, ops, k);
  }

  lemma ExecuteSame(lib: Library, clock: Clock, d: Snapshot, e: Snapshot, t: Transaction, s: Transaction)
    requires SameView(d, e, t.userspaceID) && SameTx(t, s)
    ensures SameView(ExecuteIn(lib, clock, d, t), ExecuteIn(lib, clock, e, s), t.userspaceID)
    ensures SameOutcome(OutcomeOf(lib, clock, d, t), OutcomeOf(lib, clock, e, s))
  {
    var u := t.userspaceID;
    OutcomeSame(lib, clock, d, e, t, s);
    StatesSame(lib, clock, d, e, u, t.ops, t.totalOps);
    var d', e' := ExecuteIn(lib, clock, d, t), ExecuteIn(lib, clock, e, s);
    if OutcomeOf(lib, clock, d, t).status == Committed {
      ValuesDepend(StateAfter(lib, clock, d, u, t.ops, t.totalOps), StateAfter(lib, clock, e, u, t.ops, t.totalOps),
                   d', e', u);
    } else {
      ValuesDepend(d, e, d', e', u);
    }
    ExecutedTables(lib, clock, d, t);
    ExecutedTables(lib, clock, e, s);
    TablesDepend(d, e, d', e', u);
    var t', s' := Settled(t, OutcomeOf(lib, clock, d, t)), Settled(s, OutcomeOf(lib, clock, e, s));
    SaveSame(d, e, u, t', s');
    TxsDepend(SaveTxIn(d, t'), SaveTxIn(e, s'), d', e', u);
  }

  lemma ExecutedTables(lib: Library, clock: Clock, d: Snapshot, t: Transaction)
    ensures var e := ExecuteIn(lib, clock, d, t);
            e.txs == SaveTxIn(d, Settled(t, OutcomeOf(lib, clock, d, t))).txs
            && e.apiKeys == d.apiKeys && e.jwtSubjects == d.jwtSubjects
  {
    ExecutionFrame(lib, clock, d, t.userspaceID, t.ops, t.totalOps);
  }

  lemma TxDecisionSame(c: Config, d: Snapshot, e: Snapshot, u: Str, own: Share, call: Event)
    requires SameTxs(d, e, u) && Apart(d, u, own) && Apart(e, u, own)
    requires IsTxCall(call) && CalledIn(call, u) && Respects(call, u, own)
    ensures SameDecision(DecisionOf(c, d, call), DecisionOf(c, e, call))
  {
    match call
    case AddOp(_, _, _, _, _) => AddOpSame(c, d, e, u, own, call);
    case Commit(p, id, totalOps, digest, now, _) => CommitSame(d, e, u, own, p, id, totalOps, digest, now);
    case _ => OtherCallSame(c, d, e, u, own, call);
  }

  lemma TxCallSame(c: Config, d: Snapshot, e: Snapshot, u: Str, own: Share, call: Event)
    requires SameView(d, e, u) && Apart(d, u, own) && Apart(e, u, own)
    requires IsTxCall(call) && CalledIn(call, u) && Respects(call, u, own)
    ensures SameView(Next(c, d, call), Next(c, e, call), u)
    ensures SameAnswer(Step(c, d, call).1, Step(c, e, call).1)
  {
    TxDecisionSame(c, d, e, u, own, call);
    DecisionNames(c, d, u, own, call);
    var a, b := DecisionOf(c, d, call), DecisionOf(c, e, call);
    CarrySame(c.lib, ClockOf(call), d, e, u, a, b);
    TxStep(c, d, call);
    TxStep(c, e, call);
  }

  lemma CarrySame(lib: Library, clock: Clock, d: Snapshot, e: Snapshot, u: Str, a: Decision, b: Decision)
    requires SameView(d, e, u) && SameDecision(a, b) && (a.Execute? ==> a.t.userspaceID == u)
    ensures SameView(Carry(lib, clock, d, a).0, Carry(lib, clock, e, b).0, u)
    ensures SameReply(Carry(lib, clock, d, a).1, Carry(lib, clock, e, b).1)
  {
    match a
    case Answer(_) =>
    case Save(t, _) =>
      SaveSame(d, e, u, t, b.t);
      ValuesDepend(d, e, SaveTxIn(d, t), SaveTxIn(e, b.t), u);
      TablesDepend(d, e, SaveTxIn(d, t), SaveTxIn(e, b.t), u);
    case Execute(t) => ExecuteSame(lib, clock, d, e, t, b.t);
  }

  lemma CreateTxAnswersSame(c: Config, d: Snapshot, e: Snapshot, u: Str, own: Share, call: Event)
    requires SameTxs(d, e, u) && Apart(d, u, own) && Apart(e, u, own)
    requires call.CreateTx? && call.p.userspaceID == u && IdOf(call) in own.ids
    ensures SameAnswer(Step(c, d, call).1, Step(c, e, call).1)
    ensures Next(c, d, call) == d <==> Next(c, e, call) == e
    ensures Next(c, d, call) != d ==>
              exists t :: Next(c, d, call) == SaveTxIn(d, t) && Next(c, e, call) == SaveTxIn(e, t)
  {
    assert SameOwnTx(d, e, u, IdOf(call));
    assert IdOf(call) in d.txs <==> IdOf(call) in e.txs;
    CreationShape(c, d, call);
    CreationShape(c, e, call);
  }

  lemma CreateTxSame(c: Config, d: Snapshot, e: Snapshot, u: Str, own: Share, call: Event)
    requires SameView(d, e, u) && Apart(d, u, own) && Apart(e, u, own)
    requires call.CreateTx? && call.p.userspaceID == u && Respects(call, u, own)
    ensures SameView(Next(c, d, call), Next(c, e, call), u)
    ensures SameAnswer(Step(c, d, call).1, Step(c, e, call).1)
  {
    CreateTxAnswersSame(c, d, e, u, own, call);
    if Next(c, d, call) != d {
      var t :| Next(c, d, call) == SaveTxIn(d, t) && Next(c, e, call) == SaveTxIn(e, t);
      CarrySame(c.lib, NO_CLOCK, d, e, u, Save(t, Failed(ErrInvalidTx)), Save(t, Failed(ErrInvalidTx)));
    }
  }

  /** A creation either answers from the record that has the identifier, or adds a
      record that does not depend on the content. */
  lemma CreationShape(c: Config, d: Snapshot, call: Event)
    requires call.CreateTx?
    ensures var id := IdOf(call);
            var timeout := if call.timeout <= 0 then c.defaultTimeout else call.timeout;
            var valid := 0 < call.totalOps <= c.maxOps && timeout <= c.maxTimeout
                && (call.requested == [] || ValidTxID(call.requested));
            var r := Step(c, d, call);
            if !valid then r == (d, Created(Err(ErrInvalidTx)))
            else if id !in d.txs then
              var t := NewTx(id, call.p, call.totalOps, call.now, timeout);
              r == (SaveTxIn(d, t), Created(Ok(t))) && id in r.0.txs && r.0.txs[id] == t
            else
              var t := d.txs[id];
              r.0 == d && r.1 == if t.userID == call.p.userID && t.userspaceID == call.p.userspaceID
                  && t.totalOps == call.totalOps
                                 then Created(Ok(t)) else Created(Err(ErrInvalidTx))
  {
  }

  lemma ExistsSame(d: Snapshot, e: Snapshot, u: Str)
    requires SameValues(d, e, u) && SameTables(d, e, u)
    ensures UserspaceExists(d, u) == UserspaceExists(e, u)
  {
    KeysShown(d, e, u);
    KeysShown(e, d, u);
  }

  lemma KeysShown(d: Snapshot, e: Snapshot, u: Str)
    requires SameTables(d, e, u)
    ensures HasKey(d, u) ==> HasKey(e, u)
    ensures HasSubject(d, u) ==> HasSubject(e, u)
  {
    if HasKey(d, u) {
      var h :| h in d.apiKeys && d.apiKeys[h].principal.userspaceID == u;
      assert OwnKey(d, u, h) == OwnKey(e, u, h);
    }
    if HasSubject(d, u) {
      var s :| s in d.jwtSubjects && d.jwtSubjects[s].principal.userspaceID == u;
      assert OwnSubject(d, u, s) == OwnSubject(e, u, s);
    }
  }

  lemma AddKeySame(d: Snapshot, e: Snapshot, d': Snapshot, e': Snapshot, u: Str, hash: Str, rec: APIKeyRecord)
    requires SameTables(d, e, u)
    requires d'.apiKeys == d.apiKeys[hash := rec] && e'.apiKeys == e.apiKeys[hash := rec]
    requires d'.jwtSubjects == d.jwtSubjects && e'.jwtSubjects == e.jwtSubjects
    ensures SameTables(d', e', u)
  {
    forall h ensures OwnKey(d', u, h) == OwnKey(e', u, h) {
      assert OwnKey(d, u, h) == OwnKey(e, u, h);
    }
    forall s ensures OwnSubject(d', u, s) == OwnSubject(e', u, s) {
      assert OwnSubject(d, u, s) == OwnSubject(e, u, s);
    }
  }

  lemma CreateSpaceSame(c: Config, d: Snapshot, e: Snapshot, u: Str, call: Event)
    requires SameView(d, e, u) && call.CreateUserspace? && call.u == u
    ensures SameView(Next(c, d, call), Next(c, e, call), u)
    ensures SameAnswer(Step(c, d, call).1, Step(c, e, call).1)
  {
    ExistsSame(d, e, u);
    if ValidUserspaceID(u) && !UserspaceExists(d, u) {
      var d', e' := Next(c, d, call), Next(c, e, call);
      TxsDepend(d, e, d', e', u);
      if call.hash == [] {
        TablesDepend(d, e, d', e', u);
      } else {
        AddKeySame(d, e, d', e', u, call.hash, UserKey(if call.user == [] then u else call.user, u, call.hash));
      }
      assert SpaceOf(d', u) == SpaceOf(e', u) == map[];
      assert SameValues(d', e', u);
    }
  }

  lemma RotateSame(c: Config, d: Snapshot, e: Snapshot, u: Str, call: Event)
    requires SameView(d, e, u) && call.RotateApiKey? && call.u == u
    ensures SameView(Next(c, d, call), Next(c, e, call), u)
    ensures SameAnswer(Step(c, d, call).1, Step(c, e, call).1)
  {
    ExistsSame(d, e, u);
    if UserspaceExists(d, u) {
      var d', e' := Next(c, d, call), Next(c, e, call);
      TxsDepend(d, e, d', e', u);
      var d1, e1 := d.(apiKeys := OtherKeys(d, u)), e.(apiKeys := OtherKeys(e, u));
      KeysRemovedSame(d, e, d1, e1, u);
      AddKeySame(d1, e1, d', e', u, call.hash, UserKey(call.owner, u, call.hash));
      RotatedValues(d, e, d', e', u);
    }
  }

  lemma KeysRemovedSame(d: Snapshot, e: Snapshot, d': Snapshot, e': Snapshot, u: Str)
    requires SameTables(d, e, u)
    requires d' == d.(apiKeys := OtherKeys(d, u)) && e' == e.(apiKeys := OtherKeys(e, u))
    ensures SameTables(d', e', u)
  {
    forall h ensures OwnKey(d', u, h) == None == OwnKey(e', u, h) {
    }
    forall s ensures OwnSubject(d', u, s) == OwnSubject(e', u, s) {
      assert OwnSubject(d, u, s) == OwnSubject(e, u, s);
    }
  }

  lemma RotatedValues(d: Snapshot, e: Snapshot, d': Snapshot, e': Snapshot, u: Str)
    requires SameValues(d, e, u)
    requires d'.userspaces == d.userspaces[u := SpaceOf(d, u)] && e'.userspaces == e.userspaces[u := SpaceOf(e, u)]
    ensures SameValues(d', e', u)
  {
    forall k ensures SameRecord(GetFrom(d', u, k), GetFrom(e', u, k)) {
      assert SameRecord(GetFrom(d, u, k), GetFrom(e, u, k));
    }
  }

  lemma DeleteSpaceSame(c: Config, d: Snapshot, e: Snapshot, u: Str, call: Event)
    requires SameView(d, e, u) && call.DeleteUserspace? && call.u == u
    ensures SameView(Next(c, d, call), Next(c, e, call), u)
    ensures SameAnswer(Step(c, d, call).1, Step(c, e, call).1)
  {
    ExistsSame(d, e, u);
  }

  lemma KvPutSame(c: Config, d: Snapshot, e: Snapshot, u: Str, call: Event)
    requires SameView(d, e, u) && call.KvPut? && call.u == u
    ensures SameView(Next(c, d, call), Next(c, e, call), u)
    ensures SameAnswer(Step(c, d, call).1, Step(c, e, call).1)
  {
    var d', e' := Next(c, d, call), Next(c, e, call);
    TxsDepend(d, e, d', e', u);
    TablesDepend(d, e, d', e', u);
    PutSame(c.lib, call.now, d, e, u, call.k, call.v, call.ct);
  }

  lemma KvDeleteSame(c: Config, d: Snapshot, e: Snapshot, u: Str, call: Event)
    requires SameView(d, e, u) && call.KvDelete? && call.u == u
    ensures SameView(Next(c, d, call), Next(c, e, call), u)
    ensures SameAnswer(Step(c, d, call).1, Step(c, e, call).1)
  {
    assert SameRecord(GetFrom(d, u, call.k), GetFrom(e, u, call.k));
    if GetFrom(d, u, call.k).Some? {
      var d', e' := Next(c, d, call), Next(c, e, call);
      TxsDepend(d, e, d', e', u);
      TablesDepend(d, e, d', e', u);
      DeleteSame(d, e, u, call.k);
    }
  }

  lemma ReadSame(c: Config, d: Snapshot, e: Snapshot, u: Str, call: Event)
    requires SameView(d, e, u) && (call.KvGet? || call.Export?) && call.u == u
    ensures SameView(Next(c, d, call), Next(c, e, call), u)
    ensures SameAnswer(Step(c, d, call).1, Step(c, e, call).1)
  {
    if call.KvGet? {
      assert SameRecord(GetFrom(d, u, call.k), GetFrom(e, u, call.k));
    } else {
      ExportSame(d, e, u);
    }
  }

  lemma ExportSame(d: Snapshot, e: Snapshot, u: Str)
    requires SameValues(d, e, u)
    ensures SameAnswer(Exported(SpaceOf(d, u)), Exported(SpaceOf(e, u)))
  {
    var a, b := SpaceOf(d, u), SpaceOf(e, u);
    assert forall k :: (k in a <==> GetFrom(d, u, k).Some?) && (k in b <==> GetFrom(e, u, k).Some?);
    forall k ensures k in a <==> k in b {
      assert SameRecord(GetFrom(d, u, k), GetFrom(e, u, k));
    }
    forall k | k in a ensures SameRecord(Some(a[k]), Some(b[k])) {
      assert SameRecord(GetFrom(d, u, k), GetFrom(e, u, k));
    }
  }

  lemma ImportCallSame(c: Config, d: Snapshot, e: Snapshot, u: Str, call: Event)
    requires SameView(d, e, u) && call.Import? && call.u == u
    ensures SameView(Next(c, d, call), Next(c, e, call), u)
    ensures SameAnswer(Step(c, d, call).1, Step(c, e, call).1)
  {
    var d', e' := Next(c, d, call), Next(c, e, call);
    ImportSame(c.lib, call.clock, d, e, u, call.records, call.mode, |call.records|);
    ImportFrame(c.lib, call.clock, d, u, call.records, call.mode, |call.records|);
    ImportFrame(c.lib, call.clock, e, u, call.records, call.mode, |call.records|);
    TxsDepend(d, e, d', e', u);
    TablesDepend(d, e, d', e', u);
  }

  /** A call made in the userspace, on contents it cannot tell apart, answers alike
      and leaves contents it cannot tell apart. */
  lemma OwnCallSame(c: Config, d: Snapshot, e: Snapshot, u: Str, own: Share, call: Event)
    requires SameView(d, e, u) && Apart(d, u, own) && Apart(e, u, own)
    requires CalledIn(call, u) && Respects(call, u, own)
    ensures SameView(Next(c, d, call), Next(c, e, call), u)
    ensures SameAnswer(Step(c, d, call).1, Step(c, e, call).1)
  {
    match call
    case CreateTx(_, _, _, _, _, _) => CreateTxSame(c, d, e, u, own, call);
    case CreateUserspace(_, _, _) => CreateSpaceSame(c, d, e, u, call);
    case RotateApiKey(_, _, _) => RotateSame(c, d, e, u, call);
    case DeleteUserspace(_) => DeleteSpaceSame(c, d, e, u, call);
    case Import(_, _, _, _) => ImportCallSame(c, d, e, u, call);
    case KvPut(_, _, _, _, _) => KvPutSame(c, d, e, u, call);
    case KvDelete(_, _) => KvDeleteSame(c, d, e, u, call);
    case KvGet(_, _) => ReadSame(c, d, e, u, call);
    case Export(_) => ReadSame(c, d, e, u, call);
    case _ => TxCallSame(c, d, e, u, own, call);
  }

  lemma SweepSame(d: Snapshot, e: Snapshot, u: Str, sweep: Str -> Time)
    requires SameView(d, e, u)
    ensures SameView(ExpireDueIn(d, sweep), ExpireDueIn(e, sweep), u)
  {
    var d', e' := ExpireDueIn(d, sweep), ExpireDueIn(e, sweep);
    ValuesDepend(d, e, d', e', u);
    TablesDepend(d, e, d', e', u);
    forall id ensures SameOwnTx(d', e', u, id) {
      assert SameOwnTx(d, e, u, id);
    }
  }

  // ---- calls made elsewhere ----

  lemma Unchanged(d: Snapshot, e: Snapshot, u: Str)
    requires (u in e.userspaces <==> u in d.userspaces) && SpaceOf(e, u) == SpaceOf(d, u)
    requires forall h :: OwnKey(d, u, h) == OwnKey(e, u, h)
    requires forall s :: OwnSubject(d, u, s) == OwnSubject(e, u, s)
    requires forall id :: SameOwnTx(d, e, u, id)
    ensures SameView(d, e, u)
  {
    assert forall k :: GetFrom(d, u, k) == GetFrom(e, u, k);
  }

  lemma {:induction false} ImportElsewhere(lib: Library, clock: Clock, d: Snapshot, v: Str, records: seq<KVRecord>,
                                          mode: ImportMode, n: nat, u: Str)
    requires n <= |records| && u != v
    ensures var e := ImportPrefix(lib, clock, d, v, records, mode, n).0;
            (u in e.userspaces <==> u in d.userspaces) && SpaceOf(e, u) == SpaceOf(d, u)
  {
    if n > 0 {
      ImportElsewhere(lib, clock, d, v, records, mode, n - 1, u);
    }
  }

  lemma SaveElsewhere(d: Snapshot, t: Transaction, u: Str)
    requires t.userspaceID != u && (t.txID in d.txs ==> d.txs[t.txID].userspaceID != u)
    ensures SameView(d, SaveTxIn(d, t), u)
  {
    Unchanged(d, SaveTxIn(d, t), u);
  }

  lemma ExecuteElsewhere(lib: Library, clock: Clock, d: Snapshot, t: Transaction, u: Str)
    requires t.userspaceID != u && (t.txID in d.txs ==> d.txs[t.txID].userspaceID != u)
    ensures SameView(d, ExecuteIn(lib, clock, d, t), u)
  {
    ExecutedTables(lib, clock, d, t);
    ExecutionFrame(lib, clock, d, t.userspaceID, t.ops, t.totalOps);
    Unchanged(d, ExecuteIn(lib, clock, d, t), u);
  }

  lemma {:induction false} TxCallElsewhere(c: Config, d: Snapshot, u: Str, own: Share, call: Event)
    requires Apart(d, u, own) && IsTxCall(call) && CallerOf(call).userspaceID != u
    ensures SameView(d, Next(c, d, call), u)
  {
    DecisionNames(c, d, u, own, call);
    match DecisionOf(c, d, call)
    case Answer(_) => Unchanged(d, d, u);
    case Save(t, _) => SaveElsewhere(d, t, u);
    case Execute(t) => ExecuteElsewhere(c.lib, ClockOf(call), d, t, u);
  }

  lemma AdminElsewhere(c: Config, d: Snapshot, u: Str, own: Share, call: Event)
    requires Apart(d, u, own) && Respects(call, u, own)
    requires (call.CreateUserspace? || call.DeleteUserspace? || call.RotateApiKey?) && call.u != u
    ensures SameView(d, Next(c, d, call), u)
  {
    KeysElsewhere(c, d, u, own, call);
    SpacesElsewhere(c, d, u, call);
    Unchanged(d, Next(c, d, call), u);
  }

  lemma SpacesElsewhere(c: Config, d: Snapshot, u: Str, call: Event)
    requires (call.CreateUserspace? || call.DeleteUserspace? || call.RotateApiKey?) && call.u != u
    ensures var e := Next(c, d, call);
            && (u in e.userspaces <==> u in d.userspaces) && SpaceOf(e, u) == SpaceOf(d, u)
            && forall id :: SameOwnTx(d, e, u, id)
  {
  }

  lemma KeysElsewhere(c: Config, d: Snapshot, u: Str, own: Share, call: Event)
    requires Apart(d, u, own) && Respects(call, u, own)
    requires (call.CreateUserspace? || call.DeleteUserspace? || call.RotateApiKey?) && call.u != u
    ensures forall h :: OwnKey(d, u, h) == OwnKey(Next(c, d, call), u, h)
    ensures forall s :: OwnSubject(d, u, s) == OwnSubject(Next(c, d, call), u, s)
  {
    var e := Next(c, d, call);
    forall h ensures OwnKey(d, u, h) == OwnKey(e, u, h) {
      if call.DeleteUserspace? || e == d || h != call.hash {
        assert h in d.apiKeys && d.apiKeys[h].principal.userspaceID == u ==>
            h in e.apiKeys && e.apiKeys[h] == d.apiKeys[h];
      }
    }
  }

  lemma {:induction false} StoreCallElsewhere(c: Config, d: Snapshot, u: Str, own: Share, call: Event)
    requires Apart(d, u, own) && Respects(call, u, own) && !IsTxCall(call) && !call.ExpireDue? && SpaceCalled(call) != u
    ensures SameView(d, Next(c, d, call), u)
  {
    if call.CreateUserspace? || call.DeleteUserspace? || call.RotateApiKey? {
      AdminElsewhere(c, d, u, own, call);
    } else if call.CreateTx? {
      CreateTxElsewhere(c, d, u, own, call);
    } else if call.Import? {
      ImportElsewhere(c.lib, call.clock, d, call.u, call.records, call.mode, |call.records|, u);
      ImportFrame(c.lib, call.clock, d, call.u, call.records, call.mode, |call.records|);
      Unchanged(d, Next(c, d, call), u);
    } else {
      Unchanged(d, Next(c, d, call), u);
    }
  }

  lemma CreateTxElsewhere(c: Config, d: Snapshot, u: Str, own: Share, call: Event)
    requires Apart(d, u, own) && call.CreateTx? && IdOf(call) !in own.ids && call.p.userspaceID != u
    ensures SameView(d, Next(c, d, call), u)
  {
    CreationShape(c, d, call);
    var e := Next(c, d, call);
    if e == d {
      Unchanged(d, d, u);
    } else {
      SaveElsewhere(d, e.txs[IdOf(call)], u);
    }
  }

  /** A call made elsewhere leaves the view as it is. */
  lemma {:induction false} CallElsewhere(c: Config, d: Snapshot, u: Str, own: Share, call: Event)
    requires Apart(d, u, own) && Respects(call, u, own) && !call.ExpireDue? && SpaceCalled(call) != u
    ensures SameView(d, Next(c, d, call), u)
  {
    if IsTxCall(call) {
      TxCallElsewhere(c, d, u, own, call);
    } else {
      StoreCallElsewhere(c, d, u, own, call);
    }
  }

  // ---- the sharing out is kept ----

  lemma SaveKeepsApart(d: Snapshot, e: Snapshot, t: Transaction, u: Str, own: Share)
    requires Apart(d, u, own) && t.txID in d.txs && t.userspaceID == d.txs[t.txID].userspaceID
    requires e.txs == d.txs[t.txID := t] && e.apiKeys == d.apiKeys
    ensures Apart(e, u, own)
  {
  }

  lemma ExecutionKeepsApart(lib: Library, clock: Clock, d: Snapshot, t: Transaction, u: Str, own: Share)
    requires Apart(d, u, own) && t.txID in d.txs && t.userspaceID == d.txs[t.txID].userspaceID
    ensures Apart(ExecuteIn(lib, clock, d, t), u, own)
  {
    ExecutedTables(lib, clock, d, t);
    SaveKeepsApart(d, ExecuteIn(lib, clock, d, t), Settled(t, OutcomeOf(lib, clock, d, t)), u, own);
  }

  lemma {:induction false} TxCallKeepsApart(c: Config, d: Snapshot, u: Str, own: Share, call: Event)
    requires Apart(d, u, own) && IsTxCall(call)
    ensures Apart(Next(c, d, call), u, own)
  {
    DecisionNames(c, d, u, own, call);
    TxStep(c, d, call);
    match DecisionOf(c, d, call)
    case Answer(_) =>
    case Save(t, _) => SaveKeepsApart(d, SaveTxIn(d, t), t, u, own);
    case Execute(t) => ExecutionKeepsApart(c.lib, ClockOf(call), d, t, u, own);
  }

  lemma StepKeepsApart(c: Config, d: Snapshot, u: Str, own: Share, call: Event)
    requires Apart(d, u, own) && Respects(call, u, own)
    ensures Apart(Next(c, d, call), u, own)
  {
    if IsTxCall(call) {
      TxCallKeepsApart(c, d, u, own, call);
    } else if call.Import? {
      ImportFrame(c.lib, call.clock, d, call.u, call.records, call.mode, |call.records|);
    } else if call.CreateTx? {
      CreationShape(c, d, call);
    }
  }

  // ---- runs ----

  ghost predicate AllRespect(es: seq<Event>, u: Str, own: Share) {
    forall n :: 0 <= n < |es| ==> Respects(es[n], u, own)
  }

  /** The run with the calls made elsewhere left out; sweeps serve everyone. */
  function Purge(es: seq<Event>, u: Str): seq<Event> {
    if es == [] then []
    else Purge(Init(es), u) + if CalledIn(Last(es), u) || Last(es).ExpireDue? then [Last(es)] else []
  }

  /** What the calls made in the userspace answer, in order. */
  function AnswersTo(c: Config, d: Snapshot, es: seq<Event>, u: Str): seq<Response> {
    if es == [] then []
    else AnswersTo(c, d, Init(es), u)
         + if CalledIn(Last(es), u) then [Step(c, Run(c, d, Init(es)), Last(es)).1] else []
  }

  ghost predicate SameAnswers(a: seq<Response>, b: seq<Response>) {
    |a| == |b| && forall i :: 0 <= i < |a| ==> SameAnswer(a[i], b[i])
  }

  lemma {:induction false} RunKeepsApart(c: Config, d: Snapshot, es: seq<Event>, u: Str, own: Share)
    requires Apart(d, u, own) && AllRespect(es, u, own)
    ensures Apart(Run(c, d, es), u, own)
  {
    if es != [] {
      assert AllRespect(Init(es), u, own) && Respects(Last(es), u, own);
      RunKeepsApart(c, d, Init(es), u, own);
      StepKeepsApart(c, Run(c, d, Init(es)), u, own, Last(es));
    }
  }

  lemma ViewTransitive(d: Snapshot, e: Snapshot, f: Snapshot, u: Str)
    requires SameView(d, e, u) && SameView(e, f, u)
    ensures SameView(d, f, u)
  {
    forall k ensures SameRecord(GetFrom(d, u, k), GetFrom(f, u, k)) {
      assert SameRecord(GetFrom(d, u, k), GetFrom(e, u, k)) && SameRecord(GetFrom(e, u, k), GetFrom(f, u, k));
    }
    forall id ensures SameOwnTx(d, f, u, id) {
      assert SameOwnTx(d, e, u, id) && SameOwnTx(e, f, u, id);
    }
    forall h ensures OwnKey(d, u, h) == OwnKey(f, u, h) {
      assert OwnKey(d, u, h) == OwnKey(e, u, h) && OwnKey(e, u, h) == OwnKey(f, u, h);
    }
    forall s ensures OwnSubject(d, u, s) == OwnSubject(f, u, s) {
      assert OwnSubject(d, u, s) == OwnSubject(e, u, s) && OwnSubject(e, u, s) == OwnSubject(f, u, s);
    }
  }

  lemma ViewSymmetric(d: Snapshot, e: Snapshot, u: Str)
    requires SameView(d, e, u)
    ensures SameView(e, d, u)
  {
    forall k ensures SameRecord(GetFrom(e, u, k), GetFrom(d, u, k)) {
      assert SameRecord(GetFrom(d, u, k), GetFrom(e, u, k));
    }
    forall id ensures SameOwnTx(e, d, u, id) {
      assert SameOwnTx(d, e, u, id);
    }
  }

  /** Leaving the other userspaces' calls out changes nothing for this one. */
  lemma {:induction false} PurgeInvisible(c: Config, d: Snapshot, e: Snapshot, es: seq<Event>, u: Str, own: Share)
    requires SameView(d, e, u) && Apart(d, u, own) && Apart(e, u, own) && AllRespect(es, u, own)
    ensures SameView(Run(c, d, es), Run(c, e, Purge(es, u)), u)
    ensures Apart(Run(c, e, Purge(es, u)), u, own)
    ensures SameAnswers(AnswersTo(c, d, es, u), AnswersTo(c, e, Purge(es, u), u))
  {
    if es != [] {
      assert AllRespect(Init(es), u, own) && Respects(Last(es), u, own);
      PurgeInvisible(c, d, e, Init(es), u, own);
      RunKeepsApart(c, d, Init(es), u, own);
      LastInvisible(c, d, e, es, u, own);
    }
  }

  lemma SameAnswersGrow(a: seq<Response>, b: seq<Response>, r: Response, q: Response)
    requires SameAnswers(a, b) && SameAnswer(r, q)
    ensures SameAnswers(a + [r], b + [q])
  {
  }

  /** A run and its answers, taken apart at the last call. */
  lemma RunLast(c: Config, d: Snapshot, es: seq<Event>, u: Str)
    requires es != []
    ensures Run(c, d, es) == Next(c, Run(c, d, Init(es)), Last(es))
    ensures AnswersTo(c, d, es, u) ==
            if CalledIn(Last(es), u) then AnswersTo(c, d, Init(es), u) + [Step(c, Run(c, d, Init(es)), Last(es)).1]
            else AnswersTo(c, d, Init(es), u)
  {
  }

  lemma SweepInvisible(c: Config, d: Snapshot, e: Snapshot, u: Str, own: Share, call: Event)
    requires SameView(d, e, u) && Apart(e, u, own) && call.ExpireDue?
    ensures SameView(Next(c, d, call), Next(c, e, call), u) && Apart(Next(c, e, call), u, own)
  {
    SweepSame(d, e, u, call.sweep);
    StepKeepsApart(c, e, u, own, call);
  }

  lemma LastInvisible(c: Config, d: Snapshot, e: Snapshot, es: seq<Event>, u: Str, own: Share)
    requires es != [] && Respects(Last(es), u, own)
    requires Apart(Run(c, d, Init(es)), u, own) && Apart(Run(c, e, Purge(Init(es), u)), u, own)
    requires SameView(Run(c, d, Init(es)), Run(c, e, Purge(Init(es), u)), u)
    requires SameAnswers(AnswersTo(c, d, Init(es), u), AnswersTo(c, e, Purge(Init(es), u), u))
    ensures SameView(Run(c, d, es), Run(c, e, Purge(es, u)), u)
    ensures Apart(Run(c, e, Purge(es, u)), u, own)
    ensures SameAnswers(AnswersTo(c, d, es, u), AnswersTo(c, e, Purge(es, u), u))
  {
    var x, y, call := Run(c, d, Init(es)), Run(c, e, Purge(Init(es), u)), Last(es);
    RunLast(c, d, es, u);
    if call.ExpireDue? {
      LastKept(c, e, es, u);
      SweepInvisible(c, x, y, u, own, call);
    } else if CalledIn(call, u) {
      LastKept(c, e, es, u);
      StepKeepsApart(c, y, u, own, call);
      OwnCallSame(c, x, y, u, own, call);
      SameAnswersGrow(AnswersTo(c, d, Init(es), u), AnswersTo(c, e, Purge(Init(es), u), u),
                      Step(c, x, call).1, Step(c, y, call).1);
    } else {
      assert Purge(es, u) == Purge(Init(es), u);
      ElsewhereInvisible(c, x, y, u, own, call);
    }
  }

  lemma ElsewhereInvisible(c: Config, d: Snapshot, e: Snapshot, u: Str, own: Share, call: Event)
    requires SameView(d, e, u) && Apart(d, u, own) && Respects(call, u, own) && !call.ExpireDue?
        && SpaceCalled(call) != u
    ensures SameView(Next(c, d, call), e, u)
  {
    CallElsewhere(c, d, u, own, call);
    ViewSymmetric(d, Next(c, d, call), u);
    ViewTransitive(Next(c, d, call), d, e, u);
  }

  lemma LastKept(c: Config, e: Snapshot, es: seq<Event>, u: Str)
    requires es != [] && (CalledIn(Last(es), u) || Last(es).ExpireDue?)
    ensures Run(c, e, Purge(es, u)) == Next(c, Run(c, e, Purge(Init(es), u)), Last(es))
    ensures AnswersTo(c, e, Purge(es, u), u) ==
            AnswersTo(c, e, Purge(Init(es), u), u)
            + if CalledIn(Last(es), u) then [Step(c, Run(c, e, Purge(Init(es), u)), Last(es)).1] else []
  {
    var kept := Purge(es, u);
    assert Init(kept) == Purge(Init(es), u) && Last(kept) == Last(es);
  }

  lemma AnswersTransitive(a: seq<Response>, b: seq<Response>, x: seq<Response>)
    requires SameAnswers(a, x) && SameAnswers(b, x)
    ensures SameAnswers(a, b)
  {
    forall i | 0 <= i < |a| ensures SameAnswer(a[i], b[i]) {
      assert SameAnswer(a[i], x[i]) && SameAnswer(b[i], x[i]);
      AnswerTransitive(a[i], b[i], x[i]);
    }
  }

  lemma AnswerTransitive(a: Response, b: Response, x: Response)
    requires SameAnswer(a, x) && SameAnswer(b, x)
    ensures SameAnswer(a, b)
  {
    if a.Exported? {
      forall k | k in a.space ensures SameRecord(Some(a.space[k]), Some(b.space[k])) {
        assert SameRecord(Some(a.space[k]), Some(x.space[k])) && SameRecord(Some(b.space[k]), Some(x.space[k]));
      }
    }
  }

  /** Two runs with the same calls in one userspace and any calls elsewhere: that
      userspace ends with the same values, keys, subjects and transactions, and got
      the same answers all along, version numbers aside. */
  lemma TwoRunIsolation(c: Config, d: Snapshot, es: seq<Event>, fs: seq<Event>, u: Str, own: Share)
    requires Apart(d, u, own) && AllRespect(es, u, own) && AllRespect(fs, u, own)
    requires Purge(es, u) == Purge(fs, u)
    ensures SameView(Run(c, d, es), Run(c, d, fs), u)
    ensures SameAnswers(AnswersTo(c, d, es, u), AnswersTo(c, d, fs, u))
  {
    Unchanged(d, d, u);
    PurgeInvisible(c, d, d, es, u, own);
    PurgeInvisible(c, d, d, fs, u, own);
    var same := Run(c, d, Purge(es, u));
    ViewSymmetric(Run(c, d, fs), same, u);
    ViewTransitive(Run(c, d, es), same, Run(c, d, fs), u);
    AnswersTransitive(AnswersTo(c, d, es, u), AnswersTo(c, d, fs, u), AnswersTo(c, d, Purge(es, u), u));
  }

  /** Identifiers must not be shared: a valid creation succeeds where the identifier
      is free and fails once another userspace has created a transaction under it. */
  lemma SharedIdsInterfere(c: Config, d: Snapshot, call: Event, other: Event)
    requires call.CreateTx? && 0 < call.totalOps <= c.maxOps && call.timeout <= 0
    requires other.CreateTx? && 0 < other.totalOps <= c.maxOps && other.timeout <= 0
    requires c.defaultTimeout <= c.maxTimeout && ValidTxID(call.requested) && call.requested !in d.txs
    requires other.requested == call.requested && other.p.userspaceID != call.p.userspaceID
    ensures Step(c, d, call).1.Created? && Step(c, d, call).1.r.Ok?
    ensures Step(c, d, other).1.Created? && Step(c, d, other).1.r.Ok?
    ensures Step(c, Next(c, d, other), call) == (Next(c, d, other), Created(Err(ErrInvalidTx)))
  {
    CreationShape(c, d, call);
    CreationShape(c, d, other);
    CreationShape(c, Next(c, d, other), call);
  }
}
