/** The transaction records over every run of the server: what a stored record
    always satisfies, and what every call may decide about it. */
module Lifecycle {
  import opened Model
  import opened StoreSpec
  import opened StoreLaws
  import opened TxDigest
  import opened CoordinatorSpec
  import opened ExecutionLaws
  import opened System

  // ---- the completeness test by counting ----

  lemma RemoveOne(ops: map<int, TxOperation>, n: int)
    ensures |ops - {n}| == |ops| - if n in ops then 1 else 0
  {
    var rest := ops - {n};
    if n in ops {
      assert ops.Keys == rest.Keys + {n};
    } else {
      assert rest == ops;
    }
  }

  predicate Within(ops: map<int, TxOperation>, n: nat) {
    forall i :: i in ops ==> 1 <= i <= n
  }

  predicate Covers(ops: map<int, TxOperation>, n: nat) {
    forall i :: 1 <= i <= n ==> i in ops
  }

  /** When all fragment numbers lie in 1..n, having n of them is having all. */
  lemma {:induction false} CountMeansComplete(ops: map<int, TxOperation>, n: nat)
    requires Within(ops, n)
    ensures |ops| <= n
    ensures |ops| == n <==> Covers(ops, n)
  {
    if n == 0 {
      if ops.Keys != {} {
        var i := SomeMember(ops.Keys);
      }
    } else {
      var rest := ops - {n};
      RemoveOne(ops, n);
      CountMeansComplete(rest, n - 1);
      assert Covers(ops, n) <==> n in ops && Covers(rest, n - 1) by {
        if n in ops && Covers(rest, n - 1) {
          forall i | 1 <= i <= n ensures i in ops { assert i == n || i in rest; }
        }
        if Covers(ops, n) {
          forall i | 1 <= i <= n - 1 ensures i in rest { assert i in ops; }
        }
      }
    }
  }

  /** s lists, in order, the numbers 1..n that are in ops, or those that are not. */
  ghost predicate Divides(s: seq<int>, ops: map<int, TxOperation>, n: nat, there: bool) {
    && (forall i :: i in s <==> 1 <= i <= n && (i in ops <==> there))
    && (forall i, j :: 0 <= i < j < |s| ==> s[i] < s[j])
  }

  lemma DividesNext(s: seq<int>, ops: map<int, TxOperation>, n: nat, there: bool)
    requires n > 0 && Divides(s, ops, n - 1, there)
    ensures Divides(s + if n in ops <==> there then [n] else [], ops, n, there)
  {
    forall i | 0 <= i < |s| ensures s[i] < n {
      assert s[i] in s;
    }
  }

  /** A progress report divides the numbers 1..n, in order, into those of the
      fragments that are there and the others. */
  lemma {:induction false} ReportDivides(ops: map<int, TxOperation>, n: nat)
    ensures Divides(ReceivedSeq(ops, n), ops, n, true) && Divides(MissingSeq(ops, n), ops, n, false)
    ensures |ReceivedSeq(ops, n)| + |MissingSeq(ops, n)| == n
  {
    if n > 0 {
      ReportDivides(ops, n - 1);
      DividesNext(ReceivedSeq(ops, n - 1), ops, n, true);
      DividesNext(MissingSeq(ops, n - 1), ops, n, false);
    }
  }

  /** On a stored record nothing is reported missing exactly when it is complete. */
  lemma NothingMissingIffComplete(c: Config, id: Str, t: Transaction)
    requires WellFiled(c, id, t)
    ensures StatusOf(t).missingSeq == [] <==> |t.ops| == t.totalOps
    ensures |StatusOf(t).receivedSeq| == |t.ops|
  {
    ReportDivides(t.ops, t.totalOps);
    CountMeansComplete(t.ops, t.totalOps);
    NothingMissing(t.ops, t.totalOps);
    ReceivedCount(t.ops, t.totalOps);
  }

  lemma NothingMissing(ops: map<int, TxOperation>, n: nat)
    requires Divides(MissingSeq(ops, n), ops, n, false)
    ensures MissingSeq(ops, n) == [] <==> Covers(ops, n)
  {
    var missing := MissingSeq(ops, n);
    if missing != [] {
      assert missing[0] in missing;
    }
    if !Covers(ops, n) {
      var i :| 1 <= i <= n && i !in ops;
      assert i in missing;
    }
  }

  lemma {:induction false} ReceivedCount(ops: map<int, TxOperation>, n: nat)
    requires Within(ops, n)
    ensures |ReceivedSeq(ops, n)| == |ops|
  {
    if n == 0 {
      CountMeansComplete(ops, 0);
    } else {
      RemoveOne(ops, n);
      ReceivedCount(ops - {n}, n - 1);
      SameReport(ops - {n}, ops, n - 1);
    }
  }

  lemma {:induction false} SameReport(p: map<int, TxOperation>, q: map<int, TxOperation>, n: nat)
    requires forall i :: 1 <= i <= n ==> (i in p <==> i in q)
    ensures ReceivedSeq(p, n) == ReceivedSeq(q, n)
  {
    if n > 0 {
      SameReport(p, q, n - 1);
    }
  }

  // ---- what a stored record satisfies ----

  predicate FiledUnder(lib: Library, id: Str, n: int, op: TxOperation) {
    op.seqNo == n && op.txID == id && op.opID != [] && op.bodyHash == lib.checksum(op.body)
  }

  predicate WellFiled(c: Config, id: Str, t: Transaction) {
    && t.txID == id
    && 1 <= t.totalOps <= c.maxOps
    && t.deadline <= t.createdAt + c.maxTimeout
    && forall n :: n in t.ops ==> 1 <= n <= t.totalOps && FiledUnder(c.lib, id, n, t.ops[n])
  }

  predicate AnswersOp(r: TxOperationResult, n: int, op: TxOperation) {
    r.seqNo == n && r.op == op.opType && r.key == op.key
  }

  /** One answer for every operation, in order. */
  predicate FullResult(t: Transaction) {
    && t.result.Some?
    && t.result.value.txID == t.txID && t.result.value.status == Committed
    && |t.result.value.results| == t.totalOps
    && forall i :: 0 <= i < t.totalOps ==> AnswersOp(t.result.value.results[i], i + 1, OpAt(t.ops, i + 1))
  }

  predicate StatusOk(t: Transaction) {
    match t.status
    case Pending => !t.commitReceived && t.result == None
    case WaitingForOps => t.commitReceived && |t.ops| < t.totalOps && t.result == None
    case Committed => t.commitReceived && |t.ops| == t.totalOps && FullResult(t)
    case Aborted => t.result.Some? ==> t.result.value.status == Aborted
    case Expired => t.result == None
    case _ => false
  }

  predicate TxOk(c: Config, id: Str, t: Transaction) {
    WellFiled(c, id, t) && StatusOk(t)
  }

  /** A record that is about to be executed. */
  predicate Complete(c: Config, id: Str, t: Transaction) {
    && WellFiled(c, id, t) && Open(t) && t.commitReceived && t.result == None
    && |t.ops| == t.totalOps
  }

  predicate TxsOk(c: Config, d: Snapshot) {
    forall id :: id in d.txs ==> TxOk(c, id, d.txs[id])
  }

  ghost predicate Inv(c: Config, d: Snapshot) {
    StoreInv(c.lib, d) && TxsOk(c, d)
  }

  lemma EmptyStoreInv(c: Config)
    ensures Inv(c, EMPTY_SNAPSHOT)
  {
  }

  /** Nor does the server's start, on any content, break it. */
  lemma BootstrapKeepsInv(c: Config, d: Snapshot, user: Str, u: Str, hash: Str)
    requires Inv(c, d)
    ensures Inv(c, Bootstrap(d, user, u, hash))
    ensures UserspaceExists(Bootstrap(d, user, u, hash), u)
    ensures forall v :: v in d.userspaces ==> SpaceOf(Bootstrap(d, user, u, hash), v) == d.userspaces[v]
  {
    FewerRecordsKeepInv(c.lib, d, Bootstrap(d, user, u, hash));
  }

  // ---- every decision ----

  /** What a decision about a loaded record t that satisfies the invariant may be. */
  predicate RecordDecisionOk(c: Config, id: Str, t: Transaction, dec: Decision) {
    match dec
    case Answer(_) => true
    case Save(r, _) =>
      r.txID == id && t.status != Committed && TxOk(c, id, r) && r.status != Committed && SameOwner(r, t)
    case Execute(r) =>
      r.txID == id && Open(t) && Complete(c, id, r) && SameOwner(r, t)
  }

  predicate DecisionOk(c: Config, d: Snapshot, id: Str, dec: Decision) {
    dec.Answer? || (id in d.txs && RecordDecisionOk(c, id, d.txs[id], dec))
  }

  predicate CommittedIn(d: Snapshot, id: Str) {
    id in d.txs && d.txs[id].status == Committed
  }

  predicate SameOwner(t: Transaction, s: Transaction) {
    t.userID == s.userID && t.userspaceID == s.userspaceID && t.totalOps == s.totalOps && t.deadline == s.deadline
  }

  function TargetOf(e: Event): Str
    requires IsTxCall(e)
  {
    match e
    case AddOp(_, id, _, _, _) => id
    case Commit(_, id, _, _, _, _) => id
    case Abort(_, id) => id
    case GetResult(_, id, _) => id
  }

  lemma FragmentRepeatedOk(c: Config, id: Str, t: Transaction, op: TxOperation)
    requires TxOk(c, id, t) && Open(t) && op.seqNo in t.ops
    ensures RecordDecisionOk(c, id, t, AddFragment(t, op))
  {
  }

  lemma FragmentAddedOk(c: Config, id: Str, t: Transaction, op: TxOperation)
    requires TxOk(c, id, t) && Open(t) && 1 <= op.seqNo <= t.totalOps && op.seqNo !in t.ops
    requires FiledUnder(c.lib, id, op.seqNo, op)
    ensures RecordDecisionOk(c, id, t, AddFragment(t, op))
  {
    var added := t.(ops := t.ops[op.seqNo := op]);
    assert WellFiled(c, id, added);
    assert Within(added.ops, t.totalOps);
    CountMeansComplete(added.ops, t.totalOps);
  }

  lemma FragmentOk(c: Config, id: Str, t: Transaction, op: TxOperation, now: Time, received: Time)
    requires TxOk(c, id, t)
    ensures RecordDecisionOk(c, id, t, FragmentDecision(c, id, t, op, now, received))
  {
    if Open(t) && 1 <= op.seqNo <= t.totalOps && op.opID != [] {
      if op.seqNo in t.ops {
        FragmentRepeatedOk(c, id, t, Filing(c.lib, id, op, received));
      } else {
        FragmentAddedOk(c, id, t, Filing(c.lib, id, op, received));
      }
    }
  }

  lemma AddOpOk(c: Config, d: Snapshot, p: Principal, id: Str, op: TxOperation, now: Time, received: Time)
    requires TxsOk(c, d)
    ensures DecisionOk(c, d, id, AddOpDecision(c, d, p, id, op, now, received))
  {
    if id in d.txs {
      FragmentOk(c, id, d.txs[id], op, now, received);
    }
  }

  lemma CommitOnOk(c: Config, id: Str, t: Transaction, totalOps: int, digest: Str, now: Time)
    requires TxOk(c, id, t)
    ensures RecordDecisionOk(c, id, t, CommitOn(t, totalOps, digest, now))
  {
    assert Within(t.ops, t.totalOps);
    CountMeansComplete(t.ops, t.totalOps);
  }

  lemma CommitOk(c: Config, d: Snapshot, p: Principal, id: Str, totalOps: int, digest: Str, now: Time)
    requires TxsOk(c, d)
    ensures DecisionOk(c, d, id, CommitDecision(d, p, id, totalOps, digest, now))
  {
    if id in d.txs {
      CommitOnOk(c, id, d.txs[id], totalOps, digest, now);
    }
  }

  lemma AbortOk(c: Config, d: Snapshot, p: Principal, id: Str)
    requires TxsOk(c, d)
    ensures DecisionOk(c, d, id, AbortDecision(d, p, id))
  {
    assert id in d.txs ==> TxOk(c, id, d.txs[id]);
  }

  lemma GetResultOk(c: Config, d: Snapshot, p: Principal, id: Str, now: Time)
    requires TxsOk(c, d)
    ensures DecisionOk(c, d, id, GetResultDecision(d, p, id, now))
  {
    assert id in d.txs ==> TxOk(c, id, d.txs[id]);
  }

  lemma DecisionsOk(c: Config, d: Snapshot, e: Event)
    requires TxsOk(c, d) && IsTxCall(e)
    ensures DecisionOk(c, d, TargetOf(e), DecisionOf(c, d, e))
  {
    match e
    case AddOp(p, id, op, now, clock) => AddOpOk(c, d, p, id, op, now, clock(0));
    case Commit(p, id, totalOps, digest, now, _) => CommitOk(c, d, p, id, totalOps, digest, now);
    case Abort(p, id) => AbortOk(c, d, p, id);
    case GetResult(p, id, now) => GetResultOk(c, d, p, id, now);
  }

  // ---- every step keeps the invariant ----

  lemma SaveKeepsInv(c: Config, d: Snapshot, t: Transaction)
    requires Inv(c, d) && TxOk(c, t.txID, t)
    ensures Inv(c, SaveTxIn(d, t))
  {
    FewerRecordsKeepInv(c.lib, d, SaveTxIn(d, t));
  }

  lemma AnswerNames(d: Snapshot, u: Str, n: int, op: TxOperation)
    ensures AnswersOp(OpAnswer(d, u, n, op), n, op)
  {
  }

  lemma {:induction false} AnswersAreFull(lib: Library, clock: Clock, d: Snapshot, u: Str, ops: map<int, TxOperation>,
                                          k: nat)
    ensures |Answers(lib, clock, d, u, ops, k)| == k
    ensures forall i :: 0 <= i < k ==> AnswersOp(Answers(lib, clock, d, u, ops, k)[i], i + 1, OpAt(ops, i + 1))
  {
    if k > 0 {
      AnswersAreFull(lib, clock, d, u, ops, k - 1);
      AnswerNames(StateAfter(lib, clock, d, u, ops, k - 1), u, k, OpAt(ops, k));
    }
  }

  /** The shapes that an outcome can have. */
  lemma OutcomeShapes(lib: Library, clock: Clock, d: Snapshot, t: Transaction)
    ensures var o := OutcomeOf(lib, clock, d, t);
            var full := Answers(lib, clock, d, t.userspaceID, t.ops, t.totalOps);
            || (o.status == Committed && o.result == Some(TxResult(t.txID, Committed, full)))
            || (o.status == Aborted && (o.result == t.result || (o.result.Some? && o.result.value.status == Aborted)))
  {
  }

  lemma SettledOk(c: Config, clock: Clock, d: Snapshot, t: Transaction)
    requires Complete(c, t.txID, t)
    ensures TxOk(c, t.txID, Settled(t, OutcomeOf(c.lib, clock, d, t)))
  {
    var o := OutcomeOf(c.lib, clock, d, t);
    OutcomeShapes(c.lib, clock, d, t);
    var s := Settled(t, o);
    if o.status == Committed {
      AnswersAreFull(c.lib, clock, d, t.userspaceID, t.ops, t.totalOps);
    }
    assert WellFiled(c, t.txID, s);
  }

  lemma ExecuteKeepsInv(c: Config, clock: Clock, d: Snapshot, t: Transaction)
    requires Inv(c, d) && Complete(c, t.txID, t)
    ensures Inv(c, ExecuteIn(c.lib, clock, d, t))
  {
    SettledOk(c, clock, d, t);
    var s := Settled(t, OutcomeOf(c.lib, clock, d, t));
    var after := StateAfter(c.lib, clock, d, t.userspaceID, t.ops, t.totalOps);
    ExecutionKeepsInv(c.lib, clock, d, t.userspaceID, t.ops, t.totalOps);
    ExecutionIsLocal(c.lib, clock, d, t.userspaceID, t.ops, t.totalOps);
    assert Inv(c, after);
    SaveKeepsInv(c, d, s);
    SaveKeepsInv(c, after, s);
  }

  lemma TxCallKeepsInv(c: Config, d: Snapshot, e: Event)
    requires Inv(c, d) && IsTxCall(e)
    ensures Inv(c, Next(c, d, e))
  {
    DecisionsOk(c, d, e);
    TxStep(c, d, e);
    CarryKeepsInv(c, ClockOf(e), d, TargetOf(e), DecisionOf(c, d, e));
  }

  lemma CarryKeepsInv(c: Config, clock: Clock, d: Snapshot, id: Str, dec: Decision)
    requires Inv(c, d) && DecisionOk(c, d, id, dec)
    ensures Inv(c, Carry(c.lib, clock, d, dec).0)
  {
    match dec
    case Answer(_) =>
    case Save(t, _) => SaveKeepsInv(c, d, t);
    case Execute(t) => ExecuteKeepsInv(c, clock, d, t);
  }

  lemma CreateTxKeepsInv(c: Config, d: Snapshot, p: Principal, totalOps: int, timeout: Time,
                         requested: Str, drawn: Str, now: Time)
    requires Inv(c, d)
    ensures Inv(c, CreateTxIn(c, d, p, totalOps, timeout, requested, drawn, now).0)
  {
    var r := CreateTxIn(c, d, p, totalOps, timeout, requested, drawn, now);
    if r.0 != d {
      assert TxOk(c, r.1.value.txID, r.1.value);
      SaveKeepsInv(c, d, r.1.value);
    }
  }

  lemma {:induction false} SweepKeepsInv(c: Config, d: Snapshot, sweep: Str -> Time)
    requires Inv(c, d)
    ensures Inv(c, ExpireDueIn(d, sweep))
  {
    FewerRecordsKeepInv(c.lib, d, ExpireDueIn(d, sweep));
    forall id | id in d.txs ensures TxOk(c, id, ExpireDueIn(d, sweep).txs[id]) {
      assert TxOk(c, id, d.txs[id]);
    }
  }

  lemma AdminStepKeepsInv(c: Config, d: Snapshot, u: Str, user: Str, hash: Str)
    requires Inv(c, d)
    ensures CreateSpace(d, u, user, hash).Ok? ==> Inv(c, CreateSpace(d, u, user, hash).value)
    ensures DeleteSpace(d, u).Ok? ==> Inv(c, DeleteSpace(d, u).value)
    ensures RotateKey(d, u, hash, user).Ok? ==> Inv(c, RotateKey(d, u, hash, user).value)
  {
    AdminKeepsInv(c.lib, d, u, user, hash);
  }

  lemma ImportStepKeepsInv(c: Config, clock: Clock, d: Snapshot, u: Str, records: seq<KVRecord>, mode: ImportMode)
    requires Inv(c, d)
    ensures Inv(c, ImportAll(c.lib, clock, d, u, records, mode).0)
  {
    ImportKeepsInv(c.lib, clock, d, u, records, mode, |records|);
    ImportMeetsSpec(c.lib, clock, d, u, records, mode, |records|);
  }

  lemma StepKeepsInv(c: Config, d: Snapshot, e: Event)
    requires Inv(c, d)
    ensures Inv(c, Next(c, d, e))
  {
    match e
    case KvPut(u, k, v, ct, now) => PutKeepsInv(c.lib, now, d, u, k, v, ct);
    case KvGet(_, _) =>
    case KvDelete(u, k) => DeleteKeepsInv(c.lib, d, u, k);
    case Export(_) =>
    case Import(u, records, mode, clock) => ImportStepKeepsInv(c, clock, d, u, records, mode);
    case CreateUserspace(u, user, hash) => AdminStepKeepsInv(c, d, u, user, hash);
    case DeleteUserspace(u) => AdminStepKeepsInv(c, d, u, [], []);
    case RotateApiKey(u, hash, owner) => AdminStepKeepsInv(c, d, u, owner, hash);
    case CreateTx(p, n, timeout, requested, drawn, now) => CreateTxKeepsInv(c, d, p, n, timeout, requested, drawn, now);
    case ExpireDue(sweep) => SweepKeepsInv(c, d, sweep);
    case _ => TxCallKeepsInv(c, d, e);
  }

  /** Every content that a run reaches satisfies the invariant. */
  lemma {:induction false} RunKeepsInv(c: Config, d: Snapshot, es: seq<Event>)
    requires Inv(c, d)
    ensures Inv(c, Run(c, d, es))
  {
    if es != [] {
      RunKeepsInv(c, d, Init(es));
      StepKeepsInv(c, Run(c, d, Init(es)), Last(es));
    }
  }
}
