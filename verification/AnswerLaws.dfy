/** What an execution answers and stores, operation by operation and field by field,
    and how it ends: read off the contents before and after each operation. */
module AnswerLaws {
  import opened Model
  import opened StoreLaws
  import opened TxDigest
  import opened CoordinatorSpec
  import opened ExecutionLaws

  predicate Is(op: TxOperation, name: string) {
    op.opType == Ascii(name)
  }

  predicate IsRead(op: TxOperation) {
    Is(op, "GET") || Is(op, "HEAD")
  }

  /** The five operations that clients can name. */
  predicate IsKnown(op: TxOperation) {
    Is(op, "PUT") || Is(op, "GET") || Is(op, "HEAD") || Is(op, "EXISTS") || Is(op, "DELETE")
  }

  lemma NamesDiffer(op: TxOperation)
    ensures Is(op, "PUT") <==> op.opType == OP_PUT
    ensures Is(op, "GET") <==> op.opType == OP_GET
    ensures Is(op, "HEAD") <==> op.opType == OP_HEAD
    ensures Is(op, "EXISTS") <==> op.opType == OP_EXISTS
    ensures Is(op, "DELETE") <==> op.opType == OP_DELETE
  {
  }

  // ---- what one operation answers ----

  /** The item of operation i, from the content it meets and the content it leaves. */
  predicate RightItem(r: TxOperationResult, before: Snapshot, after: Snapshot, u: Str, i: int, op: TxOperation) {
    && r.seqNo == i && r.op == op.opType && r.key == op.key
    && (IsRead(op) ==>
          && Stored(before, u, op.key)
          && var rec := At(before, u, op.key);
             && r.status == 200 && r.error == NoItemError
             && r.contentType == rec.contentType && r.version == rec.version
             && r.value == if Is(op, "GET") then rec.value else [])
    && (Is(op, "EXISTS") ==>
          if Stored(before, u, op.key) then r.status == 200 && r.error == NoItemError
          else r.status == 404 && r.error == KeyNotFound)
    && (Is(op, "PUT") ==>
          && r.status == 200 && r.error == NoItemError
          && Stored(after, u, op.key) && r.version == At(after, u, op.key).version == after.version)
    && (Is(op, "DELETE") ==>
          r.status == 204 && r.error == NoItemError && r.version == after.version && !Stored(after, u, op.key))
    && (!IsRead(op) ==> r.contentType == [] && r.value == [])
    && (Is(op, "EXISTS") ==> r.version == 0)
  }

  lemma PassedItem(lib: Library, now: Time, d: Snapshot, u: Str, i: int, op: TxOperation)
    requires !OpFails(d, u, op)
    ensures IsKnown(op) && RightItem(OpAnswer(d, u, i, op), d, OpEffect(lib, now, d, u, op), u, i, op)
  {
    NamesDiffer(op);
    OpTypesDiffer();
  }

  /** Of the operations that pass, each has the right item. */
  lemma {:induction false} RightAnswers(lib: Library, clock: Clock, d: Snapshot, u: Str, ops: map<int, TxOperation>,
                                        k: nat, i: nat)
    requires AllPass(lib, clock, d, u, ops, k) && 1 <= i <= k
    ensures |Answers(lib, clock, d, u, ops, k)| == k && IsKnown(OpAt(ops, i))
    ensures RightItem(Answers(lib, clock, d, u, ops, k)[i - 1], StateAfter(lib, clock, d, u, ops, i - 1),
                      StateAfter(lib, clock, d, u, ops, i), u, i, OpAt(ops, i))
  {
    AnswerInTurn(lib, clock, d, u, ops, k, i);
    NextItem(lib, clock, d, u, ops, i);
  }

  lemma NextItem(lib: Library, clock: Clock, d: Snapshot, u: Str, ops: map<int, TxOperation>, i: nat)
    requires i > 0 && !FailsAfter(lib, clock, d, u, ops, i - 1)
    ensures IsKnown(OpAt(ops, i))
    ensures var before := StateAfter(lib, clock, d, u, ops, i - 1);
            RightItem(OpAnswer(before, u, i, OpAt(ops, i)), before, StateAfter(lib, clock, d, u, ops, i), u, i,
                      OpAt(ops, i))
  {
    PassedItem(lib, clock(i), StateAfter(lib, clock, d, u, ops, i - 1), u, i, OpAt(ops, i));
  }

  /** A committed execution carries one right item for every operation. */
  lemma {:induction false} CommittedAnswers(lib: Library, clock: Clock, d: Snapshot, t: Transaction, i: nat)
    requires OutcomeOf(lib, clock, d, t).status == Committed && 1 <= i <= t.totalOps
    ensures var o, u := OutcomeOf(lib, clock, d, t), t.userspaceID;
            && o.result.Some? && o.returned == o.result && |o.result.value.results| == t.totalOps
            && i in t.ops
            && RightItem(o.result.value.results[i - 1], StateAfter(lib, clock, d, u, t.ops, i - 1),
                         StateAfter(lib, clock, d, u, t.ops, i), u, i, t.ops[i])
  {
    PassedIsFirstFailure(lib, clock, d, t.userspaceID, t.ops, t.totalOps, 0, t.totalOps);
    RightAnswers(lib, clock, d, t.userspaceID, t.ops, t.totalOps, i);
  }

  /** The item of operation i, which is op, is read off the last write of its key
      before it, and off the stored content if nothing wrote the key. */
  predicate SeesLastWrite(r: TxOperationResult, d: Snapshot, u: Str, ops: map<int, TxOperation>, i: int,
                          op: TxOperation)
    requires i > 0
  {
    var j := LastWrite(ops, i - 1, op.key);
    && (Is(op, "GET") ==>
          if j == 0 then Stored(d, u, op.key) && r.value == At(d, u, op.key).value
          else Is(OpAt(ops, j), "PUT") && r.value == OpAt(ops, j).body)
    && (IsRead(op) && j > 0 ==> r.contentType == OpAt(ops, j).contentType)
    && (Is(op, "EXISTS") ==>
          (r.status == 200 <==> if j == 0 then Stored(d, u, op.key) else Is(OpAt(ops, j), "PUT")))
  }

  lemma RightItemSees(lib: Library, clock: Clock, d: Snapshot, u: Str, ops: map<int, TxOperation>, i: nat,
                      r: TxOperationResult, after: Snapshot, op: TxOperation)
    requires i > 0 && AllPass(lib, clock, d, u, ops, i - 1)
    requires RightItem(r, StateAfter(lib, clock, d, u, ops, i - 1), after, u, i, op)
    ensures SeesLastWrite(r, d, u, ops, i, op)
  {
    LastWriterWins(lib, clock, d, u, ops, i - 1, op.key);
    LastIsWrite(ops, i - 1, op.key);
    NamesDiffer(OpAt(ops, LastWrite(ops, i - 1, op.key)));
  }

  /** A committed GET answers the body of the last PUT of its key before it, or the
      value stored before the transaction if nothing wrote the key; EXISTS answers
      200 exactly when the last write, or the stored content, left the key there. */
  lemma {:induction false} ReadsSeeLastWrite(lib: Library, clock: Clock, d: Snapshot, t: Transaction, i: nat)
    requires OutcomeOf(lib, clock, d, t).status == Committed && 1 <= i <= t.totalOps
    ensures var o := OutcomeOf(lib, clock, d, t);
            && i in t.ops && o.result.Some? && |o.result.value.results| == t.totalOps
            && SeesLastWrite(o.result.value.results[i - 1], d, t.userspaceID, t.ops, i, t.ops[i])
  {
    var u := t.userspaceID;
    CommittedAnswers(lib, clock, d, t, i);
    PassedIsFirstFailure(lib, clock, d, u, t.ops, t.totalOps, 0, t.totalOps);
    FewerPass(lib, clock, d, u, t.ops, t.totalOps, i - 1);
    RightItemSees(lib, clock, d, u, t.ops, i, OutcomeOf(lib, clock, d, t).result.value.results[i - 1],
                  StateAfter(lib, clock, d, u, t.ops, i), t.ops[i]);
  }

  lemma FewerPass(lib: Library, clock: Clock, d: Snapshot, u: Str, ops: map<int, TxOperation>, k: nat, i: nat)
    requires AllPass(lib, clock, d, u, ops, k) && i <= k
    ensures AllPass(lib, clock, d, u, ops, i)
  {
  }

  lemma {:induction false} LastIsWrite(ops: map<int, TxOperation>, k: nat, key: Str)
    ensures var j := LastWrite(ops, k, key);
            && (j > 0 ==> Writes(OpAt(ops, j)) && OpAt(ops, j).key == key)
            && forall i :: j < i <= k ==> !(Writes(OpAt(ops, i)) && OpAt(ops, i).key == key)
  {
    if k > 0 {
      LastIsWrite(ops, k - 1, key);
    }
  }

  // ---- what the operations leave ----

  /** The record that a PUT at time now leaves under its key. */
  predicate RightRecord(lib: Library, now: Time, before: Snapshot, after: Snapshot, u: Str, op: TxOperation) {
    && Stored(after, u, op.key)
    && var rec := At(after, u, op.key);
       && rec.userspaceID == u && rec.key == op.key && rec.value == op.body && rec.contentType == op.contentType
       && rec.valueType == lib.valueType(op.contentType) && rec.checksum == lib.checksum(op.body)
       && rec.version == after.version == before.version + 1 && rec.updatedAt == now
       && rec.createdAt == if Stored(before, u, op.key) then At(before, u, op.key).createdAt else now
  }

  /** The same record, or its absence, under a key. */
  predicate SameAt(d: Snapshot, e: Snapshot, u: Str, k: Str) {
    (Stored(d, u, k) <==> Stored(e, u, k)) && (Stored(d, u, k) ==> At(d, u, k) == At(e, u, k))
  }

  lemma PassedEffect(lib: Library, now: Time, d: Snapshot, u: Str, op: TxOperation, key: Str)
    requires !OpFails(d, u, op)
    ensures var e := OpEffect(lib, now, d, u, op);
            if op.key == key && Is(op, "PUT") then RightRecord(lib, now, d, e, u, op)
            else if op.key == key && Is(op, "DELETE") then !Stored(e, u, key)
            else SameAt(d, e, u, key)
  {
    NamesDiffer(op);
    OpTypesDiffer();
  }

  /** The key holds in e the record of the last PUT of it among operations 1..k, as it
      was made, nothing after a DELETE, and else what it held in d. */
  predicate HoldsLastWrite(lib: Library, clock: Clock, d: Snapshot, u: Str, ops: map<int, TxOperation>, k: nat,
                           key: Str, e: Snapshot)
  {
    var j := LastWrite(ops, k, key);
    if j == 0 then SameAt(d, e, u, key)
    else if Is(OpAt(ops, j), "PUT") then
      && OpAt(ops, j).key == key
      && RightRecord(lib, clock(j), StateAfter(lib, clock, d, u, ops, j - 1), StateAfter(lib, clock, d, u, ops, j),
                     u, OpAt(ops, j))
      && SameAt(StateAfter(lib, clock, d, u, ops, j), e, u, key)
    else !Stored(e, u, key)
  }

  /** Operations that pass leave every key so. */
  lemma {:induction false} StoredByExecution(lib: Library, clock: Clock, d: Snapshot, u: Str,
                                            ops: map<int, TxOperation>, k: nat, key: Str)
    requires AllPass(lib, clock, d, u, ops, k)
    ensures HoldsLastWrite(lib, clock, d, u, ops, k, key, StateAfter(lib, clock, d, u, ops, k))
  {
    if k > 0 {
      FewerPass(lib, clock, d, u, ops, k, k - 1);
      StoredByExecution(lib, clock, d, u, ops, k - 1, key);
      assert !FailsAfter(lib, clock, d, u, ops, k - 1);
      NextHolds(lib, clock, d, u, ops, k, key);
    }
  }

  lemma NextHolds(lib: Library, clock: Clock, d: Snapshot, u: Str, ops: map<int, TxOperation>, k: nat, key: Str)
    requires k > 0 && !FailsAfter(lib, clock, d, u, ops, k - 1)
    requires HoldsLastWrite(lib, clock, d, u, ops, k - 1, key, StateAfter(lib, clock, d, u, ops, k - 1))
    ensures HoldsLastWrite(lib, clock, d, u, ops, k, key, StateAfter(lib, clock, d, u, ops, k))
  {
    var op := OpAt(ops, k);
    assert OpAt(ops, k - 1 + 1) == op;
    PassedEffect(lib, clock(k), StateAfter(lib, clock, d, u, ops, k - 1), u, op, key);
    NamesDiffer(op);
    if Writes(op) && op.key == key {
      assert LastWrite(ops, k, key) == k;
    } else {
      SameHolds(lib, clock, d, u, ops, k, key, StateAfter(lib, clock, d, u, ops, k - 1),
                StateAfter(lib, clock, d, u, ops, k));
    }
  }

  /** An operation that does not write the key leaves it as it was. */
  lemma SameHolds(lib: Library, clock: Clock, d: Snapshot, u: Str, ops: map<int, TxOperation>, k: nat, key: Str,
                  e: Snapshot, after: Snapshot)
    requires k > 0 && !(Writes(OpAt(ops, k)) && OpAt(ops, k).key == key)
    requires HoldsLastWrite(lib, clock, d, u, ops, k - 1, key, e) && SameAt(e, after, u, key)
    ensures HoldsLastWrite(lib, clock, d, u, ops, k, key, after)
  {
    LastIsWrite(ops, k, key);
  }

  // ---- when an operation fails, and how an execution ends ----

  /** Whether the key is there after operations 1..k, told from the operations alone. */
  predicate ThereAfter(d: Snapshot, u: Str, ops: map<int, TxOperation>, k: nat, key: Str) {
    var j := LastWrite(ops, k, key);
    if j == 0 then Stored(d, u, key) else Is(OpAt(ops, j), "PUT")
  }

  /** The first operation to fail reads or deletes a key that is not there, or is
      none of the five. */
  lemma {:induction false} FailsExactly(lib: Library, clock: Clock, d: Snapshot, u: Str,
                                       ops: map<int, TxOperation>, k: nat)
    requires AllPass(lib, clock, d, u, ops, k)
    ensures var op := OpAt(ops, k + 1);
            FailsAfter(lib, clock, d, u, ops, k) <==>
              || !IsKnown(op)
              || ((IsRead(op) || Is(op, "DELETE")) && !ThereAfter(d, u, ops, k, op.key))
  {
    var op := OpAt(ops, k + 1);
    StoredByExecution(lib, clock, d, u, ops, k, op.key);
    LastIsWrite(ops, k, op.key);
    NamesDiffer(OpAt(ops, LastWrite(ops, k, op.key)));
    NamesDiffer(op);
    OpTypesDiffer();
  }

  /** The digest that the client announced, if any, is not that of the fragments. */
  predicate WrongDigest(lib: Library, t: Transaction) {
    t.txDigest != [] && t.txDigest != lib.checksum(Preimage(t.ops))
  }

  /** A report of k right items and the item of the operation that failed. */
  ghost predicate ReportsFailure(lib: Library, clock: Clock, d: Snapshot, t: Transaction, k: nat, r: Option<TxResult>) {
    && r.Some? && r.value.txID == t.txID && r.value.status == Aborted && |r.value.results| == k + 1
    && (forall i :: 1 <= i <= k ==>
          RightItem(r.value.results[i - 1], StateAfter(lib, clock, d, t.userspaceID, t.ops, i - 1),
                    StateAfter(lib, clock, d, t.userspaceID, t.ops, i), t.userspaceID, i, OpAt(t.ops, i)))
    && var last, op := r.value.results[k], OpAt(t.ops, k + 1);
       last == TxOperationResult(k + 1, op.opType, 404, op.key, [], [], 0, KeyNotFound)
  }

  /** How an execution ends: a wrong digest aborts it without a report; if every
      operation passes it commits; a missing key aborts it with the report of the
      operations up to it; an unknown operation aborts it without one. */
  lemma {:induction false} EndsExactly(lib: Library, clock: Clock, d: Snapshot, t: Transaction) returns (k: nat)
    ensures var o, u := OutcomeOf(lib, clock, d, t), t.userspaceID;
            if WrongDigest(lib, t) then
              o == Outcome(Aborted, DigestMismatch, t.result, None, Some(ErrAborted))
            else
              && k <= t.totalOps && AllPass(lib, clock, d, u, t.ops, k)
              && if k == t.totalOps then
                   && o.status == Committed && o.reason == t.abortReason && o.error == None
                   && o.result.Some? && o.result.value.txID == t.txID && o.result.value.status == Committed
                   && |o.result.value.results| == t.totalOps && o.returned == o.result
                 else
                   && FailsAfter(lib, clock, d, u, t.ops, k) && o.status == Aborted
                   && if IsKnown(OpAt(t.ops, k + 1)) then
                        && o.reason == MissingKey && o.error == Some(ErrNotFound) && o.returned == o.result
                        && ReportsFailure(lib, clock, d, t, k, o.result)
                      else
                        && o.reason == InvalidOp && o.error == Some(ErrInvalidTx)
                        && o.returned == None && o.result == t.result
  {
    var u := t.userspaceID;
    k := Passed(lib, clock, d, u, t.ops, t.totalOps, 0);
    PassedIsFirstFailure(lib, clock, d, u, t.ops, t.totalOps, 0, k);
    AnswersLength(lib, clock, d, u, t.ops, k);
    NamesDiffer(OpAt(t.ops, k + 1));
    if !WrongDigest(lib, t) && k < t.totalOps && IsKnown(OpAt(t.ops, k + 1)) {
      FailureReported(lib, clock, d, t, k);
    }
  }

  lemma FailureReported(lib: Library, clock: Clock, d: Snapshot, t: Transaction, k: nat)
    requires AllPass(lib, clock, d, t.userspaceID, t.ops, k)
    ensures var items := Answers(lib, clock, d, t.userspaceID, t.ops, k) + [FailedItem(k + 1, OpAt(t.ops, k + 1))];
            ReportsFailure(lib, clock, d, t, k, Some(TxResult(t.txID, Aborted, items)))
  {
    AnswersLength(lib, clock, d, t.userspaceID, t.ops, k);
    forall i | 1 <= i <= k
      ensures RightItem(Answers(lib, clock, d, t.userspaceID, t.ops, k)[i - 1],
                        StateAfter(lib, clock, d, t.userspaceID, t.ops, i - 1),
                        StateAfter(lib, clock, d, t.userspaceID, t.ops, i), t.userspaceID, i, OpAt(t.ops, i))
    {
      RightAnswers(lib, clock, d, t.userspaceID, t.ops, k, i);
    }
  }

  /** The report of an execution that stops at a missing key: the operations before
      it, each answered from the content it met, and that one as not found. It is
      made exactly when the digest agrees and the first operation to fail is one of
      the five. */
  lemma {:induction false} FailureReport(lib: Library, clock: Clock, d: Snapshot, t: Transaction, k: nat)
    requires k < t.totalOps && AllPass(lib, clock, d, t.userspaceID, t.ops, k)
    requires FailsAfter(lib, clock, d, t.userspaceID, t.ops, k)
    ensures var o := OutcomeOf(lib, clock, d, t);
            (o.reason == MissingKey && o.status == Aborted && ReportsFailure(lib, clock, d, t, k, o.result)
             && o.returned == o.result && o.error == Some(ErrNotFound)) <==>
            !WrongDigest(lib, t) && IsKnown(OpAt(t.ops, k + 1))
  {
    PassedIsFirstFailure(lib, clock, d, t.userspaceID, t.ops, t.totalOps, 0, k);
    var n := EndsExactly(lib, clock, d, t);
    if !WrongDigest(lib, t) {
      PassedIsFirstFailure(lib, clock, d, t.userspaceID, t.ops, t.totalOps, 0, n);
    }
  }

  /** The record stored at the end: that of the transaction, with the status, reason
      and result of the outcome and nothing else changed. */
  lemma RecordAtEnd(lib: Library, clock: Clock, d: Snapshot, t: Transaction)
    ensures var e, o := ExecuteIn(lib, clock, d, t), OutcomeOf(lib, clock, d, t);
            && t.txID in e.txs && e.txs.Keys == d.txs.Keys + {t.txID}
            && (forall id :: id in d.txs && id != t.txID ==> e.txs[id] == d.txs[id])
            && var r := e.txs[t.txID];
               && r.status == o.status && r.abortReason == o.reason && r.result == o.result
               && r.txID == t.txID && r.userID == t.userID && r.userspaceID == t.userspaceID
               && r.totalOps == t.totalOps && r.createdAt == t.createdAt && r.deadline == t.deadline
               && r.commitReceived == t.commitReceived && r.txDigest == t.txDigest && r.ops == t.ops
  {
    AllOrNothing(lib, clock, d, t);
  }
}
