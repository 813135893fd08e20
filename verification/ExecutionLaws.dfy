/** What executing a transaction means, stated without its loop: each operation
    meets the content its predecessors leave, the last writer of a key wins, the
    counter rises once a write, and nothing outside the userspace changes. */
module ExecutionLaws {
  import opened Model
  import opened StoreSpec
  import opened StoreLaws
  import opened TxDigest
  import opened CoordinatorSpec

  predicate Writes(op: TxOperation) {
    op.opType == OP_PUT || op.opType == OP_DELETE
  }

  /** How many of the operations 1..k write. */
  function WriteCount(ops: map<int, TxOperation>, k: nat): nat {
    if k == 0 then 0 else WriteCount(ops, k - 1) + if Writes(OpAt(ops, k)) then 1 else 0
  }

  /** The last of the operations 1..k that writes the key, or 0. */
  function LastWrite(ops: map<int, TxOperation>, k: nat, key: Str): (j: nat)
    ensures j <= k
  {
    if k == 0 then 0
    else if Writes(OpAt(ops, k)) && OpAt(ops, k).key == key then k
    else LastWrite(ops, k - 1, key)
  }

  /** None of the operations 1..k fails. */
  ghost predicate AllPass(lib: Library, clock: Clock, d: Snapshot, u: Str, ops: map<int, TxOperation>, k: nat) {
    forall j: nat :: j < k ==> !FailsAfter(lib, clock, d, u, ops, j)
  }

  /** The scan stops exactly at the first failing operation. */
  lemma {:induction false} PassedIsFirstFailure(lib: Library, clock: Clock, d: Snapshot, u: Str,
                                               ops: map<int, TxOperation>, n: nat, k: nat, r: nat)
    requires k <= r <= n && AllPass(lib, clock, d, u, ops, k)
    ensures r == Passed(lib, clock, d, u, ops, n, k) <==>
            AllPass(lib, clock, d, u, ops, r) && (r == n || FailsAfter(lib, clock, d, u, ops, r))
    decreases n - k
  {
    if k < n && !FailsAfter(lib, clock, d, u, ops, k) {
      if r == k {
        assert Passed(lib, clock, d, u, ops, n, k) == Passed(lib, clock, d, u, ops, n, k + 1);
      } else {
        PassedIsFirstFailure(lib, clock, d, u, ops, n, k + 1, r);
      }
    }
  }

  lemma {:induction false} AnswersLength(lib: Library, clock: Clock, d: Snapshot, u: Str, ops: map<int, TxOperation>,
                                         k: nat)
    ensures |Answers(lib, clock, d, u, ops, k)| == k
  {
    if k > 0 {
      AnswersLength(lib, clock, d, u, ops, k - 1);
    }
  }

  /** Earlier answers stay where they are. */
  lemma {:induction false} AnswersExtend(lib: Library, clock: Clock, d: Snapshot, u: Str, ops: map<int, TxOperation>,
                                         k: nat, i: nat)
    requires i <= k
    ensures Answers(lib, clock, d, u, ops, i) <= Answers(lib, clock, d, u, ops, k)
  {
    if i < k {
      AnswersExtend(lib, clock, d, u, ops, k - 1, i);
      PrefixTransitive(Answers(lib, clock, d, u, ops, i), Answers(lib, clock, d, u, ops, k - 1),
                       Answers(lib, clock, d, u, ops, k));
    }
  }

  lemma PrefixTransitive<T>(a: seq<T>, b: seq<T>, c: seq<T>)
    requires a <= b && b <= c
    ensures a <= c
  {
  }

  /** Answer i is operation i's, read off the content that the operations before it leave. */
  lemma {:induction false} AnswersInTurn(lib: Library, clock: Clock, d: Snapshot, u: Str, ops: map<int, TxOperation>,
                                         k: nat)
    ensures |Answers(lib, clock, d, u, ops, k)| == k
    ensures forall i :: 1 <= i <= k ==>
              Answers(lib, clock, d, u, ops, k)[i - 1] ==
              OpAnswer(StateAfter(lib, clock, d, u, ops, i - 1), u, i, OpAt(ops, i))
  {
    AnswersLength(lib, clock, d, u, ops, k);
    forall i | 1 <= i <= k
      ensures Answers(lib, clock, d, u, ops, k)[i - 1] ==
              OpAnswer(StateAfter(lib, clock, d, u, ops, i - 1), u, i, OpAt(ops, i))
    {
      AnswerInTurn(lib, clock, d, u, ops, k, i);
    }
  }

  lemma AnswerInTurn(lib: Library, clock: Clock, d: Snapshot, u: Str, ops: map<int, TxOperation>, k: nat, i: nat)
    requires 1 <= i <= k
    ensures |Answers(lib, clock, d, u, ops, k)| == k
    ensures Answers(lib, clock, d, u, ops, k)[i - 1] ==
            OpAnswer(StateAfter(lib, clock, d, u, ops, i - 1), u, i, OpAt(ops, i))
  {
    AnswersLength(lib, clock, d, u, ops, k);
    AnswersLength(lib, clock, d, u, ops, i - 1);
    AnswersExtend(lib, clock, d, u, ops, k, i);
  }

  /** A read after operations 1..k sees the body of the last PUT of its key among
      them, nothing if the last write was a DELETE, and what was stored before if
      none of them wrote the key. */
  lemma {:induction false} LastWriterWins(lib: Library, clock: Clock, d: Snapshot, u: Str,
                                         ops: map<int, TxOperation>, k: nat, key: Str)
    requires AllPass(lib, clock, d, u, ops, k)
    ensures var seen, j := GetFrom(StateAfter(lib, clock, d, u, ops, k), u, key), LastWrite(ops, k, key);
            if j == 0 then seen == GetFrom(d, u, key)
            else if OpAt(ops, j).opType == OP_PUT then
              seen.Some? && seen.value.value == OpAt(ops, j).body && seen.value.contentType == OpAt(ops, j).contentType
            else seen == None
  {
    if k > 0 {
      LastWriterWins(lib, clock, d, u, ops, k - 1, key);
      assert !FailsAfter(lib, clock, d, u, ops, k - 1) && OpAt(ops, k - 1 + 1) == OpAt(ops, k);
      EffectOnKey(lib, clock(k), StateAfter(lib, clock, d, u, ops, k - 1), u, OpAt(ops, k), key);
    }
  }

  lemma EffectOnKey(lib: Library, now: Time, d: Snapshot, u: Str, op: TxOperation, key: Str)
    requires !OpFails(d, u, op)
    ensures var e := OpEffect(lib, now, d, u, op);
            if op.key != key || !Writes(op) then GetFrom(e, u, key) == GetFrom(d, u, key)
            else if op.opType == OP_PUT then
              GetFrom(e, u, key) == Some(PutRecord(lib, now, d, u, key, op.body, op.contentType))
            else GetFrom(e, u, key) == None
  {
    OpTypesDiffer();
  }

  /** From d to e only userspace u and the counter change. */
  ghost predicate OnlySpaceChanges(d: Snapshot, e: Snapshot, u: Str) {
    && (forall v :: v != u ==> (v in e.userspaces <==> v in d.userspaces) && SpaceOf(e, v) == SpaceOf(d, v))
    && e == d.(version := e.version, userspaces := e.userspaces)
  }

  lemma EffectIsLocal(lib: Library, now: Time, d: Snapshot, u: Str, op: TxOperation)
    ensures OnlySpaceChanges(d, OpEffect(lib, now, d, u, op), u)
    ensures !OpFails(d, u, op) ==> OpEffect(lib, now, d, u, op).version == d.version + if Writes(op) then 1 else 0
  {
    OpTypesDiffer();
  }

  /** Only the userspace of the transaction changes, and the counter rises by the writes. */
  lemma {:induction false} ExecutionIsLocal(lib: Library, clock: Clock, d: Snapshot, u: Str,
                                            ops: map<int, TxOperation>, k: nat)
    ensures OnlySpaceChanges(d, StateAfter(lib, clock, d, u, ops, k), u)
    ensures AllPass(lib, clock, d, u, ops, k) ==>
              StateAfter(lib, clock, d, u, ops, k).version == d.version + WriteCount(ops, k)
  {
    if k > 0 {
      ExecutionIsLocal(lib, clock, d, u, ops, k - 1);
      var prev := StateAfter(lib, clock, d, u, ops, k - 1);
      EffectIsLocal(lib, clock(k), prev, u, OpAt(ops, k));
      StillLocal(d, prev, StateAfter(lib, clock, d, u, ops, k), u);
      if AllPass(lib, clock, d, u, ops, k) {
        AllPassPrefix(lib, clock, d, u, ops, k);
      }
    }
  }

  lemma StillLocal(d: Snapshot, e: Snapshot, f: Snapshot, u: Str)
    requires OnlySpaceChanges(d, e, u) && OnlySpaceChanges(e, f, u)
    ensures OnlySpaceChanges(d, f, u)
  {
  }

  lemma AllPassPrefix(lib: Library, clock: Clock, d: Snapshot, u: Str, ops: map<int, TxOperation>, k: nat)
    requires k > 0 && AllPass(lib, clock, d, u, ops, k)
    ensures AllPass(lib, clock, d, u, ops, k - 1)
    ensures !OpFails(StateAfter(lib, clock, d, u, ops, k - 1), u, OpAt(ops, k))
  {
    assert !FailsAfter(lib, clock, d, u, ops, k - 1);
    assert OpAt(ops, k - 1 + 1) == OpAt(ops, k);
  }

  lemma {:induction false} ExecutionKeepsInv(lib: Library, clock: Clock, d: Snapshot, u: Str,
                                             ops: map<int, TxOperation>, k: nat)
    requires StoreInv(lib, d)
    ensures StoreInv(lib, StateAfter(lib, clock, d, u, ops, k))
  {
    if k > 0 {
      ExecutionKeepsInv(lib, clock, d, u, ops, k - 1);
      var prev, op := StateAfter(lib, clock, d, u, ops, k - 1), OpAt(ops, k);
      PutKeepsInv(lib, clock(k), prev, u, op.key, op.body, op.contentType);
      DeleteKeepsInv(lib, prev, u, op.key);
    }
  }

  /** An execution commits exactly when the digest agrees and every operation
      passes. Then the whole effect is installed beside a record with one answer an
      operation and the counter rises by the writes; otherwise the stored values,
      the counter and the key tables are as before, beside an aborted record. */
  lemma AllOrNothing(lib: Library, clock: Clock, d: Snapshot, t: Transaction)
    ensures var e, o, u := ExecuteIn(lib, clock, d, t), OutcomeOf(lib, clock, d, t), t.userspaceID;
            && e.txs == d.txs[t.txID := Settled(t, o)]
            && (o.status == Committed || o.status == Aborted)
            && (o.status == Committed <==> DigestOk(lib, t) && AllPass(lib, clock, d, u, t.ops, t.totalOps))
            && (o.status == Committed ==>
                  e.(txs := d.txs) == StateAfter(lib, clock, d, u, t.ops, t.totalOps)
                  && o.result == Some(TxResult(t.txID, Committed, Answers(lib, clock, d, u, t.ops, t.totalOps)))
                  && e.version == d.version + WriteCount(t.ops, t.totalOps))
            && (o.status == Aborted ==> e.(txs := d.txs) == d)
  {
    ExecutionIsLocal(lib, clock, d, t.userspaceID, t.ops, t.totalOps);
    PassedIsFirstFailure(lib, clock, d, t.userspaceID, t.ops, t.totalOps, 0, t.totalOps);
  }
}
