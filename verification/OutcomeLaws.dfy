/** What the outcome of an execution does not depend on: the times at which the
    fragments arrived, the clock during the execution, and the other records. */
module OutcomeLaws {
  import opened Model
  import opened StoreSpec
  import opened TxDigest
  import opened CoordinatorSpec

  function Timeless(rec: KVRecord): KVRecord {
    rec.(createdAt := 0, updatedAt := 0)
  }

  /** What is stored under a key, its timestamps aside. */
  function View(d: Snapshot, u: Str, k: Str): Option<KVRecord> {
    match GetFrom(d, u, k)
    case None => None
    case Some(rec) => Some(Timeless(rec))
  }

  /** The same values at the same versions, timestamps aside. */
  ghost predicate Alike(d: Snapshot, e: Snapshot) {
    d.version == e.version && forall u, k :: View(d, u, k) == View(e, u, k)
  }

  /** A fragment without its arrival time. */
  function Content(op: TxOperation): TxOperation {
    op.(receivedAt := 0)
  }

  /** The same fragments, arrival times aside. */
  ghost predicate SameContent(p: map<int, TxOperation>, q: map<int, TxOperation>) {
    && p.Keys == q.Keys
    && forall n :: n in p ==> Content(p[n]) == Content(q[n])
  }

  lemma ViewAfterSet(d: Snapshot, u: Str, rec: KVRecord, v: Str, k: Str)
    ensures View(SetRecord(d, u, rec), v, k) == if v == u && k == rec.key then Some(Timeless(rec)) else View(d, v, k)
  {
  }

  lemma ViewAfterDelete(d: Snapshot, u: Str, key: Str, v: Str, k: Str)
    ensures View(DeleteFrom(d, u, key), v, k) == if v == u && k == key then None else View(d, v, k)
  {
  }

  lemma OpAlike(d: Snapshot, e: Snapshot, u: Str, n: int, op: TxOperation, oq: TxOperation)
    requires Alike(d, e) && Content(op) == Content(oq)
    ensures OpFails(d, u, op) == OpFails(e, u, oq)
    ensures OpAnswer(d, u, n, op) == OpAnswer(e, u, n, oq)
  {
    assert View(d, u, op.key) == View(e, u, op.key);
  }

  lemma EffectAlike(lib: Library, now: Time, later: Time, d: Snapshot, e: Snapshot, u: Str, op: TxOperation,
                    oq: TxOperation)
    requires Alike(d, e) && Content(op) == Content(oq)
    ensures Alike(OpEffect(lib, now, d, u, op), OpEffect(lib, later, e, u, oq))
  {
    var d', e' := OpEffect(lib, now, d, u, op), OpEffect(lib, later, e, u, oq);
    assert View(d, u, op.key) == View(e, u, op.key);
    forall v, k ensures View(d', v, k) == View(e', v, k) {
      assert View(d, v, k) == View(e, v, k);
      if op.opType == OP_PUT {
        ViewAfterSet(d, u, PutRecord(lib, now, d, u, op.key, op.body, op.contentType), v, k);
        ViewAfterSet(e, u, PutRecord(lib, later, e, u, op.key, op.body, op.contentType), v, k);
      } else if d' != d {
        ViewAfterDelete(d, u, op.key, v, k);
        ViewAfterDelete(e, u, op.key, v, k);
      }
    }
  }

  lemma OpAtAlike(p: map<int, TxOperation>, q: map<int, TxOperation>, k: int)
    requires SameContent(p, q)
    ensures Content(OpAt(p, k)) == Content(OpAt(q, k))
  {
    assert k in p <==> k in q;
  }

  lemma {:induction false} StatesAlike(lib: Library, c1: Clock, c2: Clock, d: Snapshot, e: Snapshot, u: Str,
                                      p: map<int, TxOperation>, q: map<int, TxOperation>, k: nat)
    requires Alike(d, e) && SameContent(p, q)
    ensures Alike(StateAfter(lib, c1, d, u, p, k), StateAfter(lib, c2, e, u, q, k))
  {
    if k > 0 {
      StatesAlike(lib, c1, c2, d, e, u, p, q, k - 1);
      OpAtAlike(p, q, k);
      EffectAlike(lib, c1(k), c2(k), StateAfter(lib, c1, d, u, p, k - 1), StateAfter(lib, c2, e, u, q, k - 1), u,
                  OpAt(p, k), OpAt(q, k));
    }
  }

  lemma {:induction false} AnswersAlike(lib: Library, c1: Clock, c2: Clock, d: Snapshot, e: Snapshot, u: Str,
                                       p: map<int, TxOperation>, q: map<int, TxOperation>, k: nat)
    requires Alike(d, e) && SameContent(p, q)
    ensures Answers(lib, c1, d, u, p, k) == Answers(lib, c2, e, u, q, k)
  {
    if k > 0 {
      AnswersAlike(lib, c1, c2, d, e, u, p, q, k - 1);
      StatesAlike(lib, c1, c2, d, e, u, p, q, k - 1);
      OpAtAlike(p, q, k);
      OpAlike(StateAfter(lib, c1, d, u, p, k - 1), StateAfter(lib, c2, e, u, q, k - 1), u, k, OpAt(p, k), OpAt(q, k));
    }
  }

  lemma FailsAlike(lib: Library, c1: Clock, c2: Clock, d: Snapshot, e: Snapshot, u: Str,
                   p: map<int, TxOperation>, q: map<int, TxOperation>, k: nat)
    requires Alike(d, e) && SameContent(p, q)
    ensures FailsAfter(lib, c1, d, u, p, k) == FailsAfter(lib, c2, e, u, q, k)
  {
    StatesAlike(lib, c1, c2, d, e, u, p, q, k);
    OpAtAlike(p, q, k + 1);
    OpAlike(StateAfter(lib, c1, d, u, p, k), StateAfter(lib, c2, e, u, q, k), u, k + 1, OpAt(p, k + 1), OpAt(q, k + 1));
  }

  lemma {:induction false} PassedAlike(lib: Library, c1: Clock, c2: Clock, d: Snapshot, e: Snapshot, u: Str,
                                      p: map<int, TxOperation>, q: map<int, TxOperation>, n: nat, k: nat)
    requires Alike(d, e) && SameContent(p, q) && k <= n
    ensures Passed(lib, c1, d, u, p, n, k) == Passed(lib, c2, e, u, q, n, k)
    decreases n - k
  {
    FailsAlike(lib, c1, c2, d, e, u, p, q, k);
    if k < n {
      PassedAlike(lib, c1, c2, d, e, u, p, q, n, k + 1);
    }
  }

  /** The same transaction, arrival times and status aside. */
  ghost predicate SameTransaction(t: Transaction, s: Transaction) {
    && t.txID == s.txID && t.userspaceID == s.userspaceID && t.totalOps == s.totalOps
    && t.txDigest == s.txDigest && t.result == s.result && t.abortReason == s.abortReason
    && SameContent(t.ops, s.ops)
  }

  lemma DigestAlike(lib: Library, t: Transaction, s: Transaction)
    requires SameTransaction(t, s)
    ensures DigestOk(lib, t) == DigestOk(lib, s)
  {
    forall n | n in t.ops ensures EntryOf(t.ops[n]) == EntryOf(s.ops[n]) {
      assert Content(t.ops[n]) == Content(s.ops[n]);
    }
    SameEntriesSameLines(t.ops, s.ops, Ascending(t.ops.Keys));
  }

  lemma OutcomesEqual(lib: Library, c1: Clock, c2: Clock, d: Snapshot, e: Snapshot, t: Transaction, s: Transaction)
    requires Alike(d, e) && SameTransaction(t, s)
    ensures OutcomeOf(lib, c1, d, t) == OutcomeOf(lib, c2, e, s)
  {
    DigestAlike(lib, t, s);
    PassedAlike(lib, c1, c2, d, e, t.userspaceID, t.ops, s.ops, t.totalOps, 0);
    var k := Passed(lib, c1, d, t.userspaceID, t.ops, t.totalOps, 0);
    AnswersAlike(lib, c1, c2, d, e, t.userspaceID, t.ops, s.ops, k);
    OutcomeFromAlike(t, s, DigestOk(lib, t), k, Answers(lib, c1, d, t.userspaceID, t.ops, k));
  }

  lemma OutcomeFromAlike(t: Transaction, s: Transaction, digestOk: bool, k: nat, answers: seq<TxOperationResult>)
    requires SameTransaction(t, s)
    ensures OutcomeFrom(t, digestOk, k, answers) == OutcomeFrom(s, digestOk, k, answers)
  {
    OpAtAlike(t.ops, s.ops, k + 1);
    ContentItem(k + 1, OpAt(t.ops, k + 1), OpAt(s.ops, k + 1));
  }

  lemma ContentItem(n: int, op: TxOperation, oq: TxOperation)
    requires Content(op) == Content(oq)
    ensures KnownType(op) == KnownType(oq) && FailedItem(n, op) == FailedItem(n, oq)
  {
  }

  /** Two executions of the same transaction on the same values end the same way:
      same status, reason, stored and returned result, and the same values at the
      same versions, whatever the clocks show. */
  lemma OutcomeAlike(lib: Library, c1: Clock, c2: Clock, d: Snapshot, e: Snapshot, t: Transaction, s: Transaction)
    requires Alike(d, e) && SameTransaction(t, s)
    ensures OutcomeOf(lib, c1, d, t) == OutcomeOf(lib, c2, e, s)
    ensures Alike(ExecuteIn(lib, c1, d, t), ExecuteIn(lib, c2, e, s))
  {
    OutcomesEqual(lib, c1, c2, d, e, t, s);
    var o := OutcomeOf(lib, c1, d, t);
    if o.status == Committed {
      StatesAlike(lib, c1, c2, d, e, t.userspaceID, t.ops, s.ops, t.totalOps);
      SavedAlike(StateAfter(lib, c1, d, t.userspaceID, t.ops, t.totalOps),
                 StateAfter(lib, c2, e, s.userspaceID, s.ops, s.totalOps), Settled(t, o), Settled(s, o));
    } else {
      SavedAlike(d, e, Settled(t, o), Settled(s, o));
    }
  }

  lemma SavedAlike(d: Snapshot, e: Snapshot, t: Transaction, s: Transaction)
    requires Alike(d, e)
    ensures Alike(SaveTxIn(d, t), SaveTxIn(e, s))
  {
    forall u, k ensures View(SaveTxIn(d, t), u, k) == View(SaveTxIn(e, s), u, k) {
      assert View(d, u, k) == View(e, u, k);
    }
  }
}
