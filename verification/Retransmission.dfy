/** Sending a request again: when the repetition changes nothing, and when not. */
module Retransmission {
  import opened Model
  import opened StoreSpec
  import opened CoordinatorSpec
  import opened ExecutionLaws
  import opened System
  import opened Lifecycle
  import opened ExactlyOnce
  import opened TxCalls

  /** The call finds its target, if any, open and past its deadline. */
  predicate FindsOverdue(d: Snapshot, id: Str, now: Time) {
    id in d.txs && Overdue(d.txs[id], now)
  }

  /** A fragment sent twice is a fragment sent once, whatever became of the first:
      the second changes nothing unless it finds the transaction overdue. */
  lemma {:induction false} FragmentTwice(c: Config, d: Snapshot, p: Principal, id: Str, op: TxOperation,
                      now: Time, clock: Clock, later: Time, clock2: Clock)
    requires TxsOk(c, d)
    ensures var once := Next(c, d, AddOp(p, id, op, now, clock));
            !FindsOverdue(once, id, later) ==> Next(c, once, AddOp(p, id, op, later, clock2)) == once
  {
    AddOpOk(c, d, p, id, op, now, clock(0));
    var dec := AddOpDecision(c, d, p, id, op, now, clock(0));
    match dec
    case Answer(_) => RejectedFragmentStaysRejected(c, d, p, id, op, now, clock(0), later, clock2(0));
    case Save(t, _) => SavedFragment(c, d, p, id, op, now, clock(0), later, clock2(0));
    case Execute(t) =>
      ExecutedIsClosed(c.lib, clock, d, t);
      FragmentMeetsClosed(c, ExecuteIn(c.lib, clock, d, t), p, id, op, later, clock2(0));
  }

  lemma ExecutedIsClosed(lib: Library, clock: Clock, d: Snapshot, t: Transaction)
    ensures var once := ExecuteIn(lib, clock, d, t);
            t.txID in once.txs && (once.txs[t.txID].status == Committed || once.txs[t.txID].status == Aborted)
  {
    AllOrNothing(lib, clock, d, t);
  }

  lemma FragmentMeetsClosed(c: Config, d: Snapshot, p: Principal, id: Str, op: TxOperation, now: Time, received: Time)
    requires id in d.txs && (d.txs[id].status == Committed || d.txs[id].status == Aborted)
    ensures AddOpDecision(c, d, p, id, op, now, received).Answer?
  {
  }

  lemma RejectedFragmentStaysRejected(c: Config, d: Snapshot, p: Principal, id: Str, op: TxOperation,
                                      now: Time, received: Time, later: Time, received2: Time)
    requires AddOpDecision(c, d, p, id, op, now, received).Answer?
    ensures !FindsOverdue(d, id, later) ==> AddOpDecision(c, d, p, id, op, later, received2).Answer?
  {
  }

  lemma SavedFragment(c: Config, d: Snapshot, p: Principal, id: Str, op: TxOperation,
                      now: Time, received: Time, later: Time, received2: Time)
    requires TxsOk(c, d) && AddOpDecision(c, d, p, id, op, now, received).Save?
    ensures var once := SaveTxIn(d, AddOpDecision(c, d, p, id, op, now, received).t);
            !FindsOverdue(once, id, later) ==> AddOpDecision(c, once, p, id, op, later, received2).Answer?
  {
    AddOpOk(c, d, p, id, op, now, received);
    var t := AddOpDecision(c, d, p, id, op, now, received).t;
    assert SaveTxIn(d, t).txs[id] == t;
    FragmentOnTwice(c, id, d.txs[id], op, now, received, later, received2);
  }

  /** A fragment repeated on the record it saved is just answered. */
  lemma FragmentOnTwice(c: Config, id: Str, t: Transaction, op: TxOperation,
                        now: Time, received: Time, later: Time, received2: Time)
    requires FragmentDecision(c, id, t, op, now, received).Save?
    ensures var r := FragmentDecision(c, id, t, op, now, received).t;
            !Overdue(r, later) ==> FragmentDecision(c, id, r, op, later, received2).Answer?
  {
  }

  /** A commit sent twice with one digest is a commit sent once. */
  lemma {:induction false} CommitTwice(c: Config, d: Snapshot, p: Principal, id: Str, totalOps: int, digest: Str,
                    now: Time, clock: Clock, later: Time, clock2: Clock)
    requires TxsOk(c, d)
    ensures var once := Next(c, d, Commit(p, id, totalOps, digest, now, clock));
            !FindsOverdue(once, id, later) ==> Next(c, once, Commit(p, id, totalOps, digest, later, clock2)) == once
  {
    var e, f := Event.Commit(p, id, totalOps, digest, now, clock), Event.Commit(p, id, totalOps, digest, later, clock2);
    CommitOk(c, d, p, id, totalOps, digest, now);
    TxStep(c, d, e);
    TxStep(c, Next(c, d, e), f);
    match CommitDecision(d, p, id, totalOps, digest, now)
    case Answer(_) => RejectedCommitStaysRejected(d, p, id, totalOps, digest, now, later);
    case Save(t, _) => SavedCommit(c, d, p, id, totalOps, digest, now, later);
    case Execute(t) =>
      ExecutedIsClosed(c.lib, clock, d, t);
      CommitMeetsClosed(ExecuteIn(c.lib, clock, d, t), p, id, totalOps, digest, later);
  }

  lemma RejectedCommitStaysRejected(d: Snapshot, p: Principal, id: Str, totalOps: int, digest: Str, now: Time,
                                    later: Time)
    requires CommitDecision(d, p, id, totalOps, digest, now).Answer?
    ensures !FindsOverdue(d, id, later) ==> CommitDecision(d, p, id, totalOps, digest, later).Answer?
  {
  }

  lemma CommitMeetsClosed(d: Snapshot, p: Principal, id: Str, totalOps: int, digest: Str, now: Time)
    requires id in d.txs && (d.txs[id].status == Committed || d.txs[id].status == Aborted)
    ensures CommitDecision(d, p, id, totalOps, digest, now).Answer?
  {
  }

  lemma SavedCommit(c: Config, d: Snapshot, p: Principal, id: Str, totalOps: int, digest: Str, now: Time, later: Time)
    requires TxsOk(c, d) && CommitDecision(d, p, id, totalOps, digest, now).Save?
    ensures var once := SaveTxIn(d, CommitDecision(d, p, id, totalOps, digest, now).t);
            !FindsOverdue(once, id, later) ==>
              match CommitDecision(once, p, id, totalOps, digest, later)
              case Answer(_) => true
              case Save(t, _) => SaveTxIn(once, t) == once
              case Execute(_) => false
  {
    CommitOk(c, d, p, id, totalOps, digest, now);
    var t := CommitDecision(d, p, id, totalOps, digest, now).t;
    var once := SaveTxIn(d, t);
    assert once.txs[id] == t && SaveTxIn(once, t) == once;
    CommitOnTwice(d.txs[id], totalOps, digest, now, later);
  }

  /** A commit repeated on the record it saved just saves it again. */
  lemma CommitOnTwice(t: Transaction, totalOps: int, digest: Str, now: Time, later: Time)
    requires CommitOn(t, totalOps, digest, now).Save?
    ensures var r := CommitOn(t, totalOps, digest, now).t;
            !Overdue(r, later) ==>
              match CommitOn(r, totalOps, digest, later)
              case Answer(_) => true
              case Save(q, _) => q == r
              case Execute(_) => false
  {
  }

  /** The digest is overwritten by each commit that waits: a repetition of the
      commit leaves a waiting record as it is exactly when it repeats the digest. */
  lemma WaitingCommitIffSameDigest(c: Config, d: Snapshot, p: Principal, id: Str, totalOps: int, digest: Str,
                                   now: Time, clock: Clock)
    requires TxsOk(c, d) && LoadOwned(d, p, id).Ok? && d.txs[id].status == WaitingForOps
    requires !Overdue(d.txs[id], now) && (totalOps == 0 || totalOps == d.txs[id].totalOps)
    ensures Next(c, d, Commit(p, id, totalOps, digest, now, clock)) == d <==> digest == d.txs[id].txDigest
  {
    var t := d.txs[id];
    assert TxOk(c, id, t);
    var told := t.(txDigest := digest);
    assert CommitDecision(d, p, id, totalOps, digest, now).Save?;
    assert Next(c, d, Commit(p, id, totalOps, digest, now, clock)) == SaveTxIn(d, told);
    assert SaveTxIn(d, told).txs[id] == told;
    if digest == t.txDigest {
      assert SaveTxIn(d, told).txs == d.txs;
    }
  }

  /** Committing a committed transaction again answers the stored result. */
  lemma CommitAfterCommit(c: Config, d: Snapshot, p: Principal, id: Str, totalOps: int, digest: Str, now: Time,
                          clock: Clock)
    requires CommittedIn(d, id) && LoadOwned(d, p, id).Ok?
    ensures Step(c, d, Commit(p, id, totalOps, digest, now, clock)) ==
            (d, Replied(Reply(Some(StatusOf(d.txs[id])), d.txs[id].result, None)))
  {
  }

  /** A creation repeated under its identifier answers the record as it now is. */
  lemma CreateTwice(c: Config, d: Snapshot, p: Principal, totalOps: int, timeout: Time, id: Str,
                    drawn: Str, now: Time, drawn2: Str, later: Time)
    requires id != [] && Step(c, d, CreateTx(p, totalOps, timeout, id, drawn, now)).1.r.Ok?
    ensures var once := Next(c, d, CreateTx(p, totalOps, timeout, id, drawn, now));
            id in once.txs
            && Step(c, once, CreateTx(p, totalOps, timeout, id, drawn2, later)) == (once, Created(Ok(once.txs[id])))
  {
  }

  /** An abort sent twice is an abort sent once. */
  lemma AbortTwice(c: Config, d: Snapshot, p: Principal, id: Str)
    requires TxsOk(c, d)
    ensures var once := Next(c, d, Abort(p, id)); Next(c, once, Abort(p, id)) == once
  {
    if id in d.txs {
      assert TxOk(c, id, d.txs[id]);
      var once := Next(c, d, Abort(p, id));
      assert id in once.txs ==> SaveTxIn(once, once.txs[id]) == once;
    }
  }

  /** A timely fragment for a number already used is accepted in silence exactly when
      its operation id, type, key and content type, and the checksum of its body, are
      those filed. Otherwise the transaction is aborted for the conflict, and in every
      continuation that keeps its userspace it never commits. */
  lemma {:induction false} ConflictIsFatal(c: Config, d: Snapshot, e: Event, es: seq<Event>)
    requires Inv(c, d) && TimelyFragment(d, e) && e.op.seqNo in d.txs[e.id].ops && e.op.opID != []
    ensures var (after, answer) := Step(c, d, e); var t := d.txs[e.id]; var filed := t.ops[e.op.seqNo];
            if e.op.opID == filed.opID && e.op.opType == filed.opType && e.op.key == filed.key
               && e.op.contentType == filed.contentType && c.lib.checksum(e.op.body) == filed.bodyHash
            then
              && after == d && answer.Replied? && answer.reply.error == None && answer.reply.result == None
              && TxCalls.Shows(answer.reply.status, t)
            else
              && Refused(answer, ErrSeqConflict) && e.id in after.txs
              && Restated(after.txs[e.id], t, Aborted, SeqConflict)
              && (!Deletes(es, t.userspaceID) ==>
                    Commits(c, after, es, e.id) == 0 && ClosedIn(Run(c, after, es), e.id))
  {
    var t := d.txs[e.id];
    assert TxOk(c, e.id, t);
    FragmentOnUsedNumber(c, d, e);
    if !Repeats(c, e, t.ops[e.op.seqNo]) && !Deletes(es, t.userspaceID) {
      StepKeepsInv(c, d, e);
      ClosedForGood(c, Next(c, d, e), es, e.id);
    }
  }
}
