/** Over every run of calls: when a transaction commits, that it commits at most
    once, that closed records stay closed, and that only a commit writes. */
module ExactlyOnce {
  import opened Model
  import opened StoreSpec
  import opened TxDigest
  import opened CoordinatorSpec
  import opened ExecutionLaws
  import opened System
  import opened Lifecycle

  predicate CommitStep(c: Config, d: Snapshot, e: Event, id: Str) {
    !CommittedIn(d, id) && CommittedIn(Next(c, d, e), id)
  }

  function CallerOf(e: Event): Principal
    requires IsTxCall(e)
  {
    match e
    case AddOp(p, _, _, _, _) => p
    case Commit(p, _, _, _, _, _) => p
    case Abort(p, _) => p
    case GetResult(p, _, _) => p
  }

  // ---- one call ----

  /** Carrying out a decision about `id` changes no other record, and no stored
      value, counter or key table unless it commits. */
  ghost predicate Framed(d: Snapshot, e: Snapshot, id: Str) {
    && (forall j :: j != id ==> (j in e.txs <==> j in d.txs) && (j in d.txs ==> e.txs[j] == d.txs[j]))
    && (id in e.txs <==> id in d.txs)
    && (id in d.txs ==> SameOwner(e.txs[id], d.txs[id]))
    && (CommittedIn(d, id) || !CommittedIn(e, id) ==> e.(txs := d.txs) == d)
  }

  lemma SaveFrame(d: Snapshot, t: Transaction)
    requires t.txID in d.txs && t.status != Committed && SameOwner(t, d.txs[t.txID])
    ensures Framed(d, SaveTxIn(d, t), t.txID)
  {
  }

  lemma ExecuteFrame(lib: Library, clock: Clock, d: Snapshot, t: Transaction)
    requires t.txID in d.txs && d.txs[t.txID].status != Committed && SameOwner(t, d.txs[t.txID])
    ensures Framed(d, ExecuteIn(lib, clock, d, t), t.txID)
  {
    AllOrNothing(lib, clock, d, t);
  }

  lemma {:induction false} TxCallFrame(c: Config, d: Snapshot, e: Event)
    requires TxsOk(c, d) && IsTxCall(e)
    ensures Framed(d, Next(c, d, e), TargetOf(e))
  {
    DecisionsOk(c, d, e);
    TxStep(c, d, e);
    CarryFrame(c, ClockOf(e), d, TargetOf(e), DecisionOf(c, d, e));
  }

  lemma CarryFrame(c: Config, clock: Clock, d: Snapshot, id: Str, dec: Decision)
    requires DecisionOk(c, d, id, dec)
    ensures Framed(d, Carry(c.lib, clock, d, dec).0, id)
  {
    match dec
    case Answer(_) =>
    case Save(t, _) => SaveFrame(d, t);
    case Execute(t) => ExecuteFrame(c.lib, clock, d, t);
  }

  /** A commit happens only to an open record, by its owner's fragment or commit,
      no later than its deadline, the size it announces, if any, being right, with
      every fragment there and the digest, if given, agreeing; every operation succeeds, and the content becomes exactly
      what the operations leave, beside the committed record. */
  lemma {:induction false} CommitConditions(c: Config, d: Snapshot, e: Event, id: Str)
    requires TxsOk(c, d) && CommitStep(c, d, e, id)
    ensures (e.AddOp? || e.Commit?) && TargetOf(e) == id
    ensures id in d.txs && (d.txs[id].status == Pending || d.txs[id].status == WaitingForOps)
    ensures e.now <= d.txs[id].deadline
    ensures e.Commit? ==> e.totalOps == 0 || e.totalOps == d.txs[id].totalOps
    ensures CallerOf(e).userID == d.txs[id].userID && CallerOf(e).userspaceID == d.txs[id].userspaceID
    ensures DecisionOf(c, d, e).Execute?
    ensures var t := DecisionOf(c, d, e).t;
            && t.commitReceived && Covers(t.ops, t.totalOps)
            && (t.txDigest == [] || t.txDigest == c.lib.checksum(Preimage(t.ops)))
            && AllPass(c.lib, ClockOf(e), d, t.userspaceID, t.ops, t.totalOps)
            && Next(c, d, e) == SaveTxIn(StateAfter(c.lib, ClockOf(e), d, t.userspaceID, t.ops, t.totalOps),
                                         Next(c, d, e).txs[id])
            && Next(c, d, e).version == d.version + WriteCount(t.ops, t.totalOps)
  {
    OnlyTargetCommits(c, d, e, id);
    DecisionsOk(c, d, e);
    ExecuteNeeds(c, d, e);
    var t := DecisionOf(c, d, e).t;
    ExecutedAsCarried(c, d, e);
    AllOrNothing(c.lib, ClockOf(e), d, t);
    assert Within(t.ops, t.totalOps);
    CountMeansComplete(t.ops, t.totalOps);
  }

  lemma ExecutedAsCarried(c: Config, d: Snapshot, e: Event)
    requires IsTxCall(e) && DecisionOf(c, d, e).Execute?
    ensures Next(c, d, e) == ExecuteIn(c.lib, ClockOf(e), d, DecisionOf(c, d, e).t)
  {
  }

  /** A fragment or a commit leads to an execution only for its owner and in time. */
  lemma ExecuteNeeds(c: Config, d: Snapshot, e: Event)
    requires IsTxCall(e) && DecisionOf(c, d, e).Execute? && TargetOf(e) in d.txs && Open(d.txs[TargetOf(e)])
    ensures e.AddOp? || e.Commit?
    ensures e.now <= d.txs[TargetOf(e)].deadline
    ensures CallerOf(e).userID == d.txs[TargetOf(e)].userID && CallerOf(e).userspaceID == d.txs[TargetOf(e)].userspaceID
    ensures DecisionOf(c, d, e).t.userspaceID == d.txs[TargetOf(e)].userspaceID
    ensures e.Commit? ==> e.totalOps == 0 || e.totalOps == d.txs[TargetOf(e)].totalOps
  {
  }

  lemma OnlyExecutionCommits(c: Config, d: Snapshot, e: Event)
    requires TxsOk(c, d) && IsTxCall(e) && CommitStep(c, d, e, TargetOf(e))
    ensures DecisionOf(c, d, e).Execute? && TargetOf(e) in d.txs && Open(d.txs[TargetOf(e)])
  {
    DecisionsOk(c, d, e);
  }

  lemma {:induction false} OnlyTargetCommits(c: Config, d: Snapshot, e: Event, id: Str)
    requires TxsOk(c, d) && CommitStep(c, d, e, id)
    ensures IsTxCall(e) && TargetOf(e) == id && DecisionOf(c, d, e).Execute? && (e.AddOp? || e.Commit?)
    ensures id in d.txs && Open(d.txs[id])
  {
    if IsTxCall(e) {
      TxCallFrame(c, d, e);
      assert TargetOf(e) == id;
      OnlyExecutionCommits(c, d, e);
      ExecuteNeeds(c, d, e);
    } else {
      OtherStepsRecord(c, d, e, id);
    }
  }

  /** Calls other than the transaction calls create pending records, expire open
      ones and delete; they change no record otherwise. */
  lemma OtherStepsRecord(c: Config, d: Snapshot, e: Event, id: Str)
    requires TxsOk(c, d) && !IsTxCall(e)
    ensures id in Next(c, d, e).txs ==>
              || (id in d.txs && Next(c, d, e).txs[id] == d.txs[id])
              || (id !in d.txs && e.CreateTx? && Next(c, d, e).txs[id].status == Pending)
              || (id in d.txs && e.ExpireDue? && Overdue(d.txs[id], e.sweep(id))
                  && Next(c, d, e).txs[id] == Expire(d.txs[id]))
    ensures id in d.txs && id !in Next(c, d, e).txs ==> IsDeletion(e, d.txs[id].userspaceID)
  {
    match e
    case Import(u, records, mode, clock) =>
      ImportFrame(c.lib, clock, d, u, records, mode, |records|);
    case _ =>
  }

  lemma {:induction false} ImportFrame(lib: Library, clock: Clock, d: Snapshot, u: Str, records: seq<KVRecord>,
                                       mode: ImportMode, n: nat)
    requires n <= |records|
    ensures var e := ImportPrefix(lib, clock, d, u, records, mode, n).0;
            e.txs == d.txs && e.apiKeys == d.apiKeys && e.jwtSubjects == d.jwtSubjects
  {
    if n > 0 {
      ImportFrame(lib, clock, d, u, records, mode, n - 1);
    }
  }

  /** A record disappears only with its userspace. */
  lemma {:induction false} RecordsGoWithTheirSpace(c: Config, d: Snapshot, e: Event, id: Str)
    requires TxsOk(c, d) && id in d.txs && id !in Next(c, d, e).txs
    ensures IsDeletion(e, d.txs[id].userspaceID)
  {
    if IsTxCall(e) {
      TxCallFrame(c, d, e);
    } else {
      OtherStepsRecord(c, d, e, id);
    }
  }

  /** A committed record is final. */
  lemma {:induction false} CommittedStays(c: Config, d: Snapshot, e: Event, id: Str)
    requires TxsOk(c, d) && CommittedIn(d, id) && id in Next(c, d, e).txs
    ensures Next(c, d, e).txs[id] == d.txs[id]
  {
    if IsTxCall(e) {
      CommittedTarget(c, d, e, id);
    } else {
      OtherStepsRecord(c, d, e, id);
    }
  }

  lemma CommittedTarget(c: Config, d: Snapshot, e: Event, id: Str)
    requires TxsOk(c, d) && IsTxCall(e) && CommittedIn(d, id)
    ensures id in Next(c, d, e).txs && Next(c, d, e).txs[id] == d.txs[id]
  {
    if TargetOf(e) == id {
      CommittedJustAnswers(c, d, e);
      TxStep(c, d, e);
    } else {
      TxCallFrame(c, d, e);
    }
  }

  /** On a committed record every transaction call just answers. */
  lemma CommittedJustAnswers(c: Config, d: Snapshot, e: Event)
    requires IsTxCall(e) && CommittedIn(d, TargetOf(e))
    ensures DecisionOf(c, d, e).Answer?
  {
  }

  predicate ClosedIn(d: Snapshot, id: Str) {
    id in d.txs && (d.txs[id].status == Aborted || d.txs[id].status == Expired)
  }

  /** All that a transaction call can still do to a closed record is to mark it aborted. */
  lemma ClosedDecision(c: Config, d: Snapshot, e: Event)
    requires IsTxCall(e) && ClosedIn(d, TargetOf(e))
    ensures match DecisionOf(c, d, e)
            case Answer(_) => true
            case Save(t, _) => t == d.txs[TargetOf(e)].(status := Aborted, abortReason := ClientAborted)
            case Execute(_) => false
  {
  }

  /** An aborted or expired record stays so, though an expired one can be aborted;
      its fragments and its result no longer change. */
  ghost predicate StillClosed(d: Snapshot, e: Snapshot, id: Str)
    requires id in d.txs && id in e.txs
  {
    && ClosedIn(e, id)
    && (d.txs[id].status == Aborted ==> e.txs[id].status == Aborted)
    && e.txs[id].ops == d.txs[id].ops && e.txs[id].result == d.txs[id].result
    && SameOwner(e.txs[id], d.txs[id])
  }

  lemma ClosedTarget(c: Config, d: Snapshot, e: Event)
    requires TxsOk(c, d) && IsTxCall(e) && ClosedIn(d, TargetOf(e))
    ensures TargetOf(e) in Next(c, d, e).txs && StillClosed(d, Next(c, d, e), TargetOf(e))
  {
    assert TxOk(c, TargetOf(e), d.txs[TargetOf(e)]);
    ClosedDecision(c, d, e);
    TxStep(c, d, e);
    ClosedCarry(c.lib, ClockOf(e), d, TargetOf(e), DecisionOf(c, d, e));
  }

  lemma ClosedCarry(lib: Library, clock: Clock, d: Snapshot, id: Str, dec: Decision)
    requires ClosedIn(d, id) && d.txs[id].txID == id
    requires match dec
             case Answer(_) => true
             case Save(t, _) => t == d.txs[id].(status := Aborted, abortReason := ClientAborted)
             case Execute(_) => false
    ensures id in Carry(lib, clock, d, dec).0.txs && StillClosed(d, Carry(lib, clock, d, dec).0, id)
  {
  }

  lemma {:induction false} ClosedStays(c: Config, d: Snapshot, e: Event, id: Str)
    requires TxsOk(c, d) && ClosedIn(d, id) && id in Next(c, d, e).txs
    ensures StillClosed(d, Next(c, d, e), id)
  {
    if !IsTxCall(e) {
      OtherStepsRecord(c, d, e, id);
    } else if TargetOf(e) != id {
      TxCallFrame(c, d, e);
    } else {
      ClosedTarget(c, d, e);
    }
  }

  // ---- whole runs ----

  function Commits(c: Config, d: Snapshot, es: seq<Event>, id: Str): nat {
    if es == [] then 0
    else Commits(c, d, Init(es), id) + if CommitStep(c, Run(c, d, Init(es)), Last(es), id) then 1 else 0
  }

  /** How often the record was removed while committed. */
  function Drops(c: Config, d: Snapshot, es: seq<Event>, id: Str): nat {
    if es == [] then 0
    else
      var before := Run(c, d, Init(es));
      Drops(c, d, Init(es), id) + if CommittedIn(before, id) && id !in Next(c, before, Last(es)).txs then 1 else 0
  }

  /** Commits and removals of committed records alternate. */
  lemma {:induction false} CommitsBalance(c: Config, d: Snapshot, es: seq<Event>, id: Str)
    requires Inv(c, d)
    ensures Commits(c, d, es, id) + (if CommittedIn(d, id) then 1 else 0) ==
            Drops(c, d, es, id) + (if CommittedIn(Run(c, d, es), id) then 1 else 0)
  {
    if es != [] {
      CommitsBalance(c, d, Init(es), id);
      RunKeepsInv(c, d, Init(es));
      var before := Run(c, d, Init(es));
      if CommittedIn(before, id) && id in Next(c, before, Last(es)).txs {
        CommittedStays(c, before, Last(es), id);
      }
    }
  }

  /** The run has a call that deletes userspace u. */
  predicate Deletes(es: seq<Event>, u: Str) {
    es != [] && (IsDeletion(Last(es), u) || Deletes(Init(es), u))
  }

  predicate IsDeletion(e: Event, u: Str) {
    e.DeleteUserspace? && e.u == u
  }

  /** Until its userspace is deleted a record stays, with its owner and size. */
  lemma {:induction false} RecordRemains(c: Config, d: Snapshot, es: seq<Event>, id: Str)
    requires Inv(c, d) && id in d.txs && !Deletes(es, d.txs[id].userspaceID)
    ensures id in Run(c, d, es).txs && SameOwner(Run(c, d, es).txs[id], d.txs[id])
  {
    if es != [] {
      RecordRemains(c, d, Init(es), id);
      RunKeepsInv(c, d, Init(es));
      OwnerStays(c, Run(c, d, Init(es)), Last(es), id);
    }
  }

  lemma {:induction false} OwnerStays(c: Config, d: Snapshot, e: Event, id: Str)
    requires TxsOk(c, d) && id in d.txs && !IsDeletion(e, d.txs[id].userspaceID)
    ensures id in Next(c, d, e).txs && SameOwner(Next(c, d, e).txs[id], d.txs[id])
  {
    if IsTxCall(e) {
      TxCallFrame(c, d, e);
    } else {
      OtherStepsRecord(c, d, e, id);
    }
  }

  /** Exactly once: until its userspace is deleted a transaction commits at most
      once, and it has committed exactly when its record says so. */
  lemma {:induction false} ExactlyOnceUntilDeleted(c: Config, d: Snapshot, es: seq<Event>, id: Str)
    requires Inv(c, d) && id in d.txs && !CommittedIn(d, id) && !Deletes(es, d.txs[id].userspaceID)
    ensures Commits(c, d, es, id) <= 1
    ensures Commits(c, d, es, id) == 1 <==> CommittedIn(Run(c, d, es), id)
  {
    CommitsBalance(c, d, es, id);
    NoDrops(c, d, es, id);
  }

  lemma {:induction false} NoDrops(c: Config, d: Snapshot, es: seq<Event>, id: Str)
    requires Inv(c, d) && id in d.txs && !Deletes(es, d.txs[id].userspaceID)
    ensures Drops(c, d, es, id) == 0
  {
    if es != [] {
      NoDrops(c, d, Init(es), id);
      RecordRemains(c, d, Init(es), id);
      RecordRemains(c, d, es, id);
    }
  }

  /** A committed record is the same at the end of every run that does not delete its userspace. */
  lemma {:induction false} CommittedForGood(c: Config, d: Snapshot, es: seq<Event>, id: Str)
    requires Inv(c, d) && CommittedIn(d, id) && !Deletes(es, d.txs[id].userspaceID)
    ensures id in Run(c, d, es).txs && Run(c, d, es).txs[id] == d.txs[id]
    ensures Commits(c, d, es, id) == 0
  {
    if es != [] {
      CommittedForGood(c, d, Init(es), id);
      RunKeepsInv(c, d, Init(es));
      OwnerStays(c, Run(c, d, Init(es)), Last(es), id);
      CommittedStays(c, Run(c, d, Init(es)), Last(es), id);
    }
  }

  /** An aborted or expired transaction never commits, in any continuation. */
  lemma {:induction false} ClosedForGood(c: Config, d: Snapshot, es: seq<Event>, id: Str)
    requires Inv(c, d) && ClosedIn(d, id) && !Deletes(es, d.txs[id].userspaceID)
    ensures id in Run(c, d, es).txs && StillClosed(d, Run(c, d, es), id)
    ensures Commits(c, d, es, id) == 0
  {
    if es != [] {
      ClosedForGood(c, d, Init(es), id);
      RunKeepsInv(c, d, Init(es));
      OwnerStays(c, Run(c, d, Init(es)), Last(es), id);
      ClosedStays(c, Run(c, d, Init(es)), Last(es), id);
    }
  }

  /** The counter never decreases. */
  lemma {:induction false} VersionNeverDecreases(c: Config, d: Snapshot, es: seq<Event>)
    requires Inv(c, d)
    ensures d.version <= Run(c, d, es).version
  {
    if es != [] {
      VersionNeverDecreases(c, d, Init(es));
      RunKeepsInv(c, d, Init(es));
      VersionStep(c, Run(c, d, Init(es)), Last(es));
    }
  }

  /** How many of the operations of the transaction that a call executes write. */
  function ExecutedWrites(c: Config, d: Snapshot, e: Event): nat
    requires IsTxCall(e)
  {
    var dec := DecisionOf(c, d, e);
    if dec.Execute? then WriteCount(dec.t.ops, dec.t.totalOps) else 0
  }

  /** How many records a call writes or deletes. */
  function WritesOf(c: Config, d: Snapshot, e: Event): nat {
    match e
    case KvPut(_, _, _, _, _) => 1
    case KvDelete(u, k) => if GetFrom(d, u, k).Some? then 1 else 0
    case Import(u, records, mode, clock) => ImportAll(c.lib, clock, d, u, records, mode).1.imported
    case AddOp(_, id, _, _, _) => if CommitStep(c, d, e, id) then ExecutedWrites(c, d, e) else 0
    case Commit(_, id, _, _, _, _) => if CommitStep(c, d, e, id) then ExecutedWrites(c, d, e) else 0
    case _ => 0
  }

  /** Each call raises the counter by exactly the records it writes or deletes. */
  lemma VersionStep(c: Config, d: Snapshot, e: Event)
    requires TxsOk(c, d)
    ensures Next(c, d, e).version == d.version + WritesOf(c, d, e)
  {
    if IsTxCall(e) {
      TxCallFrame(c, d, e);
      if CommitStep(c, d, e, TargetOf(e)) {
        CommitConditions(c, d, e, TargetOf(e));
      }
    } else if e.Import? {
      StoreLaws.ImportMeetsSpec(c.lib, e.clock, d, e.u, e.records, e.mode, |e.records|);
    }
  }

  // ---- sweeping ----

  /** After a sweep no open record that it found overdue is left open, everything
      else is untouched, and the same sweep again finds nothing. */
  lemma SweepIsComplete(d: Snapshot, sweep: Str -> Time)
    ensures var e := ExpireDueIn(d, sweep);
            && e.(txs := d.txs) == d && e.txs.Keys == d.txs.Keys
            && (forall id :: id in d.txs && Overdue(d.txs[id], sweep(id)) ==> e.txs[id] == Expire(d.txs[id]))
            && (forall id :: id in d.txs && !Overdue(d.txs[id], sweep(id)) ==> e.txs[id] == d.txs[id])
            && (forall id :: id in e.txs && Open(e.txs[id]) ==> sweep(id) <= e.txs[id].deadline)
            && |DueTxs(d, sweep)| == |set id | id in d.txs && e.txs[id] != d.txs[id]|
            && DueTxs(e, sweep) == {} && ExpireDueIn(e, sweep) == e
  {
    var e := ExpireDueIn(d, sweep);
    assert DueTxs(d, sweep) == set id | id in d.txs && e.txs[id] != d.txs[id];
  }
}
