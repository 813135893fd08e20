/** Transaction records are saved without the global lock. Exactly when a stored
    record stays as it is, and its transaction is not executed again: when no
    goroutine has outstanding work that will overwrite it. */
module Survival {
  import opened Model
  import opened StoreSpec
  import opened CoordinatorSpec
  import opened ExecutionLaws
  import opened System
  import opened Lifecycle
  import opened ExactlyOnce
  import opened Threads
  import opened Serializability
  import opened Interference

  predicate About(job: Job, id: Str) {
    job.Execution? && job.t.txID == id
  }

  predicate Removes(job: Job, u: Str) {
    job.Call? && IsDeletion(job.e, u)
  }

  predicate HoldsTx(txs: map<Str, Transaction>, t: Transaction) {
    t.txID in txs && txs[t.txID] == t
  }

  /** The job will install its copy: an import always, an execution if it commits. */
  ghost predicate WillInstall(c: Config, job: Job, base: Snapshot) {
    job.Execution? ==> AllPass(c.lib, job.clock, base, job.t.userspaceID, job.t.ops, job.t.totalOps)
  }

  /** This goroutine's outstanding work, if any, does not touch the record: no older
      save of it, no execution, and no copy without it that will be installed. */
  ghost predicate LeavesBe(c: Config, p: Phase, t: Transaction) {
    match p
    case Saving(todo) => forall n :: 0 <= n < |todo| && todo[n].txID == t.txID ==> todo[n] == t
    case Queued(job) => !About(job, t.txID)
    case Holding(job) => !About(job, t.txID)
    case Working(job, base, w) => !About(job, t.txID) && (HoldsTx(w.copy.txs, t) || !WillInstall(c, job, base))
    case Failing(r) => r.txID == t.txID ==> r == t
    case _ => true
  }

  /** No goroutine is about to delete the userspace. */
  predicate NoRemoval(p: Phase, u: Str) {
    p.Queued? || p.Holding? ==> !Removes(p.job, u)
  }

  ghost predicate NoRemovals(s: Server, u: Str) {
    forall i :: NoRemoval(PhaseOf(s, i), u)
  }

  /** Records are filed under their own identifiers, in the store and in every copy. */
  ghost predicate AllKeyed(s: Server) {
    Keyed(s.store.txs) && forall i :: PhaseOf(s, i).Working? ==> Keyed(PhaseOf(s, i).w.copy.txs)
  }

  ghost predicate Safe(c: Config, s: Server, t: Transaction) {
    HoldsTx(s.store.txs, t) && forall i :: LeavesBe(c, PhaseOf(s, i), t)
  }

  /** A call that has no business with the record: not on its identifier, unless it
      is committed, no sweep that finds it overdue, no deletion of its userspace. */
  predicate Spares(e: Event, t: Transaction) {
    && !IsDeletion(e, t.userspaceID)
    && (t.status == Committed || ((IsTxCall(e) ==> TargetOf(e) != t.txID)
                                  && (e.ExpireDue? ==> !Overdue(t, e.sweep(t.txID)))))
  }

  predicate SparingMove(a: Action, t: Transaction) {
    a.Arrive? ==> Spares(a.e, t)
  }

  predicate Sparing(ms: seq<Move>, t: Transaction) {
    forall n :: 0 <= n < |ms| ==> SparingMove(ms[n].a, t)
  }

  /** From s to s' the record stayed and its transaction was not executed. */
  ghost predicate Stays(s: Server, s': Server, t: Transaction) {
    && HoldsTx(s'.store.txs, t) && s.log <= s'.log
    && forall n :: |s.log| <= n < |s'.log| ==> !About(s'.log[n].job, t.txID)
  }

  // ---- harmless work stays harmless ----

  lemma OthersUnmoved(c: Config, s: Server, i: int, a: Action)
    requires Enabled(s, i, a)
    ensures forall j :: j != i ==> PhaseOf(Do(c, s, i, a), j) == PhaseOf(s, j)
  {
  }

  lemma CallKeepsKeyed(c: Config, d: Snapshot, e: Event)
    requires Keyed(d.txs) && LockedCall(e) && !e.Import?
    ensures Keyed(Next(c, d, e).txs)
  {
  }

  lemma WorkKeepsKeyed(c: Config, s: Server, i: int)
    requires AllKeyed(s) && PhaseOf(s, i).Working?
    ensures var s' := Do(c, s, i, Proceed);
            Keyed(s'.store.txs) && (PhaseOf(s', i).Working? ==> Keyed(PhaseOf(s', i).w.copy.txs))
  {
    var p := PhaseOf(s, i);
    if Bulk(p.job) && !Stuck(p.job, p.w) && p.w.done < Size(p.job) {
      WorkKeepsTxs(c.lib, p.job, p.w);
    }
  }

  lemma MoveKeepsKeyed(c: Config, s: Server, i: int, a: Action)
    requires AllKeyed(s) && GoodJobs(c, s) && Enabled(s, i, a)
    ensures AllKeyed(Do(c, s, i, a))
  {
    var s', p := Do(c, s, i, a), PhaseOf(s, i);
    OthersUnmoved(c, s, i, a);
    if p.Working? {
      WorkKeepsKeyed(c, s, i);
    } else if p.Holding? && !Bulk(p.job) {
      CallKeepsKeyed(c, s.store, p.job.e);
    }
  }

  lemma {:induction false} AlwaysKeyed(c: Config, d: Snapshot, ms: seq<Move>)
    requires Keyed(d.txs) && Possible(c, Fresh(d), ms)
    ensures AllKeyed(Interleaved(c, Fresh(d), ms))
  {
    if ms != [] {
      var before, m := ms[..|ms| - 1], ms[|ms| - 1];
      AlwaysKeyed(c, d, before);
      EveryInterleaving(c, d, before);
      MoveKeepsKeyed(c, Interleaved(c, Fresh(d), before), m.i, m.a);
    }
  }

  lemma MoveKeepsNoRemovals(c: Config, s: Server, i: int, a: Action, u: Str)
    requires NoRemovals(s, u) && Enabled(s, i, a) && (a.Arrive? ==> !IsDeletion(a.e, u))
    ensures NoRemovals(Do(c, s, i, a), u)
  {
    var s', p := Do(c, s, i, a), PhaseOf(s, i);
    OthersUnmoved(c, s, i, a);
    assert NoRemoval(p, u);
  }

  /** A transaction call saves or executes only the record it names. */
  lemma DecisionNamesTarget(c: Config, d: Snapshot, e: Event)
    requires IsTxCall(e) && Keyed(d.txs)
    ensures match DecisionOf(c, d, e)
            case Answer(_) => true
            case Save(r, _) => r.txID == TargetOf(e) && r.txID in d.txs
            case Execute(r) => r.txID == TargetOf(e) && r.txID in d.txs
  {
  }

  lemma ArrivalLeavesBe(c: Config, s: Server, e: Event, order: seq<Str>, t: Transaction)
    requires Keyed(s.store.txs) && HoldsTx(s.store.txs, t) && Spares(e, t)
    ensures LeavesBe(c, Arrived(c, s.store, e, order), t)
  {
    if IsTxCall(e) {
      DecisionNamesTarget(c, s.store, e);
      if TargetOf(e) == t.txID {
        CommittedJustAnswers(c, s.store, e);
      }
    } else if e.ExpireDue? {
      OverduesOpen(s.store, order, e.sweep);
      assert Arrived(c, s.store, e, order) == Saves(Overdues(s.store, order, e.sweep));
    }
  }

  lemma CallKeepsRecord(c: Config, d: Snapshot, e: Event, t: Transaction)
    requires LockedCall(e) && !e.Import? && !IsDeletion(e, t.userspaceID) && HoldsTx(d.txs, t)
    ensures HoldsTx(Next(c, d, e).txs, t)
  {
  }

  /** Piece by piece, a piece of work that leaves the record be does so to its end. */
  lemma WorkLeavesBe(c: Config, d: Snapshot, s: Server, i: int, t: Transaction)
    requires Consistent(c, d, s) && Safe(c, s, t) && PhaseOf(s, i).Working?
    ensures var s' := Do(c, s, i, Proceed);
            LeavesBe(c, PhaseOf(s', i), t) && Stays(s, s', t)
  {
    var p := PhaseOf(s, i);
    assert InLock(p) && WorkOk(c, p.job, p.base, p.w) && LeavesBe(c, p, t);
    if Stuck(p.job, p.w) {
      assert Record(p.job, p.w).txID == p.job.t.txID;
    } else if p.w.done < Size(p.job) {
      WorkKeepsTxs(c.lib, p.job, p.w);
    } else {
      assert WillInstall(c, p.job, p.base);
    }
  }

  lemma OutsideLeavesBe(c: Config, s: Server, i: int, t: Transaction)
    requires Safe(c, s, t) && Enabled(s, i, Proceed) && !PhaseOf(s, i).Working? && !PhaseOf(s, i).Holding?
    ensures var s' := Do(c, s, i, Proceed);
            LeavesBe(c, PhaseOf(s', i), t) && Stays(s, s', t)
  {
    var p := PhaseOf(s, i);
    assert LeavesBe(c, p, t);
    if p.Saving? {
      SaveLeavesBe(s.store, p.todo, t);
    }
  }

  lemma OthersLeaveBe(c: Config, s: Server, s': Server, i: int, t: Transaction)
    requires Safe(c, s, t) && forall j :: j != i ==> PhaseOf(s', j) == PhaseOf(s, j)
    requires LeavesBe(c, PhaseOf(s', i), t) && HoldsTx(s'.store.txs, t)
    ensures Safe(c, s', t)
  {
    forall j ensures LeavesBe(c, PhaseOf(s', j), t) {
      assert j != i ==> LeavesBe(c, PhaseOf(s, j), t);
    }
  }

  lemma {:induction false} MoveKeepsSafe(c: Config, d: Snapshot, s: Server, i: int, a: Action, t: Transaction)
    requires Consistent(c, d, s) && Keyed(s.store.txs) && NoRemovals(s, t.userspaceID) && Safe(c, s, t)
    requires Enabled(s, i, a) && SparingMove(a, t)
    ensures Safe(c, Do(c, s, i, a), t) && Stays(s, Do(c, s, i, a), t)
  {
    if a.Arrive? {
      ArrivalLeavesBe(c, s, a.e, a.order, t);
    } else if PhaseOf(s, i).Working? {
      WorkLeavesBe(c, d, s, i, t);
    } else if PhaseOf(s, i).Holding? {
      HoldLeavesBe(c, s, i, t);
    } else {
      OutsideLeavesBe(c, s, i, t);
    }
    OthersUnmoved(c, s, i, a);
    OthersLeaveBe(c, s, Do(c, s, i, a), i, t);
  }

  lemma HoldLeavesBe(c: Config, s: Server, i: int, t: Transaction)
    requires GoodJobs(c, s) && Safe(c, s, t) && NoRemovals(s, t.userspaceID) && PhaseOf(s, i).Holding?
    ensures var s' := Do(c, s, i, Proceed);
            LeavesBe(c, PhaseOf(s', i), t) && Stays(s, s', t)
  {
    var p := PhaseOf(s, i);
    assert LeavesBe(c, p, t) && NoRemoval(p, t.userspaceID);
    if !Bulk(p.job) {
      CallKeepsRecord(c, s.store, p.job.e, t);
    }
  }

  lemma SaveLeavesBe(d: Snapshot, todo: seq<Transaction>, t: Transaction)
    requires HoldsTx(d.txs, t)
    requires forall n :: 0 <= n < |todo| && todo[n].txID == t.txID ==> todo[n] == t
    ensures todo != [] ==> HoldsTx(SaveTxIn(d, todo[0]).txs, t)
    ensures todo != [] ==> forall n :: 0 <= n < |todo[1..]| && todo[1..][n].txID == t.txID ==> todo[1..][n] == t
  {
  }

  lemma {:induction false} SafeStays(c: Config, d: Snapshot, s: Server, t: Transaction, ms: seq<Move>)
    requires Consistent(c, d, s) && AllKeyed(s) && NoRemovals(s, t.userspaceID) && Safe(c, s, t)
    requires Possible(c, s, ms) && Sparing(ms, t)
    ensures var s' := Interleaved(c, s, ms);
            Consistent(c, d, s') && AllKeyed(s') && NoRemovals(s', t.userspaceID) && Safe(c, s', t) && Stays(s, s', t)
  {
    if ms != [] {
      var before, m := ms[..|ms| - 1], ms[|ms| - 1];
      assert SparingMove(m.a, t) && Sparing(before, t);
      SafeStays(c, d, s, t, before);
      var s1 := Interleaved(c, s, before);
      MoveKeepsConsistent(c, d, s1, m.i, m.a);
      MoveKeepsKeyed(c, s1, m.i, m.a);
      MoveKeepsNoRemovals(c, s1, m.i, m.a, t.userspaceID);
      MoveKeepsSafe(c, d, s1, m.i, m.a, t);
    }
  }
}
