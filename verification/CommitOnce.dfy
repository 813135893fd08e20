/** At the grain of goroutines a transaction commits at most once when calls on it
    take turns, and the record tells whether it did when sweeps take turns too. */
module CommitOnce {
  import opened Model
  import opened CoordinatorSpec
  import opened System
  import opened Lifecycle
  import opened ExactlyOnce
  import opened Threads
  import opened Serializability
  import opened Interference
  import opened Survival

  // ---- what is counted, and under what discipline ----

  ghost predicate CommitsIn(entry: LogEntry, id: Str) {
    About(entry.job, id) && entry.answer.Executed? && entry.answer.o.status == Committed
  }

  ghost function CommitCount(log: seq<LogEntry>, id: Str): nat {
    if log == [] then 0
    else CommitCount(log[..|log| - 1], id) + if CommitsIn(log[|log| - 1], id) then 1 else 0
  }

  predicate Targets(e: Event, id: Str) {
    (IsTxCall(e) && TargetOf(e) == id) || (e.CreateTx? && IdOf(e) == id)
  }

  predicate FoundOverdue(d: Snapshot, e: Event, id: Str) {
    e.ExpireDue? && id in d.txs && Overdue(d.txs[id], e.sweep(id))
  }

  /** This goroutine has an execution of the transaction outstanding, or a save that
      leaves its record open. */
  ghost predicate Acting(p: Phase, id: Str) {
    match p
    case Saving(todo) => exists n :: 0 <= n < |todo| && todo[n].txID == id && Closed(todo[n]) == None
    case Queued(job) => About(job, id)
    case Holding(job) => About(job, id)
    case Working(job, _, _) => About(job, id)
    case _ => false
  }

  /** This goroutine has any work on the transaction outstanding. */
  ghost predicate Busy(p: Phase, id: Str) {
    match p
    case Saving(todo) => exists n :: 0 <= n < |todo| && todo[n].txID == id
    case Failing(r) => r.txID == id
    case _ => Acting(p, id)
  }

  ghost predicate NobodyActing(s: Server, id: Str) {
    forall j :: !Acting(PhaseOf(s, j), id)
  }

  ghost predicate NobodyBusy(s: Server, id: Str) {
    forall j :: !Busy(PhaseOf(s, j), id)
  }

  /** No call deletes userspace u, and the transaction is only created there. */
  predicate KeepsSpace(a: Action, id: Str, u: Str) {
    a.Arrive? ==> !IsDeletion(a.e, u) && (a.e.CreateTx? && IdOf(a.e) == id ==> a.e.p.userspaceID == u)
  }

  ghost predicate Turn(s: Server, a: Action, id: Str, u: Str) {
    KeepsSpace(a, id, u) && (a.Arrive? && Targets(a.e, id) ==> NobodyActing(s, id))
  }

  /** Calls on the transaction do not overlap: each comes when no goroutine is
      acting on it. Sweeps may come at any time. */
  ghost predicate TakeTurns(c: Config, s: Server, ms: seq<Move>, id: Str, u: Str) {
    ms != [] ==>
      && TakeTurns(c, s, ms[..|ms| - 1], id, u)
      && Turn(Interleaved(c, s, ms[..|ms| - 1]), ms[|ms| - 1].a, id, u)
  }

  ghost predicate StrictTurn(s: Server, a: Action, id: Str, u: Str) {
    && KeepsSpace(a, id, u)
    && (a.Arrive? && (Targets(a.e, id) || FoundOverdue(s.store, a.e, id)) ==> NobodyBusy(s, id))
  }

  /** Nor do sweeps that find it overdue overlap with calls on it. */
  ghost predicate TakeStrictTurns(c: Config, s: Server, ms: seq<Move>, id: Str, u: Str) {
    ms != [] ==>
      && TakeStrictTurns(c, s, ms[..|ms| - 1], id, u)
      && StrictTurn(Interleaved(c, s, ms[..|ms| - 1]), ms[|ms| - 1].a, id, u)
  }

  // ---- every trace of the transaction belongs to its userspace ----

  predicate OfSpace(t: Transaction, id: Str, u: Str) {
    t.txID == id ==> t.userspaceID == u
  }

  predicate TableOfSpace(txs: map<Str, Transaction>, id: Str, u: Str) {
    id in txs ==> txs[id].userspaceID == u
  }

  ghost predicate PhaseOfSpace(p: Phase, id: Str, u: Str) {
    && NoRemoval(p, u)
    && match p
       case Saving(todo) => forall n :: 0 <= n < |todo| ==> OfSpace(todo[n], id, u)
       case Queued(job) => job.Execution? ==> OfSpace(job.t, id, u)
       case Holding(job) => job.Execution? ==> OfSpace(job.t, id, u)
       case Working(job, _, w) => (job.Execution? ==> OfSpace(job.t, id, u)) && TableOfSpace(w.copy.txs, id, u)
       case Failing(r) => OfSpace(r, id, u)
       case _ => true
  }

  ghost predicate InSpace(s: Server, id: Str, u: Str) {
    TableOfSpace(s.store.txs, id, u) && forall i :: PhaseOfSpace(PhaseOf(s, i), id, u)
  }

  lemma DecisionOfSpace(c: Config, d: Snapshot, e: Event, id: Str, u: Str)
    requires IsTxCall(e) && Keyed(d.txs) && TableOfSpace(d.txs, id, u)
    ensures match DecisionOf(c, d, e)
            case Answer(_) => true
            case Save(t, _) => OfSpace(t, id, u)
            case Execute(t) => OfSpace(t, id, u)
  {
  }

  lemma ArrivalOfSpace(c: Config, s: Server, e: Event, order: seq<Str>, id: Str, u: Str)
    requires Keyed(s.store.txs) && TableOfSpace(s.store.txs, id, u) && KeepsSpace(Arrive(e, order), id, u)
    ensures PhaseOfSpace(Arrived(c, s.store, e, order), id, u)
  {
    if IsTxCall(e) {
      DecisionOfSpace(c, s.store, e, id, u);
    } else if e.ExpireDue? {
      OverduesOpen(s.store, order, e.sweep);
      assert Arrived(c, s.store, e, order) == Saves(Overdues(s.store, order, e.sweep));
    }
  }

  lemma CallOfSpace(c: Config, d: Snapshot, e: Event, id: Str, u: Str)
    requires LockedCall(e) && !e.Import? && TableOfSpace(d.txs, id, u)
    ensures TableOfSpace(Next(c, d, e).txs, id, u)
  {
  }

  lemma WorkOfSpace(c: Config, s: Server, i: int, id: Str, u: Str)
    requires InSpace(s, id, u) && PhaseOf(s, i).Working?
    ensures var s' := Do(c, s, i, Proceed);
            TableOfSpace(s'.store.txs, id, u) && PhaseOfSpace(PhaseOf(s', i), id, u)
  {
    var p := PhaseOf(s, i);
    assert PhaseOfSpace(p, id, u);
    if Bulk(p.job) && !Stuck(p.job, p.w) && p.w.done < Size(p.job) {
      WorkKeepsTxs(c.lib, p.job, p.w);
    }
  }

  lemma ProceedOfSpace(c: Config, s: Server, i: int, id: Str, u: Str)
    requires InSpace(s, id, u) && GoodJobs(c, s) && Enabled(s, i, Proceed) && !PhaseOf(s, i).Working?
    ensures var s' := Do(c, s, i, Proceed);
            TableOfSpace(s'.store.txs, id, u) && PhaseOfSpace(PhaseOf(s', i), id, u)
  {
    var p := PhaseOf(s, i);
    assert PhaseOfSpace(p, id, u);
    if p.Holding? && !Bulk(p.job) {
      CallOfSpace(c, s.store, p.job.e, id, u);
    }
  }

  lemma OthersOfSpace(s: Server, s': Server, i: int, id: Str, u: Str)
    requires InSpace(s, id, u) && forall j :: j != i ==> PhaseOf(s', j) == PhaseOf(s, j)
    requires TableOfSpace(s'.store.txs, id, u) && PhaseOfSpace(PhaseOf(s', i), id, u)
    ensures InSpace(s', id, u)
  {
    forall j ensures PhaseOfSpace(PhaseOf(s', j), id, u) {
      assert j != i ==> PhaseOfSpace(PhaseOf(s, j), id, u);
    }
  }

  lemma MoveKeepsSpace(c: Config, s: Server, i: int, a: Action, id: Str, u: Str)
    requires InSpace(s, id, u) && Keyed(s.store.txs) && GoodJobs(c, s) && Enabled(s, i, a) && KeepsSpace(a, id, u)
    ensures InSpace(Do(c, s, i, a), id, u)
  {
    if a.Arrive? {
      ArrivalOfSpace(c, s, a.e, a.order, id, u);
    } else if PhaseOf(s, i).Working? {
      WorkOfSpace(c, s, i, id, u);
    } else {
      ProceedOfSpace(c, s, i, id, u);
    }
    OthersUnmoved(c, s, i, a);
    OthersOfSpace(s, Do(c, s, i, a), i, id, u);
  }

  // ---- the log grows by the job of the goroutine that moves ----

  lemma LogGrows(c: Config, s: Server, i: int, a: Action)
    requires Enabled(s, i, a)
    ensures var log, log' := s.log, Do(c, s, i, a).log;
            log' == log || (|log'| == |log| + 1 && log <= log' && a.Proceed?
                            && (PhaseOf(s, i).Holding? || PhaseOf(s, i).Working?)
                                && log'[|log|].job == PhaseOf(s, i).job)
  {
  }

  lemma CountGrows(c: Config, s: Server, i: int, a: Action, id: Str)
    requires Enabled(s, i, a)
    ensures var log, log' := s.log, Do(c, s, i, a).log;
            if |log'| == |log| then CommitCount(log', id) == CommitCount(log, id)
            else |log'| == |log| + 1
                 && CommitCount(log', id) == CommitCount(log, id) + if CommitsIn(log'[|log|], id) then 1 else 0
  {
    LogGrows(c, s, i, a);
    var log, log' := s.log, Do(c, s, i, a).log;
    if |log'| == |log| + 1 {
      assert log'[..|log'| - 1] == log;
    }
  }

  /** A piece of work that logs a commit installs it. */
  lemma CommittingPiece(c: Config, s: Server, i: int, id: Str)
    requires PhaseOf(s, i).Working? && WorkOk(c, PhaseOf(s, i).job, PhaseOf(s, i).base, PhaseOf(s, i).w)
    requires var log' := Do(c, s, i, Proceed).log; |log'| == |s.log| + 1 && CommitsIn(log'[|s.log|], id)
    ensures var s' := Do(c, s, i, Proceed);
            && About(PhaseOf(s, i).job, id) && PhaseOf(s', i) == Releasing
            && id in s'.store.txs && s'.store.txs[id].txID == id && s'.store.txs[id].status == Committed
  {
  }

  /** A commit enters the log only when its execution installs its copy. */
  lemma CommitInstalls(c: Config, d: Snapshot, s: Server, i: int, a: Action, id: Str)
    requires Consistent(c, d, s) && Enabled(s, i, a)
    requires CommitCount(Do(c, s, i, a).log, id) != CommitCount(s.log, id)
    ensures var p, s' := PhaseOf(s, i), Do(c, s, i, a);
            && p.Working? && About(p.job, id) && a.Proceed? && s.holder == Some(i)
            && PhaseOf(s', i) == Releasing && (forall j :: j != i ==> PhaseOf(s', j) == PhaseOf(s, j))
            && id in s'.store.txs && s'.store.txs[id].txID == id && s'.store.txs[id].status == Committed
            && CommitCount(s'.log, id) == CommitCount(s.log, id) + 1
  {
    CountGrows(c, s, i, a, id);
    LogGrows(c, s, i, a);
    LoggedByWork(c, s, i, a, id);
    assert InLock(PhaseOf(s, i));
    CommittingPiece(c, s, i, id);
    OthersUnmoved(c, s, i, a);
  }

  lemma LoggedByWork(c: Config, s: Server, i: int, a: Action, id: Str)
    requires GoodJobs(c, s) && Enabled(s, i, a)
    requires var log' := Do(c, s, i, a).log; |log'| == |s.log| + 1 && CommitsIn(log'[|s.log|], id)
    ensures a.Proceed? && PhaseOf(s, i).Working?
  {
  }

  // ---- at most once ----

  ghost predicate OneActing(s: Server, id: Str) {
    forall i, j :: Acting(PhaseOf(s, i), id) && Acting(PhaseOf(s, j), id) ==> i == j
  }

  ghost predicate DonePhase(p: Phase, id: Str) {
    && !Acting(p, id)
    && (p.Working? ==> id in p.w.copy.txs && Closed(p.w.copy.txs[id]).Some?)
    && (p.Failing? && p.t.txID == id ==> Closed(p.t).Some?)
  }

  /** The transaction is closed in the store and in every copy, and nobody is about
      to open or execute it. */
  ghost predicate Done(s: Server, id: Str) {
    id in s.store.txs && Closed(s.store.txs[id]).Some? && forall i :: DonePhase(PhaseOf(s, i), id)
  }

  ghost predicate AtMostOnce(s: Server, id: Str) {
    OneActing(s, id) && (CommitCount(s.log, id) == 0 || (CommitCount(s.log, id) == 1 && Done(s, id)))
  }

  lemma ArrivalActs(c: Config, s: Server, e: Event, order: seq<Str>, id: Str)
    requires Keyed(s.store.txs)
    ensures Acting(Arrived(c, s.store, e, order), id) ==> Targets(e, id)
  {
    if IsTxCall(e) {
      DecisionNamesTarget(c, s.store, e);
    } else if e.ExpireDue? {
      OverduesOpen(s.store, order, e.sweep);
      assert Arrived(c, s.store, e, order) == Saves(Overdues(s.store, order, e.sweep));
    }
  }

  lemma ProceedActs(c: Config, s: Server, i: int, id: Str)
    requires Enabled(s, i, Proceed)
    ensures Acting(PhaseOf(Do(c, s, i, Proceed), i), id) ==> Acting(PhaseOf(s, i), id)
  {
    var p := PhaseOf(s, i);
    if p.Saving? && p.todo != [] {
      assert forall n :: 0 <= n < |p.todo[1..]| ==> p.todo[1..][n] == p.todo[n + 1];
    }
  }

  lemma MoveKeepsOneActing(c: Config, s: Server, i: int, a: Action, id: Str, u: Str)
    requires OneActing(s, id) && Keyed(s.store.txs) && Enabled(s, i, a) && Turn(s, a, id, u)
    ensures OneActing(Do(c, s, i, a), id)
  {
    var s' := Do(c, s, i, a);
    OthersUnmoved(c, s, i, a);
    if a.Arrive? {
      ArrivalActs(c, s, a.e, a.order, id);
    } else {
      ProceedActs(c, s, i, id);
    }
  }

  /** All that a call can still do to a closed record is to save it closed again. */
  lemma ClosedArrival(c: Config, s: Server, e: Event, order: seq<Str>, id: Str)
    requires Keyed(s.store.txs) && id in s.store.txs && Closed(s.store.txs[id]).Some?
    ensures DonePhase(Arrived(c, s.store, e, order), id)
  {
    ArrivalActs(c, s, e, order, id);
    if IsTxCall(e) && TargetOf(e) == id {
      assert match DecisionOf(c, s.store, e)
             case Answer(_) => true
             case Save(t, _) => Closed(t).Some?
             case Execute(_) => false;
    }
  }

  lemma CallKeepsClosed(c: Config, d: Snapshot, e: Event, id: Str, u: Str)
    requires LockedCall(e) && !e.Import? && !IsDeletion(e, u) && TableOfSpace(d.txs, id, u)
    requires id in d.txs && Closed(d.txs[id]).Some?
    ensures id in Next(c, d, e).txs && Closed(Next(c, d, e).txs[id]).Some?
  {
  }

  lemma DoneWork(c: Config, s: Server, i: int, id: Str)
    requires Done(s, id) && PhaseOf(s, i).Working?
    ensures var s' := Do(c, s, i, Proceed);
            id in s'.store.txs && Closed(s'.store.txs[id]).Some? && DonePhase(PhaseOf(s', i), id)
  {
    var p := PhaseOf(s, i);
    assert DonePhase(p, id);
    if Bulk(p.job) && !Stuck(p.job, p.w) && p.w.done < Size(p.job) {
      WorkKeepsTxs(c.lib, p.job, p.w);
    }
  }

  lemma DoneOutside(c: Config, s: Server, i: int, id: Str, u: Str)
    requires Done(s, id) && GoodJobs(c, s) && InSpace(s, id, u) && Enabled(s, i, Proceed) && !PhaseOf(s, i).Working?
    ensures var s' := Do(c, s, i, Proceed);
            id in s'.store.txs && Closed(s'.store.txs[id]).Some? && DonePhase(PhaseOf(s', i), id)
  {
    var p := PhaseOf(s, i);
    assert DonePhase(p, id) && PhaseOfSpace(p, id, u);
    ProceedActs(c, s, i, id);
    if p.Holding? && !Bulk(p.job) {
      CallKeepsClosed(c, s.store, p.job.e, id, u);
    }
  }

  lemma MoveKeepsDone(c: Config, s: Server, i: int, a: Action, id: Str, u: Str)
    requires Done(s, id) && GoodJobs(c, s) && Keyed(s.store.txs) && InSpace(s, id, u) && Enabled(s, i, a)
    ensures Done(Do(c, s, i, a), id)
  {
    var s' := Do(c, s, i, a);
    OthersUnmoved(c, s, i, a);
    if a.Arrive? {
      ClosedArrival(c, s, a.e, a.order, id);
    } else if PhaseOf(s, i).Working? {
      DoneWork(c, s, i, id);
    } else {
      DoneOutside(c, s, i, id, u);
    }
  }

  lemma MoveKeepsAtMostOnce(c: Config, d: Snapshot, s: Server, i: int, a: Action, id: Str, u: Str)
    requires Consistent(c, d, s) && Keyed(s.store.txs) && InSpace(s, id, u) && AtMostOnce(s, id)
    requires Enabled(s, i, a) && Turn(s, a, id, u)
    ensures AtMostOnce(Do(c, s, i, a), id)
  {
    var s' := Do(c, s, i, a);
    MoveKeepsOneActing(c, s, i, a, id, u);
    if CommitCount(s.log, id) == 1 {
      MoveKeepsDone(c, s, i, a, id, u);
    }
    if CommitCount(s'.log, id) != CommitCount(s.log, id) {
      CommitInstalls(c, d, s, i, a, id);
      CommitMakesDone(c, d, s, i, a, id);
    }
  }

  /** After an installation nobody else is acting, as only the installer was. */
  lemma CommitMakesDone(c: Config, d: Snapshot, s: Server, i: int, a: Action, id: Str)
    requires Consistent(c, d, s) && OneActing(s, id) && Enabled(s, i, a)
    requires CommitCount(Do(c, s, i, a).log, id) != CommitCount(s.log, id)
    ensures Done(Do(c, s, i, a), id) && !Done(s, id)
  {
    CommitInstalls(c, d, s, i, a, id);
    var s' := Do(c, s, i, a);
    assert Acting(PhaseOf(s, i), id) && (Done(s, id) ==> DonePhase(PhaseOf(s, i), id));
    forall j ensures DonePhase(PhaseOf(s', j), id) {
      assert j != i ==> !InLock(PhaseOf(s, j)) && !Acting(PhaseOf(s, j), id);
    }
  }

  ghost predicate Tidy(c: Config, d: Snapshot, s: Server, id: Str, u: Str) {
    Consistent(c, d, s) && AllKeyed(s) && InSpace(s, id, u)
  }

  lemma MoveKeepsTidy(c: Config, d: Snapshot, s: Server, i: int, a: Action, id: Str, u: Str)
    requires Tidy(c, d, s, id, u) && Enabled(s, i, a) && KeepsSpace(a, id, u)
    ensures Tidy(c, d, Do(c, s, i, a), id, u)
  {
    MoveKeepsConsistent(c, d, s, i, a);
    MoveKeepsKeyed(c, s, i, a);
    MoveKeepsSpace(c, s, i, a, id, u);
  }

  lemma {:induction false} TurnsKeepAtMostOnce(c: Config, d: Snapshot, ms: seq<Move>, id: Str, u: Str)
    requires Keyed(d.txs) && TableOfSpace(d.txs, id, u)
    requires Possible(c, Fresh(d), ms) && TakeTurns(c, Fresh(d), ms, id, u)
    ensures var s := Interleaved(c, Fresh(d), ms); Tidy(c, d, s, id, u) && AtMostOnce(s, id)
  {
    if ms != [] {
      var before, m := ms[..|ms| - 1], ms[|ms| - 1];
      TurnsKeepAtMostOnce(c, d, before, id, u);
      var s := Interleaved(c, Fresh(d), before);
      MoveKeepsTidy(c, d, s, m.i, m.a, id, u);
      MoveKeepsAtMostOnce(c, d, s, m.i, m.a, id, u);
    }
  }

  /** In every interleaving in which calls on one transaction take turns and its
      userspace is kept, it commits at most once, whatever sweeps, imports and
      executions of others come between. */
  lemma {:induction false} CommitsAtMostOnce(c: Config, d: Snapshot, ms: seq<Move>, id: Str, u: Str)
    requires Inv(c, d) && TableOfSpace(d.txs, id, u)
    requires Possible(c, Fresh(d), ms) && TakeTurns(c, Fresh(d), ms, id, u)
    ensures CommitCount(Interleaved(c, Fresh(d), ms).log, id) <= 1
  {
    assert Keyed(d.txs) by {
      forall j | j in d.txs ensures d.txs[j].txID == j {
        assert TxOk(c, j, d.txs[j]);
      }
    }
    TurnsKeepAtMostOnce(c, d, ms, id, u);
  }

  // ---- the record tells ----

  ghost predicate OneBusy(s: Server, id: Str) {
    forall i, j :: Busy(PhaseOf(s, i), id) && Busy(PhaseOf(s, j), id) ==> i == j
  }

  ghost predicate SafelyCommitted(c: Config, s: Server, id: Str, u: Str) {
    && id in s.store.txs
    && var t := s.store.txs[id]; t.txID == id && t.userspaceID == u && t.status == Committed && Safe(c, s, t)
  }

  ghost predicate OnceOrNot(c: Config, s: Server, id: Str, u: Str) {
    OneBusy(s, id) && (CommitCount(s.log, id) == 0 || (CommitCount(s.log, id) == 1 && SafelyCommitted(c, s, id, u)))
  }

  lemma ArrivalBusies(c: Config, s: Server, e: Event, order: seq<Str>, id: Str)
    requires Keyed(s.store.txs)
    ensures Busy(Arrived(c, s.store, e, order), id) ==> Targets(e, id) || FoundOverdue(s.store, e, id)
  {
    if IsTxCall(e) {
      DecisionNamesTarget(c, s.store, e);
    } else if e.ExpireDue? {
      OverduesOpen(s.store, order, e.sweep);
      assert Arrived(c, s.store, e, order) == Saves(Overdues(s.store, order, e.sweep));
    }
  }

  lemma ProceedBusies(c: Config, s: Server, i: int, id: Str)
    requires Enabled(s, i, Proceed)
    ensures Busy(PhaseOf(Do(c, s, i, Proceed), i), id) ==> Busy(PhaseOf(s, i), id)
  {
    var p := PhaseOf(s, i);
    if p.Saving? && p.todo != [] {
      assert forall n :: 0 <= n < |p.todo[1..]| ==> p.todo[1..][n] == p.todo[n + 1];
    }
  }

  lemma MoveKeepsOneBusy(c: Config, s: Server, i: int, a: Action, id: Str, u: Str)
    requires OneBusy(s, id) && Keyed(s.store.txs) && Enabled(s, i, a) && StrictTurn(s, a, id, u)
    ensures OneBusy(Do(c, s, i, a), id)
  {
    var s' := Do(c, s, i, a);
    OthersUnmoved(c, s, i, a);
    if a.Arrive? {
      ArrivalBusies(c, s, a.e, a.order, id);
    } else {
      ProceedBusies(c, s, i, id);
    }
  }

  /** A commit installed while nobody else is busy with the transaction is safe. */
  lemma CommitIsSafe(c: Config, d: Snapshot, s: Server, i: int, a: Action, id: Str, u: Str)
    requires Tidy(c, d, s, id, u) && OneBusy(s, id) && Enabled(s, i, a)
    requires CommitCount(Do(c, s, i, a).log, id) != CommitCount(s.log, id)
    requires TableOfSpace(Do(c, s, i, a).store.txs, id, u)
    ensures SafelyCommitted(c, Do(c, s, i, a), id, u)
  {
    CommitInstalls(c, d, s, i, a, id);
    var s' := Do(c, s, i, a);
    var t := s'.store.txs[id];
    assert Busy(PhaseOf(s, i), id);
    forall j ensures LeavesBe(c, PhaseOf(s', j), t) {
      assert j != i ==> !InLock(PhaseOf(s, j)) && !Busy(PhaseOf(s, j), id);
    }
    assert Safe(c, s', t);
  }

  lemma MoveKeepsSafelyCommitted(c: Config, d: Snapshot, s: Server, i: int, a: Action, id: Str, u: Str)
    requires Tidy(c, d, s, id, u) && SafelyCommitted(c, s, id, u) && Enabled(s, i, a) && KeepsSpace(a, id, u)
    ensures SafelyCommitted(c, Do(c, s, i, a), id, u)
    ensures CommitCount(Do(c, s, i, a).log, id) == CommitCount(s.log, id)
  {
    var t := s.store.txs[id];
    forall j ensures NoRemoval(PhaseOf(s, j), u) {
      assert PhaseOfSpace(PhaseOf(s, j), id, u);
    }
    MoveKeepsSafe(c, d, s, i, a, t);
    CountGrows(c, s, i, a, id);
  }

  lemma MoveKeepsOnceOrNot(c: Config, d: Snapshot, s: Server, i: int, a: Action, id: Str, u: Str)
    requires Tidy(c, d, s, id, u) && OnceOrNot(c, s, id, u) && Enabled(s, i, a) && StrictTurn(s, a, id, u)
    requires InSpace(Do(c, s, i, a), id, u)
    ensures OnceOrNot(c, Do(c, s, i, a), id, u)
  {
    MoveKeepsOneBusy(c, s, i, a, id, u);
    if CommitCount(s.log, id) == 1 {
      MoveKeepsSafelyCommitted(c, d, s, i, a, id, u);
    } else if CommitCount(Do(c, s, i, a).log, id) != 0 {
      CommitIsSafe(c, d, s, i, a, id, u);
      CommitInstalls(c, d, s, i, a, id);
    }
  }

  lemma {:induction false} TurnsKeepOnceOrNot(c: Config, d: Snapshot, ms: seq<Move>, id: Str, u: Str)
    requires Keyed(d.txs) && TableOfSpace(d.txs, id, u)
    requires Possible(c, Fresh(d), ms) && TakeStrictTurns(c, Fresh(d), ms, id, u)
    ensures var s := Interleaved(c, Fresh(d), ms); Tidy(c, d, s, id, u) && OnceOrNot(c, s, id, u)
  {
    if ms != [] {
      var before, m := ms[..|ms| - 1], ms[|ms| - 1];
      TurnsKeepOnceOrNot(c, d, before, id, u);
      var s := Interleaved(c, Fresh(d), before);
      MoveKeepsTidy(c, d, s, m.i, m.a, id, u);
      MoveKeepsOnceOrNot(c, d, s, m.i, m.a, id, u);
    }
  }

  lemma {:induction false} LoggedIsCounted(log: seq<LogEntry>, id: Str, n: nat)
    requires n < |log| && CommitsIn(log[n], id)
    ensures CommitCount(log, id) >= 1
  {
    if n < |log| - 1 {
      LoggedIsCounted(log[..|log| - 1], id, n);
    }
  }

  /** When sweeps that find the transaction overdue take turns with its calls too,
      it has committed exactly once if its record says so, and not at all otherwise. */
  lemma {:induction false} CommittedIffOnce(c: Config, d: Snapshot, ms: seq<Move>, id: Str, u: Str)
    requires Inv(c, d) && TableOfSpace(d.txs, id, u) && !CommittedIn(d, id)
    requires Possible(c, Fresh(d), ms) && TakeStrictTurns(c, Fresh(d), ms, id, u)
    ensures var s := Interleaved(c, Fresh(d), ms);
            CommitCount(s.log, id) == if CommittedIn(s.store, id) then 1 else 0
  {
    assert Keyed(d.txs) by {
      forall j | j in d.txs ensures d.txs[j].txID == j {
        assert TxOk(c, j, d.txs[j]);
      }
    }
    TurnsKeepOnceOrNot(c, d, ms, id, u);
    CommitsAreReal(c, d, ms);
    var s := Interleaved(c, Fresh(d), ms);
    if CommittedIn(s.store, id) {
      assert CommitLogged(s.log, id, s.store.txs[id]);
      var n :| 0 <= n < |s.log| && s.log[n].job.Execution? && s.log[n].job.t.txID == id
        && s.log[n].answer.Executed? && s.log[n].answer.o.status == Committed
        && s.log[n].answer.o.result == s.store.txs[id].result;
      LoggedIsCounted(s.log, id, n);
    }
  }
}
