/** The global lock is always given back, and a stored commit is always real,
    whatever the unlocked saves of transaction records do. */
module Interference {
  import opened Model
  import opened StoreSpec
  import opened CoordinatorSpec
  import opened ExecutionLaws
  import opened System
  import opened Threads
  import opened Serializability

  lemma AfterMove(c: Config, s: Server, ms: seq<Move>, m: Move)
    requires Possible(c, s, ms) && Enabled(Interleaved(c, s, ms), m.i, m.a)
    ensures Possible(c, s, ms + [m]) && Interleaved(c, s, ms + [m]) == Do(c, Interleaved(c, s, ms), m.i, m.a)
  {
    assert (ms + [m])[..|ms + [m]| - 1] == ms;
  }

  lemma FirstMove(c: Config, s: Server, m: Move)
    requires Enabled(s, m.i, m.a)
    ensures Possible(c, s, [m]) && Interleaved(c, s, [m]) == Do(c, s, m.i, m.a)
  {
    assert [] + [m] == [m];
    AfterMove(c, s, [], m);
  }

  lemma TwoMoves(c: Config, s: Server, m: Move, o: Move)
    requires Enabled(s, m.i, m.a) && Enabled(Do(c, s, m.i, m.a), o.i, o.a)
    ensures Possible(c, s, [m] + [o]) && Interleaved(c, s, [m] + [o]) == Do(c, Do(c, s, m.i, m.a), o.i, o.a)
  {
    FirstMove(c, s, m);
    AfterMove(c, s, [m], o);
  }

  // ---- the lock is always given back ----

  /** How many steps its holder needs at most. */
  function StepsLeft(p: Phase): nat {
    match p
    case Holding(job) => if Bulk(job) then Size(job) + 4 else 2
    case Working(job, _, w) => if Bulk(job) && w.done <= Size(job) then Size(job) - w.done + 3 else 3
    case Failing(_) => 2
    case Releasing => 1
    case _ => 0
  }

  lemma HolderStep(c: Config, d: Snapshot, s: Server, i: int)
    requires Consistent(c, d, s) && s.holder == Some(i)
    ensures Enabled(s, i, Proceed)
    ensures var s' := Do(c, s, i, Proceed);
            s'.holder == None || (s'.holder == Some(i) && StepsLeft(PhaseOf(s', i)) < StepsLeft(PhaseOf(s, i)))
  {
    assert InLock(PhaseOf(s, i));
    if PhaseOf(s, i).Working? {
      assert WorkOk(c, PhaseOf(s, i).job, PhaseOf(s, i).base, PhaseOf(s, i).w);
    }
  }

  lemma OthersLeaveHolder(c: Config, s: Server, i: int, j: int, a: Action)
    requires Exclusive(s) && s.holder == Some(i) && j != i && Enabled(s, j, a)
    ensures Do(c, s, j, a).holder == Some(i) && PhaseOf(Do(c, s, j, a), i) == PhaseOf(s, i)
  {
    assert !InLock(PhaseOf(s, j));
  }

  /** The holder can always take a step, and each brings the release nearer,
      whatever the others do in between. */
  lemma HolderAdvances(c: Config, d: Snapshot, s: Server, i: int)
    requires Consistent(c, d, s) && s.holder == Some(i)
    ensures Enabled(s, i, Proceed)
    ensures var s' := Do(c, s, i, Proceed);
            s'.holder == None || (s'.holder == Some(i) && StepsLeft(PhaseOf(s', i)) < StepsLeft(PhaseOf(s, i)))
    ensures forall j, a :: j != i && Enabled(s, j, a) ==>
              Do(c, s, j, a).holder == Some(i) && PhaseOf(Do(c, s, j, a), i) == PhaseOf(s, i)
  {
    HolderStep(c, d, s, i);
    forall j, a | j != i && Enabled(s, j, a)
      ensures Do(c, s, j, a).holder == Some(i) && PhaseOf(Do(c, s, j, a), i) == PhaseOf(s, i)
    {
      OthersLeaveHolder(c, s, i, j, a);
    }
  }

  // ---- a stored commit is real ----

  /** The history has an execution of this transaction that committed with this result. */
  ghost predicate CommitLogged(log: seq<LogEntry>, id: Str, t: Transaction) {
    exists n :: 0 <= n < |log| && log[n].job.Execution? && log[n].job.t.txID == id
      && log[n].answer.Executed? && log[n].answer.o.status == Committed && log[n].answer.o.result == t.result
  }

  ghost predicate Real(d: Snapshot, log: seq<LogEntry>, txs: map<Str, Transaction>) {
    forall id :: id in txs && txs[id].status == Committed ==>
      CommitLogged(log, id, txs[id]) || (id in d.txs && d.txs[id] == txs[id])
  }

  /** No phase is about to save a committed record, and no copy holds an unreal one. */
  ghost predicate RealPhase(d: Snapshot, log: seq<LogEntry>, p: Phase) {
    match p
    case Saving(todo) => forall n :: 0 <= n < |todo| ==> todo[n].status != Committed
    case Failing(t) => t.status != Committed
    case Working(_, _, w) => Real(d, log, w.copy.txs)
    case _ => true
  }

  ghost predicate AllReal(d: Snapshot, s: Server) {
    Real(d, s.log, s.store.txs) && forall i :: RealPhase(d, s.log, PhaseOf(s, i))
  }

  lemma LongerLog(d: Snapshot, log: seq<LogEntry>, entry: LogEntry, txs: map<Str, Transaction>)
    requires Real(d, log, txs)
    ensures Real(d, log + [entry], txs)
  {
    forall id | id in txs && txs[id].status == Committed && CommitLogged(log, id, txs[id])
      ensures CommitLogged(log + [entry], id, txs[id])
    {
      var n :| 0 <= n < |log| && log[n].job.Execution? && log[n].job.t.txID == id
        && log[n].answer.Executed? && log[n].answer.o.status == Committed && log[n].answer.o.result == txs[id].result;
      assert (log + [entry])[n] == log[n];
    }
  }

  lemma LongerLogPhases(d: Snapshot, s: Server, entry: LogEntry)
    requires AllReal(d, s)
    ensures forall i :: RealPhase(d, s.log + [entry], PhaseOf(s, i))
  {
    forall i ensures RealPhase(d, s.log + [entry], PhaseOf(s, i)) {
      assert RealPhase(d, s.log, PhaseOf(s, i));
      if PhaseOf(s, i).Working? {
        LongerLog(d, s.log, entry, PhaseOf(s, i).w.copy.txs);
      }
    }
  }

  /** A record as a sweep that finds it overdue will save it. */
  predicate SweptUp(d: Snapshot, sweep: Str -> Time, t: Transaction) {
    t.status == Expired && exists id :: id in d.txs && Overdue(d.txs[id], sweep(id)) && t == Expire(d.txs[id])
  }

  lemma {:induction false} OverduesOpen(d: Snapshot, order: seq<Str>, sweep: Str -> Time)
    ensures forall n :: 0 <= n < |Overdues(d, order, sweep)| ==> SweptUp(d, sweep, Overdues(d, order, sweep)[n])
  {
    if order != [] {
      OverduesOpen(d, order[1..], sweep);
    }
  }

  lemma DecisionsSaveNoCommit(c: Config, d: Snapshot, e: Event)
    requires IsTxCall(e)
    ensures DecisionOf(c, d, e).Save? ==> DecisionOf(c, d, e).t.status != Committed
  {
  }

  lemma ArrivalIsReal(c: Config, d: Snapshot, s: Server, e: Event, order: seq<Str>)
    ensures RealPhase(d, s.log, Arrived(c, s.store, e, order))
  {
    if e.ExpireDue? {
      OverduesOpen(s.store, order, e.sweep);
      assert Arrived(c, s.store, e, order) == Saves(Overdues(s.store, order, e.sweep));
    } else if IsTxCall(e) {
      DecisionsSaveNoCommit(c, s.store, e);
    }
  }

  lemma CallKeepsReal(c: Config, d: Snapshot, s: Server, e: Event)
    requires Real(d, s.log, s.store.txs) && LockedCall(e)
    ensures Real(d, s.log, Next(c, s.store, e).txs)
    ensures !e.Import? ==> forall id :: id in Next(c, s.store, e).txs ==>
        id in s.store.txs && Next(c, s.store, e).txs[id] == s.store.txs[id]
  {
    if e.Import? {
      ImportKeepsTxs(c.lib, e.clock, s.store, e.u, e.records, e.mode, |e.records|);
    }
  }

  lemma {:induction false} ImportKeepsTxs(lib: Library, clock: Clock, d: Snapshot, u: Str, records: seq<KVRecord>,
                                          mode: ImportMode, n: nat)
    requires n <= |records|
    ensures ImportPrefix(lib, clock, d, u, records, mode, n).0.txs == d.txs
  {
    if n > 0 {
      ImportKeepsTxs(lib, clock, d, u, records, mode, n - 1);
    }
  }

  lemma WorkKeepsTxs(lib: Library, job: Job, w: Work)
    requires Bulk(job) && w.done < Size(job)
    ensures WorkOn(lib, job, w).copy.txs == w.copy.txs
  {
  }

  /** What installing a copy leaves among the records: those the copy was made
      with, and the record of the transaction executed. */
  lemma InstallRestoresRecords(c: Config, d: Snapshot, s: Server, i: int)
    requires Consistent(c, d, s) && PhaseOf(s, i).Working?
    requires var p := PhaseOf(s, i); !Stuck(p.job, p.w) && Bulk(p.job) && p.w.done == Size(p.job)
    ensures var p, s' := PhaseOf(s, i), Do(c, s, i, Proceed);
            s'.store.txs == if p.job.Execution? then p.base.txs[p.job.t.txID := s'.store.txs[p.job.t.txID]]
            else p.base.txs
  {
    assert InLock(PhaseOf(s, i));
    var p := PhaseOf(s, i);
    if p.job.Execution? {
      ExecutionIsLocal(c.lib, p.job.clock, p.base, p.job.t.userspaceID, p.job.t.ops, p.w.done);
    } else {
      ImportKeepsTxs(c.lib, p.job.e.clock, p.base, p.job.e.u, p.job.e.records, p.job.e.mode, p.w.done);
    }
  }

  lemma WorkStepReal(c: Config, d: Snapshot, s: Server, i: int)
    requires AllReal(d, s) && PhaseOf(s, i).Working?
    ensures AllReal(d, Do(c, s, i, Proceed))
  {
    var p, s' := PhaseOf(s, i), Do(c, s, i, Proceed);
    assert RealPhase(d, s.log, p);
    if !Bulk(p.job) {
    } else if Stuck(p.job, p.w) || p.w.done >= Size(p.job) {
      var entry := LogEntry(p.job, WorkAnswer(p.job, p.w));
      assert s'.log == s.log + [entry];
      LongerLog(d, s.log, entry, s.store.txs);
      LongerLog(d, s.log, entry, p.w.copy.txs);
      LongerLogPhases(d, s, entry);
      if !Stuck(p.job, p.w) {
        InstalledIsReal(d, s, p.job, p.w);
      }
      assert forall j :: PhaseOf(s', j) == if j == i then PhaseOf(s', i) else PhaseOf(s, j);
    } else {
      WorkKeepsTxs(c.lib, p.job, p.w);
      assert forall j :: PhaseOf(s', j) == if j == i then PhaseOf(s', i) else PhaseOf(s, j);
    }
  }

  lemma InstalledIsReal(d: Snapshot, s: Server, job: Job, w: Work)
    requires Bulk(job) && Real(d, s.log + [LogEntry(job, WorkAnswer(job, w))], w.copy.txs)
    ensures Real(d, s.log + [LogEntry(job, WorkAnswer(job, w))], Installed(job, w).txs)
  {
    var log := s.log + [LogEntry(job, WorkAnswer(job, w))];
    assert log[|s.log|] == LogEntry(job, WorkAnswer(job, w));
    if job.Execution? && Record(job, w).status == Committed {
      assert CommitLogged(log, job.t.txID, Record(job, w));
    }
  }

  lemma MoveKeepsReal(c: Config, d: Snapshot, s: Server, i: int, a: Action)
    requires AllReal(d, s) && GoodJobs(c, s) && Enabled(s, i, a)
    ensures AllReal(d, Do(c, s, i, a))
  {
    var s', p := Do(c, s, i, a), PhaseOf(s, i);
    assert RealPhase(d, s.log, p);
    if p.Working? {
      WorkStepReal(c, d, s, i);
    } else {
      assert forall j :: PhaseOf(s', j) == if j == i then PhaseOf(s', i) else PhaseOf(s, j);
      if a.Arrive? {
        ArrivalIsReal(c, d, s, a.e, a.order);
      } else if p.Holding? && !Bulk(p.job) {
        var entry := LogEntry(p.job, Responded(Step(c, s.store, p.job.e).1));
        CallKeepsReal(c, d, s, p.job.e);
        LongerLog(d, s.log, entry, s'.store.txs);
        LongerLogPhases(d, s, entry);
      }
    }
  }

  /** In every interleaving, a record stored as committed was committed by an
      execution in the history, with the result it carries, unless it was so from
      the start. */
  lemma {:induction false} CommitsAreReal(c: Config, d: Snapshot, ms: seq<Move>)
    requires Possible(c, Fresh(d), ms)
    ensures AllReal(d, Interleaved(c, Fresh(d), ms))
  {
    if ms != [] {
      var before, m := ms[..|ms| - 1], ms[|ms| - 1];
      CommitsAreReal(c, d, before);
      EveryInterleaving(c, d, before);
      MoveKeepsReal(c, d, Interleaved(c, Fresh(d), before), m.i, m.a);
    }
  }
}
