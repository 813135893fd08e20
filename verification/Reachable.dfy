/** What holds of every content the server can reach from its first start: by whole
    calls, and in every interleaving of its goroutines. */
module Reachable {
  import opened Model
  import opened StoreSpec
  import opened CoordinatorSpec
  import opened System
  import opened Lifecycle
  import opened Threads
  import opened Serializability
  import opened Interference
  import opened Survival

  /** The content of a server started on an empty store. */
  function Started(user: Str, u: Str, hash: Str): Snapshot {
    Bootstrap(EMPTY_SNAPSHOT, user, u, hash)
  }

  lemma StartedInv(c: Config, user: Str, u: Str, hash: Str)
    ensures Inv(c, Started(user, u, hash))
  {
    EmptyStoreInv(c);
    BootstrapKeepsInv(c, EMPTY_SNAPSHOT, user, u, hash);
  }

  /** Every content reached by whole calls satisfies the invariant. */
  lemma {:induction false} ReachableInv(c: Config, user: Str, u: Str, hash: Str, es: seq<Event>)
    ensures Inv(c, Run(c, Started(user, u, hash), es))
  {
    StartedInv(c, user, u, hash);
    RunKeepsInv(c, Started(user, u, hash), es);
  }

  // ---- in every interleaving ----

  ghost predicate JobInv(c: Config, job: Job) {
    job.Execution? ==> Complete(c, job.t.txID, job.t)
  }

  /** What a goroutine is about to save, execute or install. */
  ghost predicate PhaseInv(c: Config, p: Phase) {
    match p
    case Saving(todo) => forall n :: 0 <= n < |todo| ==> TxOk(c, todo[n].txID, todo[n])
    case Queued(job) => JobInv(c, job)
    case Holding(job) => JobInv(c, job)
    case Working(job, base, w) => JobInv(c, job) && Inv(c, base)
    case Failing(r) => TxOk(c, r.txID, r)
    case _ => true
  }

  ghost predicate ServerInv(c: Config, s: Server) {
    Inv(c, s.store) && forall i :: PhaseInv(c, PhaseOf(s, i))
  }

  lemma TxCallArrivalInv(c: Config, d: Snapshot, e: Event, order: seq<Str>)
    requires Inv(c, d) && IsTxCall(e)
    ensures PhaseInv(c, Arrived(c, d, e, order))
  {
    DecisionsOk(c, d, e);
    var dec := DecisionOf(c, d, e);
    if dec.Execute? && !DigestOk(c.lib, dec.t) {
      assert TxOk(c, dec.t.txID, dec.t.(status := Aborted, abortReason := DigestMismatch));
    }
  }

  lemma SweepArrivalInv(c: Config, d: Snapshot, e: Event, order: seq<Str>)
    requires Inv(c, d) && e.ExpireDue?
    ensures PhaseInv(c, Arrived(c, d, e, order))
  {
    OverduesOpen(d, order, e.sweep);
    var todo := Overdues(d, order, e.sweep);
    assert Arrived(c, d, e, order) == Saves(todo);
    forall n | 0 <= n < |todo| ensures TxOk(c, todo[n].txID, todo[n]) {
      assert SweptUp(d, e.sweep, todo[n]);
      var id :| id in d.txs && Overdue(d.txs[id], e.sweep(id)) && todo[n] == Expire(d.txs[id]);
      assert TxOk(c, id, d.txs[id]);
    }
  }

  lemma CreationArrivalInv(c: Config, d: Snapshot, e: Event, order: seq<Str>)
    requires Inv(c, d) && e.CreateTx?
    ensures PhaseInv(c, Arrived(c, d, e, order))
  {
    CreateTxKeepsInv(c, d, e.p, e.totalOps, e.timeout, e.requested, e.drawn, e.now);
    var r := CreateTxIn(c, d, e.p, e.totalOps, e.timeout, e.requested, e.drawn, e.now);
    if r.1.Ok? && IdOf(e) !in d.txs {
      assert r.1.value.txID == IdOf(e) && r.0.txs[IdOf(e)] == r.1.value;
      assert TxOk(c, IdOf(e), r.0.txs[IdOf(e)]);
    }
  }

  lemma ArrivalInv(c: Config, d: Snapshot, e: Event, order: seq<Str>)
    requires Inv(c, d)
    ensures PhaseInv(c, Arrived(c, d, e, order))
  {
    if IsTxCall(e) {
      TxCallArrivalInv(c, d, e, order);
    } else if e.ExpireDue? {
      SweepArrivalInv(c, d, e, order);
    } else if e.CreateTx? {
      CreationArrivalInv(c, d, e, order);
    }
  }

  lemma JobKeepsInv(c: Config, d: Snapshot, job: Job)
    requires Inv(c, d) && JobInv(c, job)
    ensures Inv(c, JobNext(c, d, job))
  {
    match job
    case Call(e) => StepKeepsInv(c, d, e);
    case Execution(t, clock) => ExecuteKeepsInv(c, clock, d, t);
  }

  lemma WorkInv(c: Config, d: Snapshot, s: Server, i: int)
    requires Consistent(c, d, s) && ServerInv(c, s) && PhaseOf(s, i).Working?
    ensures var s' := Do(c, s, i, Proceed); Inv(c, s'.store) && PhaseInv(c, PhaseOf(s', i))
  {
    var p := PhaseOf(s, i);
    assert InLock(p) && PhaseInv(c, p) && JobOk(c, p.job);
    assert WorkOk(c, p.job, p.base, p.w);
    JobKeepsInv(c, p.base, p.job);
    if Stuck(p.job, p.w) {
      ExecutionEnds(c, p.job, p.base, p.w);
      assert TxOk(c, p.job.t.txID, JobNext(c, p.base, p.job).txs[p.job.t.txID]);
    } else if p.w.done == Size(p.job) {
      InstallEnds(c, p.job, p.base, p.w);
    }
  }

  lemma OutsideInv(c: Config, s: Server, i: int)
    requires ServerInv(c, s) && Enabled(s, i, Proceed) && !PhaseOf(s, i).Working?
    ensures var s' := Do(c, s, i, Proceed); Inv(c, s'.store) && PhaseInv(c, PhaseOf(s', i))
  {
    var p := PhaseOf(s, i);
    assert PhaseInv(c, p);
    match p
    case Saving(todo) =>
      if todo != [] {
        SaveKeepsInv(c, s.store, todo[0]);
        assert forall n :: 0 <= n < |todo[1..]| ==> todo[1..][n] == todo[n + 1];
      }
    case Holding(job) =>
      if !Bulk(job) {
        StepKeepsInv(c, s.store, job.e);
      }
    case Failing(r) => SaveKeepsInv(c, s.store, r);
    case _ =>
  }

  lemma MoveKeepsServerInv(c: Config, d: Snapshot, s: Server, i: int, a: Action)
    requires Consistent(c, d, s) && ServerInv(c, s) && Enabled(s, i, a)
    ensures ServerInv(c, Do(c, s, i, a))
  {
    var s' := Do(c, s, i, a);
    OthersUnmoved(c, s, i, a);
    assert forall j :: j != i ==> PhaseInv(c, PhaseOf(s, j));
    if a.Arrive? {
      ArrivalInv(c, s.store, a.e, a.order);
    } else if PhaseOf(s, i).Working? {
      WorkInv(c, d, s, i);
    } else {
      OutsideInv(c, s, i);
    }
  }

  /** In every interleaving the stored content satisfies the invariant, and so does
      everything that a goroutine is about to save, execute or install: overwritten
      saves and stale copies lose records, but never make an inconsistent one. */
  lemma {:induction false} InterleavingKeepsInv(c: Config, d: Snapshot, ms: seq<Move>)
    requires Inv(c, d) && Possible(c, Fresh(d), ms)
    ensures ServerInv(c, Interleaved(c, Fresh(d), ms))
  {
    if ms != [] {
      var before, m := ms[..|ms| - 1], ms[|ms| - 1];
      InterleavingKeepsInv(c, d, before);
      EveryInterleaving(c, d, before);
      MoveKeepsServerInv(c, d, Interleaved(c, Fresh(d), before), m.i, m.a);
    }
  }

  lemma {:induction false} ReachableServerInv(c: Config, user: Str, u: Str, hash: Str, ms: seq<Move>)
    requires Possible(c, Fresh(Started(user, u, hash)), ms)
    ensures ServerInv(c, Interleaved(c, Fresh(Started(user, u, hash)), ms))
  {
    StartedInv(c, user, u, hash);
    InterleavingKeepsInv(c, Started(user, u, hash), ms);
  }
}
