/** The two grains agree: a call whose goroutine runs alone leaves exactly what the
    call leaves as one step. */
module Solo {
  import opened Model
  import opened StoreSpec
  import opened CoordinatorSpec
  import opened System
  import opened Threads
  import opened Serializability
  import opened Interference
  import opened Overwrites

  // ---- saves ----

  /** The content after saving records one after the other. */
  function SaveAll(d: Snapshot, todo: seq<Transaction>): Snapshot
    decreases |todo|
  {
    if todo == [] then d else SaveAll(SaveTxIn(d, todo[0]), todo[1..])
  }

  lemma {:induction false} AllSaved(c: Config, s: Server, i: int, todo: seq<Transaction>)
    requires PhaseOf(s, i) == Saves(todo)
    ensures Possible(c, s, Own(i, |todo|))
    ensures var s' := Interleaved(c, s, Own(i, |todo|));
            PhaseOf(s', i) == Idle && s'.holder == s.holder && s'.store == SaveAll(s.store, todo)
    decreases |todo|
  {
    if todo == [] {
      NoMoves(c, s, i);
    } else {
      AllSaved(c, Do(c, s, i, Proceed), i, todo[1..]);
      OwnFirst(c, s, i, |todo| - 1);
    }
  }

  /** The ids in `rest` are yet to be visited by the sweep. */
  predicate SweptExcept(d: Snapshot, e: Snapshot, sweep: Str -> Time, rest: seq<Str>) {
    && e == d.(txs := e.txs) && e.txs.Keys == d.txs.Keys
    && forall id :: id in d.txs ==>
         if Overdue(d.txs[id], sweep(id)) && id !in rest then e.txs[id] == Expire(d.txs[id])
         else e.txs[id] == d.txs[id] || e.txs[id] == Expire(d.txs[id])
  }

  predicate OnlyOverdueSwept(d: Snapshot, e: Snapshot, sweep: Str -> Time) {
    forall id :: id in d.txs && id in e.txs && !Overdue(d.txs[id], sweep(id)) ==> e.txs[id] == d.txs[id]
  }

  lemma {:induction false} SweepSaves(d: Snapshot, e: Snapshot, order: seq<Str>, sweep: Str -> Time)
    requires Keyed(d.txs) && SweptExcept(d, e, sweep, order) && OnlyOverdueSwept(d, e, sweep)
    ensures var after := SaveAll(e, Overdues(d, order, sweep));
            SweptExcept(d, after, sweep, []) && OnlyOverdueSwept(d, after, sweep)
    decreases |order|
  {
    if order != [] {
      var id, todo := order[0], Overdues(d, order, sweep);
      var next := if id in d.txs && Overdue(d.txs[id], sweep(id)) then SaveTxIn(e, Expire(d.txs[id])) else e;
      assert SweptExcept(d, next, sweep, order[1..]) by {
        forall j | j in d.txs && Overdue(d.txs[j], sweep(j)) && j !in order[1..]
          ensures next.txs[j] == Expire(d.txs[j])
        {
          assert j == id || j !in order;
        }
      }
      SweepSaves(d, next, order[1..], sweep);
      assert next != e ==> todo[0] == Expire(d.txs[id]) && todo[1..] == Overdues(d, order[1..], sweep);
    }
  }

  lemma SweepAlone(d: Snapshot, order: seq<Str>, sweep: Str -> Time)
    requires Keyed(d.txs) && multiset(order) == multiset(d.txs.Keys)
    ensures SaveAll(d, Overdues(d, order, sweep)) == ExpireDueIn(d, sweep)
  {
    forall id | id in d.txs ensures id in order {
      assert id in multiset(d.txs.Keys);
    }
    assert SweptExcept(d, d, sweep, order);
    SweepSaves(d, d, order, sweep);
    SweptIsSweep(d, SaveAll(d, Overdues(d, order, sweep)), sweep);
  }

  lemma SweptIsSweep(d: Snapshot, e: Snapshot, sweep: Str -> Time)
    requires SweptExcept(d, e, sweep, []) && OnlyOverdueSwept(d, e, sweep)
    ensures e == ExpireDueIn(d, sweep)
  {
    assert e.txs == ExpireDueIn(d, sweep).txs;
  }

  // ---- jobs ----

  /** Work on a copy of the live content ends with what the whole job leaves. */
  lemma {:induction false} WorkLeaves(c: Config, d: Snapshot, s: Server, i: int) returns (n: nat)
    requires Consistent(c, d, s) && PhaseOf(s, i).Working? && PhaseOf(s, i).base == s.store
    ensures Possible(c, s, Own(i, n))
    ensures var s' := Interleaved(c, s, Own(i, n));
            && PhaseOf(s', i) == Releasing && s'.store == JobNext(c, s.store, PhaseOf(s, i).job)
    decreases StepsLeft(PhaseOf(s, i))
  {
    var p := PhaseOf(s, i);
    var s1 := Do(c, s, i, Proceed);
    HeldWorkOk(c, d, s, i);
    if Stuck(p.job, p.w) {
      ExecutionEnds(c, p.job, p.base, p.w);
      GivesUp(c, s, i);
      n := 2;
    } else if p.w.done == Size(p.job) {
      InstallEnds(c, p.job, p.base, p.w);
      NoMoves(c, s1, i);
      OwnFirst(c, s, i, 0);
      n := 1;
    } else {
      PieceKeepsJob(c, s, i);
      MoveKeepsConsistent(c, d, s, i, Proceed);
      n := WorkLeaves(c, d, s1, i);
      OwnFirst(c, s, i, n);
      n := n + 1;
    }
  }

  lemma HeldWorkOk(c: Config, d: Snapshot, s: Server, i: int)
    requires Consistent(c, d, s) && PhaseOf(s, i).Working?
    ensures var p := PhaseOf(s, i); WorkOk(c, p.job, p.base, p.w) && JobOk(c, p.job)
  {
    assert InLock(PhaseOf(s, i));
  }

  lemma GivesUp(c: Config, s: Server, i: int)
    requires PhaseOf(s, i).Working? && Bulk(PhaseOf(s, i).job) && Stuck(PhaseOf(s, i).job, PhaseOf(s, i).w)
    ensures Possible(c, s, Own(i, 2))
    ensures var p, s' := PhaseOf(s, i), Interleaved(c, s, Own(i, 2));
            PhaseOf(s', i) == Releasing && s'.store == SaveTxIn(s.store, Record(p.job, p.w))
  {
    var s1 := Do(c, s, i, Proceed);
    NoMoves(c, Do(c, s1, i, Proceed), i);
    OwnFirst(c, s1, i, 0);
    OwnFirst(c, s, i, 1);
  }

  /** A holder that has not begun does its job. */
  lemma HolderLeaves(c: Config, d: Snapshot, s: Server, i: int) returns (n: nat)
    requires Consistent(c, d, s) && PhaseOf(s, i).Holding?
    ensures Possible(c, s, Own(i, n))
    ensures var s' := Interleaved(c, s, Own(i, n));
            PhaseOf(s', i) == Releasing && s'.store == JobNext(c, s.store, PhaseOf(s, i).job)
  {
    var s1 := Do(c, s, i, Proceed);
    MoveKeepsConsistent(c, d, s, i, Proceed);
    if Bulk(PhaseOf(s, i).job) {
      assert PhaseOf(s1, i).base == s1.store == s.store;
      n := WorkLeaves(c, d, s1, i);
    } else {
      n := 0;
      NoMoves(c, s1, i);
    }
    OwnFirst(c, s, i, n);
    n := n + 1;
  }

  lemma ReleasesLast(c: Config, s: Server, i: int, n: nat)
    requires Possible(c, s, Own(i, n)) && PhaseOf(Interleaved(c, s, Own(i, n)), i) == Releasing
    ensures Possible(c, s, Own(i, n + 1))
    ensures var s1, s2 := Interleaved(c, s, Own(i, n)), Interleaved(c, s, Own(i, n + 1));
            s2.store == s1.store && PhaseOf(s2, i) == Idle && s2.holder == None
  {
    AfterMove(c, s, Own(i, n), Move(i, Proceed));
    assert Own(i, n) + [Move(i, Proceed)] == Own(i, n + 1);
  }

  /** A queued job that finds the lock free is done and the lock released. */
  lemma JobAlone(c: Config, d: Snapshot, s: Server, i: int) returns (n: nat)
    requires Consistent(c, d, s) && PhaseOf(s, i).Queued? && s.holder == None
    ensures Possible(c, s, Own(i, n))
    ensures var s' := Interleaved(c, s, Own(i, n));
            PhaseOf(s', i) == Idle && s'.holder == None && s'.store == JobNext(c, s.store, PhaseOf(s, i).job)
  {
    TakesLock(c, d, s, i);
    var s1 := Do(c, s, i, Proceed);
    assert s1.store == s.store;
    n := HolderLeaves(c, d, s1, i);
    ReleasesLast(c, s1, i, n);
    OwnFirst(c, s, i, n + 1);
    n := n + 2;
  }

  // ---- calls ----

  /** What a goroutine in this phase has yet to do to d leaves e. */
  ghost predicate WillLeave(c: Config, d: Snapshot, p: Phase, e: Snapshot) {
    (p.Idle? || p.Saving? || p.Queued?)
    && (p.Idle? ==> e == d) && (p.Saving? ==> e == SaveAll(d, p.todo)) && (p.Queued? ==> e == JobNext(c, d, p.job))
  }

  /** What the goroutine has to do after it arrived is what the call does. */
  lemma ArrivedDoes(c: Config, d: Snapshot, e: Event, order: seq<Str>)
    requires Keyed(d.txs) && (e.ExpireDue? ==> multiset(order) == multiset(d.txs.Keys))
    ensures WillLeave(c, d, Arrived(c, d, e, order), Next(c, d, e))
  {
    if IsTxCall(e) {
      TxArrivedDoes(c, d, e);
    } else if e.ExpireDue? {
      SweepAlone(d, order, e.sweep);
    } else if e.CreateTx? {
      CreationArrivedDoes(c, d, e, order);
    }
  }

  lemma CreationArrivedDoes(c: Config, d: Snapshot, e: Event, order: seq<Str>)
    requires e.CreateTx?
    ensures WillLeave(c, d, Arrived(c, d, e, order), Next(c, d, e))
  {
    var r := CreateTxIn(c, d, e.p, e.totalOps, e.timeout, e.requested, e.drawn, e.now);
    if r.1.Ok? && IdOf(e) !in d.txs {
      OneSaved(d, r.1.value);
    }
  }

  lemma OneSaved(d: Snapshot, t: Transaction)
    ensures SaveAll(d, [t]) == SaveTxIn(d, t)
  {
    assert [t][1..] == [];
  }

  lemma TxArrivedDoes(c: Config, d: Snapshot, e: Event)
    requires IsTxCall(e)
    ensures WillLeave(c, d, Decided(c, DecisionOf(c, d, e), ClockOf(e)), Next(c, d, e))
  {
    TxStep(c, d, e);
    match DecisionOf(c, d, e)
    case Answer(_) =>
    case Save(t, _) => OneSaved(d, t);
    case Execute(t) =>
      if !DigestOk(c.lib, t) {
        OneSaved(d, t.(status := Aborted, abortReason := DigestMismatch));
      }
  }

  /** Left alone with the lock free, it does so. */
  lemma FinishesAlone(c: Config, d: Snapshot, s: Server, i: int, e: Snapshot) returns (n: nat)
    requires Consistent(c, d, s) && s.holder == None && WillLeave(c, s.store, PhaseOf(s, i), e)
    requires PhaseOf(s, i).Saving? ==> PhaseOf(s, i).todo != []
    ensures Possible(c, s, Own(i, n))
    ensures var s' := Interleaved(c, s, Own(i, n)); PhaseOf(s', i) == Idle && s'.holder == None && s'.store == e
  {
    n := 0;
    if PhaseOf(s, i).Saving? {
      n := |PhaseOf(s, i).todo|;
      AllSaved(c, s, i, PhaseOf(s, i).todo);
    } else if PhaseOf(s, i).Queued? {
      n := JobAlone(c, d, s, i);
    } else {
      NoMoves(c, s, i);
    }
  }

  lemma Arrives(c: Config, d: Snapshot, i: int, e: Event, order: seq<Str>)
    requires e.ExpireDue? ==> multiset(order) == multiset(d.txs.Keys)
    ensures var m := Move(i, Arrive(e, order)); var s := Interleaved(c, Fresh(d), [m]);
            && Possible(c, Fresh(d), [m]) && Consistent(c, d, s)
            && s.store == d && s.holder == None && PhaseOf(s, i) == Arrived(c, d, e, order)
  {
    FirstMove(c, Fresh(d), Move(i, Arrive(e, order)));
    MoveKeepsConsistent(c, d, Fresh(d), i, Arrive(e, order));
  }

  /** A goroutine that calls while no other moves ends idle, with the lock free, and
      the content is what the call leaves as one step. */
  lemma {:induction false} AloneIsCall(c: Config, d: Snapshot, i: int, e: Event, order: seq<Str>) returns (n: nat)
    requires Keyed(d.txs) && (e.ExpireDue? ==> multiset(order) == multiset(d.txs.Keys))
    ensures var ms := [Move(i, Arrive(e, order))] + Own(i, n); var s := Interleaved(c, Fresh(d), ms);
            && Possible(c, Fresh(d), ms)
            && PhaseOf(s, i) == Idle && s.holder == None && s.store == Next(c, d, e)
  {
    Arrives(c, d, i, e, order);
    ArrivedDoes(c, d, e, order);
    SavingIsSaves(c, d, e, order);
    var first := [Move(i, Arrive(e, order))];
    n := FinishesAlone(c, d, Interleaved(c, Fresh(d), first), i, Next(c, d, e));
    RunInTwo(c, Fresh(d), first, Own(i, n));
  }

  lemma SavingIsSaves(c: Config, d: Snapshot, e: Event, order: seq<Str>)
    ensures Arrived(c, d, e, order).Saving? ==> Arrived(c, d, e, order).todo != []
  {
  }
}
