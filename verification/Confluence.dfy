/** The requests of one transaction in any order: a record assembled from its
    fragments and its commit is decided by what they say and by the values at the
    completing call, not by the order, the repetitions or the times of arrival. */
module Confluence {
  import opened Model
  import opened StoreSpec
  import opened TxDigest
  import opened CoordinatorSpec
  import opened ExecutionLaws
  import opened OutcomeLaws
  import opened System
  import opened Lifecycle
  import opened ExactlyOnce

  /** What a client means to send: fragment i is ops[i], without arrival time. */
  datatype Plan = Plan(id: Str, userID: Str, u: Str, n: nat, ops: map<int, TxOperation>, digest: Str, deadline: Time)

  ghost predicate PlanOk(lib: Library, plan: Plan) {
    && plan.n > 0
    && (forall i :: i in plan.ops <==> 1 <= i <= plan.n)
    && forall i :: i in plan.ops ==> FiledUnder(lib, plan.id, i, plan.ops[i]) && plan.ops[i].receivedAt == 0
  }

  /** The transaction that the plan describes, ready to run. */
  function PlanTx(plan: Plan): Transaction {
    Transaction(plan.id, plan.userID, plan.u, plan.n, Pending, 0, plan.deadline, true, plan.digest, plan.ops, None,
                NoReason)
  }

  predicate ByOwner(plan: Plan, p: Principal) {
    p.userID == plan.userID && p.userspaceID == plan.u
  }

  /** A timely delivery of fragment i. */
  ghost predicate IsFragment(lib: Library, plan: Plan, e: Event, i: int) {
    && e.AddOp? && e.id == plan.id && ByOwner(plan, e.p) && e.now <= plan.deadline
    && e.op.seqNo == i && i in plan.ops && Filing(lib, plan.id, e.op, 0) == plan.ops[i]
  }

  /** A timely delivery of the commit. */
  ghost predicate IsCommit(plan: Plan, e: Event) {
    && e.Commit? && e.id == plan.id && ByOwner(plan, e.p) && e.now <= plan.deadline
    && (e.totalOps == 0 || e.totalOps == plan.n) && e.digest == plan.digest
  }

  /** A call that is none of the plan's: anything that does not act as the owner on
      the record, except a timely query, does not delete the userspace, and does
      not find the record overdue. */
  ghost predicate IsForeign(plan: Plan, e: Event) {
    if IsTxCall(e) then
      TargetOf(e) != plan.id || !ByOwner(plan, CallerOf(e)) || (e.GetResult? && e.now <= plan.deadline)
    else
      !IsDeletion(e, plan.u) && (e.ExpireDue? ==> e.sweep(plan.id) <= plan.deadline)
  }

  ghost predicate Agrees(lib: Library, plan: Plan, e: Event) {
    IsFragment(lib, plan, e, if e.AddOp? then e.op.seqNo else 0) || IsCommit(plan, e) || IsForeign(plan, e)
  }

  ghost predicate AllAgree(lib: Library, plan: Plan, es: seq<Event>) {
    es != [] ==> Agrees(lib, plan, Last(es)) && AllAgree(lib, plan, Init(es))
  }

  /** The reference machine: gather fragments, then end with an outcome. */
  datatype Progress = Gathering(got: set<int>, committed: bool) | Finished(outcome: Outcome)

  ghost predicate HasAll(plan: Plan, got: set<int>) {
    forall i :: 1 <= i <= plan.n ==> i in got
  }

  ghost function Settle(lib: Library, plan: Plan, clock: Clock, d: Snapshot, got: set<int>, committed: bool): Progress {
    if committed && HasAll(plan, got) then Finished(OutcomeOf(lib, clock, d, PlanTx(plan)))
    else Gathering(got, committed)
  }

  ghost function Advance(lib: Library, plan: Plan, a: Progress, d: Snapshot, e: Event): Progress {
    if a.Finished? then a
    else if e.AddOp? && IsFragment(lib, plan, e, e.op.seqNo) then
      Settle(lib, plan, ClockOf(e), d, a.got + {e.op.seqNo}, a.committed)
    else if IsCommit(plan, e) then Settle(lib, plan, ClockOf(e), d, a.got, true)
    else a
  }

  ghost function ProgressOf(c: Config, plan: Plan, d: Snapshot, es: seq<Event>): Progress {
    if es == [] then Gathering({}, false)
    else Advance(c.lib, plan, ProgressOf(c, plan, d, Init(es)), Run(c, d, Init(es)), Last(es))
  }

  /** The stored record is what the reference machine's state says. */
  ghost predicate Shows(lib: Library, plan: Plan, a: Progress, t: Transaction) {
    && t.txID == plan.id && t.userID == plan.userID && t.userspaceID == plan.u && t.totalOps == plan.n
    && t.deadline == plan.deadline
    && match a
       case Gathering(got, committed) =>
         && t.status == (if committed then WaitingForOps else Pending)
         && t.commitReceived == committed && t.txDigest == (if committed then plan.digest else [])
         && t.result == None && t.abortReason == NoReason
         && !(committed && HasAll(plan, got))
         && Holds(plan, got, t.ops)
       case Finished(o) =>
         t.status == o.status && t.abortReason == o.reason && t.result == o.result
         && (o.status == Committed || o.status == Aborted)
  }

  /** The table holds exactly the plan's fragments numbered in got. */
  ghost predicate Holds(plan: Plan, got: set<int>, ops: map<int, TxOperation>) {
    && (forall i :: i in ops <==> i in got)
    && forall i :: i in ops ==> i in plan.ops && Content(ops[i]) == plan.ops[i]
  }

  lemma HoldingAll(lib: Library, plan: Plan, got: set<int>, t: Transaction)
    requires PlanOk(lib, plan) && Holds(plan, got, t.ops) && t.totalOps == plan.n
    ensures |t.ops| <= plan.n
    ensures |t.ops| == plan.n <==> HasAll(plan, got)
  {
    assert Within(t.ops, plan.n);
    CountMeansComplete(t.ops, plan.n);
    assert HasAll(plan, got) <==> Covers(t.ops, plan.n);
  }

  lemma HoldingAllIsPlan(lib: Library, plan: Plan, got: set<int>, t: Transaction)
    requires PlanOk(lib, plan) && Holds(plan, got, t.ops) && HasAll(plan, got)
    requires t.txID == plan.id && t.userspaceID == plan.u && t.totalOps == plan.n
    requires t.txDigest == plan.digest && t.result == None && t.abortReason == NoReason
    ensures SameTransaction(t, PlanTx(plan))
  {
    forall i ensures i in t.ops.Keys <==> i in plan.ops.Keys {
      assert i in t.ops <==> i in got;
    }
    SameMembers(t.ops.Keys, plan.ops.Keys);
    forall i | i in t.ops ensures Content(t.ops[i]) == Content(plan.ops[i]) {
      assert Content(t.ops[i]) == plan.ops[i];
    }
  }

  lemma AlikeItself(d: Snapshot)
    ensures Alike(d, d)
  {
  }

  /** Running a record that holds the whole plan is running the plan. */
  lemma {:induction false} ExecuteShows(c: Config, plan: Plan, clock: Clock, d: Snapshot, got: set<int>, t: Transaction)
    requires PlanOk(c.lib, plan) && Holds(plan, got, t.ops) && HasAll(plan, got)
    requires t.txID == plan.id && t.userID == plan.userID && t.userspaceID == plan.u && t.totalOps == plan.n
    requires t.txDigest == plan.digest && t.result == None && t.abortReason == NoReason && t.deadline == plan.deadline
    ensures plan.id in ExecuteIn(c.lib, clock, d, t).txs
    ensures Shows(c.lib, plan, Finished(OutcomeOf(c.lib, clock, d, PlanTx(plan))),
                  ExecuteIn(c.lib, clock, d, t).txs[plan.id])
  {
    HoldingAllIsPlan(c.lib, plan, got, t);
    AlikeItself(d);
    OutcomesEqual(c.lib, clock, clock, d, d, t, PlanTx(plan));
    AllOrNothing(c.lib, clock, d, t);
  }

  lemma FragmentRepeated(c: Config, plan: Plan, d: Snapshot, a: Progress, e: Event)
    requires PlanOk(c.lib, plan) && e.AddOp? && IsFragment(c.lib, plan, e, e.op.seqNo)
    requires a.Gathering? && plan.id in d.txs && Shows(c.lib, plan, a, d.txs[plan.id])
    requires e.op.seqNo in d.txs[plan.id].ops
    ensures Next(c, d, e) == d && Advance(c.lib, plan, a, d, e).Gathering?
    ensures Shows(c.lib, plan, Advance(c.lib, plan, a, d, e), d.txs[plan.id])
  {
    var t, i := d.txs[plan.id], e.op.seqNo;
    var f := Filing(c.lib, plan.id, e.op, e.clock(0));
    FragmentTaken(c, plan, d, e, t);
    assert Content(f) == plan.ops[i] && Content(t.ops[i]) == plan.ops[i];
    SameContentSameOp(t.ops[i], f);
    assert i in a.got;
    var got := a.got + {i};
    assert forall j :: j in got <==> j in a.got;
    assert HasAll(plan, got) <==> HasAll(plan, a.got);
  }

  lemma SameContentSameOp(a: TxOperation, b: TxOperation)
    requires Content(a) == Content(b)
    ensures SameOp(a, b)
  {
  }

  lemma FragmentCompletes(c: Config, plan: Plan, d: Snapshot, a: Progress, e: Event)
    requires PlanOk(c.lib, plan) && e.AddOp? && IsFragment(c.lib, plan, e, e.op.seqNo)
    requires a.Gathering? && plan.id in d.txs && Shows(c.lib, plan, a, d.txs[plan.id])
    requires var t := d.txs[plan.id];
             e.op.seqNo !in t.ops && t.commitReceived && HasAll(plan, a.got + {e.op.seqNo})
             && Holds(plan, a.got + {e.op.seqNo}, ReadyRecord(c.lib, plan, t, e).ops)
             && Next(c, d, e) == ExecuteIn(c.lib, e.clock, d, ReadyRecord(c.lib, plan, t, e))
    ensures plan.id in Next(c, d, e).txs
    ensures Shows(c.lib, plan, Advance(c.lib, plan, a, d, e), Next(c, d, e).txs[plan.id])
  {
    var ready := ReadyRecord(c.lib, plan, d.txs[plan.id], e);
    ExecuteShows(c, plan, e.clock, d, a.got + {e.op.seqNo}, ready);
  }

  lemma FragmentWaits(c: Config, plan: Plan, d: Snapshot, a: Progress, e: Event)
    requires e.AddOp? && IsFragment(c.lib, plan, e, e.op.seqNo)
    requires a.Gathering? && plan.id in d.txs && Shows(c.lib, plan, a, d.txs[plan.id])
    requires var t := d.txs[plan.id]; var ready := ReadyRecord(c.lib, plan, t, e);
             e.op.seqNo !in t.ops && !(t.commitReceived && HasAll(plan, a.got + {e.op.seqNo}))
             && Holds(plan, a.got + {e.op.seqNo}, ready.ops)
             && Next(c, d, e) == SaveTxIn(d, ready.(status := if t.commitReceived then WaitingForOps else Pending))
    ensures plan.id in Next(c, d, e).txs
    ensures Shows(c.lib, plan, Advance(c.lib, plan, a, d, e), Next(c, d, e).txs[plan.id])
  {
  }

  lemma FragmentHeld(c: Config, plan: Plan, d: Snapshot, a: Progress, e: Event)
    requires PlanOk(c.lib, plan) && e.AddOp? && IsFragment(c.lib, plan, e, e.op.seqNo)
    requires a.Gathering? && plan.id in d.txs && Shows(c.lib, plan, a, d.txs[plan.id])
    requires e.op.seqNo !in d.txs[plan.id].ops
    ensures var t, got := d.txs[plan.id], a.got + {e.op.seqNo};
            var ready := ReadyRecord(c.lib, plan, t, e);
            && Holds(plan, got, ready.ops) && (|ready.ops| == plan.n <==> HasAll(plan, got))
  {
    var ready := ReadyRecord(c.lib, plan, d.txs[plan.id], e);
    assert Content(ready.ops[e.op.seqNo]) == plan.ops[e.op.seqNo];
    HoldingAll(c.lib, plan, a.got + {e.op.seqNo}, ready);
  }

  lemma FragmentAdded(c: Config, plan: Plan, d: Snapshot, a: Progress, e: Event)
    requires PlanOk(c.lib, plan) && e.AddOp? && IsFragment(c.lib, plan, e, e.op.seqNo)
    requires a.Gathering? && plan.id in d.txs && Shows(c.lib, plan, a, d.txs[plan.id])
    requires e.op.seqNo !in d.txs[plan.id].ops
    ensures plan.id in Next(c, d, e).txs
    ensures Shows(c.lib, plan, Advance(c.lib, plan, a, d, e), Next(c, d, e).txs[plan.id])
  {
    FragmentHeld(c, plan, d, a, e);
    FragmentTaken(c, plan, d, e, d.txs[plan.id]);
    if d.txs[plan.id].commitReceived && HasAll(plan, a.got + {e.op.seqNo}) {
      FragmentCompletes(c, plan, d, a, e);
    } else {
      FragmentWaits(c, plan, d, a, e);
    }
  }

  lemma {:induction false} FragmentShows(c: Config, plan: Plan, d: Snapshot, a: Progress, e: Event)
    requires PlanOk(c.lib, plan) && e.AddOp? && IsFragment(c.lib, plan, e, e.op.seqNo)
    requires a.Gathering? && plan.id in d.txs && Shows(c.lib, plan, a, d.txs[plan.id])
    ensures plan.id in Next(c, d, e).txs
    ensures Shows(c.lib, plan, Advance(c.lib, plan, a, d, e), Next(c, d, e).txs[plan.id])
  {
    if e.op.seqNo in d.txs[plan.id].ops {
      FragmentRepeated(c, plan, d, a, e);
    } else {
      FragmentAdded(c, plan, d, a, e);
    }
  }

  lemma FragmentTaken(c: Config, plan: Plan, d: Snapshot, e: Event, t: Transaction)
    requires PlanOk(c.lib, plan) && e.AddOp? && IsFragment(c.lib, plan, e, e.op.seqNo)
    requires plan.id in d.txs && t == d.txs[plan.id]
    requires t.txID == plan.id && t.userID == plan.userID && t.userspaceID == plan.u && t.totalOps == plan.n
    requires Open(t) && t.deadline == plan.deadline
    ensures var f := Filing(c.lib, plan.id, e.op, e.clock(0));
            var added := t.(ops := t.ops[f.seqNo := f]);
            Next(c, d, e) ==
              if f.seqNo in t.ops then
                if SameOp(t.ops[f.seqNo], f) then d
                else SaveTxIn(d, t.(status := Aborted, abortReason := SeqConflict))
              else if t.commitReceived && |added.ops| == plan.n then ExecuteIn(c.lib, e.clock, d, added)
              else SaveTxIn(d, added.(status := if t.commitReceived then WaitingForOps else Pending))
  {
    assert FiledUnder(c.lib, plan.id, e.op.seqNo, plan.ops[e.op.seqNo]);
  }

  lemma {:induction false} CommitShows(c: Config, plan: Plan, d: Snapshot, a: Progress, e: Event)
    requires PlanOk(c.lib, plan) && IsCommit(plan, e)
    requires a.Gathering? && plan.id in d.txs && Shows(c.lib, plan, a, d.txs[plan.id])
    ensures plan.id in Next(c, d, e).txs
    ensures Shows(c.lib, plan, Advance(c.lib, plan, a, d, e), Next(c, d, e).txs[plan.id])
  {
    HoldingAll(c.lib, plan, a.got, d.txs[plan.id]);
    CommitTaken(c, plan, d, e, d.txs[plan.id]);
    if HasAll(plan, a.got) {
      CommitCompletes(c, plan, d, a, e);
    } else {
      CommitWaits(c, plan, d, a, e);
    }
  }

  lemma CommitCompletes(c: Config, plan: Plan, d: Snapshot, a: Progress, e: Event)
    requires PlanOk(c.lib, plan) && IsCommit(plan, e)
    requires a.Gathering? && plan.id in d.txs && Shows(c.lib, plan, a, d.txs[plan.id]) && HasAll(plan, a.got)
    requires Next(c, d, e) == ExecuteIn(c.lib, e.clock, d, ReadyRecord(c.lib, plan, d.txs[plan.id], e))
    ensures plan.id in Next(c, d, e).txs
    ensures Shows(c.lib, plan, Advance(c.lib, plan, a, d, e), Next(c, d, e).txs[plan.id])
  {
    ExecuteShows(c, plan, e.clock, d, a.got, ReadyRecord(c.lib, plan, d.txs[plan.id], e));
  }

  lemma CommitWaits(c: Config, plan: Plan, d: Snapshot, a: Progress, e: Event)
    requires IsCommit(plan, e)
    requires a.Gathering? && plan.id in d.txs && Shows(c.lib, plan, a, d.txs[plan.id]) && !HasAll(plan, a.got)
    requires var ready := ReadyRecord(c.lib, plan, d.txs[plan.id], e);
             Next(c, d, e) == SaveTxIn(d, ready.(status := WaitingForOps))
    ensures plan.id in Next(c, d, e).txs
    ensures Shows(c.lib, plan, Advance(c.lib, plan, a, d, e), Next(c, d, e).txs[plan.id])
  {
  }

  lemma CommitTaken(c: Config, plan: Plan, d: Snapshot, e: Event, t: Transaction)
    requires IsCommit(plan, e) && plan.id in d.txs && t == d.txs[plan.id]
    requires t.txID == plan.id && t.userID == plan.userID && t.userspaceID == plan.u && t.totalOps == plan.n
    requires Open(t) && t.deadline == plan.deadline
    ensures var told := t.(commitReceived := true, txDigest := plan.digest);
            Next(c, d, e) == if |t.ops| < t.totalOps then SaveTxIn(d, told.(status := WaitingForOps))
                             else ExecuteIn(c.lib, e.clock, d, told)
  {
  }

  /** Once finished, the plan's own messages change nothing. */
  lemma FinishedStays(c: Config, plan: Plan, d: Snapshot, o: Outcome, e: Event)
    requires plan.id in d.txs && Shows(c.lib, plan, Finished(o), d.txs[plan.id])
    requires IsCommit(plan, e) || (e.AddOp? && IsFragment(c.lib, plan, e, e.op.seqNo))
    ensures Next(c, d, e) == d
  {
    TxStep(c, d, e);
    ClosedAnswers(c, d, e);
  }

  lemma ClosedAnswers(c: Config, d: Snapshot, e: Event)
    requires e.AddOp? || e.Commit?
    requires TargetOf(e) in d.txs && Closed(d.txs[TargetOf(e)]).Some?
    ensures DecisionOf(c, d, e).Answer?
  {
  }

  lemma ForeignKeepsRecord(c: Config, plan: Plan, d: Snapshot, a: Progress, e: Event)
    requires TxsOk(c, d) && IsForeign(plan, e)
    requires plan.id in d.txs && Shows(c.lib, plan, a, d.txs[plan.id])
    ensures plan.id in Next(c, d, e).txs && Next(c, d, e).txs[plan.id] == d.txs[plan.id]
  {
    if !IsTxCall(e) {
      OtherStepsRecord(c, d, e, plan.id);
    } else if TargetOf(e) != plan.id {
      TxCallFrame(c, d, e);
    } else {
      assert DecisionOf(c, d, e).Answer?;
    }
  }

  lemma {:induction false} StepShows(c: Config, plan: Plan, d: Snapshot, a: Progress, e: Event)
    requires TxsOk(c, d) && PlanOk(c.lib, plan) && Agrees(c.lib, plan, e)
    requires plan.id in d.txs && Shows(c.lib, plan, a, d.txs[plan.id])
    ensures plan.id in Next(c, d, e).txs
    ensures Shows(c.lib, plan, Advance(c.lib, plan, a, d, e), Next(c, d, e).txs[plan.id])
  {
    if e.AddOp? && IsFragment(c.lib, plan, e, e.op.seqNo) {
      if a.Finished? { FinishedStays(c, plan, d, a.outcome, e); } else { FragmentShows(c, plan, d, a, e); }
    } else if IsCommit(plan, e) {
      if a.Finished? { FinishedStays(c, plan, d, a.outcome, e); } else { CommitShows(c, plan, d, a, e); }
    } else {
      ForeignKeepsRecord(c, plan, d, a, e);
    }
  }

  /** Along every run that agrees with the plan, whatever else happens between, the
      stored record is the state of the reference machine: it waits until the last
      missing piece, whichever it is, and then ends as the plan run on the values
      of that moment ends. */
  lemma {:induction false} RecordFollowsPlan(c: Config, plan: Plan, d: Snapshot, es: seq<Event>)
    requires Inv(c, d) && PlanOk(c.lib, plan) && AllAgree(c.lib, plan, es)
    requires plan.id in d.txs && Shows(c.lib, plan, Gathering({}, false), d.txs[plan.id])
    ensures plan.id in Run(c, d, es).txs
    ensures Shows(c.lib, plan, ProgressOf(c, plan, d, es), Run(c, d, es).txs[plan.id])
  {
    if es != [] {
      RecordFollowsPlan(c, plan, d, Init(es));
      RunKeepsInv(c, d, Init(es));
      StepShows(c, plan, Run(c, d, Init(es)), ProgressOf(c, plan, d, Init(es)), Last(es));
    }
  }

  /** A record just created is the reference machine's first state. */
  lemma CreationStartsPlan(c: Config, plan: Plan, d: Snapshot, p: Principal, timeout: Time, drawn: Str, now: Time)
    requires plan.id != [] && plan.id !in d.txs && ByOwner(plan, p)
    requires var r := Step(c, d, CreateTx(p, plan.n, timeout, plan.id, drawn, now)).1.r;
        r.Ok? && plan.deadline == r.value.deadline
    ensures var e := Next(c, d, CreateTx(p, plan.n, timeout, plan.id, drawn, now));
            plan.id in e.txs && Shows(c.lib, plan, Gathering({}, false), e.txs[plan.id])
  {
  }

  // ---- any order gives the same end ----

  /** Fragment i was delivered in the run. */
  ghost predicate Sent(lib: Library, plan: Plan, es: seq<Event>, i: int) {
    es != [] && (IsFragment(lib, plan, Last(es), i) || Sent(lib, plan, Init(es), i))
  }

  ghost predicate CommitSent(plan: Plan, es: seq<Event>) {
    es != [] && (IsCommit(plan, Last(es)) || CommitSent(plan, Init(es)))
  }

  /** Every fragment and the commit were delivered, at any positions. */
  ghost predicate Delivered(lib: Library, plan: Plan, es: seq<Event>) {
    CommitSent(plan, es) && forall i :: 1 <= i <= plan.n ==> Sent(lib, plan, es, i)
  }

  /** The run consists of deliveries of the plan's messages only. */
  ghost predicate OwnMessages(lib: Library, plan: Plan, es: seq<Event>) {
    es != [] ==>
      && (IsFragment(lib, plan, Last(es), if Last(es).AddOp? then Last(es).op.seqNo else 0) || IsCommit(plan, Last(es)))
      && OwnMessages(lib, plan, Init(es))
  }

  lemma {:induction false} OwnAgree(lib: Library, plan: Plan, es: seq<Event>)
    requires OwnMessages(lib, plan, es)
    ensures AllAgree(lib, plan, es)
  {
    if es != [] {
      OwnAgree(lib, plan, Init(es));
    }
  }

  lemma {:induction false} GatheringTracks(c: Config, plan: Plan, d: Snapshot, es: seq<Event>)
    requires PlanOk(c.lib, plan) && ProgressOf(c, plan, d, es).Gathering?
    ensures var a := ProgressOf(c, plan, d, es);
            && (forall i :: i in a.got <==> Sent(c.lib, plan, es, i))
            && (a.committed <==> CommitSent(plan, es))
            && !(a.committed && HasAll(plan, a.got))
  {
    if es == [] {
      assert 1 !in ProgressOf(c, plan, d, es).got;
    } else {
      GatheringTracks(c, plan, d, Init(es));
    }
  }

  /** Before the last piece the plan's messages change no value; after it the
      values and the outcome are those of running the plan on the content the run
      began with, at whatever times. */
  lemma {:induction false} OwnRun(c: Config, plan: Plan, d: Snapshot, es: seq<Event>, clock: Clock)
    requires Inv(c, d) && PlanOk(c.lib, plan) && OwnMessages(c.lib, plan, es)
    requires plan.id in d.txs && Shows(c.lib, plan, Gathering({}, false), d.txs[plan.id])
    ensures match ProgressOf(c, plan, d, es)
            case Gathering(_, _) => Run(c, d, es).(txs := d.txs) == d
            case Finished(o) => o == OutcomeOf(c.lib, clock, d, PlanTx(plan))
                                && Alike(Run(c, d, es), ExecuteIn(c.lib, clock, d, PlanTx(plan)))
  {
    if es != [] {
      OwnRun(c, plan, d, Init(es), clock);
      OwnAgree(c.lib, plan, es);
      RecordFollowsPlan(c, plan, d, Init(es));
      RunKeepsInv(c, d, Init(es));
      var before, a, e := Run(c, d, Init(es)), ProgressOf(c, plan, d, Init(es)), Last(es);
      if a.Finished? {
        FinishedStays(c, plan, before, a.outcome, e);
      } else {
        OwnStep(c, plan, d, before, a, e, clock);
      }
    }
  }

  lemma OwnFinish(c: Config, plan: Plan, d: Snapshot, before: Snapshot, a: Progress, e: Event, clock: Clock)
    requires PlanOk(c.lib, plan) && a.Gathering? && before.(txs := d.txs) == d
    requires IsCommit(plan, e) || (e.AddOp? && IsFragment(c.lib, plan, e, e.op.seqNo))
    requires plan.id in before.txs && Shows(c.lib, plan, a, before.txs[plan.id])
    requires Advance(c.lib, plan, a, before, e).Finished?
    ensures Advance(c.lib, plan, a, before, e).outcome == OutcomeOf(c.lib, clock, d, PlanTx(plan))
    ensures Alike(Next(c, before, e), ExecuteIn(c.lib, clock, d, PlanTx(plan)))
  {
    var got := if e.AddOp? then a.got + {e.op.seqNo} else a.got;
    var ready := ReadyRecord(c.lib, plan, before.txs[plan.id], e);
    FinishingCall(c, plan, before, a, e);
    HoldingAllIsPlan(c.lib, plan, got, ready);
    SameValuesAlike(before, d);
    OutcomeAlike(c.lib, ClockOf(e), clock, before, d, ready, PlanTx(plan));
    OutcomesEqual(c.lib, ClockOf(e), clock, before, d, PlanTx(plan), PlanTx(plan));
  }

  /** A message that does not complete the plan does not commit anything. */
  lemma OwnGather(c: Config, plan: Plan, d: Snapshot, a: Progress, e: Event)
    requires TxsOk(c, d) && PlanOk(c.lib, plan) && a.Gathering?
    requires IsCommit(plan, e) || (e.AddOp? && IsFragment(c.lib, plan, e, e.op.seqNo))
    requires plan.id in d.txs && Shows(c.lib, plan, a, d.txs[plan.id])
    requires Advance(c.lib, plan, a, d, e).Gathering?
    ensures Next(c, d, e).(txs := d.txs) == d
  {
    assert !CommittedIn(Next(c, d, e), plan.id) by {
      StepShows(c, plan, d, a, e);
    }
    UncommittedFrame(c, d, e);
  }

  lemma UncommittedFrame(c: Config, d: Snapshot, e: Event)
    requires TxsOk(c, d) && IsTxCall(e) && !CommittedIn(Next(c, d, e), TargetOf(e))
    ensures Next(c, d, e).(txs := d.txs) == d
  {
    TxCallFrame(c, d, e);
  }

  lemma {:induction false} OwnStep(c: Config, plan: Plan, d: Snapshot, before: Snapshot, a: Progress, e: Event,
                                   clock: Clock)
    requires TxsOk(c, before) && PlanOk(c.lib, plan) && a.Gathering? && before.(txs := d.txs) == d
    requires IsCommit(plan, e) || (e.AddOp? && IsFragment(c.lib, plan, e, e.op.seqNo))
    requires plan.id in before.txs && Shows(c.lib, plan, a, before.txs[plan.id])
    ensures match Advance(c.lib, plan, a, before, e)
            case Gathering(_, _) => Next(c, before, e).(txs := d.txs) == d
            case Finished(o) => o == OutcomeOf(c.lib, clock, d, PlanTx(plan))
                                && Alike(Next(c, before, e), ExecuteIn(c.lib, clock, d, PlanTx(plan)))
  {
    match Advance(c.lib, plan, a, before, e)
    case Gathering(_, _) => OwnGather(c, plan, before, a, e);
    case Finished(_) => OwnFinish(c, plan, d, before, a, e, clock);
  }

  lemma SameValuesAlike(d: Snapshot, e: Snapshot)
    requires d.version == e.version && d.userspaces == e.userspaces
    ensures Alike(d, e)
  {
  }

  /** The record that the completing call executes. */
  function ReadyRecord(lib: Library, plan: Plan, t: Transaction, e: Event): Transaction {
    if e.AddOp? then t.(ops := t.ops[e.op.seqNo := Filing(lib, plan.id, e.op, e.clock(0))])
    else t.(commitReceived := true, txDigest := plan.digest)
  }

  lemma {:induction false} FinishingCall(c: Config, plan: Plan, d: Snapshot, a: Progress, e: Event)
    requires PlanOk(c.lib, plan) && a.Gathering? && plan.id in d.txs && Shows(c.lib, plan, a, d.txs[plan.id])
    requires IsCommit(plan, e) || (e.AddOp? && IsFragment(c.lib, plan, e, e.op.seqNo))
    requires Advance(c.lib, plan, a, d, e).Finished?
    ensures var t, got := d.txs[plan.id], if e.AddOp? then a.got + {e.op.seqNo} else a.got;
            var ready := ReadyRecord(c.lib, plan, t, e);
            && Next(c, d, e) == ExecuteIn(c.lib, ClockOf(e), d, ready)
            && Holds(plan, got, ready.ops) && HasAll(plan, got)
            && ready.txID == plan.id && ready.userspaceID == plan.u && ready.totalOps == plan.n
            && ready.txDigest == plan.digest && ready.result == None && ready.abortReason == NoReason
  {
    var t, got := d.txs[plan.id], if e.AddOp? then a.got + {e.op.seqNo} else a.got;
    var ready := ReadyRecord(c.lib, plan, t, e);
    HoldingAll(c.lib, plan, a.got, t);
    if e.AddOp? {
      var i := e.op.seqNo;
      FragmentTaken(c, plan, d, e, t);
      if i !in t.ops {
        assert Content(ready.ops[i]) == plan.ops[i];
        assert Holds(plan, got, ready.ops);
        HoldingAll(c.lib, plan, got, ready);
      }
    } else {
      CommitTaken(c, plan, d, e, t);
    }
  }

  /** Confluence: two runs that deliver the plan's messages in any two orders, with
      any repetitions, the commit anywhere, at any times before the deadline, end
      with the same status, reason and result, and the same values at the same
      versions, timestamps aside. */
  lemma {:induction false} AnyOrder(c: Config, plan: Plan, d: Snapshot, es: seq<Event>, fs: seq<Event>)
    requires Inv(c, d) && PlanOk(c.lib, plan)
    requires plan.id in d.txs && Shows(c.lib, plan, Gathering({}, false), d.txs[plan.id])
    requires OwnMessages(c.lib, plan, es) && Delivered(c.lib, plan, es)
    requires OwnMessages(c.lib, plan, fs) && Delivered(c.lib, plan, fs)
    ensures plan.id in Run(c, d, es).txs && plan.id in Run(c, d, fs).txs
    ensures var t, s := Run(c, d, es).txs[plan.id], Run(c, d, fs).txs[plan.id];
            && t.status == s.status && t.abortReason == s.abortReason && t.result == s.result
            && (t.status == Committed || t.status == Aborted)
    ensures Alike(Run(c, d, es), Run(c, d, fs))
  {
    DeliveredFinishes(c, plan, d, es);
    DeliveredFinishes(c, plan, d, fs);
    OwnAgree(c.lib, plan, es);
    OwnAgree(c.lib, plan, fs);
    RecordFollowsPlan(c, plan, d, es);
    RecordFollowsPlan(c, plan, d, fs);
    OwnRun(c, plan, d, es, NO_CLOCK);
    OwnRun(c, plan, d, fs, NO_CLOCK);
  }

  lemma DeliveredFinishes(c: Config, plan: Plan, d: Snapshot, es: seq<Event>)
    requires PlanOk(c.lib, plan) && Delivered(c.lib, plan, es)
    ensures ProgressOf(c, plan, d, es).Finished?
  {
    if ProgressOf(c, plan, d, es).Gathering? {
      GatheringTracks(c, plan, d, es);
    }
  }

  // ---- among any other traffic ----

  /** On any content, the call that completes the plan leaves the values, at the same
      versions, that running the plan on that content leaves, and ends as it ends. */
  lemma {:induction false} CompletingCall(c: Config, plan: Plan, d: Snapshot, a: Progress, e: Event, clock: Clock)
    requires PlanOk(c.lib, plan) && a.Gathering? && plan.id in d.txs && Shows(c.lib, plan, a, d.txs[plan.id])
    requires Advance(c.lib, plan, a, d, e).Finished?
    ensures Advance(c.lib, plan, a, d, e).outcome == OutcomeOf(c.lib, clock, d, PlanTx(plan))
    ensures Alike(Next(c, d, e), ExecuteIn(c.lib, clock, d, PlanTx(plan)))
  {
    var got := if e.AddOp? then a.got + {e.op.seqNo} else a.got;
    var ready := ReadyRecord(c.lib, plan, d.txs[plan.id], e);
    FinishingCall(c, plan, d, a, e);
    HoldingAllIsPlan(c.lib, plan, got, ready);
    AlikeItself(d);
    OutcomeAlike(c.lib, ClockOf(e), clock, d, d, ready, PlanTx(plan));
    OutcomesEqual(c.lib, ClockOf(e), clock, d, d, PlanTx(plan), PlanTx(plan));
  }

  /** The last call of the run completes the plan. */
  ghost predicate Completes(c: Config, plan: Plan, d: Snapshot, es: seq<Event>) {
    es != [] && ProgressOf(c, plan, d, Init(es)).Gathering? && ProgressOf(c, plan, d, es).Finished?
  }

  ghost predicate Starts(c: Config, plan: Plan, d: Snapshot) {
    Inv(c, d) && plan.id in d.txs && Shows(c.lib, plan, Gathering({}, false), d.txs[plan.id])
  }

  lemma {:induction false} CompletedRun(c: Config, plan: Plan, d: Snapshot, es: seq<Event>, clock: Clock)
    requires PlanOk(c.lib, plan) && Starts(c, plan, d) && AllAgree(c.lib, plan, es) && Completes(c, plan, d, es)
    ensures plan.id in Run(c, d, es).txs
    ensures var before := Run(c, d, Init(es));
            && Shows(c.lib, plan, Finished(OutcomeOf(c.lib, clock, before, PlanTx(plan))), Run(c, d, es).txs[plan.id])
            && Alike(Run(c, d, es), ExecuteIn(c.lib, clock, before, PlanTx(plan)))
  {
    RecordFollowsPlan(c, plan, d, Init(es));
    RecordFollowsPlan(c, plan, d, es);
    CompletingCall(c, plan, Run(c, d, Init(es)), ProgressOf(c, plan, d, Init(es)), Last(es), clock);
  }

  lemma AlikeTogether(d: Snapshot, d': Snapshot, e: Snapshot, e': Snapshot)
    requires Alike(d, d') && Alike(e, e') && Alike(d', e')
    ensures Alike(d, e)
  {
    forall u, k ensures View(d, u, k) == View(e, u, k) {
      assert View(d, u, k) == View(d', u, k) && View(e, u, k) == View(e', u, k) && View(d', u, k) == View(e', u, k);
    }
  }

  /** Confluence among any other traffic: two runs of calls that agree
      with the plan, and complete it on the same values, have the same values at the
      same versions right after, and the same status, reason and result. */
  lemma {:induction false} AnyOrderAmongOthers(c: Config, plan: Plan, d: Snapshot, es: seq<Event>,
                                              e: Snapshot, fs: seq<Event>)
    requires PlanOk(c.lib, plan) && Starts(c, plan, d) && Starts(c, plan, e)
    requires AllAgree(c.lib, plan, es) && Completes(c, plan, d, es)
    requires AllAgree(c.lib, plan, fs) && Completes(c, plan, e, fs)
    requires Alike(Run(c, d, Init(es)), Run(c, e, Init(fs)))
    ensures Alike(Run(c, d, es), Run(c, e, fs))
    ensures plan.id in Run(c, d, es).txs && plan.id in Run(c, e, fs).txs
    ensures var t, s := Run(c, d, es).txs[plan.id], Run(c, e, fs).txs[plan.id];
            t.status == s.status && t.abortReason == s.abortReason && t.result == s.result
  {
    CompletedRun(c, plan, d, es, NO_CLOCK);
    CompletedRun(c, plan, e, fs, NO_CLOCK);
    var before, before' := Run(c, d, Init(es)), Run(c, e, Init(fs));
    OutcomeAlike(c.lib, NO_CLOCK, NO_CLOCK, before, before', PlanTx(plan), PlanTx(plan));
    AlikeTogether(Run(c, d, es), ExecuteIn(c.lib, NO_CLOCK, before, PlanTx(plan)),
                  Run(c, e, fs), ExecuteIn(c.lib, NO_CLOCK, before', PlanTx(plan)));
  }
}
