/** The other half: every piece of outstanding work that does not leave a record be
    has a continuation in which it overwrites the record or executes it again. */
module Overwrites {
  import opened Model
  import opened CoordinatorSpec
  import opened System
  import opened Lifecycle
  import opened Threads
  import opened Serializability
  import opened Interference
  import opened Survival

  lemma LastOf(ms: seq<Move>, more: seq<Move>)
    requires more != []
    ensures ms + more == (ms + more[..|more| - 1]) + [more[|more| - 1]]
  {
  }

  lemma {:induction false} RunInTwo(c: Config, s: Server, ms: seq<Move>, more: seq<Move>)
    requires Possible(c, s, ms) && Possible(c, Interleaved(c, s, ms), more)
    ensures Possible(c, s, ms + more)
    ensures Interleaved(c, s, ms + more) == Interleaved(c, Interleaved(c, s, ms), more)
  {
    if more == [] {
      assert ms + more == ms;
    } else {
      RunInTwo(c, s, ms, more[..|more| - 1]);
      LastOf(ms, more);
      AfterMove(c, s, ms + more[..|more| - 1], more[|more| - 1]);
    }
  }

  /** n moves of one goroutine. */
  function Own(i: int, n: nat): seq<Move> {
    seq(n, _ => Move(i, Proceed))
  }

  /** One move of goroutine i, then the given moves of it. */
  lemma OwnFirst(c: Config, s: Server, i: int, n: nat)
    requires Enabled(s, i, Proceed) && Possible(c, Do(c, s, i, Proceed), Own(i, n))
    ensures Possible(c, s, Own(i, n + 1))
    ensures Interleaved(c, s, Own(i, n + 1)) == Interleaved(c, Do(c, s, i, Proceed), Own(i, n))
  {
    FirstMove(c, s, Move(i, Proceed));
    RunInTwo(c, s, [Move(i, Proceed)], Own(i, n));
    assert [Move(i, Proceed)] + Own(i, n) == Own(i, n + 1);
  }

  ghost predicate OthersSame(s: Server, s': Server, i: int) {
    forall j :: j != i ==> PhaseOf(s', j) == PhaseOf(s, j)
  }

  /** An older save is carried out. */
  lemma {:induction false} SaveThrough(c: Config, s: Server, i: int, n: nat)
    requires PhaseOf(s, i).Saving? && n < |PhaseOf(s, i).todo|
    ensures Possible(c, s, Own(i, n + 1))
    ensures var s', r := Interleaved(c, s, Own(i, n + 1)), PhaseOf(s, i).todo[n];
            && HoldsTx(s'.store.txs, r) && s'.holder == s.holder && s'.log == s.log && OthersSame(s, s', i)
            && PhaseOf(s', i) == Saves(PhaseOf(s, i).todo[n + 1..])
    decreases n
  {
    var s1, todo := Do(c, s, i, Proceed), PhaseOf(s, i).todo;
    assert OthersSame(s, s1, i);
    if n == 0 {
      NoMoves(c, s1, i);
    } else {
      assert todo[1..][n - 1] == todo[n] && todo[1..][n..] == todo[n + 1..];
      SaveThrough(c, s1, i, n - 1);
    }
    OwnFirst(c, s, i, n);
  }

  /** What the work of the holder has come to when it lets go of its copy. */
  ghost predicate Ended(c: Config, s: Server, s': Server, i: int) {
    var p := PhaseOf(s, i);
    && PhaseOf(s', i) == Releasing && s'.holder == Some(i) && OthersSame(s, s', i)
    && p.Working? && |s'.log| == |s.log| + 1 && s.log <= s'.log && s'.log[|s.log|].job == p.job
    && (WillInstall(c, p.job, p.base) ==>
          forall id :: !About(p.job, id) ==>
            (id in s'.store.txs <==> id in p.w.copy.txs)
                && (id in s'.store.txs ==> s'.store.txs[id] == p.w.copy.txs[id]))
  }

  lemma PieceKeepsJob(c: Config, s: Server, i: int)
    requires PhaseOf(s, i).Working?
    requires var p := PhaseOf(s, i); Bulk(p.job) && !Stuck(p.job, p.w) && p.w.done < Size(p.job)
    ensures var p, s1 := PhaseOf(s, i), Do(c, s, i, Proceed);
            && PhaseOf(s1, i) == Working(p.job, p.base, WorkOn(c.lib, p.job, p.w))
            && PhaseOf(s1, i).w.copy.txs == p.w.copy.txs && PhaseOf(s1, i).w.done == p.w.done + 1
            && OthersSame(s, s1, i) && s1.log == s.log && s1.holder == s.holder
  {
    var p := PhaseOf(s, i);
    WorkKeepsTxs(c.lib, p.job, p.w);
  }

  lemma LastPiece(c: Config, s: Server, i: int)
    requires PhaseOf(s, i).Working? && s.holder == Some(i)
    requires var p := PhaseOf(s, i); Bulk(p.job) && !Stuck(p.job, p.w) && p.w.done == Size(p.job)
    ensures Ended(c, s, Do(c, s, i, Proceed), i)
  {
  }

  /** A stuck execution is one that does not commit. */
  lemma StuckGivesUp(c: Config, d: Snapshot, s: Server, i: int)
    requires Consistent(c, d, s) && PhaseOf(s, i).Working? && Stuck(PhaseOf(s, i).job, PhaseOf(s, i).w)
    ensures !WillInstall(c, PhaseOf(s, i).job, PhaseOf(s, i).base)
    ensures Possible(c, s, Own(i, 2)) && Ended(c, s, Interleaved(c, s, Own(i, 2)), i)
  {
    var p := PhaseOf(s, i);
    assert InLock(p) && WorkOk(c, p.job, p.base, p.w);
    assert FailsAfter(c.lib, p.job.clock, p.base, p.job.t.userspaceID, p.job.t.ops, p.w.done);
    var s1 := Do(c, s, i, Proceed);
    var s2 := Do(c, s1, i, Proceed);
    assert PhaseOf(s1, i).Failing? && PhaseOf(s2, i) == Releasing;
    NoMoves(c, s2, i);
    OwnFirst(c, s1, i, 0);
    OwnFirst(c, s, i, 1);
  }

  /** Left alone, the holder finishes its work. */
  lemma {:induction false} WorkEnds(c: Config, d: Snapshot, s: Server, i: int) returns (n: nat)
    requires Consistent(c, d, s) && PhaseOf(s, i).Working?
    ensures Possible(c, s, Own(i, n)) && Ended(c, s, Interleaved(c, s, Own(i, n)), i)
    decreases StepsLeft(PhaseOf(s, i))
  {
    var p := PhaseOf(s, i);
    assert InLock(p) && WorkOk(c, p.job, p.base, p.w);
    var s1 := Do(c, s, i, Proceed);
    if Stuck(p.job, p.w) {
      StuckGivesUp(c, d, s, i);
      n := 2;
    } else if p.w.done == Size(p.job) {
      LastPiece(c, s, i);
      NoMoves(c, s1, i);
      OwnFirst(c, s, i, 0);
      n := 1;
    } else {
      PieceKeepsJob(c, s, i);
      MoveKeepsConsistent(c, d, s, i, Proceed);
      n := WorkEnds(c, d, s1, i);
      OwnFirst(c, s, i, n);
      n := n + 1;
    }
  }

  lemma MoveExtends(c: Config, s: Server, i: int)
    requires Enabled(s, i, Proceed)
    ensures OthersSame(s, Do(c, s, i, Proceed), i) && s.log <= Do(c, s, i, Proceed).log
  {
  }

  lemma HolderKeepsOn(c: Config, d: Snapshot, s: Server, i: int)
    requires Consistent(c, d, s) && s.holder == Some(i)
    ensures Enabled(s, i, Proceed)
    ensures var s1 := Do(c, s, i, Proceed);
            && Consistent(c, d, s1) && OthersSame(s, s1, i) && s.log <= s1.log
            && (s1.holder == None || (s1.holder == Some(i) && StepsLeft(PhaseOf(s1, i)) < StepsLeft(PhaseOf(s, i))))
  {
    HolderStep(c, d, s, i);
    MoveKeepsConsistent(c, d, s, i, Proceed);
    MoveExtends(c, s, i);
  }

  lemma NoMoves(c: Config, s: Server, i: int)
    ensures Possible(c, s, Own(i, 0)) && Interleaved(c, s, Own(i, 0)) == s
  {
  }

  lemma Onwards(s: Server, s1: Server, s': Server, i: int)
    requires OthersSame(s, s1, i) && s.log <= s1.log && OthersSame(s1, s', i) && s1.log <= s'.log
    ensures OthersSame(s, s', i) && s.log <= s'.log
  {
    forall j | j != i ensures PhaseOf(s', j) == PhaseOf(s, j) {
      assert PhaseOf(s1, j) == PhaseOf(s, j);
    }
    assert forall n :: 0 <= n < |s.log| ==> s'.log[n] == s1.log[n];
  }

  /** Left alone, the holder releases the lock. */
  lemma {:induction false} LockComesFree(c: Config, d: Snapshot, s: Server, i: int) returns (n: nat)
    requires Consistent(c, d, s) && s.holder == Some(i)
    ensures Possible(c, s, Own(i, n))
    ensures var s' := Interleaved(c, s, Own(i, n));
            Consistent(c, d, s') && s'.holder == None && OthersSame(s, s', i) && s.log <= s'.log
    decreases StepsLeft(PhaseOf(s, i))
  {
    HolderKeepsOn(c, d, s, i);
    var s1 := Do(c, s, i, Proceed);
    if s1.holder == None {
      n := 0;
      NoMoves(c, s1, i);
    } else {
      n := LockComesFree(c, d, s1, i);
      Onwards(s, s1, Interleaved(c, s1, Own(i, n)), i);
    }
    OwnFirst(c, s, i, n);
    n := n + 1;
  }

  /** A goroutine that holds the lock for an execution executes it. */
  lemma HolderExecutes(c: Config, d: Snapshot, s: Server, i: int) returns (n: nat)
    requires Consistent(c, d, s) && PhaseOf(s, i).Holding? && PhaseOf(s, i).job.Execution?
    ensures Possible(c, s, Own(i, n))
    ensures var s' := Interleaved(c, s, Own(i, n));
            && s.log <= s'.log && |s'.log| == |s.log| + 1 && s'.log[|s.log|].job == PhaseOf(s, i).job
            && OthersSame(s, s', i)
  {
    var s1 := Do(c, s, i, Proceed);
    MoveKeepsConsistent(c, d, s, i, Proceed);
    assert PhaseOf(s1, i).Working? && PhaseOf(s1, i).job == PhaseOf(s, i).job && OthersSame(s, s1, i)
        && s1.log == s.log;
    n := WorkEnds(c, d, s1, i);
    OwnFirst(c, s, i, n);
    n := n + 1;
  }

  /** From s to s' the transaction was executed. */
  ghost predicate ExecutedSince(s: Server, s': Server, id: Str) {
    s.log <= s'.log && exists n :: |s.log| <= n < |s'.log| && About(s'.log[n].job, id)
  }

  lemma ExecutedLater(s: Server, s1: Server, s': Server, id: Str)
    requires s.log <= s1.log && ExecutedSince(s1, s', id)
    ensures ExecutedSince(s, s', id)
  {
    var n :| |s1.log| <= n < |s'.log| && About(s'.log[n].job, id);
    assert forall k :: 0 <= k < |s.log| ==> s'.log[k] == s1.log[k];
  }

  predicate NoArrivals(ms: seq<Move>) {
    forall n :: 0 <= n < |ms| ==> ms[n].a == Proceed
  }

  lemma TakesLock(c: Config, d: Snapshot, s: Server, i: int)
    requires Consistent(c, d, s) && PhaseOf(s, i).Queued? && s.holder == None
    ensures var s1 := Do(c, s, i, Proceed);
            && Enabled(s, i, Proceed) && Consistent(c, d, s1) && PhaseOf(s1, i) == Holding(PhaseOf(s, i).job)
            && s1.log == s.log
  {
    MoveKeepsConsistent(c, d, s, i, Proceed);
  }

  /** A queued execution that finds the lock free. */
  lemma FreeExecutes(c: Config, d: Snapshot, s: Server, i: int, id: Str) returns (n: nat)
    requires Consistent(c, d, s) && PhaseOf(s, i).Queued? && About(PhaseOf(s, i).job, id) && s.holder == None
    ensures Possible(c, s, Own(i, n)) && ExecutedSince(s, Interleaved(c, s, Own(i, n)), id)
  {
    TakesLock(c, d, s, i);
    var s1 := Do(c, s, i, Proceed);
    n := HolderExecutes(c, d, s1, i);
    assert ExecutedSince(s1, Interleaved(c, s1, Own(i, n)), id);
    OwnFirst(c, s, i, n);
    n := n + 1;
  }

  /** A queued execution gets its turn. */
  lemma QueuedExecutes(c: Config, d: Snapshot, s: Server, i: int, id: Str) returns (ms: seq<Move>)
    requires Consistent(c, d, s) && PhaseOf(s, i).Queued? && About(PhaseOf(s, i).job, id)
    ensures Possible(c, s, ms) && NoArrivals(ms) && ExecutedSince(s, Interleaved(c, s, ms), id)
  {
    if s.holder == None {
      var n := FreeExecutes(c, d, s, i, id);
      ms := Own(i, n);
    } else {
      var h := s.holder.value;
      assert InLock(PhaseOf(s, h));
      var k := LockComesFree(c, d, s, h);
      var s1 := Interleaved(c, s, Own(h, k));
      var n := FreeExecutes(c, d, s1, i, id);
      RunInTwo(c, s, Own(h, k), Own(i, n));
      ExecutedLater(s, s1, Interleaved(c, s1, Own(i, n)), id);
      ms := Own(h, k) + Own(i, n);
    }
  }

  // ---- exactly when a record stays ----

  /** Work that does not leave the record be has a continuation, without any new
      call, in which the record is overwritten or its transaction executed. */
  lemma Overwritten(c: Config, d: Snapshot, s: Server, t: Transaction, i: int) returns (ms: seq<Move>)
    requires Consistent(c, d, s) && !LeavesBe(c, PhaseOf(s, i), t)
    ensures Possible(c, s, ms) && Sparing(ms, t) && !Stays(s, Interleaved(c, s, ms), t)
  {
    var p := PhaseOf(s, i);
    match p
    case Saving(todo) =>
      var n :| 0 <= n < |todo| && todo[n].txID == t.txID && todo[n] != t;
      SaveThrough(c, s, i, n);
      ms := Own(i, n + 1);
    case Queued(job) =>
      ms := QueuedExecutes(c, d, s, i, t.txID);
    case Holding(job) =>
      var n := HolderExecutes(c, d, s, i);
      ms := Own(i, n);
    case Working(job, base, w) =>
      var n := WorkEnds(c, d, s, i);
      ms := Own(i, n);
    case Failing(r) =>
      NoMoves(c, Do(c, s, i, Proceed), i);
      OwnFirst(c, s, i, 0);
      ms := Own(i, 1);
  }

  /** Whatever the others call, without business with the record, it stays as it is
      and its transaction is not executed, if and only if at this moment every
      goroutine's outstanding work leaves it be. */
  lemma {:induction false} StaysIff(c: Config, d: Snapshot, s: Server, t: Transaction)
    requires Consistent(c, d, s) && AllKeyed(s) && NoRemovals(s, t.userspaceID) && HoldsTx(s.store.txs, t)
    ensures (forall ms :: Possible(c, s, ms) && Sparing(ms, t) ==> Stays(s, Interleaved(c, s, ms), t)) <==>
            (forall i :: LeavesBe(c, PhaseOf(s, i), t))
  {
    if forall i :: LeavesBe(c, PhaseOf(s, i), t) {
      forall ms | Possible(c, s, ms) && Sparing(ms, t) ensures Stays(s, Interleaved(c, s, ms), t) {
        SafeStays(c, d, s, t, ms);
      }
    } else {
      var i :| !LeavesBe(c, PhaseOf(s, i), t);
      var ms := Overwritten(c, d, s, t, i);
    }
  }

  /** A save made while no goroutine works on a copy and none has other business with
      the record outstanding is not lost. */
  lemma {:induction false} SavedRecordStays(c: Config, d: Snapshot, s: Server, i: int, t: Transaction, ms: seq<Move>)
    requires Consistent(c, d, s) && AllKeyed(s) && NoRemovals(s, t.userspaceID) && PhaseOf(s, i) == Saving([t])
    requires forall j :: j != i ==> !PhaseOf(s, j).Working? && LeavesBe(c, PhaseOf(s, j), t)
    requires Possible(c, Do(c, s, i, Proceed), ms) && Sparing(ms, t)
    ensures HoldsTx(Interleaved(c, Do(c, s, i, Proceed), ms).store.txs, t)
  {
    var s1 := Do(c, s, i, Proceed);
    MoveKeepsConsistent(c, d, s, i, Proceed);
    MoveKeepsKeyed(c, s, i, Proceed);
    MoveKeepsNoRemovals(c, s, i, Proceed, t.userspaceID);
    assert PhaseOf(s1, i) == Idle && OthersSame(s, s1, i);
    SafeStays(c, d, s1, t, ms);
  }

  // ---- an older save of an open record leads to another execution ----

  /** Goroutine i makes one call on the record it finds. */
  lemma CallMade(c: Config, d: Snapshot, s: Server, i: int, e: Event)
    requires Consistent(c, d, s) && PhaseOf(s, i).Idle? && IsTxCall(e)
    ensures var m := [Move(i, Arrive(e, []))]; var s' := Interleaved(c, s, m);
            && Possible(c, s, m) && Consistent(c, d, s') && s'.store == s.store && s'.log == s.log
            && PhaseOf(s', i) == Decided(c, DecisionOf(c, s.store, e), ClockOf(e))
  {
    FirstMove(c, s, Move(i, Arrive(e, [])));
    MoveKeepsConsistent(c, d, s, i, Arrive(e, []));
  }

  /** Goroutine i calls, and saves what it decided. */
  lemma CallSaved(c: Config, d: Snapshot, s: Server, i: int, e: Event, t: Transaction) returns (ms: seq<Move>)
    requires Consistent(c, d, s) && PhaseOf(s, i).Idle? && IsTxCall(e)
    requires DecisionOf(c, s.store, e).Save? && DecisionOf(c, s.store, e).t == t
    ensures forall n :: 0 <= n < |ms| && ms[n].a.Arrive? ==> ms[n].a.e == e
    ensures var s' := Interleaved(c, s, ms);
            && Possible(c, s, ms) && Consistent(c, d, s') && s'.log == s.log
            && PhaseOf(s', i) == Idle && HoldsTx(s'.store.txs, t)
  {
    CallMade(c, d, s, i, e);
    var s1 := Interleaved(c, s, [Move(i, Arrive(e, []))]);
    SaveThrough(c, s1, i, 0);
    RunInTwo(c, s, [Move(i, Arrive(e, []))], Own(i, 1));
    InterleavingKeepsConsistent(c, d, s1, Own(i, 1));
    ms := [Move(i, Arrive(e, []))] + Own(i, 1);
  }

  ghost predicate Fillable(r: Transaction) {
    Open(r) && Within(r.ops, r.totalOps) && r.totalOps > 0
  }

  function OwnerOf(r: Transaction): Principal {
    Principal(r.userID, r.userspaceID, [], NoMethod)
  }

  function Filler(n: int): TxOperation {
    NO_OP.(seqNo := n, opID := [1])
  }

  lemma FillerDecision(c: Config, d: Snapshot, r: Transaction, n: int)
    requires HoldsTx(d.txs, r) && Fillable(r) && 1 <= n <= r.totalOps && n !in r.ops && r.commitReceived
    ensures var e := AddOp(OwnerOf(r), r.txID, Filler(n), r.deadline, NO_CLOCK);
            var added := r.(ops := r.ops[n := Filing(c.lib, r.txID, Filler(n), 0)]);
            && |added.ops| == |r.ops| + 1 && Within(added.ops, r.totalOps)
            && DecisionOf(c, d, e) ==
               if |r.ops| + 1 == r.totalOps then Execute(added)
               else var w := added.(status := WaitingForOps); Save(w, Reply(Some(StatusOf(w)), None, None))
  {
    var added := r.(ops := r.ops[n := Filing(c.lib, r.txID, Filler(n), 0)]);
    assert |added.ops.Keys| == |r.ops.Keys| + 1 by {
      assert added.ops.Keys == r.ops.Keys + {n};
    }
  }

  /** The moves lead goroutine i to a queued execution of the transaction. */
  ghost predicate Queues(c: Config, d: Snapshot, s: Server, ms: seq<Move>, i: int, id: Str) {
    var s' := Interleaved(c, s, ms);
    && Possible(c, s, ms) && Consistent(c, d, s') && s'.log == s.log
    && PhaseOf(s', i).Queued? && About(PhaseOf(s', i).job, id)
  }

  predicate OwnerCalls(ms: seq<Move>) {
    forall n :: 0 <= n < |ms| && ms[n].a.Arrive? ==> ms[n].a.e.AddOp? || ms[n].a.e.Commit?
  }

  lemma SavedThenQueues(c: Config, d: Snapshot, s: Server, first: seq<Move>, rest: seq<Move>, i: int, id: Str)
    requires Possible(c, s, first) && Interleaved(c, s, first).log == s.log
    requires Queues(c, d, Interleaved(c, s, first), rest, i, id)
    ensures Queues(c, d, s, first + rest, i, id)
  {
    RunInTwo(c, s, first, rest);
  }

  /** A call that leads to an execution queues it. */
  lemma CallQueues(c: Config, d: Snapshot, s: Server, i: int, e: Event, t: Transaction)
    requires Consistent(c, d, s) && PhaseOf(s, i).Idle? && IsTxCall(e)
    requires DecisionOf(c, s.store, e) == Execute(t) && t.txDigest == []
    ensures Queues(c, d, s, [Move(i, Arrive(e, []))], i, t.txID)
  {
    CallMade(c, d, s, i, e);
  }

  /** A record that waits for fragments gets them, and is queued for execution. */
  lemma {:induction false} Filled(c: Config, d: Snapshot, s: Server, i: int, r: Transaction) returns (ms: seq<Move>)
    requires Consistent(c, d, s) && PhaseOf(s, i).Idle? && HoldsTx(s.store.txs, r)
    requires Fillable(r) && r.commitReceived && r.txDigest == [] && |r.ops| < r.totalOps
    ensures Queues(c, d, s, ms, i, r.txID) && OwnerCalls(ms)
    decreases r.totalOps - |r.ops|
  {
    CountMeansComplete(r.ops, r.totalOps);
    var n :| 1 <= n <= r.totalOps && n !in r.ops;
    var e := AddOp(OwnerOf(r), r.txID, Filler(n), r.deadline, NO_CLOCK);
    FillerDecision(c, s.store, r, n);
    var t := DecisionOf(c, s.store, e).t;
    if |r.ops| + 1 == r.totalOps {
      CallQueues(c, d, s, i, e, t);
      ms := [Move(i, Arrive(e, []))];
    } else {
      var first := CallSaved(c, d, s, i, e, t);
      var rest := Filled(c, d, Interleaved(c, s, first), i, t);
      SavedThenQueues(c, d, s, first, rest, i, r.txID);
      ms := first + rest;
    }
  }

  lemma OwnerCommits(c: Config, d: Snapshot, r: Transaction)
    requires HoldsTx(d.txs, r) && Fillable(r)
    ensures var e := Event.Commit(OwnerOf(r), r.txID, 0, [], r.deadline, NO_CLOCK);
            var told := r.(commitReceived := true, txDigest := []);
            DecisionOf(c, d, e) ==
              if |r.ops| < r.totalOps then
                var w := told.(status := WaitingForOps); Save(w, Reply(Some(StatusOf(w)), None, None))
              else Execute(told)
  {
  }

  /** An open record can always be brought to execution by its owner. */
  lemma {:induction false} Brought(c: Config, d: Snapshot, s: Server, i: int, r: Transaction) returns (ms: seq<Move>)
    requires Consistent(c, d, s) && PhaseOf(s, i).Idle? && HoldsTx(s.store.txs, r) && Fillable(r)
    ensures Queues(c, d, s, ms, i, r.txID) && OwnerCalls(ms)
  {
    var e := Event.Commit(OwnerOf(r), r.txID, 0, [], r.deadline, NO_CLOCK);
    OwnerCommits(c, s.store, r);
    var t := DecisionOf(c, s.store, e).t;
    if |r.ops| >= r.totalOps {
      CallQueues(c, d, s, i, e, t);
      ms := [Move(i, Arrive(e, []))];
    } else {
      var first := CallSaved(c, d, s, i, e, t);
      var rest := Filled(c, d, Interleaved(c, s, first), i, t);
      SavedThenQueues(c, d, s, first, rest, i, r.txID);
      ms := first + rest;
    }
  }

  lemma BroughtExecutes(c: Config, d: Snapshot, s: Server, i: int, r: Transaction) returns (ms: seq<Move>)
    requires Consistent(c, d, s) && PhaseOf(s, i).Idle? && HoldsTx(s.store.txs, r) && Fillable(r)
    ensures Possible(c, s, ms) && OwnerCalls(ms) && ExecutedSince(s, Interleaved(c, s, ms), r.txID)
  {
    var filling := Brought(c, d, s, i, r);
    var running := QueuedExecutes(c, d, Interleaved(c, s, filling), i, r.txID);
    RunInTwo(c, s, filling, running);
    ms := filling + running;
  }

  /** While a goroutine has yet to save an open record of a transaction, even a
      committed one can be executed again. */
  lemma {:induction false} OpenSaveReopens(c: Config, d: Snapshot, s: Server, i: int, r: Transaction, t: Transaction)
      returns (ms: seq<Move>)
    requires Consistent(c, d, s) && PhaseOf(s, i) == Saving([r]) && Fillable(r)
    requires t.txID == r.txID && t.status == Committed
    ensures Possible(c, s, ms) && Sparing(ms, t) && ExecutedSince(s, Interleaved(c, s, ms), t.txID)
  {
    SaveThrough(c, s, i, 0);
    InterleavingKeepsConsistent(c, d, s, Own(i, 1));
    var s1 := Interleaved(c, s, Own(i, 1));
    var more := BroughtExecutes(c, d, s1, i, r);
    RunInTwo(c, s, Own(i, 1), more);
    ms := Own(i, 1) + more;
  }
}
