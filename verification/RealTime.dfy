/** The serial order respects real time: a job's place in it lies between the
    arrival of its call and its answer. */
module RealTime {
  import opened Model
  import opened CoordinatorSpec
  import opened Threads
  import opened Serializability
  import opened Survival

  /** Later in the run, both histories have only grown. */
  ghost predicate Continues(s: Server, s': Server) {
    s.acquired <= s'.acquired && s.log <= s'.log
  }

  lemma MoveContinues(c: Config, s: Server, i: int, a: Action)
    requires Enabled(s, i, a)
    ensures Continues(s, Do(c, s, i, a))
  {
  }

  lemma ContinuesOn(s: Server, s1: Server, s': Server)
    requires Continues(s, s1) && Continues(s1, s')
    ensures Continues(s, s')
  {
  }

  lemma {:induction false} RunContinues(c: Config, s: Server, ms: seq<Move>)
    requires Possible(c, s, ms)
    ensures Continues(s, Interleaved(c, s, ms))
  {
    if ms != [] {
      var before, m := ms[..|ms| - 1], ms[|ms| - 1];
      RunContinues(c, s, before);
      MoveContinues(c, Interleaved(c, s, before), m.i, m.a);
      ContinuesOn(s, Interleaved(c, s, before), Interleaved(c, s, ms));
    }
  }

  /** Goroutine i has not answered its call at any point of the run. */
  predicate Unanswered(c: Config, s: Server, ms: seq<Move>, i: int) {
    && !PhaseOf(Interleaved(c, s, ms), i).Idle?
    && (ms != [] ==> Unanswered(c, s, ms[..|ms| - 1], i))
  }

  /** How far goroutine i has come with the job it queued in s: it waits, it has the
      last place among those that took the lock, or it has the last place in the log. */
  ghost predicate Placed(s: Server, s': Server, i: int, job: Job) {
    match PhaseOf(s', i)
    case Queued(j) => j == job
    case Holding(j) => j == job && TookLast(s, s', job)
    case Working(j, _, _) => j == job && TookLast(s, s', job)
    case Failing(_) => LoggedLast(s, s', job)
    case Releasing => LoggedLast(s, s', job)
    case _ => false
  }

  ghost predicate TookLast(s: Server, s': Server, job: Job) {
    |s.acquired| < |s'.acquired| && s'.acquired[|s'.acquired| - 1] == job
  }

  ghost predicate LoggedLast(s: Server, s': Server, job: Job) {
    TookLast(s, s', job) && |s'.log| == |s'.acquired| && s'.log[|s'.log| - 1].job == job
  }

  /** The stages of a job inside the lock. */
  lemma HeldMove(c: Config, s: Server, i: int)
    requires PhaseOf(s, i).Holding? || PhaseOf(s, i).Working?
    ensures var job, s1, p := PhaseOf(s, i).job, Do(c, s, i, Proceed), PhaseOf(Do(c, s, i, Proceed), i);
            && s1.acquired == s.acquired
            && (if p.Holding? || p.Working? then p.job == job
                else (p.Failing? || p.Releasing?) && |s1.log| == |s.log| + 1 && s1.log[|s.log|].job == job)
  {
  }

  lemma HeldMovePlaced(c: Config, d: Snapshot, s0: Server, s: Server, i: int, job: Job)
    requires Consistent(c, d, s) && (PhaseOf(s, i).Holding? || PhaseOf(s, i).Working?) && Placed(s0, s, i, job)
    ensures Placed(s0, Do(c, s, i, Proceed), i, job)
  {
    HeldJobIsUnfinished(c, d, s, i);
    HeldMove(c, s, i);
  }

  lemma FreeMovePlaced(c: Config, s0: Server, s: Server, i: int, job: Job)
    requires PhaseOf(s, i).Queued? || PhaseOf(s, i).Failing?
    requires Placed(s0, s, i, job) && |s0.acquired| <= |s.acquired|
    ensures Placed(s0, Do(c, s, i, Proceed), i, job)
  {
  }

  /** Its own moves take it from stage to stage. */
  lemma OwnMovePlaced(c: Config, d: Snapshot, s0: Server, s: Server, i: int, a: Action, job: Job)
    requires Consistent(c, d, s) && Placed(s0, s, i, job) && Continues(s0, s) && Enabled(s, i, a)
    requires !PhaseOf(Do(c, s, i, a), i).Idle?
    ensures Placed(s0, Do(c, s, i, a), i, job)
  {
    match PhaseOf(s, i)
    case Holding(_) => HeldMovePlaced(c, d, s0, s, i, job);
    case Working(_, _, _) => HeldMovePlaced(c, d, s0, s, i, job);
    case _ => FreeMovePlaced(c, s0, s, i, job);
  }

  lemma HeldJobIsUnfinished(c: Config, d: Snapshot, s: Server, i: int)
    requires Consistent(c, d, s) && (PhaseOf(s, i).Holding? || PhaseOf(s, i).Working?)
    ensures s.holder == Some(i) && |s.acquired| == |s.log| + 1
  {
    assert InLock(PhaseOf(s, i));
  }

  /** While goroutine i is inside the lock, no other takes it or logs a job. */
  lemma OthersKeepPlace(c: Config, s: Server, i: int, j: int, a: Action)
    requires Exclusive(s) && InLock(PhaseOf(s, i)) && j != i && Enabled(s, j, a)
    ensures var s' := Do(c, s, j, a); s'.acquired == s.acquired && s'.log == s.log && PhaseOf(s', i) == PhaseOf(s, i)
  {
    assert !InLock(PhaseOf(s, j));
  }

  lemma OtherMovePlaced(c: Config, s0: Server, s: Server, i: int, j: int, a: Action, job: Job)
    requires Exclusive(s) && Placed(s0, s, i, job) && j != i && Enabled(s, j, a)
    ensures Placed(s0, Do(c, s, j, a), i, job)
  {
    if InLock(PhaseOf(s, i)) {
      OthersKeepPlace(c, s, i, j, a);
    } else {
      OthersUnmoved(c, s, j, a);
    }
  }

  lemma {:induction false} StaysPlaced(c: Config, d: Snapshot, s: Server, i: int, job: Job, ms: seq<Move>)
    requires Consistent(c, d, s) && PhaseOf(s, i) == Queued(job)
    requires Possible(c, s, ms) && Unanswered(c, s, ms, i)
    ensures Placed(s, Interleaved(c, s, ms), i, job)
  {
    if ms != [] {
      var before, m := ms[..|ms| - 1], ms[|ms| - 1];
      StaysPlaced(c, d, s, i, job, before);
      InterleavingKeepsConsistent(c, d, s, before);
      RunContinues(c, s, before);
      if m.i == i {
        OwnMovePlaced(c, d, s, Interleaved(c, s, before), i, m.a, job);
      } else {
        OtherMovePlaced(c, s, Interleaved(c, s, before), i, m.i, m.a, job);
      }
    }
  }

  /** A job whose call arrived in s and is about to be answered at the end of the run
      has one place, n, in the order of the lock and in the log: after every job that
      had taken the lock when the call arrived, and before every later one. */
  lemma {:induction false} PlaceIsWithinCall(c: Config, d: Snapshot, s: Server, i: int, job: Job, ms: seq<Move>)
      returns (n: nat)
    requires Consistent(c, d, s) && PhaseOf(s, i) == Queued(job)
    requires Possible(c, s, ms) && Unanswered(c, s, ms, i) && PhaseOf(Interleaved(c, s, ms), i).Releasing?
    ensures var s' := Interleaved(c, s, ms);
            && |s.acquired| <= n && n + 1 == |s'.acquired| == |s'.log|
            && s'.acquired[n] == job && s'.log[n].job == job
  {
    StaysPlaced(c, d, s, i, job, ms);
    n := LastPlace(s, Interleaved(c, s, ms), i, job);
  }

  lemma LastPlace(s: Server, s': Server, i: int, job: Job) returns (n: nat)
    requires Placed(s, s', i, job) && PhaseOf(s', i).Releasing?
    ensures |s.acquired| <= n && n + 1 == |s'.acquired| == |s'.log| && s'.acquired[n] == job && s'.log[n].job == job
  {
    n := |s'.log| - 1;
  }

  /** Real time: if one call was answered before another arrived, its job comes first
      in the order that every interleaving is equivalent to. */
  lemma {:induction false} RealTimeOrder(c: Config, d: Snapshot, s: Server, i: int, job: Job, ms: seq<Move>,
                                        rest: seq<Move>, j: int, later: Job, more: seq<Move>) returns (m: nat, n: nat)
    requires Consistent(c, d, s) && PhaseOf(s, i) == Queued(job)
    requires Possible(c, s, ms) && Unanswered(c, s, ms, i) && PhaseOf(Interleaved(c, s, ms), i).Releasing?
    requires var answered := Interleaved(c, s, ms);
             && Possible(c, answered, rest) && PhaseOf(Interleaved(c, answered, rest), j) == Queued(later)
             && var arrived := Interleaved(c, answered, rest);
                && Possible(c, arrived, more) && Unanswered(c, arrived, more, j)
                && PhaseOf(Interleaved(c, arrived, more), j).Releasing?
    ensures var end := Interleaved(c, Interleaved(c, Interleaved(c, s, ms), rest), more);
            && m < n < |end.log| && n < |end.acquired|
            && end.acquired[m] == job && end.log[m].job == job
            && end.acquired[n] == later && end.log[n].job == later
  {
    var answered := Interleaved(c, s, ms);
    var arrived := Interleaved(c, answered, rest);
    m := PlaceIsWithinCall(c, d, s, i, job, ms);
    InterleavingKeepsConsistent(c, d, s, ms);
    InterleavingKeepsConsistent(c, d, answered, rest);
    n := PlaceIsWithinCall(c, d, arrived, j, later, more);
    RunContinues(c, answered, rest);
    RunContinues(c, arrived, more);
    ContinuesOn(answered, arrived, Interleaved(c, arrived, more));
  }
}
