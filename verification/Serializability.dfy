/** Every interleaving of goroutines is, for the stored values, the counter and the
    key tables, the sequential run of the locked jobs in the order in which they
    took the lock: no write is lost and every job answers as it would alone. */
module Serializability {
  import opened Model
  import opened StoreSpec
  import opened TxDigest
  import opened CoordinatorSpec
  import opened ExecutionLaws
  import opened OutcomeLaws
  import opened System
  import opened Threads

  /** The content without the transaction records. */
  function Core(d: Snapshot): Snapshot {
    d.(txs := map[])
  }

  // ---- the sequential meaning of a job ----

  predicate LockedCall(e: Event) {
    !IsTxCall(e) && !e.CreateTx? && !e.ExpireDue?
  }

  /** The jobs for which a goroutine takes the lock. */
  predicate JobOk(c: Config, job: Job) {
    match job
    case Call(e) => LockedCall(e)
    case Execution(t, _) => DigestOk(c.lib, t)
  }

  function JobNext(c: Config, d: Snapshot, job: Job): Snapshot {
    match job
    case Call(e) => Next(c, d, e)
    case Execution(t, clock) => ExecuteIn(c.lib, clock, d, t)
  }

  function JobReply(c: Config, d: Snapshot, job: Job): JobAnswer {
    match job
    case Call(e) => Responded(Step(c, d, e).1)
    case Execution(t, clock) => Executed(OutcomeOf(c.lib, clock, d, t))
  }

  function Replay(c: Config, d: Snapshot, log: seq<LogEntry>): Snapshot {
    if log == [] then d
    else JobNext(c, Replay(c, d, log[..|log| - 1]), log[|log| - 1].job)
  }

  function Jobs(log: seq<LogEntry>): (r: seq<Job>) {
    seq(|log|, i requires 0 <= i < |log| => log[i].job)
  }

  /** Each logged answer is the one the job gives in the sequential run. */
  ghost predicate AnsweredInTurn(c: Config, d: Snapshot, log: seq<LogEntry>) {
    forall n :: 0 <= n < |log| ==> log[n].answer == JobReply(c, Replay(c, d, log[..n]), log[n].job)
  }

  // ---- a job reads and writes nothing but the core ----

  lemma ImportOneBlind(lib: Library, now: Time, u: Str, mode: ImportMode, d: Snapshot, e: Snapshot, res: ImportResult,
                       rec: KVRecord)
    requires Core(d) == Core(e)
    ensures var p, q := ImportOne(lib, now, u, mode, d, res, rec), ImportOne(lib, now, u, mode, e, res, rec);
            Core(p.0) == Core(q.0) && p.1 == q.1
  {
    assert Core(d).version == Core(e).version && Core(d).userspaces == Core(e).userspaces;
  }

  lemma {:induction false} ImportBlind(lib: Library, clock: Clock, d: Snapshot, e: Snapshot, u: Str,
                                      records: seq<KVRecord>, mode: ImportMode, n: nat)
    requires Core(d) == Core(e) && n <= |records|
    ensures var p, q := ImportPrefix(lib, clock, d, u, records, mode, n),
        ImportPrefix(lib, clock, e, u, records, mode, n);
            Core(p.0) == Core(q.0) && p.1 == q.1
  {
    if n > 0 {
      ImportBlind(lib, clock, d, e, u, records, mode, n - 1);
      var p, q := ImportPrefix(lib, clock, d, u, records, mode, n - 1),
          ImportPrefix(lib, clock, e, u, records, mode, n - 1);
      ImportOneBlind(lib, clock(n - 1), u, mode, p.0, q.0, p.1, records[n - 1]);
    }
  }

  lemma EffectBlind(lib: Library, now: Time, d: Snapshot, e: Snapshot, u: Str, op: TxOperation)
    requires Core(d) == Core(e)
    ensures Core(OpEffect(lib, now, d, u, op)) == Core(OpEffect(lib, now, e, u, op))
  {
  }

  lemma {:induction false} StateBlind(lib: Library, clock: Clock, d: Snapshot, e: Snapshot, u: Str,
                                      ops: map<int, TxOperation>, k: nat)
    requires Core(d) == Core(e)
    ensures Core(StateAfter(lib, clock, d, u, ops, k)) == Core(StateAfter(lib, clock, e, u, ops, k))
  {
    if k > 0 {
      StateBlind(lib, clock, d, e, u, ops, k - 1);
      EffectBlind(lib, clock(k), StateAfter(lib, clock, d, u, ops, k - 1), StateAfter(lib, clock, e, u, ops, k - 1),
                  u, OpAt(ops, k));
    }
  }

  lemma CoreAlike(d: Snapshot, e: Snapshot)
    requires Core(d) == Core(e)
    ensures Alike(d, e)
  {
    forall u, k ensures View(d, u, k) == View(e, u, k) {
      assert Core(d).userspaces == Core(e).userspaces;
    }
  }

  lemma ExecutionBlind(lib: Library, clock: Clock, d: Snapshot, e: Snapshot, t: Transaction)
    requires Core(d) == Core(e)
    ensures OutcomeOf(lib, clock, d, t) == OutcomeOf(lib, clock, e, t)
    ensures Core(ExecuteIn(lib, clock, d, t)) == Core(ExecuteIn(lib, clock, e, t))
  {
    CoreAlike(d, e);
    OutcomesEqual(lib, clock, clock, d, e, t, t);
    StateBlind(lib, clock, d, e, t.userspaceID, t.ops, t.totalOps);
  }

  lemma KvBlind(c: Config, d: Snapshot, e: Snapshot, call: Event)
    requires Core(d) == Core(e)
    requires call.KvPut? || call.KvGet? || call.KvDelete? || call.Export?
    ensures Core(Next(c, d, call)) == Core(Next(c, e, call)) && Step(c, d, call).1 == Step(c, e, call).1
  {
    assert Core(d).userspaces == Core(e).userspaces && Core(d).version == Core(e).version;
  }

  lemma CatalogueBlind(d: Snapshot, e: Snapshot, u: Str)
    requires Core(d) == Core(e)
    ensures UserspaceExists(d, u) == UserspaceExists(e, u) && SpaceOf(d, u) == SpaceOf(e, u)
    ensures OtherKeys(d, u) == OtherKeys(e, u) && OtherSubjects(d, u) == OtherSubjects(e, u)
    ensures d.userspaces == e.userspaces && d.version == e.version
    ensures d.apiKeys == e.apiKeys && d.jwtSubjects == e.jwtSubjects
  {
    assert Core(d).apiKeys == Core(e).apiKeys && Core(d).jwtSubjects == Core(e).jwtSubjects;
    assert Core(d).userspaces == Core(e).userspaces && Core(d).version == Core(e).version;
  }

  lemma AdminBlind(c: Config, d: Snapshot, e: Snapshot, call: Event)
    requires Core(d) == Core(e)
    requires call.CreateUserspace? || call.DeleteUserspace? || call.RotateApiKey?
    ensures Core(Next(c, d, call)) == Core(Next(c, e, call)) && Step(c, d, call).1 == Step(c, e, call).1
  {
    CatalogueBlind(d, e, call.u);
  }

  lemma JobBlind(c: Config, d: Snapshot, e: Snapshot, job: Job)
    requires Core(d) == Core(e) && JobOk(c, job)
    ensures Core(JobNext(c, d, job)) == Core(JobNext(c, e, job))
    ensures JobReply(c, d, job) == JobReply(c, e, job)
  {
    if job.Execution? {
      ExecutionBlind(c.lib, job.clock, d, e, job.t);
    } else if job.e.Import? {
      ImportBlind(c.lib, job.e.clock, d, e, job.e.u, job.e.records, job.e.mode, |job.e.records|);
    } else if job.e.KvPut? || job.e.KvGet? || job.e.KvDelete? || job.e.Export? {
      KvBlind(c, d, e, job.e);
    } else {
      AdminBlind(c, d, e, job.e);
    }
  }

  // ---- the copy ----

  /** The work on a copy of `base` after k of its pieces. */
  function WorkAfter(lib: Library, job: Job, base: Snapshot, k: nat): Work
    requires Bulk(job) && k <= Size(job)
  {
    match job
    case Execution(t, clock) =>
      Work(StateAfter(lib, clock, base, t.userspaceID, t.ops, k), k, ImportResult(0, 0, 0),
           Answers(lib, clock, base, t.userspaceID, t.ops, k))
    case Call(e) =>
      var r := ImportPrefix(lib, e.clock, base, e.u, e.records, e.mode, k);
      Work(r.0, k, r.1, [])
  }

  ghost predicate PassedSoFar(lib: Library, job: Job, base: Snapshot, k: nat) {
    job.Execution? ==> AllPass(lib, job.clock, base, job.t.userspaceID, job.t.ops, k)
  }

  ghost predicate WorkOk(c: Config, job: Job, base: Snapshot, w: Work) {
    && Bulk(job) && w.done <= Size(job)
    && w == WorkAfter(c.lib, job, base, w.done)
    && PassedSoFar(c.lib, job, base, w.done)
  }

  lemma BeganOk(c: Config, job: Job, base: Snapshot)
    requires Bulk(job)
    ensures WorkOk(c, job, base, Began(job, base))
  {
  }

  lemma PassedNext(lib: Library, job: Job, base: Snapshot, k: nat)
    requires job.Execution? && PassedSoFar(lib, job, base, k)
    requires !FailsAfter(lib, job.clock, base, job.t.userspaceID, job.t.ops, k)
    ensures PassedSoFar(lib, job, base, k + 1)
  {
  }

  lemma ExecutionWorkNext(lib: Library, job: Job, base: Snapshot, k: nat)
    requires job.Execution? && k < Size(job)
    ensures WorkOn(lib, job, WorkAfter(lib, job, base, k)) == WorkAfter(lib, job, base, k + 1)
  {
  }

  lemma ExecutionWorkOnOk(c: Config, job: Job, base: Snapshot, w: Work)
    requires job.Execution? && WorkOk(c, job, base, w) && w.done < Size(job) && !Stuck(job, w)
    ensures WorkOk(c, job, base, WorkOn(c.lib, job, w))
  {
    PassedNext(c.lib, job, base, w.done);
    ExecutionWorkNext(c.lib, job, base, w.done);
  }

  lemma ImportWorkOnOk(c: Config, job: Job, base: Snapshot, w: Work)
    requires job.Call? && WorkOk(c, job, base, w) && w.done < Size(job)
    ensures WorkOk(c, job, base, WorkOn(c.lib, job, w))
  {
  }

  lemma WorkOnOk(c: Config, job: Job, base: Snapshot, w: Work)
    requires WorkOk(c, job, base, w) && w.done < Size(job) && !Stuck(job, w)
    ensures WorkOk(c, job, base, WorkOn(c.lib, job, w))
  {
    if job.Execution? {
      ExecutionWorkOnOk(c, job, base, w);
    } else {
      ImportWorkOnOk(c, job, base, w);
    }
  }

  /** When an execution's work ends, its answer and its record are those of an
      execution on `base` in one piece. */
  lemma ExecutionEnds(c: Config, job: Job, base: Snapshot, w: Work)
    requires job.Execution? && JobOk(c, job) && WorkOk(c, job, base, w)
    requires Stuck(job, w) || w.done == Size(job)
    ensures WorkAnswer(job, w) == JobReply(c, base, job)
    ensures Record(job, w) == JobNext(c, base, job).txs[job.t.txID]
    ensures JobNext(c, base, job) == SaveTxIn(if Stuck(job, w) then base else w.copy, Record(job, w))
  {
    var t := job.t;
    PassedIsFirstFailure(c.lib, job.clock, base, t.userspaceID, t.ops, t.totalOps, 0, w.done);
    assert Stuck(job, w) ==> FailsAfter(c.lib, job.clock, base, t.userspaceID, t.ops, w.done);
  }

  lemma InstallEnds(c: Config, job: Job, base: Snapshot, w: Work)
    requires JobOk(c, job) && WorkOk(c, job, base, w) && w.done == Size(job)
    ensures WorkAnswer(job, w) == JobReply(c, base, job)
    ensures Installed(job, w) == JobNext(c, base, job)
  {
    if job.Execution? {
      ExecutionEnds(c, job, base, w);
    }
  }

  // ---- the invariant ----

  /** At most one goroutine is inside the lock, and it is the holder. */
  ghost predicate Exclusive(s: Server) {
    forall i :: InLock(PhaseOf(s, i)) <==> s.holder == Some(i)
  }

  ghost predicate GoodJobs(c: Config, s: Server) {
    forall i :: PhaseOf(s, i).Queued? || PhaseOf(s, i).Holding? || PhaseOf(s, i).Working? ==>
        JobOk(c, PhaseOf(s, i).job)
  }

  /** The job that has the lock but has not taken effect yet. */
  function Unfinished(s: Server): seq<Job> {
    if s.holder == None then []
    else
      var p := PhaseOf(s, s.holder.value);
      if p.Holding? || p.Working? then [p.job] else []
  }

  /** While a job works on its copy, the live core is the one it copied. */
  ghost predicate CopyCurrent(c: Config, s: Server) {
    s.holder.Some? && PhaseOf(s, s.holder.value).Working? ==>
      var p := PhaseOf(s, s.holder.value);
      Core(p.base) == Core(s.store) && WorkOk(c, p.job, p.base, p.w)
  }

  ghost predicate Serial(c: Config, d: Snapshot, s: Server) {
    && Core(s.store) == Core(Replay(c, d, s.log))
    && AnsweredInTurn(c, d, s.log)
    && s.acquired == Jobs(s.log) + Unfinished(s)
  }

  ghost predicate Consistent(c: Config, d: Snapshot, s: Server) {
    Exclusive(s) && GoodJobs(c, s) && CopyCurrent(c, s) && Serial(c, d, s)
  }

  // ---- every step keeps it ----

  lemma AnsweredNext(c: Config, d: Snapshot, log: seq<LogEntry>, entry: LogEntry)
    requires AnsweredInTurn(c, d, log) && entry.answer == JobReply(c, Replay(c, d, log), entry.job)
    ensures AnsweredInTurn(c, d, log + [entry])
  {
    var next := log + [entry];
    forall n | 0 <= n < |next| ensures next[n].answer == JobReply(c, Replay(c, d, next[..n]), next[n].job) {
      assert next[..n] == if n < |log| then log[..n] else log;
    }
  }

  lemma ReplayNext(c: Config, d: Snapshot, log: seq<LogEntry>, entry: LogEntry)
    ensures Replay(c, d, log + [entry]) == JobNext(c, Replay(c, d, log), entry.job)
    ensures Jobs(log + [entry]) == Jobs(log) + [entry.job]
  {
    assert (log + [entry])[..|log|] == log;
  }

  /** Logging a job that answered from the live core and left what it should. */
  lemma {:induction false} LogSerial(c: Config, d: Snapshot, log: seq<LogEntry>, store: Snapshot, after: Snapshot,
                                     job: Job)
    requires Core(store) == Core(Replay(c, d, log)) && AnsweredInTurn(c, d, log) && JobOk(c, job)
    requires Core(after) == Core(JobNext(c, store, job))
    ensures var next := log + [LogEntry(job, JobReply(c, store, job))];
            Core(after) == Core(Replay(c, d, next)) && AnsweredInTurn(c, d, next) && Jobs(next) == Jobs(log) + [job]
  {
    var entry := LogEntry(job, JobReply(c, store, job));
    JobBlind(c, store, Replay(c, d, log), job);
    ReplayNext(c, d, log, entry);
    AnsweredNext(c, d, log, entry);
  }

  lemma MovedElsewhere(s: Server, i: int, p: Phase)
    ensures forall j :: PhaseOf(Moved(s, i, p), j) == if j == i then p else PhaseOf(s, j)
  {
  }

  /** Outside the lock a step may save records; that leaves the core alone. */
  lemma OutsideStep(c: Config, d: Snapshot, s: Server, store: Snapshot, i: int, p: Phase)
    requires Consistent(c, d, s) && !InLock(PhaseOf(s, i)) && !InLock(p) && (p.Queued? ==> JobOk(c, p.job))
    requires Core(store) == Core(s.store)
    ensures Consistent(c, d, Moved(s.(store := store), i, p))
  {
    MovedElsewhere(s.(store := store), i, p);
  }

  lemma ArriveStep(c: Config, d: Snapshot, s: Server, i: int, e: Event, order: seq<Str>)
    requires Consistent(c, d, s) && PhaseOf(s, i).Idle?
    ensures Consistent(c, d, Do(c, s, i, Arrive(e, order)))
  {
    OutsideStep(c, d, s, s.store, i, Arrived(c, s.store, e, order));
  }

  lemma AcquireStep(c: Config, d: Snapshot, s: Server, i: int)
    requires Consistent(c, d, s) && PhaseOf(s, i).Queued? && s.holder == None
    ensures Consistent(c, d, Do(c, s, i, Proceed))
  {
    var s' := Do(c, s, i, Proceed);
    MovedElsewhere(s, i, Holding(PhaseOf(s, i).job));
    assert forall j :: PhaseOf(s', j) == if j == i then Holding(PhaseOf(s, i).job) else PhaseOf(s, j);
  }

  lemma InsideStep(c: Config, d: Snapshot, s: Server, s': Server, i: int, p: Phase)
    requires Exclusive(s) && GoodJobs(c, s) && s.holder == Some(i) && InLock(p)
    requires s'.holder == s.holder && s'.threads == s.threads[i := p]
    requires p.Holding? || p.Working? ==> JobOk(c, p.job)
    ensures Exclusive(s') && GoodJobs(c, s')
  {
    assert forall j :: PhaseOf(s', j) == if j == i then p else PhaseOf(s, j);
  }

  lemma {:induction false} CallStep(c: Config, d: Snapshot, s: Server, i: int)
    requires Consistent(c, d, s) && PhaseOf(s, i).Holding? && !Bulk(PhaseOf(s, i).job)
    ensures Consistent(c, d, Do(c, s, i, Proceed))
  {
    var s', job := Do(c, s, i, Proceed), PhaseOf(s, i).job;
    assert InLock(PhaseOf(s, i));
    InsideStep(c, d, s, s', i, Releasing);
    LogSerial(c, d, s.log, s.store, s'.store, job);
  }

  lemma BeginStep(c: Config, d: Snapshot, s: Server, i: int)
    requires Consistent(c, d, s) && PhaseOf(s, i).Holding? && Bulk(PhaseOf(s, i).job)
    ensures Consistent(c, d, Do(c, s, i, Proceed))
  {
    var s', job := Do(c, s, i, Proceed), PhaseOf(s, i).job;
    assert InLock(PhaseOf(s, i));
    InsideStep(c, d, s, s', i, Working(job, s.store, Began(job, s.store)));
    BeganOk(c, job, s.store);
  }

  lemma PieceStep(c: Config, d: Snapshot, s: Server, i: int)
    requires Consistent(c, d, s) && PhaseOf(s, i).Working?
    requires var p := PhaseOf(s, i); !Stuck(p.job, p.w) && (Bulk(p.job) ==> p.w.done < Size(p.job))
    ensures Consistent(c, d, Do(c, s, i, Proceed))
  {
    var s', p := Do(c, s, i, Proceed), PhaseOf(s, i);
    assert InLock(p);
    InsideStep(c, d, s, s', i, Working(p.job, p.base, WorkOn(c.lib, p.job, p.w)));
    WorkOnOk(c, p.job, p.base, p.w);
  }

  /** What the last piece of work logs and leaves. */
  lemma EndEffect(c: Config, s: Server, i: int)
    requires PhaseOf(s, i).Working? && GoodJobs(c, s)
    requires var p := PhaseOf(s, i); WorkOk(c, p.job, p.base, p.w) && Core(p.base) == Core(s.store)
    requires var p := PhaseOf(s, i); Stuck(p.job, p.w) || p.w.done >= Size(p.job)
    ensures var p, s' := PhaseOf(s, i), Do(c, s, i, Proceed);
            && s'.log == s.log + [LogEntry(p.job, JobReply(c, s.store, p.job))]
            && Core(s'.store) == Core(JobNext(c, s.store, p.job))
            && s'.holder == s.holder && s'.acquired == s.acquired
            && s'.threads == s.threads[i := PhaseOf(s', i)] && (PhaseOf(s', i).Failing? || PhaseOf(s', i).Releasing?)
  {
    var p := PhaseOf(s, i);
    JobBlind(c, p.base, s.store, p.job);
    if Stuck(p.job, p.w) {
      ExecutionEnds(c, p.job, p.base, p.w);
    } else {
      InstallEnds(c, p.job, p.base, p.w);
    }
  }

  lemma {:induction false} EndStep(c: Config, d: Snapshot, s: Server, i: int)
    requires Consistent(c, d, s) && PhaseOf(s, i).Working?
    requires var p := PhaseOf(s, i); Bulk(p.job) && (Stuck(p.job, p.w) || p.w.done >= Size(p.job))
    ensures Consistent(c, d, Do(c, s, i, Proceed))
  {
    var s', p := Do(c, s, i, Proceed), PhaseOf(s, i);
    assert InLock(p) && WorkOk(c, p.job, p.base, p.w);
    EndEffect(c, s, i);
    InsideStep(c, d, s, s', i, PhaseOf(s', i));
    LogSerial(c, d, s.log, s.store, s'.store, p.job);
  }

  lemma FailStep(c: Config, d: Snapshot, s: Server, i: int)
    requires Consistent(c, d, s) && PhaseOf(s, i).Failing?
    ensures Consistent(c, d, Do(c, s, i, Proceed))
  {
    assert InLock(PhaseOf(s, i));
    InsideStep(c, d, s, Do(c, s, i, Proceed), i, Releasing);
  }

  lemma ReleaseStep(c: Config, d: Snapshot, s: Server, i: int)
    requires Consistent(c, d, s) && PhaseOf(s, i).Releasing?
    ensures Consistent(c, d, Do(c, s, i, Proceed))
  {
    assert InLock(PhaseOf(s, i));
    var s' := Do(c, s, i, Proceed);
    assert forall j :: PhaseOf(s', j) == if j == i then Idle else PhaseOf(s, j);
  }

  lemma {:induction false} ProceedStep(c: Config, d: Snapshot, s: Server, i: int)
    requires Consistent(c, d, s) && Enabled(s, i, Proceed)
    ensures Consistent(c, d, Do(c, s, i, Proceed))
  {
    match PhaseOf(s, i)
    case Saving(todo) =>
      if todo == [] {
        OutsideStep(c, d, s, s.store, i, Idle);
      } else {
        OutsideStep(c, d, s, SaveTxIn(s.store, todo[0]), i, Saves(todo[1..]));
      }
    case Queued(_) => AcquireStep(c, d, s, i);
    case Holding(job) => if Bulk(job) { BeginStep(c, d, s, i); } else { CallStep(c, d, s, i); }
    case Working(job, base, w) =>
      assert InLock(PhaseOf(s, i));
      if Stuck(job, w) || w.done >= Size(job) { EndStep(c, d, s, i); } else { PieceStep(c, d, s, i); }
    case Failing(_) => FailStep(c, d, s, i);
    case Releasing => ReleaseStep(c, d, s, i);
  }

  lemma {:induction false} MoveKeepsConsistent(c: Config, d: Snapshot, s: Server, i: int, a: Action)
    requires Consistent(c, d, s) && Enabled(s, i, a)
    ensures Consistent(c, d, Do(c, s, i, a))
  {
    match a
    case Arrive(e, order) => ArriveStep(c, d, s, i, e, order);
    case Proceed => ProceedStep(c, d, s, i);
  }

  lemma {:induction false} InterleavingKeepsConsistent(c: Config, d: Snapshot, s: Server, ms: seq<Move>)
    requires Consistent(c, d, s) && Possible(c, s, ms)
    ensures Consistent(c, d, Interleaved(c, s, ms))
  {
    if ms != [] {
      var before, m := ms[..|ms| - 1], ms[|ms| - 1];
      InterleavingKeepsConsistent(c, d, s, before);
      MoveKeepsConsistent(c, d, Interleaved(c, s, before), m.i, m.a);
    }
  }

  lemma {:induction false} EveryInterleaving(c: Config, d: Snapshot, ms: seq<Move>)
    requires Possible(c, Fresh(d), ms)
    ensures Consistent(c, d, Interleaved(c, Fresh(d), ms))
  {
    InterleavingKeepsConsistent(c, d, Fresh(d), ms);
  }

  // ---- what it means ----

  /** The jobs that took effect are those that took the lock, in that order (the
      holder's own may be outstanding); the values, the counter and the key tables
      are what the jobs leave one after the other; and each job answered what it
      answers there. */
  ghost predicate RunsInLockOrder(c: Config, d: Snapshot, s: Server) {
    && Core(s.store) == Core(Replay(c, d, s.log))
    && AnsweredInTurn(c, d, s.log)
    && Jobs(s.log) <= s.acquired && |s.acquired| <= |s.log| + 1
    && (s.holder == None ==> Jobs(s.log) == s.acquired)
  }

  lemma {:induction false} LockOrderIsSerial(c: Config, d: Snapshot, ms: seq<Move>)
    requires Possible(c, Fresh(d), ms)
    ensures RunsInLockOrder(c, d, Interleaved(c, Fresh(d), ms))
  {
    EveryInterleaving(c, d, ms);
  }

  /** No other goroutine is inside the lock, the live core is the one that goroutine
      i copied, and its progress so far is that of an undisturbed run from it. */
  ghost predicate Undisturbed(c: Config, s: Server, i: int)
    requires PhaseOf(s, i).Working?
  {
    var p := PhaseOf(s, i);
    && Core(p.base) == Core(s.store)
    && Bulk(p.job) && p.w.done <= Size(p.job) && p.w == WorkAfter(c.lib, p.job, p.base, p.w.done)
    && forall j :: j != i ==> !InLock(PhaseOf(s, j))
  }

  /** While an import or an execution works on its copy, no other goroutine changes
      a value, the counter or a key table. */
  lemma {:induction false} CopyIsCurrent(c: Config, d: Snapshot, ms: seq<Move>, i: int)
    requires Possible(c, Fresh(d), ms) && PhaseOf(Interleaved(c, Fresh(d), ms), i).Working?
    ensures Undisturbed(c, Interleaved(c, Fresh(d), ms), i)
  {
    EveryInterleaving(c, d, ms);
    var s := Interleaved(c, Fresh(d), ms);
    assert InLock(PhaseOf(s, i));
  }
}
