/** Runs of goroutines that show what the unlocked saves of transaction records do
    not guarantee: a save can be overwritten by an older copy or an older save, two
    overlapping commits both execute, and a sweep can deny a commit. */
module Races {
  import opened Model
  import opened StoreSpec
  import opened CoordinatorSpec
  import opened System
  import opened Threads
  import opened Interference

  // ---- a save overwritten by the installation of an older copy ----

  /** The import of a file without records. */
  function EmptyImport(v: Str): Event {
    Event.Import(v, [], MergeSkip, NO_CLOCK)
  }

  /** An import into userspace v begins, so that a goroutine works on a copy. */
  function CopyBegins(v: Str): seq<Move> {
    [Move(1, Arrive(EmptyImport(v), []))] + [Move(1, Proceed)] + [Move(1, Proceed)]
  }

  lemma CopyMade(c: Config, d: Snapshot, v: Str)
    ensures Possible(c, Fresh(d), CopyBegins(v))
    ensures var s, job := Interleaved(c, Fresh(d), CopyBegins(v)), Call(EmptyImport(v));
            s.store == d && PhaseOf(s, 1) == Working(job, d, Began(job, d)) && PhaseOf(s, 2) == Idle
  {
    var m := Move(1, Arrive(EmptyImport(v), []));
    var s1 := Do(c, Fresh(d), 1, m.a);
    assert PhaseOf(s1, 1) == Queued(Call(EmptyImport(v)));
    TwoMoves(c, Fresh(d), m, Move(1, Proceed));
    AfterMove(c, Fresh(d), [m] + [Move(1, Proceed)], Move(1, Proceed));
  }

  function Creation(v: Str, p: Principal, id: Str, now: Time): seq<Move> {
    CopyBegins(v) + [Move(2, Arrive(CreateTx(p, 1, 0, id, [], now), []))] + [Move(2, Proceed)]
  }

  lemma CreationAnswers(c: Config, d: Snapshot, p: Principal, id: Str, now: Time)
    requires 1 <= c.maxOps && c.defaultTimeout <= c.maxTimeout
    requires ValidTxID(id) && id !in d.txs
    ensures var t := NewTx(id, p, 1, now, c.defaultTimeout);
            && CreateTxIn(c, d, p, 1, 0, id, [], now) == (SaveTxIn(d, t), Ok(t))
            && Arrived(c, d, CreateTx(p, 1, 0, id, [], now), []) == Saving([t])
  {
  }

  lemma RecordCreated(c: Config, d: Snapshot, v: Str, p: Principal, id: Str, now: Time)
    requires 1 <= c.maxOps && c.defaultTimeout <= c.maxTimeout
    requires ValidTxID(id) && id !in d.txs
    ensures Possible(c, Fresh(d), Creation(v, p, id, now))
    ensures var s, before := Interleaved(c, Fresh(d), Creation(v, p, id, now)), Interleaved(c, Fresh(d), CopyBegins(v));
            && s.store == CreateTxIn(c, d, p, 1, 0, id, [], now).0 && id in s.store.txs
            && PhaseOf(s, 1) == PhaseOf(before, 1) && PhaseOf(s, 2) == Idle
  {
    CopyMade(c, d, v);
    var before := CopyBegins(v);
    var arrive := Arrive(CreateTx(p, 1, 0, id, [], now), []);
    var t := NewTx(id, p, 1, now, c.defaultTimeout);
    CreationAnswers(c, d, p, id, now);
    AfterMove(c, Fresh(d), before, Move(2, arrive));
    assert PhaseOf(Interleaved(c, Fresh(d), before + [Move(2, arrive)]), 2) == Saving([t]);
    AfterMove(c, Fresh(d), before + [Move(2, arrive)], Move(2, Proceed));
  }

  /** A record saved between another goroutine's copy and its installation is lost,
      although its creation was answered with success and nothing was deleted; the
      import may be into any userspace. */
  lemma SaveCanBeLost(c: Config, d: Snapshot, v: Str, p: Principal, id: Str, now: Time)
    requires 1 <= c.maxOps && c.defaultTimeout <= c.maxTimeout
    requires ValidTxID(id) && id !in d.txs
    ensures var before, after := Creation(v, p, id, now), Creation(v, p, id, now) + [Move(1, Proceed)];
            && Possible(c, Fresh(d), after)
            && CreateTxIn(c, d, p, 1, 0, id, [], now).1.Ok?
            && id in Interleaved(c, Fresh(d), before).store.txs
            && id !in Interleaved(c, Fresh(d), after).store.txs
  {
    CopyMade(c, d, v);
    CreationAnswers(c, d, p, id, now);
    RecordCreated(c, d, v, p, id, now);
    AfterMove(c, Fresh(d), Creation(v, p, id, now), Move(1, Proceed));
  }

  // ---- a save overwritten by an older save ----

  /** Two fragments of one transaction load its record before either is saved. */
  function Fragments(e: Event, f: Event): seq<Move> {
    [Move(1, Arrive(e, []))] + [Move(2, Arrive(f, []))] + [Move(1, Proceed)] + [Move(2, Proceed)]
  }

  lemma BothLoaded(c: Config, d: Snapshot, e: Event, f: Event, t: Transaction, r: Transaction)
    requires Arrived(c, d, e, []) == Saving([t]) && Arrived(c, d, f, []) == Saving([r])
    requires IsTxCall(e) && IsTxCall(f)
    ensures var ms := [Move(1, Arrive(e, []))] + [Move(2, Arrive(f, []))];
            var s := Interleaved(c, Fresh(d), ms);
            && Possible(c, Fresh(d), ms) && s.store == d
            && PhaseOf(s, 1) == Saving([t]) && PhaseOf(s, 2) == Saving([r])
  {
    TwoMoves(c, Fresh(d), Move(1, Arrive(e, [])), Move(2, Arrive(f, [])));
  }

  lemma BothSaved(c: Config, d: Snapshot, e: Event, f: Event, t: Transaction, r: Transaction)
    requires Arrived(c, d, e, []) == Saving([t]) && Arrived(c, d, f, []) == Saving([r])
    requires IsTxCall(e) && IsTxCall(f)
    ensures Possible(c, Fresh(d), Fragments(e, f))
    ensures Interleaved(c, Fresh(d), Fragments(e, f)).store == SaveTxIn(SaveTxIn(d, t), r)
  {
    BothLoaded(c, d, e, f, t, r);
    var both := [Move(1, Arrive(e, []))] + [Move(2, Arrive(f, []))];
    SaveLast(c, Fresh(d), both, 1, t);
    SaveLast(c, Fresh(d), both + [Move(1, Proceed)], 2, r);
  }

  /** Both fragments are accepted, and only the second is on record. */
  lemma FragmentCanBeLost(c: Config, d: Snapshot, e: Event, f: Event)
    requires e.AddOp? && f.AddOp? && e.id == f.id && e.op.seqNo != f.op.seqNo && Keyed(d.txs)
    requires DecisionOf(c, d, e).Save? && DecisionOf(c, d, e).reply.error == None
    requires DecisionOf(c, d, f).Save? && DecisionOf(c, d, f).reply.error == None
    ensures Possible(c, Fresh(d), Fragments(e, f))
    ensures e.op.seqNo in DecisionOf(c, d, e).t.ops && f.op.seqNo in DecisionOf(c, d, f).t.ops
    ensures var s := Interleaved(c, Fresh(d), Fragments(e, f));
            e.id in s.store.txs && e.op.seqNo !in s.store.txs[e.id].ops && f.op.seqNo in s.store.txs[e.id].ops
  {
    FragmentSaved(c, d, e);
    FragmentSaved(c, d, f);
    BothSaved(c, d, e, f, DecisionOf(c, d, e).t, DecisionOf(c, d, f).t);
  }

  lemma FragmentSaved(c: Config, d: Snapshot, e: Event)
    requires e.AddOp? && Keyed(d.txs) && DecisionOf(c, d, e).Save? && DecisionOf(c, d, e).reply.error == None
    ensures e.id in d.txs && e.op.seqNo !in d.txs[e.id].ops
    ensures var t := DecisionOf(c, d, e).t;
            t.txID == e.id && t.ops.Keys == d.txs[e.id].ops.Keys + {e.op.seqNo} && Arrived(c, d, e, []) == Saving([t])
  {
  }

  // ---- two commits that overlap ----

  /** A queued execution of one PUT: it takes the lock, copies, works, installs and releases. */
  function Alone(ms: seq<Move>, i: int): seq<Move> {
    ms + [Move(i, Proceed)] + [Move(i, Proceed)] + [Move(i, Proceed)] + [Move(i, Proceed)] + [Move(i, Proceed)]
  }

  predicate OnePut(t: Transaction) {
    t.totalOps == 1 && 1 in t.ops && t.ops[1].opType == OP_PUT
  }

  ghost predicate IsCommit(entry: LogEntry, t: Transaction, clock: Clock) {
    entry.job == Execution(t, clock) && entry.answer.Executed? && entry.answer.o.status == Committed
  }

  ghost predicate CommittedOnceMore(s: Server, s': Server, t: Transaction, clock: Clock) {
    && s'.holder == None && s'.store.version == s.store.version + 1
    && |s'.log| == |s.log| + 1 && s.log <= s'.log
    && IsCommit(s'.log[|s.log|], t, clock)
  }

  lemma LockAndCopy(c: Config, s: Server, i: int, t: Transaction, clock: Clock)
    requires s.holder == None && PhaseOf(s, i) == Queued(Execution(t, clock)) && OnePut(t)
    ensures var job, s2 := Execution(t, clock), Do(c, Do(c, s, i, Proceed), i, Proceed);
            && Do(c, s, i, Proceed).holder == Some(i) && PhaseOf(Do(c, s, i, Proceed), i) == Holding(job)
            && PhaseOf(s2, i) == Working(job, s.store, Began(job, s.store))
            && s2.store == s.store && s2.log == s.log && s2.holder == Some(i)
            && forall j :: j != i ==> PhaseOf(s2, j) == PhaseOf(s, j)
  {
  }

  lemma WorkAndInstall(c: Config, s: Server, i: int, t: Transaction, clock: Clock, base: Snapshot)
    requires var job := Execution(t, clock);
        PhaseOf(s, i) == Working(job, base, Began(job, base)) && base.version == s.store.version
    requires s.holder == Some(i) && OnePut(t)
    ensures var s3 := Do(c, s, i, Proceed);
            && PhaseOf(s3, i).Working?
            && PhaseOf(Do(c, s3, i, Proceed), i) == Releasing
            && CommittedOnceMore(s, Do(c, Do(c, s3, i, Proceed), i, Proceed), t, clock)
            && forall j :: j != i ==> PhaseOf(Do(c, Do(c, s3, i, Proceed), i, Proceed), j) == PhaseOf(s, j)
  {
    var job := Execution(t, clock);
    var w := Began(job, base);
    assert !Stuck(job, w) && w.done < Size(job);
    var w' := WorkOn(c.lib, job, w);
    assert w'.done == 1 && w'.copy.version == base.version + 1 && !Stuck(job, w');
    assert Record(job, w').status == Committed;
  }

  lemma {:induction false} ExecutesAlone(c: Config, s0: Server, ms: seq<Move>, i: int, t: Transaction, clock: Clock)
    requires Possible(c, s0, ms) && OnePut(t)
    requires var s := Interleaved(c, s0, ms); s.holder == None && PhaseOf(s, i) == Queued(Execution(t, clock))
    ensures Possible(c, s0, Alone(ms, i))
    ensures var s, s' := Interleaved(c, s0, ms), Interleaved(c, s0, Alone(ms, i));
            CommittedOnceMore(s, s', t, clock) && forall j :: j != i ==> PhaseOf(s', j) == PhaseOf(s, j)
  {
    var m, s := Move(i, Proceed), Interleaved(c, s0, ms);
    LockAndCopy(c, s, i, t, clock);
    AfterMove(c, s0, ms, m);
    AfterMove(c, s0, ms + [m], m);
    WorkAndInstall(c, Interleaved(c, s0, ms + [m] + [m]), i, t, clock, s.store);
    AfterMove(c, s0, ms + [m] + [m], m);
    AfterMove(c, s0, ms + [m] + [m] + [m], m);
    AfterMove(c, s0, ms + [m] + [m] + [m] + [m], m);
  }

  /** Two commits of one transaction load its record before either executes. */
  function BothArrive(p: Principal, id: Str, now: Time, clock: Clock): seq<Move> {
    var e := Event.Commit(p, id, 0, [], now, clock);
    [Move(1, Arrive(e, []))] + [Move(2, Arrive(e, []))]
  }

  lemma CommitQueues(c: Config, d: Snapshot, p: Principal, id: Str, now: Time, clock: Clock)
    requires CommitDecision(d, p, id, 0, [], now).Execute?
    ensures Arrived(c, d, Event.Commit(p, id, 0, [], now, clock), []) ==
            Queued(Execution(CommitDecision(d, p, id, 0, [], now).t, clock))
  {
    assert DecisionOf(c, d, Event.Commit(p, id, 0, [], now, clock)) == CommitDecision(d, p, id, 0, [], now);
    assert CommitDecision(d, p, id, 0, [], now).t.txDigest == [];
  }

  lemma BothQueued(c: Config, d: Snapshot, p: Principal, id: Str, now: Time, clock: Clock)
    requires CommitDecision(d, p, id, 0, [], now).Execute?
    ensures var job, both := Execution(CommitDecision(d, p, id, 0, [], now).t, clock), BothArrive(p, id, now, clock);
            var s := Interleaved(c, Fresh(d), both);
            && Possible(c, Fresh(d), both)
            && PhaseOf(s, 1) == Queued(job) && PhaseOf(s, 2) == Queued(job)
            && s.store == d && s.holder == None && s.log == []
  {
    var e := Event.Commit(p, id, 0, [], now, clock);
    CommitQueues(c, d, p, id, now, clock);
    TwoMoves(c, Fresh(d), Move(1, Arrive(e, [])), Move(2, Arrive(e, [])));
  }

  lemma {:induction false} ExecutedTwice(c: Config, s0: Server, ms: seq<Move>, t: Transaction, clock: Clock)
    requires Possible(c, s0, ms) && OnePut(t)
    requires var s, q := Interleaved(c, s0, ms), Queued(Execution(t, clock));
             s.holder == None && s.log == [] && PhaseOf(s, 1) == q && PhaseOf(s, 2) == q
    ensures var s, s' := Interleaved(c, s0, ms), Interleaved(c, s0, Alone(Alone(ms, 1), 2));
            && Possible(c, s0, Alone(Alone(ms, 1), 2))
            && s'.store.version == s.store.version + 2 && |s'.log| == 2
            && IsCommit(s'.log[0], t, clock) && IsCommit(s'.log[1], t, clock)
  {
    ExecutesAlone(c, s0, ms, 1, t, clock);
    ExecutesAlone(c, s0, Alone(ms, 1), 2, t, clock);
  }

  /** Then both execute it: its PUT is applied twice and the counter rises by two,
      although the second commit, called after the first, would only have answered. */
  lemma OverlappingCommitsBothRun(c: Config, d: Snapshot, p: Principal, id: Str, now: Time, clock: Clock)
    requires CommitDecision(d, p, id, 0, [], now).Execute? && OnePut(CommitDecision(d, p, id, 0, [], now).t)
    ensures var t, ms := CommitDecision(d, p, id, 0, [], now).t, Alone(Alone(BothArrive(p, id, now, clock), 1), 2);
            var s := Interleaved(c, Fresh(d), ms);
            && Possible(c, Fresh(d), ms)
            && s.store.version == d.version + 2
            && |s.log| == 2 && IsCommit(s.log[0], t, clock) && IsCommit(s.log[1], t, clock)
  {
    BothQueued(c, d, p, id, now, clock);
    ExecutedTwice(c, Fresh(d), BothArrive(p, id, now, clock), CommitDecision(d, p, id, 0, [], now).t, clock);
  }

  // ---- a commit overwritten by an older sweep ----

  /** A sweep lists a record as overdue, then a timely commit executes, and then the
      sweep saves the record as it found it. */
  function SweepThenCommit(sweep: Str -> Time, p: Principal, id: Str, now: Time, clock: Clock): seq<Move> {
    [Move(2, Arrive(ExpireDue(sweep), [id]))] + [Move(1, Arrive(Event.Commit(p, id, 0, [], now, clock), []))]
  }

  lemma SweptAndQueued(c: Config, d: Snapshot, sweep: Str -> Time, p: Principal, id: Str, now: Time, clock: Clock)
    requires d.txs.Keys == {id} && Overdue(d.txs[id], sweep(id))
    requires CommitDecision(d, p, id, 0, [], now).Execute?
    ensures var ms := SweepThenCommit(sweep, p, id, now, clock); var s := Interleaved(c, Fresh(d), ms);
            && Possible(c, Fresh(d), ms) && s.store == d && s.holder == None && s.log == []
            && PhaseOf(s, 1) == Queued(Execution(CommitDecision(d, p, id, 0, [], now).t, clock))
            && PhaseOf(s, 2) == Saving([Expire(d.txs[id])])
  {
    var a, b := Arrive(ExpireDue(sweep), [id]), Arrive(Event.Commit(p, id, 0, [], now, clock), []);
    assert Overdues(d, [id], sweep) == [Expire(d.txs[id])] by {
      assert Overdues(d, [id][1..], sweep) == [];
    }
    assert Arrived(c, d, a.e, [id]) == Saving([Expire(d.txs[id])]);
    assert multiset([id]) == multiset(d.txs.Keys);
    CommitQueues(c, d, p, id, now, clock);
    TwoMoves(c, Fresh(d), Move(2, a), Move(1, b));
  }

  /** The values are those of the commit, and the record says expired. */
  lemma SweepOverwritesCommit(c: Config, d: Snapshot, sweep: Str -> Time, p: Principal, id: Str, now: Time,
                              clock: Clock)
    requires d.txs.Keys == {id} && Keyed(d.txs) && Overdue(d.txs[id], sweep(id))
    requires CommitDecision(d, p, id, 0, [], now).Execute? && OnePut(CommitDecision(d, p, id, 0, [], now).t)
    ensures var ms := Alone(SweepThenCommit(sweep, p, id, now, clock), 1) + [Move(2, Proceed)];
            var s := Interleaved(c, Fresh(d), ms);
            && Possible(c, Fresh(d), ms)
            && s.store.version == d.version + 1
            && |s.log| == 1 && IsCommit(s.log[0], CommitDecision(d, p, id, 0, [], now).t, clock)
            && id in s.store.txs && s.store.txs[id] == Expire(d.txs[id])
  {
    SweptAndQueued(c, d, sweep, p, id, now, clock);
    var ms, t := SweepThenCommit(sweep, p, id, now, clock), CommitDecision(d, p, id, 0, [], now).t;
    ExecutesAlone(c, Fresh(d), ms, 1, t, clock);
    SaveLast(c, Fresh(d), Alone(ms, 1), 2, Expire(d.txs[id]));
  }

  lemma SaveLast(c: Config, s0: Server, ms: seq<Move>, i: int, t: Transaction)
    requires Possible(c, s0, ms) && PhaseOf(Interleaved(c, s0, ms), i) == Saving([t])
    ensures Possible(c, s0, ms + [Move(i, Proceed)])
    ensures var s, s' := Interleaved(c, s0, ms), Interleaved(c, s0, ms + [Move(i, Proceed)]);
            && s'.store == SaveTxIn(s.store, t) && s'.log == s.log
            && forall j :: j != i ==> PhaseOf(s', j) == PhaseOf(s, j)
  {
    AfterMove(c, s0, ms, Move(i, Proceed));
  }
}
