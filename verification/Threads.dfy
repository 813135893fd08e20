/** The server at the grain of its goroutines. One global lock serialises the
    handlers and the executions; every single access to the store is atomic under
    the store's own mutex; transaction records are saved without the global lock. */
module Threads {
  import opened Model
  import opened StoreSpec
  import opened TxDigest
  import opened CoordinatorSpec
  import opened System

  /** What a goroutine takes the global lock for. */
  datatype Job =
    | Call(e: Event)
    | Execution(t: Transaction, clock: Clock)

  /** A bulk change in progress on a private copy of the content. */
  datatype Work = Work(copy: Snapshot, done: nat, counts: ImportResult, answers: seq<TxOperationResult>)

  datatype Phase =
    | Idle
    | Saving(todo: seq<Transaction>)
    | Queued(job: Job)
    | Holding(job: Job)
    | Working(job: Job, base: Snapshot, w: Work)
    | Failing(t: Transaction)
    | Releasing

  datatype JobAnswer =
    | Responded(r: Response)
    | Executed(o: Outcome)

  datatype LogEntry = LogEntry(job: Job, answer: JobAnswer)

  /** `acquired` and `log` are history: the jobs in the order in which they took the
      lock, and those that took effect, with what they answered. */
  datatype Server = Server(
    store: Snapshot,
    holder: Option<int>,
    threads: map<int, Phase>,
    acquired: seq<Job>,
    log: seq<LogEntry>)

  datatype Action =
    | Arrive(e: Event, order: seq<Str>)
    | Proceed

  function Fresh(d: Snapshot): Server {
    Server(d, None, map[], [], [])
  }

  function PhaseOf(s: Server, i: int): Phase {
    if i in s.threads then s.threads[i] else Idle
  }

  predicate InLock(p: Phase) {
    p.Holding? || p.Working? || p.Failing? || p.Releasing?
  }

  /** An import or an execution works on a copy; every other call is one access. */
  predicate Bulk(job: Job) {
    job.Execution? || job.e.Import?
  }

  // ---- arrivals ----

  /** The overdue ones among the records listed, marked expired. */
  function Overdues(d: Snapshot, order: seq<Str>, sweep: Str -> Time): seq<Transaction> {
    if order == [] then []
    else
      var rest, id := Overdues(d, order[1..], sweep), order[0];
      if id in d.txs && Overdue(d.txs[id], sweep(id)) then [Expire(d.txs[id])] + rest else rest
  }

  function Saves(todo: seq<Transaction>): Phase {
    if todo == [] then Idle else Saving(todo)
  }

  /** After loading its record a transaction call answers, goes on to save, or
      queues for the lock; the digest is compared before that. */
  function Decided(c: Config, dec: Decision, clock: Clock): Phase {
    match dec
    case Answer(_) => Idle
    case Save(t, _) => Saving([t])
    case Execute(t) =>
      if DigestOk(c.lib, t) then Queued(Execution(t, clock))
      else Saving([t.(status := Aborted, abortReason := DigestMismatch)])
  }

  function Arrived(c: Config, d: Snapshot, e: Event, order: seq<Str>): Phase {
    if IsTxCall(e) then Decided(c, DecisionOf(c, d, e), ClockOf(e))
    else match e
      case CreateTx(p, totalOps, timeout, requested, drawn, now) =>
        var r := CreateTxIn(c, d, p, totalOps, timeout, requested, drawn, now);
        var id := if requested == [] then drawn else requested;
        if r.1.Ok? && id !in d.txs then Saving([r.1.value]) else Idle
      case ExpireDue(sweep) => Saves(Overdues(d, order, sweep))
      case _ => Queued(Call(e))
  }

  // ---- work on the copy ----

  function Began(job: Job, base: Snapshot): Work {
    Work(if job.Call? && job.e.Import? then ImportBase(base, job.e.u, job.e.mode) else base, 0, ImportResult(0, 0, 0),
         [])
  }

  function Size(job: Job): nat
    requires Bulk(job)
  {
    match job
    case Execution(t, _) => t.totalOps
    case Call(e) => |e.records|
  }

  predicate Stuck(job: Job, w: Work) {
    && job.Execution?
    && w.done < job.t.totalOps
    && OpFails(w.copy, job.t.userspaceID, OpAt(job.t.ops, w.done + 1))
  }

  function WorkOn(lib: Library, job: Job, w: Work): Work
    requires Bulk(job) && w.done < Size(job)
  {
    match job
    case Execution(t, clock) =>
      var op := OpAt(job.t.ops, w.done + 1);
      w.(copy := OpEffect(lib, clock(w.done + 1), w.copy, t.userspaceID, op), done := w.done + 1,
         answers := w.answers + [OpAnswer(w.copy, t.userspaceID, w.done + 1, op)])
    case Call(e) =>
      var r := ImportOne(lib, e.clock(w.done), e.u, e.mode, w.copy, w.counts, e.records[w.done]);
      w.(copy := r.0, done := w.done + 1, counts := r.1)
  }

  function WorkAnswer(job: Job, w: Work): JobAnswer {
    match job
    case Execution(t, _) => Executed(OutcomeFrom(t, true, w.done, w.answers))
    case Call(_) => Responded(Imported(w.counts))
  }

  function Record(job: Job, w: Work): Transaction
    requires job.Execution?
  {
    Settled(job.t, OutcomeFrom(job.t, true, w.done, w.answers))
  }

  /** What is installed: the whole copy, transaction records included. */
  function Installed(job: Job, w: Work): Snapshot {
    if job.Execution? then SaveTxIn(w.copy, Record(job, w)) else w.copy
  }

  // ---- steps ----

  predicate Enabled(s: Server, i: int, a: Action) {
    match a
    case Arrive(e, order) =>
      PhaseOf(s, i).Idle? && (e.ExpireDue? ==> multiset(order) == multiset(s.store.txs.Keys))
    case Proceed =>
      match PhaseOf(s, i)
      case Idle => false
      case Queued(_) => s.holder == None
      case _ => true
  }

  function Moved(s: Server, i: int, p: Phase): Server {
    s.(threads := s.threads[i := p])
  }

  function Logged(s: Server, job: Job, answer: JobAnswer): Server {
    s.(log := s.log + [LogEntry(job, answer)])
  }

  function WorkStep(c: Config, s: Server, i: int, job: Job, base: Snapshot, w: Work): Server {
    if !Bulk(job) then s
    else if Stuck(job, w) then Moved(Logged(s, job, WorkAnswer(job, w)), i, Failing(Record(job, w)))
    else if w.done < Size(job) then Moved(s, i, Working(job, base, WorkOn(c.lib, job, w)))
    else Moved(Logged(s, job, WorkAnswer(job, w)).(store := Installed(job, w)), i, Releasing)
  }

  function HoldStep(c: Config, s: Server, i: int, job: Job): Server {
    if Bulk(job) then Moved(s, i, Working(job, s.store, Began(job, s.store)))
    else
      var r := Step(c, s.store, job.e);
      Moved(Logged(s, job, Responded(r.1)).(store := r.0), i, Releasing)
  }

  function Do(c: Config, s: Server, i: int, a: Action): Server {
    match a
    case Arrive(e, order) => Moved(s, i, Arrived(c, s.store, e, order))
    case Proceed =>
      match PhaseOf(s, i)
      case Idle => s
      case Saving(todo) =>
        if todo == [] then Moved(s, i, Idle)
        else Moved(s.(store := SaveTxIn(s.store, todo[0])), i, Saves(todo[1..]))
      case Queued(job) => Moved(s.(holder := Some(i), acquired := s.acquired + [job]), i, Holding(job))
      case Holding(job) => HoldStep(c, s, i, job)
      case Working(job, base, w) => WorkStep(c, s, i, job, base, w)
      case Failing(t) => Moved(s.(store := SaveTxIn(s.store, t)), i, Releasing)
      case Releasing => Moved(s.(holder := None), i, Idle)
  }

  /** A step of one goroutine, any of them, next. */
  datatype Move = Move(i: int, a: Action)

  /** Every move of the interleaving is possible when its turn comes. */
  predicate Possible(c: Config, s: Server, ms: seq<Move>) {
    ms == [] || (Possible(c, s, ms[..|ms| - 1])
                 && Enabled(Interleaved(c, s, ms[..|ms| - 1]), ms[|ms| - 1].i, ms[|ms| - 1].a))
  }

  function Interleaved(c: Config, s: Server, ms: seq<Move>): Server {
    if ms == [] then s
    else Do(c, Interleaved(c, s, ms[..|ms| - 1]), ms[|ms| - 1].i, ms[|ms| - 1].a)
  }
}
