/** The server as a machine whose steps are whole calls, in any order, with any
    arguments and any clock readings. */
module System {
  import opened Model
  import opened StoreSpec
  import opened CoordinatorSpec

  datatype Event =
    | KvPut(u: Str, k: Str, v: Bytes, ct: Str, now: Time)
    | KvGet(u: Str, k: Str)
    | KvDelete(u: Str, k: Str)
    | Export(u: Str)
    | Import(u: Str, records: seq<KVRecord>, mode: ImportMode, clock: Clock)
    | CreateUserspace(u: Str, user: Str, hash: Str)
    | DeleteUserspace(u: Str)
    | RotateApiKey(u: Str, hash: Str, owner: Str)
    | CreateTx(p: Principal, totalOps: int, timeout: Time, requested: Str, drawn: Str, now: Time)
    | AddOp(p: Principal, id: Str, op: TxOperation, now: Time, clock: Clock)
    | Commit(p: Principal, id: Str, totalOps: int, digest: Str, now: Time, clock: Clock)
    | Abort(p: Principal, id: Str)
    | GetResult(p: Principal, id: Str, now: Time)
    | ExpireDue(sweep: Str -> Time)

  datatype Response =
    | Version(version: Option<nat>)
    | Found(rec: Option<KVRecord>)
    | Exported(space: Space)
    | Imported(res: ImportResult)
    | Administered(error: Option<StoreError>)
    | Created(r: Result<Transaction, TxError>)
    | Replied(reply: Reply)
    | Swept(count: nat)

  predicate IsTxCall(e: Event) {
    e.AddOp? || e.Commit? || e.Abort? || e.GetResult?
  }

  function DecisionOf(c: Config, d: Snapshot, e: Event): Decision
    requires IsTxCall(e)
  {
    match e
    case AddOp(p, id, op, now, clock) => AddOpDecision(c, d, p, id, op, now, clock(0))
    case Commit(p, id, totalOps, digest, now, _) => CommitDecision(d, p, id, totalOps, digest, now)
    case Abort(p, id) => AbortDecision(d, p, id)
    case GetResult(p, id, now) => GetResultDecision(d, p, id, now)
  }

  /** The identifier under which a transaction is to be created. */
  function IdOf(e: Event): Str
    requires e.CreateTx?
  {
    if e.requested == [] then e.drawn else e.requested
  }

  const NO_CLOCK: Clock := n => 0

  function ClockOf(e: Event): Clock {
    match e
    case AddOp(_, _, _, _, clock) => clock
    case Commit(_, _, _, _, _, clock) => clock
    case _ => NO_CLOCK
  }

  function Admin(d: Snapshot, r: Result<Snapshot, StoreError>): (Snapshot, Response) {
    match r
    case Ok(e) => (e, Administered(None))
    case Err(error) => (d, Administered(Some(error)))
  }

  /** One call: the content it leaves and what it answers. */
  function Step(c: Config, d: Snapshot, e: Event): (Snapshot, Response) {
    match e
    case KvPut(u, k, v, ct, now) => (PutInto(c.lib, now, d, u, k, v, ct), Version(Some(d.version + 1)))
    case KvGet(u, k) => (d, Found(GetFrom(d, u, k)))
    case KvDelete(u, k) =>
      if GetFrom(d, u, k) == None then (d, Version(None)) else (DeleteFrom(d, u, k), Version(Some(d.version + 1)))
    case Export(u) => (d, Exported(SpaceOf(d, u)))
    case Import(u, records, mode, clock) =>
      var r := ImportAll(c.lib, clock, d, u, records, mode);
      (r.0, Imported(r.1))
    case CreateUserspace(u, user, hash) => Admin(d, CreateSpace(d, u, user, hash))
    case DeleteUserspace(u) => Admin(d, DeleteSpace(d, u))
    case RotateApiKey(u, hash, owner) => Admin(d, RotateKey(d, u, hash, owner))
    case CreateTx(p, totalOps, timeout, requested, drawn, now) =>
      var r := CreateTxIn(c, d, p, totalOps, timeout, requested, drawn, now);
      (r.0, Created(r.1))
    case ExpireDue(sweep) => (ExpireDueIn(d, sweep), Swept(|DueTxs(d, sweep)|))
    case _ =>
      var r := Carry(c.lib, ClockOf(e), d, DecisionOf(c, d, e));
      (r.0, Replied(r.1))
  }

  function Next(c: Config, d: Snapshot, e: Event): Snapshot {
    Step(c, d, e).0
  }

  /** A transaction call carries out its decision. */
  lemma TxStep(c: Config, d: Snapshot, e: Event)
    requires IsTxCall(e)
    ensures var r := Carry(c.lib, ClockOf(e), d, DecisionOf(c, d, e));
            Step(c, d, e) == (r.0, Replied(r.1))
  {
  }

  function Init(es: seq<Event>): seq<Event>
    requires es != []
  {
    es[..|es| - 1]
  }

  function Last(es: seq<Event>): Event
    requires es != []
  {
    es[|es| - 1]
  }

  /** The content after a run of calls. */
  function Run(c: Config, d: Snapshot, es: seq<Event>): Snapshot {
    if es == [] then d else Next(c, Run(c, d, Init(es)), Last(es))
  }
}
