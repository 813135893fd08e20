/** What the transaction coordinator's calls do, as functions of the store's
    content. A call loads one record and decides; its decision is to answer,
    to save a changed record, or to execute the transaction. */
module CoordinatorSpec {
  import opened Model
  import opened StoreSpec
  import opened TxDigest

  datatype TxError =
    | ErrInvalidTx | ErrForbidden | ErrSeqConflict | ErrAlreadyCommitted
    | ErrAborted | ErrExpired | ErrTxNotFound | ErrNotFound

  datatype Config = Config(lib: Library, maxOps: int, defaultTimeout: Time, maxTimeout: Time)

  datatype Status = Status(txID: Str, status: TxStatus, totalOps: nat, deadline: Time,
                           receivedSeq: seq<int>, missingSeq: seq<int>)

  datatype Reply = Reply(status: Option<Status>, result: Option<TxResult>, error: Option<TxError>)

  datatype Decision =
    | Answer(reply: Reply)
    | Save(t: Transaction, reply: Reply)
    | Execute(t: Transaction)

  function Failed(e: TxError): Reply {
    Reply(None, None, Some(e))
  }

  // ---- progress report ----

  function ReceivedSeq(ops: map<int, TxOperation>, n: nat): seq<int> {
    if n == 0 then [] else ReceivedSeq(ops, n - 1) + if n in ops then [n] else []
  }

  function MissingSeq(ops: map<int, TxOperation>, n: nat): seq<int> {
    if n == 0 then [] else MissingSeq(ops, n - 1) + if n in ops then [] else [n]
  }

  function StatusOf(t: Transaction): Status {
    Status(t.txID, t.status, t.totalOps, t.deadline, ReceivedSeq(t.ops, t.totalOps), MissingSeq(t.ops, t.totalOps))
  }

  // ---- guards ----

  function LoadOwned(d: Snapshot, p: Principal, id: Str): Result<Transaction, TxError> {
    if id !in d.txs then Err(ErrTxNotFound)
    else if d.txs[id].userID != p.userID || d.txs[id].userspaceID != p.userspaceID then Err(ErrForbidden)
    else Ok(d.txs[id])
  }

  /** Every record is stored under its own identifier. */
  predicate Keyed(txs: map<Str, Transaction>) {
    forall id :: id in txs ==> txs[id].txID == id
  }

  predicate Open(t: Transaction) {
    t.status == Pending || t.status == WaitingForOps
  }

  predicate Overdue(t: Transaction, now: Time) {
    Open(t) && now > t.deadline
  }

  function Expire(t: Transaction): Transaction {
    t.(status := Expired)
  }

  /** The error that a closed transaction answers to fragments and commits. */
  function Closed(t: Transaction): Option<TxError> {
    match t.status
    case Aborted => Some(ErrAborted)
    case Expired => Some(ErrExpired)
    case Committed => Some(ErrAlreadyCommitted)
    case _ => None
  }

  predicate SameOp(a: TxOperation, b: TxOperation) {
    a.opID == b.opID && a.opType == b.opType && a.key == b.key && a.contentType == b.contentType
    && a.bodyHash == b.bodyHash
  }

  // ---- calls ----

  predicate IsTxIDChar(b: byte) {
    IsAlnum(b) || b in [0x5F, 0x2E, 0x3A, 0x2D]
  }

  predicate ValidTxID(id: Str) {
    1 <= |id| <= 128 && forall i :: 0 <= i < |id| ==> IsTxIDChar(id[i])
  }

  function NewTx(id: Str, p: Principal, totalOps: nat, now: Time, timeout: Time): Transaction {
    Transaction(id, p.userID, p.userspaceID, totalOps, Pending, now, now + timeout, false, [], map[], None, NoReason)
  }

  /** `drawn` is the identifier the server would draw when none is requested. */
  function CreateTxIn(c: Config, d: Snapshot, p: Principal, totalOps: int, requestedTimeout: Time,
                      requested: Str, drawn: Str, now: Time): (Snapshot, Result<Transaction, TxError>) {
    var timeout := if requestedTimeout <= 0 then c.defaultTimeout else requestedTimeout;
    var id := if requested == [] then drawn else requested;
    if totalOps <= 0 || totalOps > c.maxOps || timeout > c.maxTimeout then (d, Err(ErrInvalidTx))
    else if requested != [] && !ValidTxID(requested) then (d, Err(ErrInvalidTx))
    else if id in d.txs then
      var t := d.txs[id];
      if t.userID == p.userID && t.userspaceID == p.userspaceID && t.totalOps == totalOps then (d, Ok(t))
      else (d, Err(ErrInvalidTx))
    else
      var t := NewTx(id, p, totalOps, now, timeout);
      (SaveTxIn(d, t), Ok(t))
  }

  /** A fragment as it is filed on arrival. */
  function Filing(lib: Library, id: Str, op: TxOperation, received: Time): TxOperation {
    op.(txID := id, receivedAt := received, bodyHash := lib.checksum(op.body))
  }

  function AddOpDecision(c: Config, d: Snapshot, p: Principal, id: Str, op: TxOperation,
                         now: Time, received: Time): Decision {
    match LoadOwned(d, p, id)
    case Err(e) => Answer(Failed(e))
    case Ok(t) => FragmentDecision(c, id, t, op, now, received)
  }

  /** What a fragment meets on a record that its owner has loaded. */
  function FragmentDecision(c: Config, id: Str, t: Transaction, op: TxOperation, now: Time, received: Time): Decision {
    if Overdue(t, now) then Save(Expire(t), Failed(ErrExpired))
    else if Closed(t).Some? then Answer(Failed(Closed(t).value))
    else if op.seqNo < 1 || op.seqNo > t.totalOps || op.opID == [] then Answer(Failed(ErrInvalidTx))
    else AddFragment(t, Filing(c.lib, id, op, received))
  }

  function AddFragment(t: Transaction, op: TxOperation): Decision {
    if op.seqNo in t.ops then
      if SameOp(t.ops[op.seqNo], op) then Answer(Reply(Some(StatusOf(t)), t.result, None))
      else Save(t.(status := Aborted, abortReason := SeqConflict), Failed(ErrSeqConflict))
    else
      var added := t.(ops := t.ops[op.seqNo := op]);
      if added.commitReceived && |added.ops| == added.totalOps then Execute(added)
      else
        var waiting := added.(status := if added.commitReceived then WaitingForOps else Pending);
        Save(waiting, Reply(Some(StatusOf(waiting)), None, None))
  }

  function CommitDecision(d: Snapshot, p: Principal, id: Str, totalOps: int, digest: Str, now: Time): Decision {
    match LoadOwned(d, p, id)
    case Err(e) => Answer(Failed(e))
    case Ok(t) => CommitOn(t, totalOps, digest, now)
  }

  /** What a commit meets on a record that its owner has loaded. */
  function CommitOn(t: Transaction, totalOps: int, digest: Str, now: Time): Decision {
    if t.status == Committed then Answer(Reply(Some(StatusOf(t)), t.result, None))
    else if Overdue(t, now) then Save(Expire(t), Failed(ErrExpired))
    else if Closed(t).Some? then Answer(Failed(Closed(t).value))
    else if totalOps != 0 && totalOps != t.totalOps then Answer(Failed(ErrInvalidTx))
    else
      var told := t.(commitReceived := true, txDigest := digest);
      if |told.ops| < told.totalOps then
        var waiting := told.(status := WaitingForOps);
        Save(waiting, Reply(Some(StatusOf(waiting)), None, None))
      else Execute(told)
  }

  function AbortDecision(d: Snapshot, p: Principal, id: Str): Decision {
    match LoadOwned(d, p, id)
    case Err(e) => Answer(Failed(e))
    case Ok(t) =>
      if t.status == Committed then Answer(Failed(ErrAlreadyCommitted))
      else
        var aborted := t.(status := Aborted, abortReason := ClientAborted);
        Save(aborted, Reply(Some(StatusOf(aborted)), None, None))
  }

  function GetResultDecision(d: Snapshot, p: Principal, id: Str, now: Time): Decision {
    match LoadOwned(d, p, id)
    case Err(e) => Answer(Failed(e))
    case Ok(t) =>
      if Overdue(t, now) then Save(Expire(t), Reply(Some(StatusOf(Expire(t))), t.result, None))
      else Answer(Reply(Some(StatusOf(t)), t.result, None))
  }

  /** The clock is read once per transaction swept. */
  function ExpireDueIn(d: Snapshot, now: Str -> Time): Snapshot {
    d.(txs := map id | id in d.txs :: if Overdue(d.txs[id], now(id)) then Expire(d.txs[id]) else d.txs[id])
  }

  function DueTxs(d: Snapshot, now: Str -> Time): set<Str> {
    set id | id in d.txs && Overdue(d.txs[id], now(id))
  }

  // ---- execution ----

  /** Whether an operation of userspace u fails on the content it meets. */
  predicate OpFails(d: Snapshot, u: Str, op: TxOperation) {
    if op.opType == OP_PUT then false
    else if op.opType == OP_GET || op.opType == OP_HEAD then GetFrom(d, u, op.key) == None
    else if op.opType == OP_EXISTS then false
    else if op.opType == OP_DELETE then GetFrom(d, u, op.key) == None
    else true
  }

  predicate KnownType(op: TxOperation) {
    || op.opType == OP_PUT || op.opType == OP_GET || op.opType == OP_HEAD
    || op.opType == OP_EXISTS || op.opType == OP_DELETE
  }

  function OpEffect(lib: Library, now: Time, d: Snapshot, u: Str, op: TxOperation): Snapshot {
    if op.opType == OP_PUT then PutInto(lib, now, d, u, op.key, op.body, op.contentType)
    else if op.opType == OP_GET || op.opType == OP_HEAD || op.opType == OP_EXISTS then d
    else if op.opType == OP_DELETE && GetFrom(d, u, op.key).Some? then DeleteFrom(d, u, op.key)
    else d
  }

  function Item(n: int, op: TxOperation): TxOperationResult {
    TxOperationResult(n, op.opType, 200, op.key, [], [], 0, NoItemError)
  }

  /** What a successful operation answers, from the content it meets. */
  function OpAnswer(d: Snapshot, u: Str, n: int, op: TxOperation): TxOperationResult {
    var rec := GetFrom(d, u, op.key);
    if op.opType == OP_PUT then Item(n, op).(version := d.version + 1)
    else if op.opType == OP_GET && rec.Some? then
      Item(n, op).(contentType := rec.value.contentType, value := rec.value.value, version := rec.value.version)
    else if op.opType == OP_HEAD && rec.Some? then
      Item(n, op).(contentType := rec.value.contentType, version := rec.value.version)
    else if op.opType == OP_EXISTS then
      if rec.Some? then Item(n, op) else Item(n, op).(status := 404, error := KeyNotFound)
    else Item(n, op).(status := 204, version := d.version + 1)
  }

  function FailedItem(n: int, op: TxOperation): TxOperationResult {
    Item(n, op).(status := 404, error := KeyNotFound)
  }

  /** The content after operations 1..k. */
  function StateAfter(lib: Library, clock: Clock, d: Snapshot, u: Str, ops: map<int, TxOperation>, k: nat): Snapshot {
    if k == 0 then d
    else OpEffect(lib, clock(k), StateAfter(lib, clock, d, u, ops, k - 1), u, OpAt(ops, k))
  }

  /** The answers of operations 1..k. */
  function Answers(lib: Library, clock: Clock, d: Snapshot, u: Str, ops: map<int, TxOperation>,
                   k: nat): seq<TxOperationResult> {
    if k == 0 then []
    else Answers(lib, clock, d, u, ops, k - 1)
         + [OpAnswer(StateAfter(lib, clock, d, u, ops, k - 1), u, k, OpAt(ops, k))]
  }

  /** Operation k + 1 fails on the content that operations 1..k leave. */
  predicate FailsAfter(lib: Library, clock: Clock, d: Snapshot, u: Str, ops: map<int, TxOperation>, k: nat) {
    OpFails(StateAfter(lib, clock, d, u, ops, k), u, OpAt(ops, k + 1))
  }

  /** How many of n operations succeed before the first that fails, `k` being known to. */
  function Passed(lib: Library, clock: Clock, d: Snapshot, u: Str, ops: map<int, TxOperation>, n: nat, k: nat): (r: nat)
    requires k <= n
    ensures k <= r <= n
    decreases n - k
  {
    if k == n || FailsAfter(lib, clock, d, u, ops, k) then k
    else Passed(lib, clock, d, u, ops, n, k + 1)
  }

  datatype Outcome = Outcome(status: TxStatus, reason: AbortReason, result: Option<TxResult>,
                             returned: Option<TxResult>, error: Option<TxError>)

  predicate DigestOk(lib: Library, t: Transaction) {
    t.txDigest == [] || t.txDigest == Digest(lib, t)
  }

  /** How executing t ends when k operations succeed with these answers.
      `result` is what is stored beside the status. */
  function OutcomeFrom(t: Transaction, digestOk: bool, k: nat, answers: seq<TxOperationResult>): Outcome {
    var op := OpAt(t.ops, k + 1);
    if !digestOk then Outcome(Aborted, DigestMismatch, t.result, None, Some(ErrAborted))
    else if k == t.totalOps then
      var res := Some(TxResult(t.txID, Committed, answers));
      Outcome(Committed, t.abortReason, res, res, None)
    else if KnownType(op) then
      var res := Some(TxResult(t.txID, Aborted, answers + [FailedItem(k + 1, op)]));
      Outcome(Aborted, MissingKey, res, res, Some(ErrNotFound))
    else Outcome(Aborted, InvalidOp, t.result, None, Some(ErrInvalidTx))
  }

  /** How executing t on content d ends. */
  function OutcomeOf(lib: Library, clock: Clock, d: Snapshot, t: Transaction): Outcome {
    var k := Passed(lib, clock, d, t.userspaceID, t.ops, t.totalOps, 0);
    OutcomeFrom(t, DigestOk(lib, t), k, Answers(lib, clock, d, t.userspaceID, t.ops, k))
  }

  /** The record stored at the end of an execution. */
  function Settled(t: Transaction, o: Outcome): Transaction {
    t.(status := o.status, abortReason := o.reason, result := o.result)
  }

  /** The content at the end of an execution: the whole effect, or none. */
  function ExecuteIn(lib: Library, clock: Clock, d: Snapshot, t: Transaction): Snapshot {
    var o := OutcomeOf(lib, clock, d, t);
    SaveTxIn(if o.status == Committed then StateAfter(lib, clock, d, t.userspaceID, t.ops, t.totalOps) else d,
             Settled(t, o))
  }

  /** Carry out a decision. */
  function Carry(lib: Library, clock: Clock, d: Snapshot, dec: Decision): (Snapshot, Reply) {
    match dec
    case Answer(reply) => (d, reply)
    case Save(t, reply) => (SaveTxIn(d, t), reply)
    case Execute(t) =>
      var o := OutcomeOf(lib, clock, d, t);
      (ExecuteIn(lib, clock, d, t), Reply(Some(StatusOf(t)), o.returned, o.error))
  }
}
