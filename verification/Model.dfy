/** The values that the server stores and passes around, and the library
    functions it calls whose results the model leaves open. */
module Model {

  /** An octet. */
  type byte = n: int | 0 <= n < 256

  type Bytes = seq<byte>

  /** A Go string is a sequence of octets. */
  type Str = seq<byte>

  /** Nanoseconds since the Unix epoch; any reading of the wall clock. */
  type Time = int

  /** The successive clock readings taken inside one call. */
  type Clock = nat -> Time

  /** A SHA-256 sum. */
  type Sum = s: seq<byte> | |s| == 32 witness seq(32, _ => 0)

  /** The octets of an ASCII literal. */
  function Ascii(s: string): (r: Str)
    ensures |r| == |s|
  {
    seq(|s|, i requires 0 <= i < |s| => (s[i] as int) % 256)
  }

  datatype Option<+T> = None | Some(value: T)

  datatype Result<+T, +E> = Ok(value: T) | Err(error: E) {
    predicate IsFailure() { Err? }

    function PropagateFailure<U>(): Result<U, E>
      requires Err?
    {
      Err(error)
    }

    function Extract(): T
      requires Ok?
    {
      value
    }
  }

  datatype ValueType = StringValue | JsonValue | BinaryValue

  /** Library code the server calls. Nothing is assumed of these functions
      beyond their types: no collision-freedom, no relation between them. */
  datatype Library = Library(
    sha256: Bytes -> Sum,
    checksum: Bytes -> Str,        // "sha256:" and the sum in hexadecimal
    validJson: Bytes -> bool,
    validUtf8: Bytes -> bool,
    valueType: Str -> ValueType)   // of a content type

  datatype AuthMethod = NoMethod | ViaApiKey | ViaJwt

  datatype Principal = Principal(userID: Str, userspaceID: Str, roles: seq<Str>, authMethod: AuthMethod)

  datatype KVRecord = KVRecord(
    userspaceID: Str,
    key: Str,
    value: Bytes,
    contentType: Str,
    valueType: ValueType,
    version: nat,
    createdAt: Time,
    updatedAt: Time,
    checksum: Str)

  /** 1 January of the year 1, the zero of Go's time.Time. */
  const ZERO_TIME: Time := -62135596800000000000

  datatype TxStatus = Pending | WaitingForOps | Ready | Committing | Committed | Aborted | Expired

  const OP_PUT: Str := Ascii("PUT")
  const OP_GET: Str := Ascii("GET")
  const OP_HEAD: Str := Ascii("HEAD")
  const OP_EXISTS: Str := Ascii("EXISTS")
  const OP_DELETE: Str := Ascii("DELETE")

  lemma OpTypesDiffer()
    ensures OP_PUT !in [OP_GET, OP_HEAD, OP_EXISTS, OP_DELETE]
    ensures OP_GET !in [OP_HEAD, OP_EXISTS, OP_DELETE]
    ensures OP_DELETE !in [OP_HEAD, OP_EXISTS] && OP_HEAD != OP_EXISTS
  {
    assert OP_PUT[0] == 0x50 && OP_GET[0] == 0x47 && OP_HEAD[0] == 0x48 && OP_EXISTS[0] == 0x45 && OP_DELETE[0] == 0x44;
  }

  datatype TxOperation = TxOperation(
    txID: Str,
    seqNo: int,
    opID: Str,
    opType: Str,
    key: Str,
    contentType: Str,
    body: Bytes,
    bodyHash: Str,
    receivedAt: Time)

  /** The zero TxOperation, which a Go map lookup yields for a missing key. */
  const NO_OP: TxOperation := TxOperation([], 0, [], [], [], [], [], [], ZERO_TIME)

  datatype ItemError = NoItemError | KeyNotFound

  /** The result of one operation; `value` is what the server sends in base64. */
  datatype TxOperationResult = TxOperationResult(
    seqNo: int,
    op: Str,
    status: int,
    key: Str,
    contentType: Str,
    value: Bytes,
    version: nat,
    error: ItemError)

  datatype TxResult = TxResult(txID: Str, status: TxStatus, results: seq<TxOperationResult>)

  datatype AbortReason = NoReason | SeqConflict | ClientAborted | DigestMismatch | MissingKey | InvalidOp

  datatype Transaction = Transaction(
    txID: Str,
    userID: Str,
    userspaceID: Str,
    totalOps: nat,
    status: TxStatus,
    createdAt: Time,
    deadline: Time,
    commitReceived: bool,
    txDigest: Str,
    ops: map<int, TxOperation>,
    result: Option<TxResult>,
    abortReason: AbortReason)

  datatype ImportMode = Replace | MergeOverwrite | MergeSkip

  datatype ImportResult = ImportResult(imported: nat, skipped: nat, replaced: nat)

  datatype APIKeyRecord = APIKeyRecord(hash: Str, principal: Principal, active: bool)

  datatype JWTSubjectRecord = JWTSubjectRecord(subject: Str, principal: Principal, active: bool)

  type Space = map<Str, KVRecord>

  /** The whole content of the store. */
  datatype Snapshot = Snapshot(
    version: nat,
    userspaces: map<Str, Space>,
    apiKeys: map<Str, APIKeyRecord>,
    jwtSubjects: map<Str, JWTSubjectRecord>,
    txs: map<Str, Transaction>)

  const EMPTY_SNAPSHOT: Snapshot := Snapshot(0, map[], map[], map[], map[])
}
