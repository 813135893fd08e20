/** What each transaction call answers and stores, case by case and field by field:
    who is refused and how, what a fragment, a commit, an abort and a query do to the
    record they find. */
module TxCalls {
  import opened Model
  import opened CoordinatorSpec
  import opened ExecutionLaws
  import opened AnswerLaws
  import opened System
  import opened Lifecycle
  import opened ExactlyOnce

  // ---- reports and records ----

  /** A progress report shows the record as it is. */
  ghost predicate Shows(s: Option<Status>, t: Transaction) {
    && s.Some?
    && s.value.txID == t.txID && s.value.status == t.status
    && s.value.totalOps == t.totalOps && s.value.deadline == t.deadline
    && Divides(s.value.receivedSeq, t.ops, t.totalOps, true)
    && Divides(s.value.missingSeq, t.ops, t.totalOps, false)
  }

  lemma StatusShows(t: Transaction)
    ensures Shows(Some(StatusOf(t)), t)
  {
    ReportDivides(t.ops, t.totalOps);
  }

  /** The two records agree on all that is fixed at creation. */
  predicate SameBirth(r: Transaction, t: Transaction) {
    && r.txID == t.txID && r.userID == t.userID && r.userspaceID == t.userspaceID
    && r.totalOps == t.totalOps && r.createdAt == t.createdAt && r.deadline == t.deadline
  }

  /** Only the status, and the reason given, of t differ in r. */
  predicate Restated(r: Transaction, t: Transaction, status: TxStatus, reason: AbortReason) {
    && SameBirth(r, t) && r.commitReceived == t.commitReceived && r.txDigest == t.txDigest
    && r.ops == t.ops && r.result == t.result && r.status == status && r.abortReason == reason
  }

  /** The call stored r in the place of the record under id, and did nothing else. */
  ghost predicate Stores(d: Snapshot, e: Snapshot, id: Str, r: Transaction) {
    && e.version == d.version && e.userspaces == d.userspaces
    && e.apiKeys == d.apiKeys && e.jwtSubjects == d.jwtSubjects
    && e.txs.Keys == d.txs.Keys + {id} && e.txs[id] == r
    && forall j :: j in d.txs && j != id ==> e.txs[j] == d.txs[j]
  }

  predicate Refused(answer: Response, error: TxError) {
    answer == Replied(Reply(None, None, Some(error)))
  }

  predicate Owns(p: Principal, t: Transaction) {
    p.userID == t.userID && p.userspaceID == t.userspaceID
  }

  predicate StillOpen(t: Transaction) {
    t.status == Pending || t.status == WaitingForOps
  }

  /** The owner calls on a record that is stored under its own identifier. */
  predicate OwnCall(d: Snapshot, e: Event) {
    && IsTxCall(e) && TargetOf(e) in d.txs && d.txs[TargetOf(e)].txID == TargetOf(e)
    && Owns(CallerOf(e), d.txs[TargetOf(e)])
  }

  /** The time at which a call compares the deadline; an abort does not. */
  function TimeOf(e: Event): Time
    requires e.AddOp? || e.Commit? || e.GetResult?
  {
    e.now
  }

  predicate Late(d: Snapshot, e: Event)
    requires IsTxCall(e)
  {
    !e.Abort? && TargetOf(e) in d.txs && StillOpen(d.txs[TargetOf(e)]) && TimeOf(e) > d.txs[TargetOf(e)].deadline
  }

  // ---- who is refused ----

  /** A call on an unknown identifier is not found, and one on a record of another
      user or another userspace is forbidden; neither changes anything. */
  lemma StrangersRefused(c: Config, d: Snapshot, e: Event)
    requires IsTxCall(e)
    ensures TargetOf(e) !in d.txs ==> Step(c, d, e).0 == d && Refused(Step(c, d, e).1, ErrTxNotFound)
    ensures TargetOf(e) in d.txs && !Owns(CallerOf(e), d.txs[TargetOf(e)]) ==>
              Step(c, d, e).0 == d && Refused(Step(c, d, e).1, ErrForbidden)
  {
    TxStep(c, d, e);
  }

  /** A fragment or a commit on an open record past its deadline stores it as expired
      and is refused. */
  lemma LateExpires(c: Config, d: Snapshot, e: Event)
    requires OwnCall(d, e) && Late(d, e) && !e.GetResult?
    ensures var (after, answer) := Step(c, d, e); var t := d.txs[TargetOf(e)];
            && Refused(answer, ErrExpired) && TargetOf(e) in after.txs
            && Stores(d, after, TargetOf(e), after.txs[TargetOf(e)])
            && Restated(after.txs[TargetOf(e)], t, Expired, t.abortReason)
  {
    TxStep(c, d, e);
  }

  /** On an aborted or expired record a fragment or a commit is refused as such; on a
      committed one a fragment is, and a commit answers the stored result. */
  lemma ClosedRefuses(c: Config, d: Snapshot, e: Event)
    requires OwnCall(d, e) && (e.AddOp? || e.Commit?)
    ensures var (after, answer) := Step(c, d, e); var t := d.txs[TargetOf(e)];
            && (t.status == Aborted ==> after == d && Refused(answer, ErrAborted))
            && (t.status == Expired ==> after == d && Refused(answer, ErrExpired))
            && (t.status == Committed && e.AddOp? ==> after == d && Refused(answer, ErrAlreadyCommitted))
            && (t.status == Committed && e.Commit? ==>
                  after == d && answer.Replied? && answer.reply.error == None && answer.reply.result == t.result
                  && Shows(answer.reply.status, t))
  {
    TxStep(c, d, e);
    StatusShows(d.txs[TargetOf(e)]);
  }

  // ---- execution ----

  /** The call executed r on the content it found: it answers the report of r, the
      result and the error of the outcome, and stores what the outcome says. */
  ghost predicate Executes(c: Config, d: Snapshot, e: Event, r: Transaction) {
    var (after, answer) := Step(c, d, e);
    var o := OutcomeOf(c.lib, ClockOf(e), d, r);
    && answer.Replied? && Shows(answer.reply.status, r)
    && answer.reply.result == o.returned && answer.reply.error == o.error
    && after.txs.Keys == d.txs.Keys + {r.txID}
    && (forall j :: j in d.txs && j != r.txID ==> after.txs[j] == d.txs[j])
    && var s := after.txs[r.txID];
       && SameBirth(s, r) && s.ops == r.ops && s.commitReceived == r.commitReceived && s.txDigest == r.txDigest
       && s.status == o.status && s.abortReason == o.reason && s.result == o.result
       && after.(txs := d.txs) ==
          if o.status == Committed then StateAfter(c.lib, ClockOf(e), d, r.userspaceID, r.ops, r.totalOps) else d
  }

  lemma DecisionExecutes(c: Config, d: Snapshot, e: Event, r: Transaction)
    requires IsTxCall(e) && DecisionOf(c, d, e) == Execute(r)
    ensures Executes(c, d, e, r)
  {
    TxStep(c, d, e);
    StatusShows(r);
    RecordAtEnd(c.lib, ClockOf(e), d, r);
    AllOrNothing(c.lib, ClockOf(e), d, r);
  }

  lemma DecisionStores(c: Config, d: Snapshot, e: Event, r: Transaction)
    requires IsTxCall(e) && DecisionOf(c, d, e).Save? && DecisionOf(c, d, e).t == r
    ensures var (after, answer) := Step(c, d, e);
            answer == Replied(DecisionOf(c, d, e).reply) && r.txID in after.txs && Stores(d, after, r.txID, r)
  {
    TxStep(c, d, e);
  }

  // ---- fragments ----

  /** The fragment as it is filed: with the identifier, the time of arrival and the
      checksum of its body, and else as sent. */
  predicate FiledAs(c: Config, e: Event, f: TxOperation)
    requires e.AddOp?
  {
    && f.txID == e.id && f.receivedAt == e.clock(0) && f.bodyHash == c.lib.checksum(e.op.body)
    && f.seqNo == e.op.seqNo && f.opID == e.op.opID && f.opType == e.op.opType && f.key == e.op.key
    && f.contentType == e.op.contentType && f.body == e.op.body
  }

  /** The fragment repeats what is filed: operation id, type, key, content type and
      the checksum of the body. */
  predicate Repeats(c: Config, e: Event, f: TxOperation)
    requires e.AddOp?
  {
    && e.op.opID == f.opID && e.op.opType == f.opType && e.op.key == f.key
    && e.op.contentType == f.contentType && c.lib.checksum(e.op.body) == f.bodyHash
  }

  /** A timely fragment of the owner on an open record. */
  predicate TimelyFragment(d: Snapshot, e: Event) {
    e.AddOp? && OwnCall(d, e) && StillOpen(d.txs[e.id]) && !Late(d, e)
  }

  predicate InRange(t: Transaction, op: TxOperation) {
    1 <= op.seqNo <= t.totalOps && op.opID != []
  }

  /** A fragment whose number is out of range, or without operation id, is refused. */
  lemma FragmentRefused(c: Config, d: Snapshot, e: Event)
    requires TimelyFragment(d, e) && !InRange(d.txs[e.id], e.op)
    ensures Step(c, d, e).0 == d && Refused(Step(c, d, e).1, ErrInvalidTx)
  {
    TxStep(c, d, e);
  }

  /** For a number that is used, the fragment is accepted in silence if it repeats what
      is filed; otherwise the record is stored as aborted, for the conflict. */
  lemma FragmentOnUsedNumber(c: Config, d: Snapshot, e: Event)
    requires TimelyFragment(d, e) && InRange(d.txs[e.id], e.op) && e.op.seqNo in d.txs[e.id].ops
    ensures var (after, answer) := Step(c, d, e); var t := d.txs[e.id];
            if Repeats(c, e, t.ops[e.op.seqNo]) then
              && after == d && answer.Replied? && answer.reply.error == None
              && answer.reply.result == t.result && Shows(answer.reply.status, t)
            else
              && Refused(answer, ErrSeqConflict) && e.id in after.txs
              && Stores(d, after, e.id, after.txs[e.id])
              && Restated(after.txs[e.id], t, Aborted, SeqConflict)
  {
    TxStep(c, d, e);
    StatusShows(d.txs[e.id]);
  }

  /** A new fragment is filed. If the commit was received and it is the last, the
      record is executed; otherwise it is stored, waiting if the commit was received,
      and the answer reports it. */
  lemma FragmentFiled(c: Config, d: Snapshot, e: Event) returns (f: TxOperation)
    requires TimelyFragment(d, e) && InRange(d.txs[e.id], e.op) && e.op.seqNo !in d.txs[e.id].ops
    ensures FiledAs(c, e, f)
    ensures var (after, answer) := Step(c, d, e); var t := d.txs[e.id];
            if t.commitReceived && |t.ops| + 1 == t.totalOps then
              Executes(c, d, e, t.(ops := t.ops[f.seqNo := f]))
            else
              && e.id in after.txs && Stores(d, after, e.id, after.txs[e.id])
              && answer.Replied? && answer.reply.error == None && answer.reply.result == None
              && Shows(answer.reply.status, after.txs[e.id])
              && var r := after.txs[e.id];
                 && SameBirth(r, t) && r.commitReceived == t.commitReceived && r.txDigest == t.txDigest
                 && r.result == t.result && r.abortReason == t.abortReason && r.ops == t.ops[f.seqNo := f]
                 && r.status == if t.commitReceived then WaitingForOps else Pending
  {
    var t := d.txs[e.id];
    f := Filing(c.lib, e.id, e.op, e.clock(0));
    var added := t.(ops := t.ops[f.seqNo := f]);
    assert |added.ops| == |t.ops| + 1 by {
      assert added.ops.Keys == t.ops.Keys + {f.seqNo};
    }
    if t.commitReceived && |t.ops| + 1 == t.totalOps {
      DecisionExecutes(c, d, e, added);
    } else {
      var waiting := added.(status := if t.commitReceived then WaitingForOps else Pending);
      DecisionStores(c, d, e, waiting);
      StatusShows(waiting);
    }
  }

  // ---- commits ----

  predicate TimelyCommit(d: Snapshot, e: Event) {
    e.Commit? && OwnCall(d, e) && StillOpen(d.txs[e.id]) && !Late(d, e)
  }

  /** The commit announces no size, or that of the record. */
  predicate RightSize(t: Transaction, e: Event)
    requires e.Commit?
  {
    e.totalOps == 0 || e.totalOps == t.totalOps
  }

  /** The record with the commit noted and its digest kept, to be executed or to wait. */
  predicate Noted(r: Transaction, t: Transaction, digest: Str) {
    && SameBirth(r, t) && r.ops == t.ops && r.result == t.result && r.abortReason == t.abortReason
    && r.commitReceived && r.txDigest == digest
  }

  /** A commit that announces another size is refused and changes nothing. */
  lemma WrongSizeRefused(c: Config, d: Snapshot, e: Event)
    requires TimelyCommit(d, e) && !RightSize(d.txs[e.id], e)
    ensures Step(c, d, e).0 == d && Refused(Step(c, d, e).1, ErrInvalidTx)
  {
    TxStep(c, d, e);
  }

  /** Any other timely commit is noted, with its digest: while fragments are missing
      the record is stored as waiting and reported; otherwise it is executed. */
  lemma CommitNoted(c: Config, d: Snapshot, e: Event) returns (r: Transaction)
    requires TimelyCommit(d, e) && RightSize(d.txs[e.id], e)
    ensures Noted(r, d.txs[e.id], e.digest)
    ensures var (after, answer) := Step(c, d, e); var t := d.txs[e.id];
            if |t.ops| < t.totalOps then
              && r.status == WaitingForOps && Stores(d, after, e.id, r)
              && answer.Replied? && answer.reply.error == None && answer.reply.result == None
              && Shows(answer.reply.status, r)
            else r.status == t.status && Executes(c, d, e, r)
  {
    var t := d.txs[e.id];
    r := t.(commitReceived := true, txDigest := e.digest);
    if |t.ops| < t.totalOps {
      r := r.(status := WaitingForOps);
      DecisionStores(c, d, e, r);
      StatusShows(r);
    } else {
      DecisionExecutes(c, d, e, r);
    }
  }

  /** A timely commit is refused without an execution exactly for a wrong size. */
  lemma RefusedIffWrongSize(c: Config, d: Snapshot, e: Event)
    requires TimelyCommit(d, e)
    ensures (Step(c, d, e).0 == d && Refused(Step(c, d, e).1, ErrInvalidTx) && !DecisionOf(c, d, e).Execute?) <==>
            !RightSize(d.txs[e.id], e)
  {
    if RightSize(d.txs[e.id], e) {
      var r := CommitNoted(c, d, e);
    } else {
      WrongSizeRefused(c, d, e);
    }
  }

  // ---- aborts and queries ----

  /** The owner's abort of a committed transaction is refused and changes nothing; any
      other is stored as aborted by the client and reported, and then, unless its
      userspace is deleted, it never commits. */
  lemma {:induction false} AbortCloses(c: Config, d: Snapshot, e: Event, es: seq<Event>)
    requires Inv(c, d) && e.Abort? && OwnCall(d, e)
    ensures var (after, answer) := Step(c, d, e); var t := d.txs[e.id];
            && (answer == Replied(Reply(None, None, Some(ErrAlreadyCommitted))) <==> t.status == Committed)
            && (t.status == Committed ==> after == d)
            && (t.status != Committed ==>
                  && e.id in after.txs && Stores(d, after, e.id, after.txs[e.id])
                  && Restated(after.txs[e.id], t, Aborted, ClientAborted)
                  && answer.Replied? && answer.reply.error == None && answer.reply.result == None
                  && Shows(answer.reply.status, after.txs[e.id])
                  && (!Deletes(es, t.userspaceID) ==>
                        Commits(c, after, es, e.id) == 0 && ClosedIn(Run(c, after, es), e.id)))
  {
    TxStep(c, d, e);
    var t := d.txs[e.id];
    if t.status != Committed {
      var r := t.(status := Aborted, abortReason := ClientAborted);
      DecisionStores(c, d, e, r);
      StatusShows(r);
      StepKeepsInv(c, d, e);
      if !Deletes(es, t.userspaceID) {
        ClosedForGood(c, Next(c, d, e), es, e.id);
      }
    }
  }

  /** The owner's query answers the record and its result; a record past its deadline
      is first stored as expired, and then reported so. */
  lemma QueryAnswers(c: Config, d: Snapshot, e: Event)
    requires e.GetResult? && OwnCall(d, e)
    ensures var (after, answer) := Step(c, d, e); var t := d.txs[e.id];
            && answer.Replied? && answer.reply.error == None && answer.reply.result == t.result
            && e.id in after.txs && Shows(answer.reply.status, after.txs[e.id])
            && if Late(d, e) then
                 Stores(d, after, e.id, after.txs[e.id]) && Restated(after.txs[e.id], t, Expired, t.abortReason)
               else after == d
  {
    TxStep(c, d, e);
    StatusShows(d.txs[e.id]);
    StatusShows(Next(c, d, e).txs[e.id]);
  }

  // ---- creation ----

  /** The lifetime that a creation asks for, or the default one if it asks for none. */
  function Lifetime(c: Config, e: Event): Time
    requires e.CreateTx?
  {
    if e.timeout > 0 then e.timeout else c.defaultTimeout
  }

  /** The size is within the limit, the lifetime too, and a requested identifier is
      well formed. */
  predicate Acceptable(c: Config, e: Event)
    requires e.CreateTx?
  {
    && 1 <= e.totalOps <= c.maxOps && Lifetime(c, e) <= c.maxTimeout
    && (e.requested != [] ==> ValidTxID(e.requested))
  }

  /** A creation is refused if it is not acceptable, or if its identifier is that of
      another owner's transaction or of one of another size; it answers a transaction
      of its own that is already there; otherwise it stores and answers a new one. */
  lemma CreationMakes(c: Config, d: Snapshot, e: Event)
    requires e.CreateTx?
    ensures var (after, answer) := Step(c, d, e);
            var id := if e.requested != [] then e.requested else e.drawn;
            if !Acceptable(c, e) then after == d && answer == Created(Err(ErrInvalidTx))
            else if id in d.txs then
              after == d && answer == if Owns(e.p, d.txs[id]) && d.txs[id].totalOps == e.totalOps
                                      then Created(Ok(d.txs[id])) else Created(Err(ErrInvalidTx))
            else
              && id in after.txs && answer == Created(Ok(after.txs[id])) && Stores(d, after, id, after.txs[id])
              && var t := after.txs[id];
                 && t.txID == id && Owns(e.p, t) && t.totalOps == e.totalOps && t.status == Pending
                 && t.createdAt == e.now && t.deadline == e.now + Lifetime(c, e)
                 && !t.commitReceived && t.txDigest == [] && t.ops == map[]
                 && t.result == None && t.abortReason == NoReason
  {
  }

  // ---- sweeps ----

  /** A sweep stores as expired exactly the open records it finds past their deadline,
      answers how many they are, and changes nothing else. */
  lemma SweepExpires(c: Config, d: Snapshot, e: Event)
    requires e.ExpireDue?
    ensures var (after, answer) := Step(c, d, e);
            && after.(txs := d.txs) == d && after.txs.Keys == d.txs.Keys
            && (forall id :: id in d.txs ==>
                  if StillOpen(d.txs[id]) && e.sweep(id) > d.txs[id].deadline
                  then Restated(after.txs[id], d.txs[id], Expired, d.txs[id].abortReason)
                  else after.txs[id] == d.txs[id])
            && answer == Swept(|set id | id in d.txs && StillOpen(d.txs[id]) && e.sweep(id) > d.txs[id].deadline|)
  {
    forall id | id in d.txs
      ensures if StillOpen(d.txs[id]) && e.sweep(id) > d.txs[id].deadline
              then Restated(Next(c, d, e).txs[id], d.txs[id], Expired, d.txs[id].abortReason)
              else Next(c, d, e).txs[id] == d.txs[id]
    {
      OneExpires(d, e.sweep, id);
    }
    DueAre(d, e.sweep);
  }

  lemma OneExpires(d: Snapshot, sweep: Str -> Time, id: Str)
    requires id in d.txs
    ensures id in ExpireDueIn(d, sweep).txs
    ensures var t, s := d.txs[id], ExpireDueIn(d, sweep).txs[id];
            if StillOpen(t) && sweep(id) > t.deadline then Restated(s, t, Expired, t.abortReason) else s == t
  {
  }

  lemma DueAre(d: Snapshot, sweep: Str -> Time)
    ensures DueTxs(d, sweep) == set id | id in d.txs && StillOpen(d.txs[id]) && sweep(id) > d.txs[id].deadline
  {
  }
}
