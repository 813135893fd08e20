/** The transaction coordinator: its calls change the store step by step and are
    proved to do what module CoordinatorSpec says. Each call is given the clock
    readings it takes: `now` for the deadline, `clock(0)` for the arrival time,
    `clock(n)` for a write made by operation n. */
module Coordinator {
  import opened Model
  import opened StoreSpec
  import opened Storage
  import opened TxDigest
  import opened CoordinatorSpec

  /** The records when a sweep has yet to visit `rest`. */
  function SweptBut(txs: map<Str, Transaction>, now: Str -> Time, rest: set<Str>): map<Str, Transaction> {
    map id | id in txs :: if id !in rest && Overdue(txs[id], now(id)) then Expire(txs[id]) else txs[id]
  }

  function DueBut(txs: map<Str, Transaction>, now: Str -> Time, rest: set<Str>): set<Str> {
    set id | id in txs && id !in rest && Overdue(txs[id], now(id))
  }

  lemma SweptNext(txs: map<Str, Transaction>, now: Str -> Time, rest: set<Str>, id: Str)
    requires id in rest && id in txs
    ensures SweptBut(txs, now, rest - {id}) ==
            SweptBut(txs, now, rest)[id := if Overdue(txs[id], now(id)) then Expire(txs[id]) else txs[id]]
    ensures SweptBut(txs, now, rest)[id := txs[id]] == SweptBut(txs, now, rest)
  {
  }

  lemma DueNext(txs: map<Str, Transaction>, now: Str -> Time, rest: set<Str>, id: Str)
    requires id in rest && id in txs
    ensures id !in DueBut(txs, now, rest)
    ensures DueBut(txs, now, rest - {id}) ==
            DueBut(txs, now, rest) + if Overdue(txs[id], now(id)) then {id} else {}
  {
  }

  class Coordinator {
    const store: Store
    const lock: Serializable
    const cfg: Config

    constructor (store: Store, lock: Serializable, cfg: Config)
      ensures this.store == store && this.lock == lock && this.cfg == cfg
    {
      this.store, this.lock, this.cfg := store, lock, cfg;
    }

    method CreateTx(p: Principal, totalOps: int, requestedTimeout: Time, requested: Str, drawn: Str, now: Time)
        returns (r: Result<Transaction, TxError>)
      modifies store
      ensures (store.data, r) ==
              CreateTxIn(cfg, old(store.data), p, totalOps, requestedTimeout, requested, drawn, now)
    {
      if totalOps <= 0 || totalOps > cfg.maxOps {
        return Err(ErrInvalidTx);
      }
      var timeout := requestedTimeout;
      if timeout <= 0 {
        timeout := cfg.defaultTimeout;
      }
      if timeout > cfg.maxTimeout {
        return Err(ErrInvalidTx);
      }
      var txID := requested;
      if txID == [] {
        txID := drawn;
      } else if !ValidTxID(txID) {
        return Err(ErrInvalidTx);
      }
      var existing := store.GetTx(txID);
      if existing.Some? {
        var t := existing.value;
        if t.userID == p.userID && t.userspaceID == p.userspaceID && t.totalOps == totalOps {
          return Ok(t);
        }
        return Err(ErrInvalidTx);
      }
      var t := NewTx(txID, p, totalOps, now, timeout);
      store.SaveTx(t);
      return Ok(t);
    }

    method AddOp(p: Principal, txID: Str, input: TxOperation, now: Time, clock: Clock) returns (reply: Reply)
      requires !lock.held
      modifies store, lock
      ensures !lock.held
      ensures (store.data, reply) == Carry(cfg.lib, clock, old(store.data),
                AddOpDecision(cfg, old(store.data), p, txID, input, now, clock(0)))
    {
      var loaded := LoadOwned(store.data, p, txID);
      if loaded.Err? {
        return Failed(loaded.error);
      }
      var t := loaded.value;
      var closed;
      t, closed := Mutable(t, now);
      if closed.Some? {
        return Failed(closed.value);
      }
      if input.seqNo < 1 || input.seqNo > t.totalOps || input.opID == [] {
        return Failed(ErrInvalidTx);
      }
      var op := Filing(cfg.lib, txID, input, clock(0));
      if op.seqNo in t.ops {
        if SameOp(t.ops[op.seqNo], op) {
          var status := Report(t);
          return Reply(Some(status), t.result, None);
        }
        t := t.(status := Aborted, abortReason := SeqConflict);
        store.SaveTx(t);
        return Failed(ErrSeqConflict);
      }
      t := t.(ops := t.ops[op.seqNo := op]);
      if t.commitReceived && |t.ops| == t.totalOps {
        var res, error := ExecuteTx(t, clock);
        var status := Report(t);
        return Reply(Some(status), res, error);
      }
      if t.commitReceived {
        t := t.(status := WaitingForOps);
      } else {
        t := t.(status := Pending);
      }
      store.SaveTx(t);
      var status := Report(t);
      return Reply(Some(status), None, None);
    }

    method Commit(p: Principal, txID: Str, totalOps: int, digest: Str, now: Time, clock: Clock) returns (reply: Reply)
      requires !lock.held
      modifies store, lock
      ensures !lock.held
      ensures (store.data, reply) == Carry(cfg.lib, clock, old(store.data),
                CommitDecision(old(store.data), p, txID, totalOps, digest, now))
    {
      var loaded := LoadOwned(store.data, p, txID);
      if loaded.Err? {
        return Failed(loaded.error);
      }
      var t := loaded.value;
      if t.status == Committed {
        var status := Report(t);
        return Reply(Some(status), t.result, None);
      }
      var closed;
      t, closed := Mutable(t, now);
      if closed.Some? {
        return Failed(closed.value);
      }
      if totalOps != 0 && totalOps != t.totalOps {
        return Failed(ErrInvalidTx);
      }
      t := t.(commitReceived := true);
      t := t.(txDigest := digest);
      if |t.ops| < t.totalOps {
        t := t.(status := WaitingForOps);
        store.SaveTx(t);
        var status := Report(t);
        return Reply(Some(status), None, None);
      }
      var res, error := ExecuteTx(t, clock);
      var status := Report(t);
      return Reply(Some(status), res, error);
    }

    /** The progress report: which fragments are there and which are missing. */
    method Report(t: Transaction) returns (s: Status)
      ensures s == StatusOf(t)
    {
      var received, missing := [], [];
      for i := 1 to t.totalOps + 1
        invariant received == ReceivedSeq(t.ops, i - 1)
        invariant missing == MissingSeq(t.ops, i - 1)
      {
        if i in t.ops {
          received := received + [i];
        } else {
          missing := missing + [i];
        }
      }
      return Status(t.txID, t.status, t.totalOps, t.deadline, received, missing);
    }

    method Abort(p: Principal, txID: Str) returns (reply: Reply)
      modifies store
      ensures forall clock: Clock :: (store.data, reply) ==
                Carry(cfg.lib, clock, old(store.data), AbortDecision(old(store.data), p, txID))
    {
      var loaded := LoadOwned(store.data, p, txID);
      if loaded.Err? {
        return Failed(loaded.error);
      }
      var t := loaded.value;
      if t.status == Committed {
        return Failed(ErrAlreadyCommitted);
      }
      t := t.(status := Aborted);
      t := t.(abortReason := ClientAborted);
      store.SaveTx(t);
      var status := Report(t);
      return Reply(Some(status), None, None);
    }

    method GetResult(p: Principal, txID: Str, now: Time) returns (reply: Reply)
      modifies store
      ensures forall clock: Clock :: (store.data, reply) ==
                Carry(cfg.lib, clock, old(store.data), GetResultDecision(old(store.data), p, txID, now))
    {
      var loaded := LoadOwned(store.data, p, txID);
      if loaded.Err? {
        return Failed(loaded.error);
      }
      var t, _ := ExpireIfNeeded(loaded.value, now);
      var status := Report(t);
      return Reply(Some(status), t.result, None);
    }

    /** One sweep; `now(id)` is the clock reading taken for transaction id. */
    method ExpireDue(now: Str -> Time) returns (count: nat)
      requires forall id :: id in store.data.txs ==> store.data.txs[id].txID == id
      modifies store
      ensures store.data == ExpireDueIn(old(store.data), now)
      ensures count == |DueTxs(old(store.data), now)|
    {
      var txs := store.data.txs;
      var ids := txs.Keys;
      ghost var was := store.data;
      ghost var due: set<Str> := {};
      count := 0;
      while ids != {}
        invariant ids <= txs.Keys && was.txs == txs
        invariant store.data == was.(txs := SweptBut(txs, now, ids))
        invariant due == DueBut(txs, now, ids) && count == |due|
        decreases ids
      {
        var id :| id in ids;
        var t, expired := ExpireIfNeeded(txs[id], now(id));
        SweptNext(txs, now, ids, id);
        DueNext(txs, now, ids, id);
        if expired {
          count := count + 1;
          due := due + {id};
        }
        ids := ids - {id};
      }
      assert due == DueTxs(was, now);
    }

    method ExpireIfNeeded(loaded: Transaction, now: Time) returns (t: Transaction, expired: bool)
      modifies store
      ensures expired == Overdue(loaded, now)
      ensures t == if expired then Expire(loaded) else loaded
      ensures store.data == if expired then SaveTxIn(old(store.data), t) else old(store.data)
    {
      t := loaded;
      if (t.status == Pending || t.status == WaitingForOps) && now > t.deadline {
        t := t.(status := Expired);
        store.SaveTx(t);
        return t, true;
      }
      return t, false;
    }

    method Mutable(loaded: Transaction, now: Time) returns (t: Transaction, error: Option<TxError>)
      modifies store
      ensures Overdue(loaded, now) ==>
                t == Expire(loaded) && error == Some(ErrExpired) && store.data == SaveTxIn(old(store.data), t)
      ensures !Overdue(loaded, now) ==> t == loaded && error == Closed(loaded) && store.data == old(store.data)
    {
      var expired;
      t, expired := ExpireIfNeeded(loaded, now);
      if expired {
        return t, Some(ErrExpired);
      }
      match t.status
      case Aborted => return t, Some(ErrAborted);
      case Expired => return t, Some(ErrExpired);
      case Committed => return t, Some(ErrAlreadyCommitted);
      case _ => return t, None;
    }

    /** Run a complete transaction under the global lock on a private copy of the
        store, and install the copy if every operation succeeds. */
    method ExecuteTx(loaded: Transaction, clock: Clock) returns (result: Option<TxResult>, error: Option<TxError>)
      requires !lock.held
      modifies store, lock
      ensures !lock.held
      ensures store.data == ExecuteIn(cfg.lib, clock, old(store.data), loaded)
      ensures result == OutcomeOf(cfg.lib, clock, old(store.data), loaded).returned
      ensures error == OutcomeOf(cfg.lib, clock, old(store.data), loaded).error
    {
      var t := loaded;
      if t.txDigest != [] {
        var digest := ComputeDigest(cfg.lib, t);
        if t.txDigest != digest {
          t := t.(status := Aborted, abortReason := DigestMismatch);
          store.SaveTx(t);
          return None, Some(ErrAborted);
        }
      }
      lock.Lock();
      var atx := store.BeginAtomic();
      result, error := RunOps(atx, t, clock);
      lock.Unlock();
    }

    method RunOps(atx: AtomicTx, loaded: Transaction, clock: Clock)
        returns (result: Option<TxResult>, error: Option<TxError>)
      requires atx.store == store && atx.data == store.data && !atx.done
      requires DigestOk(cfg.lib, loaded)
      modifies store, atx
      ensures store.data == ExecuteIn(cfg.lib, clock, old(store.data), loaded)
      ensures result == OutcomeOf(cfg.lib, clock, old(store.data), loaded).returned
      ensures error == OutcomeOf(cfg.lib, clock, old(store.data), loaded).error
    {
      var t := loaded.(status := Committing);
      var results, passed, item := RunUntilFailure(atx, t, clock);
      if passed < t.totalOps {
        atx.Rollback();
        result, error := Drop(loaded, clock, results, passed, item);
        return;
      }
      t := t.(status := Committed, result := Some(TxResult(t.txID, Committed, results)));
      atx.SaveTx(t);
      var _ := atx.Commit();
      return t.result, None;
    }

    /** The end of an execution whose operation passed + 1 failed. */
    method Drop(loaded: Transaction, clock: Clock, results: seq<TxOperationResult>, passed: nat,
                item: TxOperationResult)
        returns (result: Option<TxResult>, error: Option<TxError>)
      requires DigestOk(cfg.lib, loaded) && passed < loaded.totalOps
      requires passed == Passed(cfg.lib, clock, store.data, loaded.userspaceID, loaded.ops, loaded.totalOps, 0)
      requires results == Answers(cfg.lib, clock, store.data, loaded.userspaceID, loaded.ops, passed)
      requires item == FailedItem(passed + 1, OpAt(loaded.ops, passed + 1))
      modifies store
      ensures store.data == ExecuteIn(cfg.lib, clock, old(store.data), loaded)
      ensures result == OutcomeOf(cfg.lib, clock, old(store.data), loaded).returned
      ensures error == OutcomeOf(cfg.lib, clock, old(store.data), loaded).error
    {
      var t := loaded.(status := Aborted);
      if !KnownType(OpAt(t.ops, passed + 1)) {
        t := t.(abortReason := InvalidOp);
        store.SaveTx(t);
        return None, Some(ErrInvalidTx);
      }
      t := t.(abortReason := MissingKey, result := Some(TxResult(t.txID, Aborted, results + [item])));
      store.SaveTx(t);
      return t.result, Some(ErrNotFound);
    }

    /** The loop over the operations: it stops at the first that fails. */
    method RunUntilFailure(atx: AtomicTx, t: Transaction, clock: Clock)
        returns (results: seq<TxOperationResult>, passed: nat, item: TxOperationResult)
      modifies atx`data
      ensures passed == Passed(cfg.lib, clock, old(atx.data), t.userspaceID, t.ops, t.totalOps, 0)
      ensures atx.data == StateAfter(cfg.lib, clock, old(atx.data), t.userspaceID, t.ops, passed)
      ensures results == Answers(cfg.lib, clock, old(atx.data), t.userspaceID, t.ops, passed)
      ensures passed < t.totalOps ==> item == FailedItem(passed + 1, OpAt(t.ops, passed + 1))
    {
      ghost var d := atx.data;
      results := [];
      item := Item(0, NO_OP);
      passed := 0;
      while passed < t.totalOps
        invariant passed <= t.totalOps
        invariant atx.data == StateAfter(cfg.lib, clock, d, t.userspaceID, t.ops, passed)
        invariant results == Answers(cfg.lib, clock, d, t.userspaceID, t.ops, passed)
        invariant Passed(cfg.lib, clock, d, t.userspaceID, t.ops, t.totalOps, 0)
                  == Passed(cfg.lib, clock, d, t.userspaceID, t.ops, t.totalOps, passed)
      {
        var failed;
        item, failed := RunNext(atx, d, t, passed, clock);
        if failed {
          assert item == FailedItem(passed + 1, OpAt(t.ops, passed + 1));
          return;
        }
        results := results + [item];
        passed := passed + 1;
      }
    }

    /** Operation k + 1, after k have succeeded. */
    method RunNext(atx: AtomicTx, ghost d: Snapshot, t: Transaction, k: nat, clock: Clock)
        returns (item: TxOperationResult, failed: bool)
      requires atx.data == StateAfter(cfg.lib, clock, d, t.userspaceID, t.ops, k)
      modifies atx`data
      ensures failed == FailsAfter(cfg.lib, clock, d, t.userspaceID, t.ops, k)
      ensures failed ==> item == FailedItem(k + 1, OpAt(t.ops, k + 1)) && atx.data == old(atx.data)
      ensures !failed ==> atx.data == StateAfter(cfg.lib, clock, d, t.userspaceID, t.ops, k + 1)
      ensures !failed ==> Answers(cfg.lib, clock, d, t.userspaceID, t.ops, k + 1)
                          == Answers(cfg.lib, clock, d, t.userspaceID, t.ops, k) + [item]
    {
      item, failed := RunOp(atx, t.userspaceID, k + 1, OpAt(t.ops, k + 1), clock(k + 1));
    }

    /** One operation on the private copy. */
    method RunOp(atx: AtomicTx, u: Str, seqNo: int, op: TxOperation, now: Time)
        returns (item: TxOperationResult, failed: bool)
      modifies atx`data
      ensures failed == OpFails(old(atx.data), u, op)
      ensures !failed ==> atx.data == OpEffect(cfg.lib, now, old(atx.data), u, op)
                          && item == OpAnswer(old(atx.data), u, seqNo, op)
      ensures failed ==> atx.data == old(atx.data) && item == FailedItem(seqNo, op)
    {
      item := Item(seqNo, op);
      failed := false;
      if op.opType == OP_PUT {
        var rec := atx.Put(cfg.lib, now, u, op.key, op.body, op.contentType);
        item := item.(version := rec.version);
      } else if op.opType == OP_GET {
        var rec := atx.Get(u, op.key);
        if rec == None {
          return FailedItem(seqNo, op), true;
        }
        item := item.(contentType := rec.value.contentType, value := rec.value.value, version := rec.value.version);
      } else if op.opType == OP_HEAD {
        var rec := atx.Get(u, op.key);
        if rec == None {
          return FailedItem(seqNo, op), true;
        }
        item := item.(contentType := rec.value.contentType, version := rec.value.version);
      } else if op.opType == OP_EXISTS {
        var found := atx.Exists(u, op.key);
        if !found {
          item := item.(status := 404, error := KeyNotFound);
        }
      } else if op.opType == OP_DELETE {
        var version := atx.Delete(u, op.key);
        if version == None {
          return FailedItem(seqNo, op), true;
        }
        item := item.(status := 204, version := version.value);
      } else {
        return FailedItem(seqNo, op), true;
      }
    }
  }
}
