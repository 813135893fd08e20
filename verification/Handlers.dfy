/** The HTTP handlers of values, transaction fragments, exports, imports and
    administration: what they refuse before touching anything, and that otherwise
    they are one call of the server, followed by an emptied authentication cache
    when the key tables may have changed. */
module Handlers {
  import opened Model
  import opened StoreSpec
  import opened Storage
  import opened CoordinatorSpec
  import opened System
  import opened CodecSpec
  import opened Admission
  import Codec
  import AuthCache
  import Coordinator

  datatype Verb = PUT | GET | HEAD | DELETE | OtherVerb

  /** The fragment that a request describes; only a PUT has a body. */
  function Fragment(n: int, opType: Str, k: Str, opID: Str, contentType: Str, sent: Bytes): TxOperation {
    var op := NO_OP.(seqNo := n, opID := opID, opType := opType, key := k);
    if opType == OP_PUT then op.(contentType := TypeOrDefault(contentType), body := sent) else op
  }

  const OP_TYPES: seq<Str> := [OP_PUT, OP_GET, OP_HEAD, OP_EXISTS, OP_DELETE]

  /** A request for a fragment that names no key, no operation id or no operation,
      or declares a body where there is none, is malformed. */
  predicate OpMalformed(lib: Library, maxKey: int, opType: Str, k: Str, opID: Str, length: int) {
    || !ValidKey(lib, k, maxKey) || opID == [] || opType !in OP_TYPES
    || (opType != OP_PUT && length > 0)
  }

  /** The status code with which a fragment is refused before it is considered. */
  function OpRefusal(lib: Library, maxKey: int, maxValue: int, opType: Str, k: Str, opID: Str, contentType: Str,
                     sent: Bytes, length: int): Option<int> {
    if OpMalformed(lib, maxKey, opType, k, opID, length) then Some(400)
    else if opType == OP_PUT && (sent == [] || TooLarge(maxValue, sent)) then Some(413)
    else if opType == OP_PUT && !ValidValue(lib, TypeOrDefault(contentType), sent) then Some(422)
    else None
  }

  /** The server's content and answer are those of call e on the content before. */
  ghost predicate Serves(c: Config, was: Snapshot, now: Snapshot, e: Event, answer: Response) {
    (now, answer) == Step(c, was, e)
  }

  class Server {
    const cfg: Config
    const maxKey: int
    const maxValue: int
    const store: Store
    const lock: Serializable
    const auth: AuthCache.Authenticator
    const tx: Coordinator.Coordinator

    constructor (cfg: Config, maxKey: int, maxValue: int, store: Store, lock: Serializable,
                 auth: AuthCache.Authenticator, tx: Coordinator.Coordinator)
      ensures this.cfg == cfg && this.maxKey == maxKey && this.maxValue == maxValue
      ensures this.store == store && this.lock == lock && this.auth == auth && this.tx == tx
    {
      this.cfg, this.maxKey, this.maxValue := cfg, maxKey, maxValue;
      this.store, this.lock, this.auth, this.tx := store, lock, auth, tx;
    }

    /** The coordinator works on this server's store, under its lock. */
    ghost predicate Wired() {
      tx.store == store && tx.lock == lock && tx.cfg == cfg
    }

    /** Every access to a value checks the key first; only an admitted value is stored. */
    method HandleKV(verb: Verb, u: Str, k: Str, sent: Bytes, contentType: Str, now: Time)
        returns (code: int, answer: Response)
      requires !lock.held
      modifies store, lock
      ensures !lock.held
      ensures code == 400 <==> !ValidKey(cfg.lib, k, maxKey)
      ensures code in {400, 405} ==> store.data == old(store.data)
      ensures code != 400 ==>
                match verb
                case PUT =>
                  var e := KvPut(u, k, sent, TypeOrDefault(contentType), now);
                  if Admitted(cfg.lib, maxKey, maxValue, e)
                  then code == 200 && Serves(cfg, old(store.data), store.data, e, answer)
                  else code == (if TooLarge(maxValue, sent) then 413 else 422) && store.data == old(store.data)
                case DELETE =>
                  && Serves(cfg, old(store.data), store.data, KvDelete(u, k), answer)
                  && code == if GetFrom(old(store.data), u, k).Some? then 204 else 404
                case OtherVerb => code == 405
                case _ =>
                  && Serves(cfg, old(store.data), store.data, KvGet(u, k), answer)
                  && code == if GetFrom(store.data, u, k).Some? then 200 else 404
    {
      answer := Version(None);
      if k == [] || |k| > maxKey || !cfg.lib.validUtf8(k) {
        return 400, answer;
      }
      match verb
      case PUT => code, answer := HandlePut(u, k, sent, contentType, now);
      case GET => code, answer := HandleGet(u, k);
      case HEAD => code, answer := HandleGet(u, k);
      case DELETE => code, answer := HandleDelete(u, k);
      case OtherVerb => code := 405;
    }

    /** A body longer than the limit on values is not read to its end. */
    method HandlePut(u: Str, k: Str, sent: Bytes, contentType: Str, now: Time) returns (code: int, answer: Response)
      requires !lock.held
      modifies store, lock
      ensures !lock.held
      ensures code == 413 <==> TooLarge(maxValue, sent)
      ensures code == 422 <==> !TooLarge(maxValue, sent) && !ValidValue(cfg.lib, TypeOrDefault(contentType), sent)
      ensures code in {200, 413, 422}
      ensures code == 200 ==>
                Serves(cfg, old(store.data), store.data, KvPut(u, k, sent, TypeOrDefault(contentType), now), answer)
      ensures code != 200 ==> store.data == old(store.data)
    {
      answer := Version(None);
      if TooLarge(maxValue, sent) {
        return 413, answer;
      }
      var ct := contentType;
      if ct == [] {
        ct := OCTET_STREAM;
      }
      if cfg.lib.valueType(ct) == JsonValue && !cfg.lib.validJson(sent) {
        return 422, answer;
      }
      lock.Lock();
      var version := store.Put(cfg.lib, now, u, k, sent, ct);
      answer := Version(Some(version));
      lock.Unlock();
      return 200, answer;
    }

    method HandleGet(u: Str, k: Str) returns (code: int, answer: Response)
      requires !lock.held
      modifies lock
      ensures !lock.held
      ensures Serves(cfg, store.data, store.data, KvGet(u, k), answer)
      ensures code == if GetFrom(store.data, u, k).Some? then 200 else 404
    {
      lock.Lock();
      var rec := store.Get(u, k);
      lock.Unlock();
      return if rec == None then 404 else 200, Found(rec);
    }

    method HandleDelete(u: Str, k: Str) returns (code: int, answer: Response)
      requires !lock.held
      modifies store, lock
      ensures !lock.held
      ensures Serves(cfg, old(store.data), store.data, KvDelete(u, k), answer)
      ensures code == if GetFrom(old(store.data), u, k).Some? then 204 else 404
      ensures GetFrom(store.data, u, k) == None
    {
      lock.Lock();
      var version := store.Delete(u, k);
      lock.Unlock();
      return if version == None then 404 else 204, Version(version);
    }

    /** The file holds every record of the userspace, once, in the order of the keys;
        it is determined by them and the time. */
    method HandleExport(u: Str, now: Time) returns (data: Bytes)
      requires !lock.held
      modifies lock
      ensures !lock.held
      ensures exists records :: ListsSpace(records, SpaceOf(store.data, u)) && data == Encoded(cfg.lib, now, records)
      ensures forall records :: ListsSpace(records, SpaceOf(store.data, u)) ==> data == Encoded(cfg.lib, now, records)
    {
      lock.Lock();
      var records := store.ExportUserspace(u);
      data := Codec.Encode(cfg.lib, now, records);
      lock.Unlock();
      forall others | ListsSpace(others, SpaceOf(store.data, u)) ensures others == records {
        OneListing(others, records, SpaceOf(store.data, u));
      }
    }

    /** `mode` is None for an unknown mode. The whole file is held to the limit on
        values, and decoded before the lock is taken. */
    method HandleImport(u: Str, mode: Option<ImportMode>, sent: Bytes, clock: Clock)
        returns (code: int, answer: Response)
      requires !lock.held
      modifies store, lock
      ensures !lock.held
      ensures (code, store.data) == ImportReply(cfg.lib, maxKey, maxValue, clock, old(store.data), u, mode, sent)
      ensures code == 200 ==>
                && Decoded(cfg.lib, maxKey, maxValue, sent).Ok?
                && var e := Event.Import(u, Decoded(cfg.lib, maxKey, maxValue, sent).value, mode.value, clock);
                   Admitted(cfg.lib, maxKey, maxValue, e) && Serves(cfg, old(store.data), store.data, e, answer)
    {
      answer := Imported(ImportResult(0, 0, 0));
      if mode == None {
        return 400, answer;
      }
      if TooLarge(maxValue, sent) {
        return 413, answer;
      }
      var decoded := Codec.Decode(cfg.lib, maxKey, maxValue, sent);
      if decoded.Err? {
        return DecodeCode(decoded.error), answer;
      }
      DecodedIsAdmitted(cfg.lib, maxKey, maxValue, u, mode.value, sent, clock);
      lock.Lock();
      var res := store.ImportUserspace(cfg.lib, clock, u, decoded.value, mode.value);
      lock.Unlock();
      return 200, Imported(res);
    }

    /** A fragment is checked before the coordinator sees it: `opType` is the header
        in capitals, `sent` the body and `length` the length the request declares for
        it. The error is the status code of a refusal. */
    method HandleAddOp(p: Principal, id: Str, n: int, opType: Str, k: Str, opID: Str, contentType: Str,
                       sent: Bytes, length: int, now: Time, clock: Clock) returns (r: Result<Reply, int>)
      requires !lock.held && Wired()
      modifies store, lock
      ensures !lock.held
      ensures r.Err? <==> OpRefusal(cfg.lib, maxKey, maxValue, opType, k, opID, contentType, sent, length).Some?
      ensures r.Err? ==>
                && r.error == OpRefusal(cfg.lib, maxKey, maxValue, opType, k, opID, contentType, sent, length).value
                && store.data == old(store.data)
      ensures r.Ok? ==>
                var e := AddOp(p, id, Fragment(n, opType, k, opID, contentType, sent), now, clock);
                && Admitted(cfg.lib, maxKey, maxValue, e)
                && Serves(cfg, old(store.data), store.data, e, Replied(r.value))
    {
      if k == [] || |k| > maxKey || !cfg.lib.validUtf8(k) {
        return Err(400);
      }
      if opID == [] || opType !in OP_TYPES {
        return Err(400);
      }
      var op := NO_OP.(seqNo := n, opID := opID, opType := opType, key := k);
      if opType == OP_PUT {
        if TooLarge(maxValue, sent) || sent == [] {
          return Err(413);
        }
        var ct := TypeOrDefault(contentType);
        if cfg.lib.valueType(ct) == JsonValue && !cfg.lib.validJson(sent) {
          return Err(422);
        }
        op := op.(contentType := ct, body := sent);
      } else if length > 0 {
        return Err(400);
      }
      var reply := tx.AddOp(p, id, op, now, clock);
      return Ok(reply);
    }

    /** `hash` is that of the key generated for the new userspace. */
    method HandleCreateUserspace(u: Str, user: Str, hash: Str) returns (code: int, answer: Response)
      requires !lock.held
      modifies store, lock, auth
      ensures !lock.held
      ensures code == if !ValidUserspaceID(u) then 400 else if UserspaceExists(old(store.data), u) then 409 else 201
      ensures code == 400 ==> store.data == old(store.data)
      ensures code != 400 ==> Serves(cfg, old(store.data), store.data, CreateUserspace(u, user, hash), answer)
      ensures auth.cache == if code == 201 then map[] else old(auth.cache)
    {
      answer := Administered(None);
      var userID := user;
      if userID == [] {
        userID := u;
      }
      if !ValidUserspaceID(u) || userID == [] {
        return 400, answer;
      }
      lock.Lock();
      var error := store.CreateUserspace(u, userID, hash);
      answer := Administered(error);
      if error == None {
        auth.Invalidate();
      }
      lock.Unlock();
      return if error == None then 201 else if error == Some(AlreadyExists) then 409 else 500, answer;
    }

    method HandleDeleteUserspace(u: Str) returns (code: int, answer: Response)
      requires !lock.held
      modifies store, lock, auth
      ensures !lock.held
      ensures Serves(cfg, old(store.data), store.data, DeleteUserspace(u), answer)
      ensures code == if UserspaceExists(old(store.data), u) then 204 else 404
      ensures auth.cache == if code == 204 then map[] else old(auth.cache)
    {
      lock.Lock();
      var error := store.DeleteUserspace(u);
      if error == None {
        auth.Invalidate();
      }
      lock.Unlock();
      return if error == None then 204 else 404, Administered(error);
    }

    /** `hash` is that of the newly generated key. */
    method HandleRotateUserspaceAPIKey(u: Str, hash: Str) returns (code: int, answer: Response)
      requires !lock.held
      modifies store, lock, auth
      ensures !lock.held
      ensures exists owner :: OwnerCandidate(old(store.data), u, owner)
                && Serves(cfg, old(store.data), store.data, RotateApiKey(u, hash, owner), answer)
      ensures code == if UserspaceExists(old(store.data), u) then 200 else 404
      ensures auth.cache == if code == 200 then map[] else old(auth.cache)
    {
      lock.Lock();
      var r := store.ReplaceUserspaceAPIKeyHash(u, hash);
      if r.Ok? {
        auth.Invalidate();
      }
      lock.Unlock();
      if r.Ok? {
        answer := Administered(None);
        assert Serves(cfg, old(store.data), store.data, RotateApiKey(u, hash, r.value.userID), answer);
        return 200, answer;
      }
      answer := Administered(Some(r.error));
      assert Serves(cfg, old(store.data), store.data, RotateApiKey(u, hash, u), answer);
      return 404, answer;
    }
  }
}
