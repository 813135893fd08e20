/** What the handlers demand of a request, in terms of its octets, and how they answer
    an import. */
module Requests {
  import opened Model
  import opened System
  import opened CodecSpec
  import opened Admission
  import opened DecodeErrors
  import Handlers

  /** What a PUT stores, it stores with a valid key, within the limit, as valid JSON if
      its content type says so, which is that of octets if the request has none. */
  lemma PutAdmittedExactly(lib: Library, maxKey: int, maxValue: int, u: Str, k: Str, v: Bytes, ct: Str, now: Time)
    ensures Admitted(lib, maxKey, maxValue, KvPut(u, k, v, TypeOrDefault(ct), now)) <==>
            && 1 <= |k| <= maxKey && lib.validUtf8(k)
            && (|v| <= maxValue || v == [])
            && (lib.valueType(if ct == [] then Ascii("application/octet-stream") else ct) == JsonValue ==>
                lib.validJson(v))
  {
  }

  predicate KnownName(opType: Str) {
    opType in [Ascii("PUT"), Ascii("GET"), Ascii("HEAD"), Ascii("EXISTS"), Ascii("DELETE")]
  }

  /** The codes of refused fragments. */
  lemma FragmentCodes(lib: Library, maxKey: int, maxValue: int, opType: Str, k: Str, opID: Str, ct: Str, sent: Bytes,
                      length: int)
    ensures var code := Handlers.OpRefusal(lib, maxKey, maxValue, opType, k, opID, ct, sent, length);
            var put := opType == Ascii("PUT");
            var named := 1 <= |k| <= maxKey && lib.validUtf8(k) && opID != [] && KnownName(opType);
            var typed := if ct == [] then Ascii("application/octet-stream") else ct;
            && (code == Some(400) <==> !named || (!put && length > 0))
            && (code == Some(413) <==> named && put && (sent == [] || |sent| > maxValue))
            && (code == Some(422) <==> named && put && sent != [] && |sent| <= maxValue
                                       && lib.valueType(typed) == JsonValue && !lib.validJson(sent))
            && (code.Some? ==> code.value in [400, 413, 422])
  {
  }

  /** The answers to an import: 400 for an unknown mode, 413 for a file over the limit,
      422 for a file refused for its JSON, 400 for one refused otherwise, and 200
      exactly if it decodes; only then is anything changed. */
  lemma ImportCodes(lib: Library, maxKey: int, maxValue: int, clock: Clock, d: Snapshot, u: Str,
                    mode: Option<ImportMode>, file: Bytes)
    ensures var r := ImportReply(lib, maxKey, maxValue, clock, d, u, mode, file);
            var fits := |file| <= maxValue || file == [];
            var decoded := Decoded(lib, maxKey, maxValue, file);
            && (r.0 == 413 <==> mode.Some? && !fits)
            && (r.0 == 422 <==> mode.Some? && fits && decoded == Err(InvalidJson))
            && (r.0 == 400 <==> mode == None || (fits && decoded.Err? && decoded.error != InvalidJson))
            && (r.0 == 200 <==> mode.Some? && fits && decoded.Ok?)
            && (r.0 != 200 ==> r.1 == d)
  {
  }

  /** An import of a sealed file is refused for its JSON, with status 422, exactly when
      that is the first defect of the first record that has one. */
  lemma {:induction false} JsonRefusedExactly(lib: Library, maxKey: int, maxValue: int, clock: Clock, d: Snapshot,
                                             u: Str, mode: ImportMode, created: nat, rs: seq<Raw>, tail: Bytes)
    requires created < 0x1_0000_0000_0000_0000 && |rs| < 0x1_0000_0000_0000_0000
    requires forall i :: 0 <= i < |rs| ==> Wide(rs[i]) && rs[i].key != []
    requires |Sealed(lib, BodyBefore(created, rs, tail))| <= maxValue
    ensures var file := Sealed(lib, BodyBefore(created, rs, tail));
            ImportReply(lib, maxKey, maxValue, clock, d, u, Some(mode), file).0 == 422 <==>
            FirstDefect(lib, maxKey, maxValue, rs) == Some(InvalidJson)
  {
    DecodesOrRefuses(lib, maxKey, maxValue, created, rs, tail);
  }
}
