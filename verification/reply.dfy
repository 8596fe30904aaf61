/**
 * The uniform check reply (`responseJSON`) and the mapping from the outcome of
 * the outbound POST to the outer status and that reply.
 */
module Reply {
  import opened Wrappers
  import opened Http

  const SendErrorPrefix := "Error while sending request: "
  const RemoteReadFailure := "Remote server failed while reading request body"
  const ParseFailure := "Could not parse body size in request URL"
  const NegativeCount := "Cannot send negative amount of bytes"

  /**
   * `responseJSON`: `status` and `bytes` are pointers (None is nil), an empty
   * `errorMessage` is the Go zero value and is omitted from the JSON.
   */
  datatype CheckResponse = CheckResponse(status: Option<int>, errorMessage: string, bytes: Option<int>)

  /** The outcome of `outgoingClient.Do`: an error, or a response with its status code. */
  datatype Outcome = TransportError(msg: string) | Remote(code: int)

  /** The outer status written to the caller and the record written in the body. */
  datatype Encoded = Encoded(status: int, record: CheckResponse)

  /** The reply `checkHelper` builds for an outcome, `numBytes` being the length it was handed. */
  function Encode(outcome: Outcome, numBytes: int): (e: Encoded)
    ensures e.record.bytes == Some(numBytes)
    ensures e.status == (if e.record.status.Some? then e.record.status.value else StatusInternalServerError)
    ensures e.record.status.None? <==> outcome.TransportError?
    ensures e.record.errorMessage == "" <==> outcome.Remote? && outcome.code != StatusInternalServerError
    ensures outcome.TransportError? ==> e.record.errorMessage == SendErrorPrefix + outcome.msg
    ensures outcome.Remote? ==> e.record.status == Some(outcome.code)
    ensures outcome.Remote? && outcome.code == StatusInternalServerError ==> e.record.errorMessage == RemoteReadFailure
  {
    match outcome
    case TransportError(msg) =>
      Encoded(StatusInternalServerError, CheckResponse(None, SendErrorPrefix + msg, Some(numBytes)))
    case Remote(code) =>
      var message := if code == StatusInternalServerError then RemoteReadFailure else "";
      Encoded(code, CheckResponse(Some(code), message, Some(numBytes)))
  }

  /** Recovers the outcome from a reply, or None when no outcome produces it. */
  function Decode(e: Encoded): Option<Outcome>
  {
    match e.record.status
    case Some(code) =>
      var message := if code == StatusInternalServerError then RemoteReadFailure else "";
      if e.status == code && e.record.errorMessage == message then Some(Remote(code)) else None
    case None =>
      var m := e.record.errorMessage;
      if e.status == StatusInternalServerError && |SendErrorPrefix| <= |m| && m[..|SendErrorPrefix|] == SendErrorPrefix
      then Some(TransportError(m[|SendErrorPrefix|..]))
      else None
  }

  /** No two outcomes share a reply: decoding an encoded reply gives back the outcome. */
  lemma DecodeEncode(outcome: Outcome, numBytes: int)
    ensures Decode(Encode(outcome, numBytes)) == Some(outcome)
  {
  }

  /** A reply is one `checkHelper` can write exactly when it decodes and carries a byte count. */
  lemma EncodeComplete(e: Encoded, outcome: Outcome, numBytes: int)
    ensures e == Encode(outcome, numBytes) <==> Decode(e) == Some(outcome) && e.record.bytes == Some(numBytes)
  {
  }

  /** JSON values that can appear in a reply. */
  datatype JsonValue = JNumber(n: int) | JString(s: string) | JNull

  /**
   * The object `encoding/json` produces for `responseJSON`, field by field in
   * declaration order: `status` and `error` carry `omitempty`, `bytes` does not
   * (a nil count is written as null).
   */
  function Fields(r: CheckResponse): (fs: seq<(string, JsonValue)>)
    ensures |fs| >= 1 && fs[|fs| - 1] == ("bytes", if r.bytes.Some? then JNumber(r.bytes.value) else JNull)
    ensures Lookup(fs, "status") == if r.status.Some? then Some(JNumber(r.status.value)) else None
    ensures Lookup(fs, "error") == if r.errorMessage != "" then Some(JString(r.errorMessage)) else None
  {
    var status := if r.status.Some? then [("status", JNumber(r.status.value))] else [];
    var error := if r.errorMessage != "" then [("error", JString(r.errorMessage))] else [];
    var bytes := [("bytes", if r.bytes.Some? then JNumber(r.bytes.value) else JNull)];
    LookupAppend(status + error, bytes, "status");
    LookupAppend(status, error, "status");
    LookupAppend(status + error, bytes, "error");
    LookupAppend(status, error, "error");
    status + error + bytes
  }

  /** The value of the first field named `key`. */
  function Lookup(fs: seq<(string, JsonValue)>, key: string): Option<JsonValue>
  {
    if fs == [] then None else if fs[0].0 == key then Some(fs[0].1) else Lookup(fs[1..], key)
  }

  lemma {:induction false} LookupAppend(a: seq<(string, JsonValue)>, b: seq<(string, JsonValue)>, key: string)
    ensures Lookup(a + b, key) == if Lookup(a, key).Some? then Lookup(a, key) else Lookup(b, key)
  {
    if a != [] {
      assert (a + b)[0] == a[0];
      assert (a + b)[1..] == a[1..] + b;
      LookupAppend(a[1..], b, key);
    } else {
      assert a + b == b;
    }
  }

  /** Reading an object back as `encoding/json` fills a `responseJSON`: absent fields keep their zero value. */
  function Unmarshal(fs: seq<(string, JsonValue)>): CheckResponse
  {
    var status := match Lookup(fs, "status") case Some(JNumber(n)) => Some(n) case _ => None;
    var error := match Lookup(fs, "error") case Some(JString(s)) => s case _ => "";
    var bytes := match Lookup(fs, "bytes") case Some(JNumber(n)) => Some(n) case _ => None;
    CheckResponse(status, error, bytes)
  }

  /** The omitted fields lose nothing: a reply read back is the reply that was written. */
  lemma UnmarshalFields(r: CheckResponse)
    ensures Unmarshal(Fields(r)) == r
  {
    var fs := Fields(r);
    var k := |fs| - 1;
    assert fs == fs[..k] + [fs[k]];
    LookupAppend(fs[..k], [fs[k]], "bytes");
    assert Lookup(fs[..k], "bytes") == None by {
      forall i | 0 <= i < k ensures fs[i].0 != "bytes" {}
      LookupAbsent(fs[..k], "bytes");
    }
  }

  lemma {:induction false} LookupAbsent(fs: seq<(string, JsonValue)>, key: string)
    requires forall i :: 0 <= i < |fs| ==> fs[i].0 != key
    ensures Lookup(fs, key) == None
  {
    if fs != [] {
      LookupAbsent(fs[1..], key);
    }
  }
}
