/**
 * The four handlers of the payload tester, one request at a time, over the
 * process-wide payload file whose read position they share.
 */
module Server {
  import opened Wrappers
  import opened Http
  import opened Reply
  import opened Stream

  const MaxInt64 := 0x7fff_ffff_ffff_ffff
  const MinInt64 := -0x8000_0000_0000_0000

  /** The body of the outbound POST: the rest of the payload file, or `length` pseudorandom bytes. */
  datatype Body = FileBody(bytes: seq<byte>) | RandomBody(length: nat)

  /** The outbound request `checkHelper` hands to the HTTP client. */
  datatype Outbound = Outbound(verb: string, url: string, header: Header, body: Body)

  /** Where `checkHelper`'s body comes from: the shared payload file, or a generator limited to `count` bytes. */
  datatype Source = PayloadSource | Generated(count: int)

  /** What `strconv.ParseInt(s, 10, 64)` reports: a value, a syntax error, or a value out of 64-bit range. */
  datatype ParseOutcome = Parsed(n: int) | SyntaxError | RangeError(negative: bool)

  /** The destination of the relay: `<protocol>://<route>/listen`. */
  function Url(protocol: string, route: string): string
  {
    protocol + "://" + route + "/listen"
  }

  /** How many bytes `io.LimitReader` over the generator yields: none when the limit is not positive. */
  function GeneratedLength(n: int): nat
  {
    if n < 0 then 0 else n
  }

  /** The integer `strconv.ParseInt` returns beside its error: 0 on a syntax error, the nearest bound when out of range. */
  function Value(p: ParseOutcome): int
  {
    match p
    case Parsed(n) => n
    case SyntaxError => 0
    case RangeError(negative) => if negative then MinInt64 else MaxInt64
  }

  /**
   * What `checkHelper` sends and replies: the outbound POST carries the tracer
   * and the body, the caller's header map gets the tracer, and the reply for the
   * outcome is appended; its status becomes the outer status unless one was
   * already written.
   */
  function Relay(w: Writer<CheckResponse>, url: string, tracer: string, body: Body, numBytes: int, outcome: Outcome)
    : (r: (Outbound, Writer<CheckResponse>))
    ensures r.0.verb == "POST" && r.0.url == url && r.0.body == body
    ensures r.0.header == map[ContentTypeHeader := "text/plain", TracerHeader := tracer]
    ensures r.1.header == w.header[TracerHeader := tracer]
    ensures r.1.body == w.body + if BodyAllowed(Final(r.1).status) then [Encode(outcome, numBytes).record] else []
    ensures Final(r.1) == if w.sent.Some? then Final(w) else Head(Encode(outcome, numBytes).status, r.1.header)
  {
    var req := Outbound("POST", url, map[ContentTypeHeader := "text/plain", TracerHeader := tracer], body);
    var e := Encode(outcome, numBytes);
    (req, Write(WriteHeader(SetHeader(w, TracerHeader, tracer), e.status), e.record))
  }

  /** The 400 records `generatedCheckHandler` writes before it relays: one per failed check, in order. */
  function Rejections(p: ParseOutcome): (rs: seq<CheckResponse>)
    ensures rs == [] <==> p.Parsed? && p.n >= 0
    ensures |rs| == (if p.Parsed? then 0 else 1) + (if Value(p) < 0 then 1 else 0)
    ensures forall i :: 0 <= i < |rs| ==> rs[i].status == Some(StatusBadRequest) && rs[i].bytes == None
    ensures !p.Parsed? <==> rs != [] && rs[0].errorMessage == ParseFailure
    ensures Value(p) < 0 <==> rs != [] && rs[|rs| - 1].errorMessage == NegativeCount
  {
    (if p.Parsed? then [] else [CheckResponse(Some(StatusBadRequest), ParseFailure, None)])
    + (if Value(p) < 0 then [CheckResponse(Some(StatusBadRequest), NegativeCount, None)] else [])
  }

  /**
   * `generatedCheckHandler` as written: the 400 replies do not return, so the
   * relay is made with the parsed count whatever the validation found.
   */
  function GeneratedCheck(protocol: string, route: string, tracer: string, p: ParseOutcome, outcome: Outcome)
    : (r: (Outbound, Writer<CheckResponse>))
    ensures r.0.verb == "POST" && r.0.url == Url(protocol, route)
    ensures r.0.header == map[ContentTypeHeader := "text/plain", TracerHeader := tracer]
    ensures r.0.body == RandomBody(GeneratedLength(Value(p)))
    ensures r.1.body == Rejections(p) + if BodyAllowed(Final(r.1).status) then [Encode(outcome, Value(p)).record] else []
    ensures Final(r.1) == if Rejections(p) == [] then Head(Encode(outcome, Value(p)).status, map[TracerHeader := tracer])
                          else Head(StatusBadRequest, map[])
  {
    var n := Value(p);
    var w := NewWriter();
    var w := if p.Parsed? then w
             else Write(WriteHeader(w, StatusBadRequest), CheckResponse(Some(StatusBadRequest), ParseFailure, None));
    var w := if n >= 0 then w
             else Write(WriteHeader(w, StatusBadRequest), CheckResponse(Some(StatusBadRequest), NegativeCount, None));
    Relay(w, Url(protocol, route), tracer, RandomBody(GeneratedLength(n)), n, outcome)
  }

  /**
   * A negative count is rejected with 400 and still relayed: the generator
   * sends nothing, yet the reply's last record reports the negative count and
   * the remote's status.
   */
  lemma NegativeCountStillRelays(protocol: string, route: string, tracer: string, n: int, code: int)
    requires n < 0
    ensures var r := GeneratedCheck(protocol, route, tracer, Parsed(n), Remote(code));
      && r.0.body == RandomBody(0)
      && Final(r.1).status == StatusBadRequest
      && |r.1.body| == 2
      && r.1.body[1].bytes == Some(n)
      && r.1.body[1].status == Some(code)
  {
  }

  /**
   * The status line of a rejected generated check goes out before `checkHelper`
   * sets the tracer header, so the tracer is not echoed on that reply.
   */
  lemma RejectedCheckDropsTracer(protocol: string, route: string, tracer: string, p: ParseOutcome, outcome: Outcome)
    requires Rejections(p) != []
    ensures TracerHeader !in Final(GeneratedCheck(protocol, route, tracer, p, outcome).1).header
  {
  }

  /**
   * A remote answering 204 or 304 passes its status on, and a status that
   * allows no body makes the writer refuse the reply record: the caller gets
   * no JSON at all.
   */
  lemma BodilessStatusDropsRecord(protocol: string, route: string, tracer: string, n: int, code: int)
    requires n >= 0 && (code == 204 || code == 304)
    ensures var r := GeneratedCheck(protocol, route, tracer, Parsed(n), Remote(code));
      Final(r.1).status == code && r.1.body == []
  {
  }

  /**
   * `generatedCheckHandler` with a `return` after its first 400 reply: a
   * rejected count is never relayed, and a relayed count is the number of
   * bytes sent and the number reported.
   */
  function GeneratedCheckIntended(protocol: string, route: string, tracer: string, p: ParseOutcome, outcome: Outcome)
    : (r: (Option<Outbound>, Writer<CheckResponse>))
    ensures r.0.None? <==> Rejections(p) != []
    ensures r.0.None? ==> Final(r.1).status == StatusBadRequest && r.1.body == [Rejections(p)[0]]
    ensures r.0.Some? ==> r.0.value.body.RandomBody? && |r.1.body| <= 1
                          && forall i :: 0 <= i < |r.1.body| ==> r.1.body[i].bytes == Some(r.0.value.body.length)
    ensures r.0.Some? ==> (r.0.value, r.1) == GeneratedCheck(protocol, route, tracer, p, outcome)
  {
    var rs := Rejections(p);
    if rs != [] then
      (None, Write(WriteHeader(NewWriter(), StatusBadRequest), rs[0]))
    else
      var r := GeneratedCheck(protocol, route, tracer, p, outcome);
      (Some(r.0), r.1)
  }

  /**
   * `listenHandler`: the body is drained and discarded; the status is 500 when
   * draining failed (the later WriteHeader(200) is ignored) and 200 otherwise,
   * and the tracer is echoed either way.
   */
  function ListenHandler(tracer: string, drainFailed: bool): (w: Writer<seq<byte>>)
    ensures w.body == []
    ensures Final(w) == Head(if drainFailed then StatusInternalServerError else StatusOK, map[TracerHeader := tracer])
  {
    var w := SetHeader(NewWriter(), TracerHeader, tracer);
    var w := if drainFailed then WriteHeader(w, StatusInternalServerError) else w;
    WriteHeader(w, StatusOK)
  }

  /** The payload file opened at startup: fixed contents and one read position shared by all handlers. */
  class PayloadFile {
    const content: seq<byte>
    const protocol: string
    var pos: nat

    ghost predicate Valid()
      reads this
    {
      pos <= |content|
    }

    constructor (content: seq<byte>, protocol: string)
      ensures Valid() && pos == 0
      ensures this.content == content && this.protocol == protocol
    {
      this.content := content;
      this.protocol := protocol;
      pos := 0;
    }

    /** The body `checkHelper` would stream from `src` at the current position. */
    function Offered(src: Source): Body
      reads this
      requires Valid()
    {
      match src
      case PayloadSource => FileBody(content[pos..])
      case Generated(n) => RandomBody(GeneratedLength(n))
    }

    /**
     * `payloadFile.Read(buffer)`: fills the front of the buffer with the next
     * bytes of the file and advances the position; reports EOF only when the
     * buffer is not empty and nothing is left.
     */
    method Read(buffer: array<byte>) returns (n: nat, eof: bool)
      requires Valid()
      modifies this`pos, buffer
      ensures Valid()
      ensures n == if buffer.Length < |content| - old(pos) then buffer.Length else |content| - old(pos)
      ensures pos == old(pos) + n
      ensures buffer[..n] == content[old(pos)..pos]
      ensures eof <==> buffer.Length > 0 && old(pos) == |content|
    {
      n := if buffer.Length < |content| - pos then buffer.Length else |content| - pos;
      eof := buffer.Length > 0 && pos == |content|;
      forall i | 0 <= i < n {
        buffer[i] := content[pos + i];
      }
      pos := pos + n;
    }

    /** `payloadFile.Seek(0, io.SeekStart)`. */
    method Seek0()
      modifies this`pos
      ensures Valid() && pos == 0
    {
      pos := 0;
    }

    /**
     * `checkHelper`: builds and sends the outbound POST, whose client pulls
     * `pulled` bytes from a file source before `outcome` is known, writes the
     * reply for `outcome`, and rewinds the payload file on both return paths.
     */
    method CheckHelper(w: Writer<CheckResponse>, route: string, tracer: string, src: Source, numBytes: int,
                       outcome: Outcome, pulled: nat)
      returns (req: Outbound, w': Writer<CheckResponse>)
      requires Valid()
      modifies this`pos
      ensures Valid() && pos == 0
      ensures (req, w') == Relay(w, Url(protocol, route), tracer, old(Offered(src)), numBytes, outcome)
    {
      var resp := CheckResponse(None, "", Some(numBytes));
      req := Outbound("POST", Url(protocol, route), map[ContentTypeHeader := "text/plain", TracerHeader := tracer], Offered(src));
      w' := SetHeader(w, TracerHeader, tracer);
      if src.PayloadSource? {
        var scratch := new byte[pulled];
        var _, _ := Read(scratch);
      }
      if outcome.TransportError? {
        resp := resp.(errorMessage := SendErrorPrefix + outcome.msg);
        w' := WriteHeader(w', StatusInternalServerError);
        w' := Write(w', resp);
        Seek0();
        return;
      }
      if outcome.code == StatusInternalServerError {
        resp := resp.(errorMessage := RemoteReadFailure);
      }
      w' := WriteHeader(w', outcome.code);
      resp := resp.(status := Some(outcome.code));
      w' := Write(w', resp);
      Seek0();
    }

    /**
     * `checkHandler`: relays the rest of the payload file and reports the
     * file's size; from a rewound file that is the whole payload every time.
     */
    method CheckHandler(route: string, tracer: string, outcome: Outcome, pulled: nat)
      returns (req: Outbound, w: Writer<CheckResponse>)
      requires Valid()
      modifies this`pos
      ensures Valid() && pos == 0
      ensures req.url == Url(protocol, route) && req.header == map[ContentTypeHeader := "text/plain", TracerHeader := tracer]
      ensures req.body == FileBody(content[old(pos)..])
      ensures old(pos) == 0 ==> req.body == FileBody(content)
      ensures w.body == if BodyAllowed(Final(w).status) then [Encode(outcome, |content|).record] else []
      ensures Final(w) == Head(Encode(outcome, |content|).status, map[TracerHeader := tracer])
    {
      req, w := CheckHelper(NewWriter(), route, tracer, PayloadSource, |content|, outcome, pulled);
    }

    /**
     * `generatedCheckHandler`: validates the parsed count, writing a 400
     * record per failed check, then relays that many generated bytes anyway;
     * the payload file is rewound although it was not read.
     */
    method GeneratedCheckHandler(route: string, tracer: string, p: ParseOutcome, outcome: Outcome)
      returns (req: Outbound, w: Writer<CheckResponse>)
      requires Valid()
      modifies this`pos
      ensures Valid() && pos == 0
      ensures (req, w) == GeneratedCheck(protocol, route, tracer, p, outcome)
    {
      var n := Value(p);
      w := NewWriter();
      if !p.Parsed? {
        w := WriteHeader(w, StatusBadRequest);
        w := Write(w, CheckResponse(Some(StatusBadRequest), ParseFailure, None));
      }
      if n < 0 {
        w := WriteHeader(w, StatusBadRequest);
        w := Write(w, CheckResponse(Some(StatusBadRequest), NegativeCount, None));
      }
      req, w := CheckHelper(w, route, tracer, Generated(n), n, outcome, 0);
    }

    /**
     * `pullHandler`: streams the rest of the payload file through an 8 KiB
     * buffer, one write per read, while reads fill the buffer and EOF has not
     * been seen, then rewinds the file.
     */
    method PullHandler(tracer: string) returns (w: Writer<seq<byte>>)
      requires Valid()
      modifies this`pos
      ensures Valid() && pos == 0
      ensures w.body == Chunks(content[old(pos)..])
      ensures Flatten(w.body) == content[old(pos)..]
      ensures Final(w) == Head(StatusOK, map[TracerHeader := tracer])
    {
      w := SetHeader(NewWriter(), TracerHeader, tracer);
      ghost var rest := content[pos..];
      var buffer := new byte[BufferSize];
      var bytesRead := BufferSize;
      var eof := false;
      while bytesRead == BufferSize && !eof
        invariant Valid() && buffer.Length == BufferSize
        invariant w.header == map[TracerHeader := tracer]
        invariant w.sent == None || w.sent == Some(Head(StatusOK, map[TracerHeader := tracer]))
        invariant bytesRead == BufferSize && !eof ==> w.body + Chunks(content[pos..]) == Chunks(rest)
        invariant !(bytesRead == BufferSize && !eof) ==> w.body == Chunks(rest) && w.sent.Some?
        decreases |content| - pos, if bytesRead == BufferSize && !eof then 1 else 0
      {
        ghost var left := content[pos..];
        ghost var before := w.body;
        bytesRead, eof := Read(buffer);
        var chunk := buffer[..bytesRead];
        w := Write(w, chunk);
        assert chunk == left[..bytesRead] && content[pos..] == left[bytesRead..];
        ReadStep(rest, before, left, bytesRead);
      }
      Seek0();
      FlattenChunks(rest);
    }
  }
}
