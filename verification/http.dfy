/**
 * The part of net/http's ResponseWriter contract that the handlers rely on:
 * the header map can be edited until the status line is written, the first
 * WriteHeader call fixes the status (later calls are ignored), a Write before
 * any WriteHeader sends status 200, and a handler that writes nothing ends
 * with status 200.
 */
module Http {
  import opened Wrappers

  const StatusOK := 200
  const StatusBadRequest := 400
  const StatusInternalServerError := 500

  const TracerHeader := "X-Payload-Tracer"
  const ContentTypeHeader := "Content-Type"

  type Header = map<string, string>

  /** The status line and the header snapshot that went on the wire. */
  datatype Head = Head(status: int, header: Header)

  /** A response under construction: the editable header map, the head once sent, the body writes in order. */
  datatype Writer<T> = Writer(header: Header, sent: Option<Head>, body: seq<T>)

  function NewWriter<T>(): Writer<T>
  {
    Writer(map[], None, [])
  }

  function SetHeader<T>(w: Writer<T>, key: string, value: string): Writer<T>
  {
    w.(header := w.header[key := value])
  }

  function WriteHeader<T>(w: Writer<T>, status: int): Writer<T>
  {
    if w.sent.None? then w.(sent := Some(Head(status, w.header))) else w
  }

  /** Statuses whose responses carry no body: 1xx, 204 No Content and 304 Not Modified. */
  predicate BodyAllowed(status: int)
  {
    !(100 <= status < 200) && status != 204 && status != 304
  }

  /** A write goes out only when the status sent allows a body; otherwise it is refused and nothing is sent. */
  function Write<T>(w: Writer<T>, chunk: T): Writer<T>
  {
    var w' := WriteHeader(w, StatusOK);
    if BodyAllowed(w'.sent.value.status) then w'.(body := w'.body + [chunk]) else w'
  }

  /** What the caller receives as status line and headers once the handler returns. */
  function Final<T>(w: Writer<T>): Head
  {
    if w.sent.Some? then w.sent.value else Head(StatusOK, w.header)
  }
}
