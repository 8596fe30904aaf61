# cf-http-payload-tester, modelled in Dafny

The payload tester is a small HTTP service that checks whether two deployed
instances can exchange a byte payload. `GET /check/{route}` streams the payload
file to `<protocol>://{route}/listen` and reports the remote's status;
`GET /gencheck/{route}/{bytes}` does the same with `bytes` pseudorandom bytes;
`POST /listen` drains a body and answers 200 (500 if draining failed);
`GET /pull` streams the payload file back in 8 KiB chunks. The `X-Payload-Tracer`
header of a request is copied onto the outbound relay and onto the reply.

This project models one handler call at a time, with the network, the clock and
the random generator replaced by plain values:

- `wrappers.dfy` — `Option`, for Go's nil pointers and omitted fields.
- `http.dfy` — the part of net/http's `ResponseWriter` the handlers rely on:
  the first `WriteHeader` fixes the status and the headers on the wire, a `Write`
  before any `WriteHeader` sends 200, a `Write` under a status that allows no
  body (1xx, 204, 304) is refused, and a handler that writes nothing ends with 200.
- `reply.dfy` — `responseJSON`, its JSON fields with `omitempty`, the outcome of
  the outbound POST, and `Encode`, the mapping from outcome to outer status and
  reply record, with its inverse `Decode`.
- `stream.dfy` — bytes, the 8 KiB buffer size and `Chunks`, the chunking
  `pullHandler` performs, with its properties.
- `server.dfy` — the class `PayloadFile` (fixed contents and the shared read
  position), its `Read` and `Seek0`, and the handlers: `CheckHelper`,
  `CheckHandler`, `GeneratedCheckHandler` and `PullHandler` as methods on it,
  `ListenHandler` and the validation of the byte count as functions.

The outcome of `outgoingClient.Do` is an input: `TransportError(msg)` (`msg` is
the error's text) or `Remote(code)`. How many bytes the client pulled from the
payload file before it returned is an input too (`pulled`); whatever it is, the
deferred `Seek(0)` rewinds the file on both return paths. The model assumes the
client makes all its reads of the file before `Do` returns; when it does not
(see "## Left out"), the file can be left part-way after the rewind. `strconv.ParseInt` is
modelled by what it reports: `Parsed(n)`, `SyntaxError` (value 0), or
`RangeError` (value clamped to the 64-bit bound, with the error).

Behaviour of the code worth knowing:

- A rejected byte count (unparseable or negative) does not stop the relay: the
  400 replies do not return, so `checkHelper` still runs with the parsed count,
  and the body carries the 400 record(s) followed by the relay's record. The
  status stays 400 because the first `WriteHeader` wins. See "## Findings".
- The 400 records carry no byte count: `Bytes` is nil and is written as
  `"bytes": null`, not the attempted length.
- On a rejected generated check the tracer is not echoed: the headers are fixed
  by the first `WriteHeader(400)`, before `checkHelper` sets the tracer header.
- The tracer header is always set on the reply, to the empty string when the
  request had none.
- Generated checks rewind the payload file too, because the seek in
  `checkHelper` is unconditional.
- A remote that answers 204 or 304 has its status passed on, and the JSON
  record is then refused by the writer: the caller gets no body.
- An out-of-range negative count such as `-99999999999999999999` draws both 400
  records, because `ParseInt` returns the lower bound beside its error.

## Model

| member | source | states |
|---|---|---|
| `Reply.Encode` | main.go:116-153 | the reply always carries `bytes` equal to the length passed in; the status field is absent exactly on a transport error and is the remote's code otherwise; the outer status is the status field when present and 500 when absent; a transport error's message is "Error while sending request: " followed by the error text, a remote 500 gets "Remote server failed while reading request body", and the message is empty (omitted) exactly when the remote answered a code other than 500 |
| `Reply.DecodeEncode` | main.go:139-152 | the outcome can be read back from the reply: a transport error's message after the "Error while sending request: " prefix, a remote code from the status field, so no two outcomes share a reply |
| `Reply.EncodeComplete` | main.go:139-152 | a reply is the one written for an outcome and length if and only if it decodes to that outcome and carries that length |
| `Reply.Fields` | main.go:102-106 | the JSON object always ends with `bytes` (null when nil); `status` is present exactly when set; `error` is present exactly when non-empty |
| `Reply.UnmarshalFields` | main.go:102-114 | reading the JSON object back gives the record that was written: omitting empty fields loses nothing |
| `Stream.Chunks` | main.go:196-202 | at least one chunk: full buffers while a full buffer was read, then the one short (possibly empty) read |
| `Stream.FlattenChunks` | main.go:196-202 | the chunks `pullHandler` writes concatenate to exactly the bytes left in the file |
| `Stream.ChunkShape` | main.go:196-202 | there are `len / 8192 + 1` chunks, all but the last exactly 8192 bytes, and the last holds `len mod 8192` bytes, so it is empty exactly when the remaining length is a multiple of 8192, 0 included |
| `Stream.ChunkBound` | main.go:196-201 | no chunk is larger than the 8192-byte buffer |
| `Stream.ReadStep` | main.go:198-201 | one read of `min(8192, left)` bytes extends the chunks written so far: after a full read chunking continues on the rest, after a short read the written chunks are complete |
| `Server.Relay` | main.go:116-153 | the outbound request is a POST to the given URL with content type text/plain, the tracer and the given body; the caller's headers get the tracer; the outcome's record is appended to the reply when the status on the wire allows a body; the outcome's status becomes the outer status unless a status was already written |
| `Server.Rejections` | main.go:161-170 | exactly one 400 record per failed test (parse failure, negative count), so none exactly when the count parsed and is non-negative; every record has status 400 and no byte count; the first is "Could not parse body size in request URL" exactly when parsing failed; the last is "Cannot send negative amount of bytes" exactly when the count is negative |
| `Server.GeneratedCheck` | main.go:159-172 | as written: the relay is always made, with a body of `max(count, 0)` generated bytes and the tracer; the reply holds the 400 records followed by the relay's record for the count when the status allows a body; the outer status is 400 with no tracer header when anything was rejected, else the relay's status with the tracer |
| `Server.NegativeCountStillRelays` | main.go:167-171 | for a negative count the relay is still made with an empty body, and the reply, whose status is 400, ends with a record reporting the negative count and the remote's status |
| `Server.RejectedCheckDropsTracer` | main.go:162-169 | when a count is rejected the tracer header is not among the headers sent to the caller |
| `Server.BodilessStatusDropsRecord` | main.go:150-152 | when the remote answers 204 or 304 to a valid generated check, that status is the outer status and the reply carries no record |
| `Server.GeneratedCheckIntended` | main.go:159-172 | with a return after the first 400 reply: a rejected count is never relayed and the reply is that one 400 record; an accepted count is relayed exactly as the code does, and the bytes reported in its (at most one) record equal the bytes generated |
| `Server.ListenHandler` | main.go:174-181 | nothing is written in the body; the status is 500 when draining the body failed and 200 otherwise; the tracer is echoed either way |
| `Server.PayloadFile.Read` | main.go:200 | reads `min(buffer length, bytes left)` bytes into the front of the buffer, those being the next bytes of the file, and advances the position by that much; EOF is reported exactly when the buffer is not empty and nothing is left |
| `Server.PayloadFile.Seek0` | main.go:131-137 | the read position is back at the start of the file |
| `Server.PayloadFile.CheckHelper` | main.go:116-153 | the request and reply are those of `Relay` for the body offered at entry (the rest of the file, or `max(count, 0)` generated bytes), and the file position is 0 on return by either return path |
| `Server.PayloadFile.CheckHandler` | main.go:155-157 | the rest of the file is relayed, the whole file when the position was 0; the reply is the one record for the outcome with `bytes` equal to the file size (none when the outcome's status allows no body), under the outcome's status and the tracer header; the position is 0 afterwards, so the next check sends the whole file again, provided the client read the file only before `Do` returned |
| `Server.PayloadFile.GeneratedCheckHandler` | main.go:159-172 | the request and reply are those of `GeneratedCheck`, and the file position is 0 afterwards although the file was not read |
| `Server.PayloadFile.PullHandler` | main.go:183-203 | the writes are exactly `Chunks` of the bytes from the entry position on, and they concatenate to those bytes; status 200 with the tracer header; the position is 0 afterwards, so a second pull writes the same chunks |

## Left out

- Server.PayloadFile.CheckHelper: net/http's client writes the request body from its own goroutine, so it can keep reading the payload file after `Do` returns (the remote answers before draining the body, or the timeout fires); such reads can move the position after the deferred rewind, leaving the next check to start part-way through the file while still reporting the full size. The model assumes all of the client's reads happen before `Do` returns (the `pulled` count), so its `pos == 0` on return, and that of `CheckHandler` and `GeneratedCheckHandler`, holds only under that assumption.

- `main`, `setup` and `launchAPIServer` (flag parsing, the `PORT` check, opening and stat-ing the file, routing, `ListenAndServe`): configuration and I/O; the file contents and the protocol are constructor arguments of `PayloadFile`, and the file size is the length of its contents.
- `outgoingClient.Do`, its timeout, DNS and connection errors: a network client; represented only by the `Outcome` input and the `pulled` count.
- URL validity and the panic when `http.NewRequest` rejects the URL: the URL is modelled as the string `protocol + "://" + route + "/listen"` and the request is always formed.
- `responsify` and the JSON text: the reply is modelled field by field (`Reply.Fields`), not as bytes.
- The pseudorandom byte values and the seeding by the clock: only the generated length is modelled.
- Concurrent handler calls sharing the payload file position: concurrency; the model covers one call at a time.
- Seek failures and the panic they cause: `Seek0` always succeeds.
- Read errors other than EOF in `pullHandler`, and write errors to the caller: the file contents are fixed and every read succeeds.
- The informational handling of a 1xx status in `WriteHeader` (it is sent ahead and does not fix the final status): the model treats the first status written as final; remote final responses are 200 or above except 101.
- Go panics on a status outside 100-999 in `WriteHeader`: remote codes come from a parsed HTTP response and are taken as valid.
- The remote's response body is never closed in `checkHelper`: a resource leak with no effect on the reply.
- The byte count reported by `checkHandler` being stale if the file changes after startup: the contents are immutable in the model.
- The read-ahead of the `bufio.Reader` wrapped around the file: the client's consumption is the single `pulled` count.

## Findings

| source | as written | input that shows it | evidently intended | confidence | as-written member | corrected member |
|---|---|---|---|---|---|---|
| main.go:162-170 | the 400 replies for an unparseable or negative count do not return, so the relay is still made and a second record follows | `/gencheck/route/-5` with a remote that answers 200: status 400, body holds the "Cannot send negative amount of bytes" record and then `{status: 200, bytes: -5}`, and an empty POST reaches the remote | return after the 400 reply, with no relay attempt | high, not executed | `Server.NegativeCountStillRelays` | `Server.GeneratedCheckIntended` |
