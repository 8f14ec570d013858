# chathub-reverse-api: a verified model of the chat-completions adapter

chathub-reverse-api puts an OpenAI-compatible `POST /v1/chat/completions`
endpoint in front of the ChatHub web API. This project models the core of
that adapter, which lives in `cmd/chathub-reverse-api/main.go`, and proves
properties of the model:

- **the model mapper**: it resolves the caller's model name through a fixed
  table and falls back to the name itself;
- **the producer** (`sendRequestToChatHub`): it builds the upstream
  payload, posts it, and then chooses between two ways of reading the
  response:
  - a single JSON document, when the response's `Content-Type` is exactly
    `application/json`;
  - otherwise, a newline-delimited event stream;
- **the stream translator**: it reads the event-stream body one line at a
  time with a buffered "read through `\n`" reader.
  - A line starting with `data: ` is decoded as `{type, textDelta}`.
  - A `text-delta` event becomes an OpenAI-shaped `chat.completion.chunk`.
  - A `done` event ends the run.
  - A payload that does not decode is reported, and reading goes on.
  - The way the stream ends (end of file, cancellation or a read error)
    decides whether anything is reported after the lines.
- **the session handler** (`handleChat`): it binds the request and sets
  the event-stream headers and status 200. It then drains the producer's
  outputs into `data: …\n\n` frames, as in section 9.2 ("Server-sent
  events") of the WHATWG HTML Living Standard, and flushes after each
  frame.
  - The first error ends the response with an error frame.
  - When the producer closes its channels without an error, the response
    ends with `data: [DONE]`.

The producer's two channels become one ordered sequence of outputs: a
`Chunk` for a value on the result channel and an `Err` for a value on the
error channel.

Everything the core calls but does not compute is a parameter of the
model:

- whether the HTTP client could be created;
- the cookie file's contents;
- the outcome of the POST;
- JSON decoding of the response, JSON decoding of each event payload, and
  JSON encoding of each chunk;
- the clock, read once per translated line.

Modules:

| file | module | models |
|---|---|---|
| `wrappers.dfy` | `Wrappers` | `Option` and `Result` |
| `chat_types.dfy` | `ChatTypes` | request, chunk, upstream event, the producer's errors and their texts |
| `model_mapper.dfy` | `ModelMapper` | the model table and its lookup |
| `line_reader.dfy` | `LineReader` | splitting a byte stream into `\n`-terminated lines and a final fragment |
| `translator.dfy` | `Translator` | the event-stream read loop |
| `json_text.dfy` | `JsonText` | JSON string literals (section 7 of RFC 8259), used for the error frame |
| `framer.dfy` | `Framer` | frames, their bytes, the response writer and the drain loop |
| `producer.dfy` | `Producer` | payload, content-type dispatch and the producer's whole output |
| `session.dfy` | `Session` | the HTTP handler |

## Model

| member | source | states |
|---|---|---|
| ModelMapper.Resolve | cmd/chathub-reverse-api/main.go:182-185 | a name in the table resolves to its entry; any other name resolves to itself |
| ModelMapper.ResolvedIsFinal | cmd/chathub-reverse-api/main.go:24-31 | no resolved name is a key of the table, so resolving a second time changes nothing |
| Producer.ClassifyIsExact | cmd/chathub-reverse-api/main.go:227-228 | single-document mode holds exactly when the Content-Type is `application/json`; a charset parameter, other letter case, `text/event-stream` and a missing header all select the event stream |
| Producer.BuildPayload | cmd/chathub-reverse-api/main.go:182-192 | the payload carries the resolved model (never itself a table key), the messages unchanged and the one tool `image_generation` |
| Producer.Produce | cmd/chathub-reverse-api/main.go:168-295 | the producer's outputs are the specified sequence: the first failing step's error alone, the decoded document or its error, or the translation of the event stream |
| Producer.EarlyFailureIsSole | cmd/chathub-reverse-api/main.go:171-223 | a client creation failure, an unreadable cookie file or a failed POST is the only output, with its own error kind and detail |
| Producer.SingleDocumentYieldsOne | cmd/chathub-reverse-api/main.go:227-235 | a single-document response yields exactly one output: the decoded chunk unchanged, or the decoding error |
| Producer.StreamChunksUseResolvedModel | cmd/chathub-reverse-api/main.go:269-284 | in event-stream mode every chunk names the resolved model |
| Producer.FatalErrorIsLast | cmd/chathub-reverse-api/main.go:209-256 | every error other than an undecodable event payload is the producer's last output |
| LineReader.NextNewline | cmd/chathub-reverse-api/main.go:244 | the position found lies in range and holds a `\n` unless it is the end of the stream |
| LineReader.ReadThroughNewline | cmd/chathub-reverse-api/main.go:244 | the scanning loop stops at the first `\n` at or after the read position, or at the end of the stream |
| LineReader.LinesAreLines | cmd/chathub-reverse-api/main.go:244 | every line read ends with its `\n` and holds no other |
| LineReader.SplitRoundTrip | cmd/chathub-reverse-api/main.go:244-248 | the lines read followed by the final fragment give back the whole stream |
| LineReader.SplitOfJoin | cmd/chathub-reverse-api/main.go:244-248 | reading undoes writing: complete lines followed by a fragment without `\n` read back as the same lines and the same fragment |
| LineReader.FragmentDoesNotChangeLines | cmd/chathub-reverse-api/main.go:244-248 | bytes after the last `\n` do not change the lines read |
| Translator.ReadEventStream | cmd/chathub-reverse-api/main.go:237-290 | the read loop's outputs are the body's translation: the lines' outputs up to the first `done`, then the stream ending's report when no `done` came |
| Translator.NonDataLineIgnored | cmd/chathub-reverse-api/main.go:258 | a line without the `data: ` prefix changes nothing |
| Translator.TextDeltaLineEmitsChunk | cmd/chathub-reverse-api/main.go:269-284 | a `text-delta` event adds exactly one chunk. The chunk has id `chatcmpl-123`, object `chat.completion.chunk`, that line's time and the run's model. Its one choice at index 0 carries the text and no role |
| Translator.DoneLineStops | cmd/chathub-reverse-api/main.go:285-287 | a `done` event ends the run with nothing from it or after it |
| Translator.MalformedLineReported | cmd/chathub-reverse-api/main.go:264-268 | a payload that does not decode is reported once, and the run goes on with the next line |
| Translator.OtherEventIgnored | cmd/chathub-reverse-api/main.go:269-288 | an event of any other type changes nothing |
| Translator.NothingAfterDone | cmd/chathub-reverse-api/main.go:285-287 | after a `done` line, appending lines changes nothing, and the run reports the `done` |
| Translator.FirstDone | cmd/chathub-reverse-api/main.go:285-287 | the first `done` line at or after a position, or the end when there is none; no earlier line is `done` |
| Translator.TranslationIsLineByLine | cmd/chathub-reverse-api/main.go:237-290 | a run's outputs are each line's contribution, in line order, up to the first `done`; the run reports a `done` exactly when one exists |
| Translator.OnlyMalformedLinesFail | cmd/chathub-reverse-api/main.go:264-268 | the only errors the lines produce are undecodable payloads |
| Translator.ChunksNameModel | cmd/chathub-reverse-api/main.go:270-283 | every chunk of a run is a delta chunk for the run's model, with the fixed id and object kind and one role-less choice at index 0 |
| Translator.FragmentNeverTranslated | cmd/chathub-reverse-api/main.go:244-248 | two bodies with the same complete lines translate alike, whatever their final fragments |
| Translator.QuietEnd | cmd/chathub-reverse-api/main.go:240-252 | end of file and cancellation add nothing after the lines' outputs |
| Translator.ReadErrorReportedLast | cmd/chathub-reverse-api/main.go:253-255 | without a `done`, a failing read is reported once, as the last output |
| Translator.BodyOutputsShape | cmd/chathub-reverse-api/main.go:244-290 | over a whole body every chunk is for the model. Every error that is not an undecodable payload is the failing read, and it is the last output |
| Framer.OneTerminalFrameLast | cmd/chathub-reverse-api/main.go:139-165 | the last frame, and only the last, is terminal (`[DONE]` or an error); there is at most one frame per output plus the terminal one |
| Framer.FirstError | cmd/chathub-reverse-api/main.go:154-163 | the first error at or after a position, or the end when there is none |
| Framer.FramesInOrder | cmd/chathub-reverse-api/main.go:139-165 | the frames are the encodable chunks before the first error, in order, followed by that error's frame or by `[DONE]` |
| Framer.DoneExactlyWithoutErrors | cmd/chathub-reverse-api/main.go:141-163 | `[DONE]` ends the response exactly when the producer reported no error, an error frame exactly when it did; all earlier frames are chunks |
| Framer.EachChunkOneFrame | cmd/chathub-reverse-api/main.go:141-153 | without errors and encoding failures, chunk k becomes frame k, and `[DONE]` follows the last one |
| Framer.NextFrame | cmd/chathub-reverse-api/main.go:141-163 | one turn of the drain loop either writes the next frame, skips a chunk that fails to encode, or writes the terminal frame and stops |
| Framer.WriteFrame | cmd/chathub-reverse-api/main.go:152-153 | a frame written and flushed reaches the client after everything written before it; error frames carry the escaped message (see Left out) |
| Framer.Drain | cmd/chathub-reverse-api/main.go:139-165 | the drain loop delivers exactly the bytes of the frames for the outputs, nothing is left unflushed, and status and headers are untouched; error frames carry the escaped message (see Left out) |
| Framer.ErrorFrameAsWrittenMisread | cmd/chathub-reverse-api/main.go:161 | as formatted, a message whose first quote, backslash or control character is a `"` does not read back as the one-member error object `{"error": …}` |
| Framer.ErrorFrameAsWrittenReadsBackIffPlain | cmd/chathub-reverse-api/main.go:161 | as formatted, an error frame reads back as its own message exactly when the message has no quote, backslash or control character; for any other message the frame either does not read back as the one-member object `{"error": …}` or reads back as a different text |
| Framer.ErrorFrameAsWrittenExample | cmd/chathub-reverse-api/main.go:161 | the error a `data: {"type" "x"}` line produces is framed as text that is not valid JSON and does not read back as the one-member error object |
| Framer.ErrorFrameRoundTrip | cmd/chathub-reverse-api/main.go:161 | with the message escaped, every error frame reads back as exactly its message and stays on one line |
| Framer.PayloadsAgreeIffPlain | cmd/chathub-reverse-api/main.go:161 | the escaped error payload equals the handler's unescaped one exactly when the message has no quote, backslash or control character |
| Framer.StreamIsEventLines | cmd/chathub-reverse-api/main.go:143-161 | for the escaped error payload, a client reading the response line by line sees each frame's `data:` line and a blank line, and nothing left over |
| JsonText.QuoteRoundTrip | cmd/chathub-reverse-api/main.go:161 | reading an escaped text back gives the text, and reading stops at the closing quote |
| JsonText.ScanStopsAtQuote | cmd/chathub-reverse-api/main.go:161 | reading a literal stops at the first unescaped quote |
| JsonText.ErrorObjectRoundTrip | cmd/chathub-reverse-api/main.go:161 | an error object reads back as exactly its message and holds no raw control character |
| Session.StreamHeaders | cmd/chathub-reverse-api/main.go:127-129 | the three event-stream headers are set, and every other header is kept |
| Session.HandleChat | cmd/chathub-reverse-api/main.go:115-165 | a body that does not bind gets status 400 and the error object. Otherwise: status 200, the event-stream headers, and the frames of the producer's outputs all delivered. The producer is the one that reports a client creation failure, and error frames are escaped (see Left out) |
| Session.ClientFailureStallsAsWritten | cmd/chathub-reverse-api/main.go:171-176 | as written, when the HTTP client cannot be created the handler gets nil channels and never writes a frame |
| Session.ClientFailureReported | cmd/chathub-reverse-api/main.go:171-176 | with the failure reported, the client receives exactly one frame, the error frame for it |
| Session.EveryStreamTerminates | cmd/chathub-reverse-api/main.go:139-176 | every answered request ends with exactly one terminal frame, `[DONE]` precisely when no error was reported; a client creation failure counts as a reported error (see Left out) |

## Left out

- Concurrency: the producer runs in its own goroutine and talks through
  two channels, and the handler picks among them with `select`. The model
  takes the outputs in the order the producer made them and the handler
  consumes them in that order.
  - `select` picks among ready cases at random, so the Go program can take
    an error before a chunk that is still buffered.
  - It can also see the closed error channel first and write `[DONE]`
    before a buffered chunk.
  - Neither reordering is modelled.
- After the handler has written an error frame and returned, the producer
  can block forever on its next send. This goroutine leak is not modelled,
  because the model has no goroutines.
- The `http.Flusher` check at main.go:132-137 is left out. The response
  writer is assumed to flush, so the 500 answer is never taken.
- The server's start-up, routing, middleware and graceful shutdown
  (main.go:33-82) are left out, and so is logging throughout.
- The browser-emulation request headers (main.go:194-207) are left out.
- The cookie header's trimmed value (main.go:216) is left out. The cookie
  file matters only as readable or not.
- The upstream URL is left out. The POST is a function of the payload
  alone.
- JSON decoding and encoding are parameters:
  - the request body (`Bind`);
  - the single-document response;
  - each event payload;
  - each chunk (`json.Marshal`, including its `omitempty` fields).
- The exact bytes and headers of the web framework's `ctx.JSON` 400
  answer are left out. The model writes the error object without flushing
  it.
- `time.Now().Unix()` is a clock indexed by line number, and the 64-bit
  width of `Created` is not modelled (`int` is unbounded).
- Bytes are modelled as characters, one per byte. `JsonText` reads
  `\uXXXX` escapes one code unit at a time, so a lone surrogate reads as
  U+FFFD and surrogate pairs are not combined.
- Cancellation is folded into the way the stream ends (`Tail.Cancelled`).
  Whether the context ends before or during a read makes no difference to
  the outputs (main.go:240-242 and 249-251), so the two checks are one
  value.
- The test suite `tests/handler_test.go` is not part of
  this model.
- A malformed event line ends the client's response at its error frame,
  even though the producer goes on reading. The handler returns at the
  first error frame (main.go:154-163), so the producer's later outputs
  are never delivered; the model follows this.
- Framer.Payload: an error frame's message is escaped as a JSON string.
  The handler at main.go:161 writes the message unescaped, so the model
  renders the corrected form of the second finding below. The two forms
  give the same bytes exactly when the message has no quote, backslash or
  control character (`Framer.PayloadsAgreeIffPlain`).
- Framer.WriteFrame: writes an error frame with the escaped message
  (`Framer.Payload`), not the unescaped one of main.go:161.
- Framer.Drain: delivers error frames with the escaped message, not the
  unescaped one of main.go:161.
- Framer.StreamIsEventLines: holds for the escaped payload only. As
  written, an error message holding a `\n` splits the `data:` line in two.
- Session.HandleChat: error frames carry the escaped message, not the
  unescaped one of main.go:161.
- Session.HandleChat: stated for the producer that reports a client
  creation failure as its single output (`Producer.SendRequest`). The
  program returns nil channels instead (`Producer.SendRequestAsWritten`,
  main.go:171-176), and the handler then blocks forever without writing a
  frame; this is the first finding below.
- Session.EveryStreamTerminates: stated for `Producer.SendRequest`. As
  written, a client creation failure gets no terminal frame at all
  (`Session.ClientFailureStallsAsWritten`).

## Findings

| source | as written | input that shows it | evidently intended | confidence | as-written member | corrected member |
|---|---|---|---|---|---|---|
| cmd/chathub-reverse-api/main.go:171-176 | when the HTTP client cannot be created, the error is sent on a buffered channel that is then dropped, and `nil, nil` is returned; the handler's `select` on two nil channels blocks forever | any request while client creation fails | the failure reaches the client as the response's single error frame | not executed; high | Session.ClientFailureStallsAsWritten | Session.ClientFailureReported |
| cmd/chathub-reverse-api/main.go:161 | the error frame is formatted with the message between quotes, unescaped, so a message holding a quote, backslash or control character does not read back as itself; when its first such character is a `"`, the frame does not read back as the one-member object `{"error": …}`; for the example message the frame is not valid JSON | the event line `data: {"type" "x"}` makes the error `error unmarshaling message: invalid character '"' after object key` | the message escaped as a JSON string, so the frame reads back as `{"error": message}` | not executed; high | Framer.ErrorFrameAsWrittenExample | Framer.ErrorFrameRoundTrip |
