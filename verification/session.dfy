/**
 * The chat-completions endpoint: binds the request body, starts the
 * producer, answers with an event stream and drains the producer's
 * outputs into it.
 */
module Session {

  import opened Wrappers
  import opened ChatTypes
  import opened Producer
  import opened Framer

  /** The JSON object of a 400 answer to a body that does not bind. */
  const BadRequestBody: string := "{\"error\":\"Invalid request body\"}"

  /** The headers of an event-stream answer, added to those already set. */
  function StreamHeaders(headers: map<string, string>): (h: map<string, string>)
    ensures "Content-Type" in h && h["Content-Type"] == "text/event-stream"
    ensures "Cache-Control" in h && h["Cache-Control"] == "no-cache"
    ensures "Connection" in h && h["Connection"] == "keep-alive"
    ensures forall name :: name in headers ==> name in h
    ensures forall name :: name in h && name !in {"Content-Type", "Cache-Control", "Connection"} ==>
              name in headers && h[name] == headers[name]
  {
    headers["Content-Type" := "text/event-stream"]["Cache-Control" := "no-cache"]["Connection" := "keep-alive"]
  }

  /**
   * The handler. A body that does not bind gets a 400 with an error
   * object. Otherwise the producer runs, the event-stream headers and a
   * 200 status are set, and the drain loop writes the frames of the
   * producer's outputs, all of which reach the client.
   */
  method HandleChat(w: ResponseWriter, bind: Result<ChatCompletionRequest, string>, env: Upstream, encode: Encoder)
    modifies w
    ensures bind.Failure? ==>
              w.status == 400 && w.headers == old(w.headers) &&
              w.sent == old(w.sent) && w.pending == old(w.pending) + BadRequestBody
    ensures bind.Success? ==>
              w.status == 200 && w.headers == StreamHeaders(old(w.headers)) &&
              w.sent == old(w.sent) + old(w.pending) + RenderAll(Frames(SendRequest(bind.value, env), encode)) &&
              w.pending == ""
  {
    if bind.Failure? {
      w.WriteHeader(400);
      w.Write(BadRequestBody);
      return;
    }
    var outputs := Produce(bind.value, env);
    w.SetHeader("Content-Type", "text/event-stream");
    w.SetHeader("Cache-Control", "no-cache");
    w.SetHeader("Connection", "keep-alive");
    w.WriteHeader(200);
    Drain(w, outputs, encode);
  }

  /**
   * The frames the drain loop writes for the channels it is handed, as
   * written: on nil channels it waits forever and writes nothing (`None`).
   */
  function DrainAsWritten(channels: Channels, encode: Encoder): Option<seq<Frame>>
  {
    match channels
    case NilChannels => None
    case Streams(outputs) => Some(Frames(outputs, encode))
  }

  /**
   * As written, a request whose HTTP client cannot be created is never
   * answered: the handler blocks, and neither `[DONE]` nor an error frame
   * is ever sent.
   */
  lemma ClientFailureStallsAsWritten(req: ChatCompletionRequest, env: Upstream, encode: Encoder)
    requires env.clientError.Some?
    ensures DrainAsWritten(SendRequestAsWritten(req, env), encode) == None
  {
  }

  /**
   * With the failure reported as the producer's only output, the client
   * receives exactly one frame, the error frame for it.
   */
  lemma ClientFailureReported(req: ChatCompletionRequest, env: Upstream, encode: Encoder)
    requires env.clientError.Some?
    ensures Frames(SendRequest(req, env), encode)
            == [ErrorEvent("failed to create client: " + env.clientError.value)]
  {
  }

  /**
   * Every answered request ends with exactly one terminal frame, `[DONE]`
   * when the producer reported no error and the first error otherwise, and
   * every frame before it is a chunk.
   */
  lemma EveryStreamTerminates(req: ChatCompletionRequest, env: Upstream, encode: Encoder)
    ensures var fs := Frames(SendRequest(req, env), encode);
            var out := SendRequest(req, env);
            |fs| > 0 &&
            (fs[|fs| - 1] == DoneMarker <==> forall k :: 0 <= k < |out| ==> out[k].Chunk?) &&
            (fs[|fs| - 1].ErrorEvent? <==> exists k :: 0 <= k < |out| && out[k].Err?) &&
            forall k :: 0 <= k < |fs| - 1 ==> fs[k].Data?
  {
    DoneExactlyWithoutErrors(SendRequest(req, env), encode);
  }
}
