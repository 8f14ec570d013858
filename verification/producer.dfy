/**
 * The producer behind one chat request: it resolves the model, posts the
 * payload upstream, picks single-document or event-stream handling from
 * the response's Content-Type, and yields its chunks and errors in order.
 * Everything outside the adapter (client creation, the cookie file, the
 * network, JSON decoding, the clock) is an input, `Upstream`.
 */
module Producer {

  import opened Wrappers
  import opened ChatTypes
  import ModelMapper
  import Translator

  /** How the upstream response body is read. */
  datatype Mode = SingleDocument | EventStream

  /** Only a Content-Type of exactly `application/json` is a single document. */
  function Classify(contentType: string): Mode
  {
    if contentType == "application/json" then SingleDocument else EventStream
  }

  /**
   * The comparison is exact: parameters, other letter cases, other types
   * and a missing header all select the event stream.
   */
  lemma ClassifyIsExact(contentType: string)
    ensures Classify(contentType) == SingleDocument <==> contentType == "application/json"
    ensures Classify("application/json; charset=utf-8") == EventStream
    ensures Classify("Application/JSON") == EventStream
    ensures Classify("text/event-stream") == EventStream
    ensures Classify("") == EventStream
  {
  }

  /** The upstream request body. */
  datatype Payload = Payload(model: string, messages: seq<Message>, tools: seq<string>)

  /**
   * The payload for a request: the resolved model, the messages as given,
   * and the single tool `image_generation`.
   */
  function BuildPayload(req: ChatCompletionRequest): (p: Payload)
    ensures p.model == ModelMapper.Resolve(req.model) && p.model !in ModelMapper.ModelMapping
    ensures p.messages == req.messages && p.tools == ["image_generation"]
  {
    ModelMapper.ResolvedIsFinal(req.model);
    Payload(ModelMapper.Resolve(req.model), req.messages, ["image_generation"])
  }

  /** An upstream response: its Content-Type, the body bytes delivered, and how delivery ended. */
  datatype Response = Response(contentType: string, body: string, tail: Translator.Tail)

  /**
   * What the producer depends on but does not compute: whether the HTTP
   * client could be created, whether the cookie file could be read, the
   * outcome of posting a payload, the JSON decoding of a single-document
   * body, the parser of event payloads and the clock.
   */
  datatype Upstream = Upstream(
    clientError: Option<string>,
    cookie: Result<string, string>,
    post: Payload -> Result<Response, string>,
    decode: string -> Result<ChatCompletionChunk, string>,
    parse: Translator.EventParser,
    now: Translator.Clock)

  /**
   * The outputs of the producer's background work, once the client
   * exists: an unreadable cookie file or a failed post is the one and only
   * error; a single document yields its decoded chunk or a decoding error;
   * an event stream yields the translation of its body.
   */
  function Outputs(req: ChatCompletionRequest, env: Upstream): seq<Output>
  {
    if env.cookie.Failure? then [Err(CookieUnreadable(env.cookie.error))]
    else
      var payload := BuildPayload(req);
      match env.post(payload)
      case Failure(detail) => [Err(RequestFailed(detail))]
      case Success(resp) =>
        if Classify(resp.contentType) == SingleDocument then
          match env.decode(resp.body)
          case Failure(detail) => [Err(DecodeFailed(detail))]
          case Success(chunk) => [Chunk(chunk)]
        else Translator.TranslateBody(resp.body, resp.tail, payload.model, env.parse, env.now)
  }

  /**
   * What the handler receives from `sendRequestToChatHub`: when the client
   * cannot be created the error is put in a channel that is then dropped
   * and both channels returned are nil; otherwise the producer's outputs.
   */
  datatype Channels = NilChannels | Streams(outputs: seq<Output>)

  /** The request as written: a client creation failure gives nil channels. */
  function SendRequestAsWritten(req: ChatCompletionRequest, env: Upstream): Channels
  {
    if env.clientError.Some? then NilChannels else Streams(Outputs(req, env))
  }

  /** The request with a client creation failure reported as the only output. */
  function SendRequest(req: ChatCompletionRequest, env: Upstream): seq<Output>
  {
    if env.clientError.Some? then [Err(ClientCreationFailed(env.clientError.value))]
    else Outputs(req, env)
  }

  /**
   * The producer: performs each step in turn, stopping at the first
   * failure, and reads an event-stream body line by line.
   */
  method Produce(req: ChatCompletionRequest, env: Upstream) returns (outputs: seq<Output>)
    ensures outputs == SendRequest(req, env)
  {
    if env.clientError.Some? {
      return [Err(ClientCreationFailed(env.clientError.value))];
    }
    if env.cookie.Failure? {
      return [Err(CookieUnreadable(env.cookie.error))];
    }
    var payload := BuildPayload(req);
    var posted := env.post(payload);
    if posted.Failure? {
      return [Err(RequestFailed(posted.error))];
    }
    var resp := posted.value;
    if Classify(resp.contentType) == SingleDocument {
      var decoded := env.decode(resp.body);
      if decoded.Failure? {
        return [Err(DecodeFailed(decoded.error))];
      }
      return [Chunk(decoded.value)];
    }
    outputs := Translator.ReadEventStream(resp.body, resp.tail, payload.model, env.parse, env.now);
  }

  // Properties

  /**
   * A failure before any response is read is the only output, reported
   * with its own kind.
   */
  lemma EarlyFailureIsSole(req: ChatCompletionRequest, env: Upstream)
    ensures env.clientError.Some? ==>
              SendRequest(req, env) == [Err(ClientCreationFailed(env.clientError.value))]
    ensures env.clientError.None? && env.cookie.Failure? ==>
              SendRequest(req, env) == [Err(CookieUnreadable(env.cookie.error))]
    ensures env.clientError.None? && env.cookie.Success? && env.post(BuildPayload(req)).Failure? ==>
              SendRequest(req, env) == [Err(RequestFailed(env.post(BuildPayload(req)).error))]
  {
  }

  /**
   * A single-document response yields exactly one output: the decoded
   * chunk as the upstream sent it, or the decoding error.
   */
  lemma SingleDocumentYieldsOne(req: ChatCompletionRequest, env: Upstream)
    requires env.clientError.None? && env.cookie.Success?
    requires env.post(BuildPayload(req)).Success?
    requires env.post(BuildPayload(req)).value.contentType == "application/json"
    ensures var out := SendRequest(req, env);
            var decoded := env.decode(env.post(BuildPayload(req)).value.body);
            |out| == 1 &&
            (decoded.Success? ==> out[0] == Chunk(decoded.value)) &&
            (decoded.Failure? ==> out[0] == Err(DecodeFailed(decoded.error)))
  {
  }

  /**
   * In event-stream mode every chunk is built for the resolved model,
   * which is never itself a name the table maps.
   */
  lemma StreamChunksUseResolvedModel(req: ChatCompletionRequest, env: Upstream)
    requires env.clientError.None? && env.cookie.Success?
    requires env.post(BuildPayload(req)).Success?
    requires env.post(BuildPayload(req)).value.contentType != "application/json"
    ensures var out := SendRequest(req, env);
            forall k :: 0 <= k < |out| && out[k].Chunk? ==>
              out[k].chunk.model == ModelMapper.Resolve(req.model) &&
              out[k].chunk.model !in ModelMapper.ModelMapping
  {
    var resp := env.post(BuildPayload(req)).value;
    Translator.BodyOutputsShape(resp.body, resp.tail, BuildPayload(req).model, env.parse, env.now);
  }

  /**
   * Only a payload that does not parse is a recoverable error: any other
   * error is the last output.
   */
  lemma FatalErrorIsLast(req: ChatCompletionRequest, env: Upstream)
    ensures var out := SendRequest(req, env);
            forall k :: 0 <= k < |out| && out[k].Err? && !out[k].error.UnmarshalFailed? ==> k == |out| - 1
  {
    if env.clientError.None? && env.cookie.Success? && env.post(BuildPayload(req)).Success? {
      var resp := env.post(BuildPayload(req)).value;
      if Classify(resp.contentType) == EventStream {
        Translator.BodyOutputsShape(resp.body, resp.tail, BuildPayload(req).model, env.parse, env.now);
      }
    }
  }
}
