/**
 * The wire-level values of the chat-completions adapter: the inbound
 * request, the OpenAI-shaped completion chunk, the upstream event, the
 * errors the producer reports and the producer's ordered outputs.
 */
module ChatTypes {

  import opened Wrappers

  /** One message of the conversation, passed through untouched. */
  datatype Message = Message(role: string, content: string)

  /** The inbound `POST /v1/chat/completions` body. */
  datatype ChatCompletionRequest = ChatCompletionRequest(model: string, messages: seq<Message>)

  /** The incremental content of a choice; an empty field is omitted on the wire. */
  datatype Delta = Delta(role: string, content: string)

  /** One choice; `logprobs` and `finish_reason` are nullable strings. */
  datatype Choice = Choice(index: int, delta: Delta, logProbs: Option<string>, finishReason: Option<string>)

  /** An OpenAI-shaped `chat.completion.chunk`. */
  datatype ChatCompletionChunk = ChatCompletionChunk(
    id: string,
    objectKind: string,   // serialised as "object"
    created: int,
    model: string,
    systemFingerprint: string,
    choices: seq<Choice>)

  /** The upstream event carried by one `data: ` line: `{type, textDelta}`. */
  datatype UpstreamEvent = UpstreamEvent(kind: string, textDelta: string)

  /**
   * Everything the producer can report on its error channel; each case
   * carries the detail text of the underlying failure.
   */
  datatype StreamError =
    | ClientCreationFailed(detail: string)
    | CookieUnreadable(detail: string)
    | RequestFailed(detail: string)
    | DecodeFailed(detail: string)
    | UnmarshalFailed(detail: string)
    | ReadFailed(detail: string)

  /** The text the producer formats for an error. */
  function ErrorText(e: StreamError): string
  {
    match e
    case ClientCreationFailed(d) => "failed to create client: " + d
    case CookieUnreadable(d) => "failed to read cookie file: " + d
    case RequestFailed(d) => "failed to request: " + d
    case DecodeFailed(d) => "failed to decode JSON response: " + d
    case UnmarshalFailed(d) => "error unmarshaling message: " + d
    case ReadFailed(d) => "error reading response: " + d
  }

  /**
   * One value the producer hands to the session handler, in production
   * order: a chunk (the result channel) or an error (the error channel).
   */
  datatype Output = Chunk(chunk: ChatCompletionChunk) | Err(error: StreamError)
}
