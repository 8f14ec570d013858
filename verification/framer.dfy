/**
 * The session handler's drain loop: the producer's outputs become
 * `text/event-stream` frames (one `data:` line followed by a blank line
 * per event, as in section 9.2, "Server-sent events", of the WHATWG HTML
 * Living Standard), written and flushed to the client one at a time and
 * closed by exactly one terminal frame.
 */
module Framer {

  import opened Wrappers
  import opened ChatTypes
  import LineReader
  import JsonText

  /** A frame of the response stream. */
  datatype Frame =
    | Data(json: string)          // one encoded chunk
    | ErrorEvent(message: string) // the first error, as a one-member JSON object
    | DoneMarker                  // `[DONE]`, after the producer closed its channels

  /** JSON encoding of a chunk; `None` when the encoder fails. */
  type Encoder = ChatCompletionChunk -> Option<string>

  predicate IsTerminal(f: Frame)
  {
    f.ErrorEvent? || f.DoneMarker?
  }

  /**
   * The frames written for `outputs[i..]`: a chunk whose encoding fails is
   * skipped, the first error ends the stream with an error frame, and the
   * end of the outputs ends it with `[DONE]`.
   */
  function FramesFrom(outputs: seq<Output>, i: nat, encode: Encoder): seq<Frame>
    requires i <= |outputs|
    decreases |outputs| - i
  {
    if i == |outputs| then [DoneMarker]
    else match outputs[i]
      case Err(e) => [ErrorEvent(ErrorText(e))]
      case Chunk(c) =>
        match encode(c)
        case None => FramesFrom(outputs, i + 1, encode)
        case Some(json) => [Data(json)] + FramesFrom(outputs, i + 1, encode)
  }

  function Frames(outputs: seq<Output>, encode: Encoder): seq<Frame>
  {
    FramesFrom(outputs, 0, encode)
  }

  /**
   * Exactly one frame is terminal, and it is the last; there is at most
   * one frame per output, plus the terminal one.
   */
  lemma {:induction false} OneTerminalFrameLast(outputs: seq<Output>, i: nat, encode: Encoder)
    requires i <= |outputs|
    ensures var fs := FramesFrom(outputs, i, encode);
            |fs| > 0 && IsTerminal(fs[|fs| - 1]) &&
            (forall k :: 0 <= k < |fs| - 1 ==> fs[k].Data?) &&
            |fs| <= |outputs| - i + 1
    decreases |outputs| - i
  {
    if i < |outputs| && outputs[i].Chunk? {
      OneTerminalFrameLast(outputs, i + 1, encode);
    }
  }

  /** The index of the first error at or after `i`, or `|outputs|` when there is none. */
  function FirstError(outputs: seq<Output>, i: nat): (e: nat)
    requires i <= |outputs|
    ensures i <= e <= |outputs|
    ensures e < |outputs| ==> outputs[e].Err?
    ensures forall k :: i <= k < e ==> outputs[k].Chunk?
    decreases |outputs| - i
  {
    if i == |outputs| || outputs[i].Err? then i else FirstError(outputs, i + 1)
  }

  /** The frame one chunk contributes on its own. */
  function Encoded(o: Output, encode: Encoder): seq<Frame>
  {
    if o.Chunk? && encode(o.chunk).Some? then [Data(encode(o.chunk).value)] else []
  }

  /** The frames of `outputs[i..e]`, each output's after those of the outputs before it. */
  function EncodedBetween(outputs: seq<Output>, i: nat, e: nat, encode: Encoder): seq<Frame>
    requires i <= e <= |outputs|
    decreases e - i
  {
    if e == i then [] else EncodedBetween(outputs, i, e - 1, encode) + Encoded(outputs[e - 1], encode)
  }

  lemma {:induction false} EncodedBetweenCons(outputs: seq<Output>, i: nat, e: nat, encode: Encoder)
    requires i < e <= |outputs|
    ensures EncodedBetween(outputs, i, e, encode)
            == Encoded(outputs[i], encode) + EncodedBetween(outputs, i + 1, e, encode)
    decreases e - i
  {
    if e > i + 1 {
      EncodedBetweenCons(outputs, i, e - 1, encode);
      var first := Encoded(outputs[i], encode);
      var middle := EncodedBetween(outputs, i + 1, e - 1, encode);
      var last := Encoded(outputs[e - 1], encode);
      assert (first + middle) + last == first + (middle + last);
    }
  }

  /**
   * The frames are the chunks before the first error, encoded in order,
   * followed by the first error's frame, or by `[DONE]` when no error
   * was produced.
   */
  lemma {:induction false} FramesInOrder(outputs: seq<Output>, i: nat, encode: Encoder)
    requires i <= |outputs|
    ensures var e := FirstError(outputs, i);
            FramesFrom(outputs, i, encode)
            == EncodedBetween(outputs, i, e, encode)
               + [if e < |outputs| then ErrorEvent(ErrorText(outputs[e].error)) else DoneMarker]
    decreases |outputs| - i
  {
    var e := FirstError(outputs, i);
    if i < |outputs| && outputs[i].Chunk? {
      FramesInOrder(outputs, i + 1, encode);
      EncodedBetweenCons(outputs, i, e, encode);
      var head := Encoded(outputs[i], encode);
      var middle := EncodedBetween(outputs, i + 1, e, encode);
      var last := [if e < |outputs| then ErrorEvent(ErrorText(outputs[e].error)) else DoneMarker];
      assert (head + middle) + last == head + (middle + last);
    }
  }

  /**
   * The stream ends with `[DONE]` exactly when the producer reported no
   * error, and otherwise with the first error; the two never both appear.
   */
  lemma DoneExactlyWithoutErrors(outputs: seq<Output>, encode: Encoder)
    ensures var fs := Frames(outputs, encode);
            |fs| > 0 &&
            (fs[|fs| - 1] == DoneMarker <==> forall k :: 0 <= k < |outputs| ==> outputs[k].Chunk?) &&
            (fs[|fs| - 1].ErrorEvent? <==> exists k :: 0 <= k < |outputs| && outputs[k].Err?) &&
            (forall k :: 0 <= k < |fs| - 1 ==> fs[k].Data?)
  {
    OneTerminalFrameLast(outputs, 0, encode);
    FramesInOrder(outputs, 0, encode);
    var e := FirstError(outputs, 0);
    if e < |outputs| {
      assert outputs[e].Err?;
    }
  }

  /**
   * When the encoder never fails and there are no errors, every chunk
   * becomes exactly one frame, in order, and `[DONE]` follows.
   */
  lemma {:induction false} EachChunkOneFrame(outputs: seq<Output>, i: nat, encode: Encoder)
    requires i <= |outputs|
    requires forall k :: i <= k < |outputs| ==> outputs[k].Chunk? && encode(outputs[k].chunk).Some?
    ensures var fs := FramesFrom(outputs, i, encode);
            |fs| == |outputs| - i + 1 && fs[|fs| - 1] == DoneMarker &&
            forall k :: i <= k < |outputs| ==> fs[k - i] == Data(encode(outputs[k].chunk).value)
    decreases |outputs| - i
  {
    if i < |outputs| {
      EachChunkOneFrame(outputs, i + 1, encode);
      var fs := FramesFrom(outputs, i, encode);
      var rest := FramesFrom(outputs, i + 1, encode);
      assert fs == [Data(encode(outputs[i].chunk).value)] + rest;
      forall k | i < k < |outputs|
        ensures fs[k - i] == Data(encode(outputs[k].chunk).value)
      {
        assert fs[k - i] == rest[k - (i + 1)];
      }
    }
  }

  // Rendering

  /** What follows `data: ` on the frame's line; the error message is escaped as a JSON string. */
  function Payload(f: Frame): string
  {
    match f
    case Data(json) => json
    case ErrorEvent(message) => JsonText.ErrorObject(message)
    case DoneMarker => "[DONE]"
  }

  /** The payload as the handler formats it: the error message goes between the quotes unescaped. */
  function PayloadAsWritten(f: Frame): string
  {
    match f
    case Data(json) => json
    case ErrorEvent(message) => JsonText.ErrorObjectOpening + message + "\"}"
    case DoneMarker => "[DONE]"
  }

  /**
   * The escaped payload and the handler's unescaped one agree exactly on
   * the messages made of characters that stand for themselves in a JSON
   * string: no quote, no backslash, no control character.
   */
  lemma PayloadsAgreeIffPlain(message: string)
    ensures Payload(ErrorEvent(message)) == PayloadAsWritten(ErrorEvent(message)) <==> JsonText.AllPlain(message)
  {
    JsonText.QuoteIsIdentityIff(message);
    JsonText.QuoteLength(message);
  }

  /**
   * As formatted by the handler, a message whose first character that is
   * not plain text is a '"' does not read back as the one-member error
   * object: the client's reading of the message stops at that quote, and
   * what follows is not the object's closing brace.
   */
  lemma ErrorFrameAsWrittenMisread(plain: string, rest: string)
    requires JsonText.AllPlain(plain)
    ensures JsonText.ReadErrorObject(PayloadAsWritten(ErrorEvent(plain + "\"" + rest))) == None
  {
    var opening := JsonText.ErrorObjectOpening;
    var payload := PayloadAsWritten(ErrorEvent(plain + "\"" + rest));
    assert payload == opening + (plain + "\"" + (rest + "\"}"));
    assert payload[|opening|..] == plain + "\"" + (rest + "\"}");
    JsonText.ScanStopsAtQuote(plain, rest + "\"}");
  }

  /**
   * As formatted by the handler, an error frame reads back as its message
   * exactly when the message is plain text: a message holding a quote, a
   * backslash or a control character either does not read back as the
   * one-member error object or reads back as a different text.
   */
  lemma ErrorFrameAsWrittenReadsBackIffPlain(message: string)
    ensures JsonText.ReadErrorObject(PayloadAsWritten(ErrorEvent(message))) == Some(message)
            <==> JsonText.AllPlain(message)
  {
    var opening := JsonText.ErrorObjectOpening;
    var payload := PayloadAsWritten(ErrorEvent(message));
    if JsonText.AllPlain(message) {
      PayloadsAgreeIffPlain(message);
      ErrorFrameRoundTrip(message);
    } else {
      assert payload == opening + (message + "\"}");
      JsonText.Behind(opening, message + "\"}");
      JsonText.ScanLength(message + "\"}");
    }
  }

  lemma PlainPieces()
    ensures JsonText.AllPlain("error unmarshaling message: ")
    ensures JsonText.AllPlain("invalid character '")
  {
    assert JsonText.AllPlain("error unmarshaling ");
    assert JsonText.AllPlain("message: ");
    JsonText.PlainConcat("error unmarshaling ", "message: ");
    assert "error unmarshaling " + "message: " == "error unmarshaling message: ";
  }

  /**
   * The error a malformed `data: {"type" "x"}` line produces, framed as
   * the handler formats it, does not read back as the one-member error
   * object.
   */
  lemma ErrorFrameAsWrittenExample()
    ensures var message := ErrorText(UnmarshalFailed("invalid character '\"' after object key"));
            JsonText.ReadErrorObject(PayloadAsWritten(ErrorEvent(message))) == None
  {
    var prefix, before, after := "error unmarshaling message: ", "invalid character '", "' after object key";
    PlainPieces();
    JsonText.PlainConcat(prefix, before);
    assert "invalid character '\"' after object key" == before + "\"" + after;
    assert prefix + (before + "\"" + after) == (prefix + before) + "\"" + after;
    ErrorFrameAsWrittenMisread(prefix + before, after);
  }

  /**
   * With the message escaped, every error frame reads back as exactly
   * its message, and its payload holds no line break, so it stays one
   * `data:` line.
   */
  lemma ErrorFrameRoundTrip(message: string)
    ensures JsonText.ReadErrorObject(Payload(ErrorEvent(message))) == Some(message)
    ensures '\n' !in Payload(ErrorEvent(message))
  {
    JsonText.ErrorObjectRoundTrip(message);
  }

  /** The bytes written for one frame: its `data:` line and a blank line ending the event. */
  function Render(f: Frame): string
  {
    "data: " + Payload(f) + "\n\n"
  }

  /** The bytes written for a sequence of frames. */
  function RenderAll(fs: seq<Frame>): string
  {
    if |fs| == 0 then "" else Render(fs[0]) + RenderAll(fs[1..])
  }

  lemma {:induction false} RenderAllAppend(fs: seq<Frame>, f: Frame)
    ensures RenderAll(fs + [f]) == RenderAll(fs) + Render(f)
  {
    if |fs| > 0 {
      assert (fs + [f])[1..] == fs[1..] + [f];
      RenderAllAppend(fs[1..], f);
      assert Render(fs[0]) + (RenderAll(fs[1..]) + Render(f))
             == (Render(fs[0]) + RenderAll(fs[1..])) + Render(f);
    }
  }

  /** The event-stream lines of the frames: each frame's `data:` line, then a blank line. */
  function EventLines(fs: seq<Frame>): seq<string>
  {
    if |fs| == 0 then [] else ["data: " + Payload(fs[0]) + "\n", "\n"] + EventLines(fs[1..])
  }

  lemma PairCons(a: string, b: string, rest: seq<string>)
    ensures LineReader.Concat([a, b] + rest) == (a + b) + LineReader.Concat(rest)
  {
    assert [a, b] + rest == [a] + ([b] + rest);
    LineReader.ConcatCons(a, [b] + rest);
    LineReader.ConcatCons(b, rest);
  }

  lemma {:induction false} EventLinesJoin(fs: seq<Frame>)
    ensures LineReader.Concat(EventLines(fs)) == RenderAll(fs)
  {
    if |fs| > 0 {
      var a := "data: " + Payload(fs[0]) + "\n";
      var rest := EventLines(fs[1..]);
      EventLinesJoin(fs[1..]);
      PairCons(a, "\n", rest);
      assert Render(fs[0]) == a + "\n";
    }
  }

  lemma {:induction false} EventLinesAreLines(fs: seq<Frame>)
    requires forall k :: 0 <= k < |fs| && fs[k].Data? ==> '\n' !in fs[k].json
    ensures forall k :: 0 <= k < |EventLines(fs)| ==> LineReader.IsLine(EventLines(fs)[k])
  {
    if |fs| > 0 {
      EventLinesAreLines(fs[1..]);
      if fs[0].ErrorEvent? {
        ErrorFrameRoundTrip(fs[0].message);
      }
      var a := "data: " + Payload(fs[0]) + "\n";
      assert LineReader.IsLine(a) by {
        assert forall k :: 0 <= k < |a| - 1 ==> a[k] == ("data: " + Payload(fs[0]))[k];
      }
    }
  }

  /**
   * A client reading the response line by line, as the upstream reader
   * does, sees exactly each frame's `data:` line followed by a blank
   * line, with nothing left over, provided no encoded chunk holds a '\n'.
   */
  lemma StreamIsEventLines(fs: seq<Frame>)
    requires forall k :: 0 <= k < |fs| && fs[k].Data? ==> '\n' !in fs[k].json
    ensures LineReader.Lines(RenderAll(fs)) == EventLines(fs)
    ensures LineReader.Fragment(RenderAll(fs)) == ""
  {
    EventLinesJoin(fs);
    EventLinesAreLines(fs);
    LineReader.SplitOfJoin(EventLines(fs), "");
    assert LineReader.Concat(EventLines(fs)) + "" == RenderAll(fs);
  }

  // The response writer

  /**
   * The HTTP response as the handler drives it: a status, headers, bytes
   * buffered by `Write` and bytes already delivered to the client by
   * `Flush`. A status of 0 means no header has been written yet.
   */
  class ResponseWriter {
    var status: int
    var headers: map<string, string>
    var pending: string
    var sent: string

    constructor ()
      ensures status == 0 && headers == map[] && pending == "" && sent == ""
    {
      status, headers, pending, sent := 0, map[], "", "";
    }

    method SetHeader(name: string, value: string)
      modifies this
      ensures headers == old(headers)[name := value]
      ensures status == old(status) && pending == old(pending) && sent == old(sent)
    {
      headers := headers[name := value];
    }

    method WriteHeader(code: int)
      modifies this
      ensures status == code
      ensures headers == old(headers) && pending == old(pending) && sent == old(sent)
    {
      status := code;
    }

    method Write(bytes: string)
      modifies this
      ensures pending == old(pending) + bytes
      ensures status == old(status) && headers == old(headers) && sent == old(sent)
    {
      pending := pending + bytes;
    }

    method Flush()
      modifies this
      ensures sent == old(sent) + old(pending) && pending == ""
      ensures status == old(status) && headers == old(headers)
    {
      sent := sent + pending;
      pending := "";
    }
  }

  /** One frame written and flushed: the delivered bytes grow by its rendering. */
  lemma DeliverFrame(sent: string, pending: string, base: string, written: seq<Frame>, frame: Frame)
    requires sent + pending == base + RenderAll(written)
    ensures sent + pending + Render(frame) == base + RenderAll(written + [frame])
  {
    RenderAllAppend(written, frame);
  }

  /** Writes one frame and flushes it to the client. */
  method WriteFrame(w: ResponseWriter, frame: Frame)
    modifies w
    ensures w.sent == old(w.sent) + old(w.pending) + Render(frame) && w.pending == ""
    ensures w.status == old(w.status) && w.headers == old(w.headers)
  {
    w.Write(Render(frame));
    w.Flush();
  }

  /**
   * One turn of the drain loop: the frame to write for `outputs[i]`, or
   * `None` when it is a chunk whose encoding fails and is skipped. At the
   * end of the outputs the frame is `[DONE]`.
   */
  method NextFrame(outputs: seq<Output>, i: nat, encode: Encoder) returns (frame: Option<Frame>)
    requires i <= |outputs|
    ensures frame.None? ==> i < |outputs| && FramesFrom(outputs, i, encode) == FramesFrom(outputs, i + 1, encode)
    ensures frame.Some? && IsTerminal(frame.value) ==> FramesFrom(outputs, i, encode) == [frame.value]
    ensures frame.Some? && !IsTerminal(frame.value) ==>
              i < |outputs| && FramesFrom(outputs, i, encode) == [frame.value] + FramesFrom(outputs, i + 1, encode)
  {
    if i == |outputs| {
      frame := Some(DoneMarker);
    } else if outputs[i].Err? {
      frame := Some(ErrorEvent(ErrorText(outputs[i].error)));
    } else {
      var json := encode(outputs[i].chunk);
      if json.None? {
        frame := None;
      } else {
        frame := Some(Data(json.value));
      }
    }
  }

  /**
   * The drain loop: writes and flushes one frame per encodable chunk until
   * the first error, whose frame ends the response, or the end of the
   * outputs, which ends it with `[DONE]`. Everything written reaches the
   * client and the status and headers are left alone.
   */
  method Drain(w: ResponseWriter, outputs: seq<Output>, encode: Encoder)
    modifies w
    ensures w.sent == old(w.sent) + old(w.pending) + RenderAll(Frames(outputs, encode))
    ensures w.pending == ""
    ensures w.status == old(w.status) && w.headers == old(w.headers)
  {
    ghost var base := w.sent + w.pending;
    ghost var written: seq<Frame> := [];
    var i := 0;
    while true
      invariant i <= |outputs|
      invariant Frames(outputs, encode) == written + FramesFrom(outputs, i, encode)
      invariant w.sent + w.pending == base + RenderAll(written)
      invariant written != [] ==> w.pending == ""
      invariant w.status == old(w.status) && w.headers == old(w.headers)
      decreases |outputs| - i
    {
      var next := NextFrame(outputs, i, encode);
      if next.Some? {
        var frame := next.value;
        if !IsTerminal(frame) {
          assert written + ([frame] + FramesFrom(outputs, i + 1, encode))
                 == (written + [frame]) + FramesFrom(outputs, i + 1, encode);
        }
        DeliverFrame(w.sent, w.pending, base, written, frame);
        WriteFrame(w, frame);
        written := written + [frame];
        if IsTerminal(frame) {
          return;
        }
      }
      i := i + 1;
    }
  }
}
