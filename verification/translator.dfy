/**
 * The event-stream translator: reads the upstream body line by line and
 * turns each `data: {type, textDelta}` event into an OpenAI-shaped chunk,
 * stopping at a `done` event or at the end of the stream.
 */
module Translator {

  import opened Wrappers
  import opened ChatTypes
  import LineReader

  /** The prefix that marks a line carrying an upstream event. */
  const DataPrefix: string := "data: "

  /** How the body ends once its bytes are exhausted. */
  datatype Tail =
    | EndOfStream          // the reader reports end of file
    | Cancelled            // the request context is done, before or during a read
    | ReadError(detail: string)

  /** Decoding of an event payload, kept abstract; a failure carries its detail. */
  type EventParser = string -> Result<UpstreamEvent, string>

  /** The Unix time read when the line with the given index is translated. */
  type Clock = nat -> int

  /** The chunk synthesised for one `text-delta` event. */
  function DeltaChunk(model: string, text: string, created: int): ChatCompletionChunk
  {
    ChatCompletionChunk(
      id := "chatcmpl-123",
      objectKind := "chat.completion.chunk",
      created := created,
      model := model,
      systemFingerprint := "",
      choices := [Choice(0, Delta("", text), None, None)])
  }

  /** What one line does to the translation. */
  datatype Step = Skip | Emit(output: Output) | Finish

  /** The effect of one complete line (its '\n' included). */
  function StepLine(line: string, model: string, parse: EventParser, created: int): Step
  {
    if !(DataPrefix <= line) then Skip
    else
      match parse(line[|DataPrefix|..])
      case Failure(detail) => Emit(Err(UnmarshalFailed(detail)))
      case Success(event) =>
        if event.kind == "text-delta" then Emit(Chunk(DeltaChunk(model, event.textDelta, created)))
        else if event.kind == "done" then Finish
        else Skip
  }

  /** The outputs of a run over lines, and whether it ended on a `done` event. */
  datatype Translation = Translation(outputs: seq<Output>, sawDone: bool)

  /** Translation of `lines[i..]`. */
  function TranslateFrom(lines: seq<string>, i: nat, model: string, parse: EventParser, now: Clock): Translation
    requires i <= |lines|
    decreases |lines| - i
  {
    if i == |lines| then Translation([], false)
    else
      match StepLine(lines[i], model, parse, now(i))
      case Finish => Translation([], true)
      case Skip => TranslateFrom(lines, i + 1, model, parse, now)
      case Emit(o) =>
        var rest := TranslateFrom(lines, i + 1, model, parse, now);
        Translation([o] + rest.outputs, rest.sawDone)
  }

  /** One line of the run: a `done` ends it, a skipped line adds nothing, an emitted output goes first. */
  lemma TranslateStep(lines: seq<string>, n: nat, model: string, parse: EventParser, now: Clock)
    requires n < |lines|
    ensures var step := StepLine(lines[n], model, parse, now(n));
            var t := TranslateFrom(lines, n, model, parse, now);
            var r := TranslateFrom(lines, n + 1, model, parse, now);
            (step.Finish? ==> t == Translation([], true)) &&
            (step.Skip? ==> t == r) &&
            (step.Emit? ==> t.outputs == [step.output] + r.outputs && t.sawDone == r.sawDone)
  {
  }

  /** One iteration of the read loop: the line read is `lines[n]`, and the run goes on or stops. */
  lemma ReadNext(lines: seq<string>, n: nat, outputs: seq<Output>, line: string, rest: seq<string>,
                 model: string, parse: EventParser, now: Clock)
    requires n < |lines| && lines[n..] == [line] + rest
    requires TranslateFrom(lines, 0, model, parse, now)
             == Translation(outputs + TranslateFrom(lines, n, model, parse, now).outputs,
                            TranslateFrom(lines, n, model, parse, now).sawDone)
    ensures lines[n] == line && lines[n + 1..] == rest
    ensures var step := StepLine(line, model, parse, now(n));
            var total := TranslateFrom(lines, 0, model, parse, now);
            var next := TranslateFrom(lines, n + 1, model, parse, now);
            (step.Finish? ==> total == Translation(outputs, true)) &&
            (step.Skip? ==> total == Translation(outputs + next.outputs, next.sawDone)) &&
            (step.Emit? ==> total == Translation((outputs + [step.output]) + next.outputs, next.sawDone))
  {
    assert lines[n] == lines[n..][0];
    assert lines[n + 1..] == lines[n..][1..];
    TranslateStep(lines, n, model, parse, now);
    var step := StepLine(line, model, parse, now(n));
    if step.Emit? {
      var next := TranslateFrom(lines, n + 1, model, parse, now).outputs;
      assert outputs + ([step.output] + next) == (outputs + [step.output]) + next;
    }
  }

  /** What the end of the stream adds: only a read failure is reported. */
  function TailOutputs(tail: Tail): seq<Output>
  {
    match tail
    case EndOfStream => []
    case Cancelled => []
    case ReadError(detail) => [Err(ReadFailed(detail))]
  }

  /**
   * The whole event-stream translation of a body: its complete lines are
   * translated; unless a `done` event stopped the run, the way the stream
   * ended is reported after them. The unterminated fragment is never read.
   */
  function TranslateBody(body: string, tail: Tail, model: string, parse: EventParser, now: Clock): seq<Output>
  {
    var t := TranslateFrom(LineReader.Lines(body), 0, model, parse, now);
    t.outputs + (if t.sawDone then [] else TailOutputs(tail))
  }

  /**
   * The producer's read loop in event-stream mode: one line per iteration,
   * each result appended as it is produced.
   */
  method ReadEventStream(body: string, tail: Tail, model: string, parse: EventParser, now: Clock)
    returns (outputs: seq<Output>)
    ensures outputs == TranslateBody(body, tail, model, parse, now)
  {
    ghost var lines := LineReader.Lines(body);
    var pos, n := 0, 0;
    outputs := [];
    while true
      invariant pos <= |body| && n <= |lines|
      invariant LineReader.LinesAt(body, pos) == lines[n..]
      invariant TranslateFrom(lines, 0, model, parse, now)
                == Translation(outputs + TranslateFrom(lines, n, model, parse, now).outputs,
                               TranslateFrom(lines, n, model, parse, now).sawDone)
      decreases |body| - pos
    {
      var end := LineReader.ReadThroughNewline(body, pos);
      if end == |body| {
        assert n == |lines|;
        break;
      }
      var line := body[pos..end + 1];
      var step := StepLine(line, model, parse, now(n));
      ReadNext(lines, n, outputs, line, LineReader.LinesAt(body, end + 1), model, parse, now);
      if step.Finish? {
        return;
      } else if step.Emit? {
        outputs := outputs + [step.output];
      }
      pos, n := end + 1, n + 1;
    }
    outputs := outputs + TailOutputs(tail);
  }

  // Properties of one line

  /** A line without the `data: ` prefix produces nothing and the run moves on. */
  lemma NonDataLineIgnored(lines: seq<string>, i: nat, model: string, parse: EventParser, now: Clock)
    requires i < |lines| && !(DataPrefix <= lines[i])
    ensures TranslateFrom(lines, i, model, parse, now) == TranslateFrom(lines, i + 1, model, parse, now)
  {
  }

  /**
   * A `text-delta` event produces exactly one chunk, with the fixed id and
   * object kind, the resolved model, the current time and one choice at
   * index 0 whose delta carries the text and no role.
   */
  lemma TextDeltaLineEmitsChunk(lines: seq<string>, i: nat, model: string, parse: EventParser, now: Clock)
    requires i < |lines| && DataPrefix <= lines[i]
    requires parse(lines[i][|DataPrefix|..]).Success? && parse(lines[i][|DataPrefix|..]).value.kind == "text-delta"
    ensures var t := TranslateFrom(lines, i, model, parse, now);
            var r := TranslateFrom(lines, i + 1, model, parse, now);
            |t.outputs| == |r.outputs| + 1 && t.outputs[1..] == r.outputs && t.sawDone == r.sawDone &&
            t.outputs[0].Chunk? &&
            var c := t.outputs[0].chunk;
            c.id == "chatcmpl-123" && c.objectKind == "chat.completion.chunk" &&
            c.created == now(i) && c.model == model && c.systemFingerprint == "" &&
            c.choices == [Choice(0, Delta("", parse(lines[i][|DataPrefix|..]).value.textDelta), None, None)]
  {
    TranslateStep(lines, i, model, parse, now);
  }

  /** A `done` event ends the run: nothing from it or after it is produced. */
  lemma DoneLineStops(lines: seq<string>, i: nat, model: string, parse: EventParser, now: Clock)
    requires i < |lines| && DataPrefix <= lines[i]
    requires parse(lines[i][|DataPrefix|..]).Success? && parse(lines[i][|DataPrefix|..]).value.kind == "done"
    ensures TranslateFrom(lines, i, model, parse, now) == Translation([], true)
  {
  }

  /** A payload that does not parse is reported once, and the run continues with the next line. */
  lemma MalformedLineReported(lines: seq<string>, i: nat, model: string, parse: EventParser, now: Clock)
    requires i < |lines| && DataPrefix <= lines[i] && parse(lines[i][|DataPrefix|..]).Failure?
    ensures var t := TranslateFrom(lines, i, model, parse, now);
            var r := TranslateFrom(lines, i + 1, model, parse, now);
            t.outputs == [Err(UnmarshalFailed(parse(lines[i][|DataPrefix|..]).error))] + r.outputs &&
            t.sawDone == r.sawDone
  {
  }

  /** An event of any other type produces nothing and the run moves on. */
  lemma OtherEventIgnored(lines: seq<string>, i: nat, model: string, parse: EventParser, now: Clock)
    requires i < |lines| && DataPrefix <= lines[i] && parse(lines[i][|DataPrefix|..]).Success?
    requires parse(lines[i][|DataPrefix|..]).value.kind != "text-delta" && parse(lines[i][|DataPrefix|..]).value.kind != "done"
    ensures TranslateFrom(lines, i, model, parse, now) == TranslateFrom(lines, i + 1, model, parse, now)
  {
  }

  // Properties of a whole run

  /** Once a `done` event has been read, lines after it change nothing. */
  lemma {:induction false} NothingAfterDone(lines: seq<string>, more: seq<string>, i: nat, j: nat,
                                            model: string, parse: EventParser, now: Clock)
    requires i <= j < |lines| && StepLine(lines[j], model, parse, now(j)).Finish?
    ensures TranslateFrom(lines + more, i, model, parse, now) == TranslateFrom(lines, i, model, parse, now)
    ensures TranslateFrom(lines, i, model, parse, now).sawDone
    decreases j - i
  {
    assert (lines + more)[i] == lines[i];
    if i < j {
      NothingAfterDone(lines, more, i + 1, j, model, parse, now);
    }
  }

  /** The index of the first `done` line at or after `i`, or `|lines|` when there is none. */
  function FirstDone(lines: seq<string>, i: nat, model: string, parse: EventParser, now: Clock): (d: nat)
    requires i <= |lines|
    ensures i <= d <= |lines|
    ensures d < |lines| ==> StepLine(lines[d], model, parse, now(d)).Finish?
    ensures forall j :: i <= j < d ==> !StepLine(lines[j], model, parse, now(j)).Finish?
    decreases |lines| - i
  {
    if i == |lines| || StepLine(lines[i], model, parse, now(i)).Finish? then i
    else FirstDone(lines, i + 1, model, parse, now)
  }

  /** What one line contributes on its own. */
  function Image(step: Step): seq<Output>
  {
    if step.Emit? then [step.output] else []
  }

  /** The contributions of `lines[i..e]`, each line's appended after those of the lines before it. */
  function ImagesBetween(lines: seq<string>, i: nat, e: nat, model: string, parse: EventParser, now: Clock): seq<Output>
    requires i <= e <= |lines|
    decreases e - i
  {
    if e == i then []
    else ImagesBetween(lines, i, e - 1, model, parse, now) + Image(StepLine(lines[e - 1], model, parse, now(e - 1)))
  }

  /** Taking the first line's contribution off the front. */
  lemma {:induction false} ImagesBetweenCons(lines: seq<string>, i: nat, e: nat, model: string, parse: EventParser, now: Clock)
    requires i < e <= |lines|
    ensures ImagesBetween(lines, i, e, model, parse, now)
            == Image(StepLine(lines[i], model, parse, now(i))) + ImagesBetween(lines, i + 1, e, model, parse, now)
    decreases e - i
  {
    if e > i + 1 {
      ImagesBetweenCons(lines, i, e - 1, model, parse, now);
      var first := Image(StepLine(lines[i], model, parse, now(i)));
      var last := Image(StepLine(lines[e - 1], model, parse, now(e - 1)));
      var middle := ImagesBetween(lines, i + 1, e - 1, model, parse, now);
      assert (first + middle) + last == first + (middle + last);
    }
  }

  /**
   * The run is line by line: its outputs are the contributions of the
   * lines before the first `done`, in line order, and it reports a `done`
   * exactly when there is one.
   */
  lemma {:induction false} TranslationIsLineByLine(lines: seq<string>, i: nat, model: string, parse: EventParser, now: Clock)
    requires i <= |lines|
    ensures var d := FirstDone(lines, i, model, parse, now);
            TranslateFrom(lines, i, model, parse, now)
            == Translation(ImagesBetween(lines, i, d, model, parse, now), d < |lines|)
    decreases |lines| - i
  {
    var d := FirstDone(lines, i, model, parse, now);
    if i < |lines| && !StepLine(lines[i], model, parse, now(i)).Finish? {
      TranslationIsLineByLine(lines, i + 1, model, parse, now);
      ImagesBetweenCons(lines, i, d, model, parse, now);
      TranslateStep(lines, i, model, parse, now);
    }
  }

  /** Every error among `outputs` comes from a payload that did not parse. */
  predicate OnlyMalformed(outputs: seq<Output>)
  {
    forall k :: 0 <= k < |outputs| && outputs[k].Err? ==> outputs[k].error.UnmarshalFailed?
  }

  /**
   * A chunk built from a `text-delta` event for `model`: the fixed id and
   * object kind, an empty fingerprint and exactly one choice at index 0
   * whose delta has no role.
   */
  predicate IsDeltaChunkFor(c: ChatCompletionChunk, model: string)
  {
    c.model == model && c.id == "chatcmpl-123" && c.objectKind == "chat.completion.chunk" &&
    c.systemFingerprint == "" && |c.choices| == 1 && c.choices[0].index == 0 &&
    c.choices[0].delta.role == ""
  }

  /** Every chunk among `outputs` is a delta chunk for `model`. */
  predicate ChunksFor(outputs: seq<Output>, model: string)
  {
    forall k :: 0 <= k < |outputs| && outputs[k].Chunk? ==> IsDeltaChunkFor(outputs[k].chunk, model)
  }

  /** The only errors a run reports are payloads that do not parse. */
  lemma {:induction false} OnlyMalformedLinesFail(lines: seq<string>, i: nat, model: string, parse: EventParser, now: Clock)
    requires i <= |lines|
    ensures OnlyMalformed(TranslateFrom(lines, i, model, parse, now).outputs)
    decreases |lines| - i
  {
    if i < |lines| {
      OnlyMalformedLinesFail(lines, i + 1, model, parse, now);
      TranslateStep(lines, i, model, parse, now);
    }
  }

  /** Every chunk of a run is a delta chunk for the run's model. */
  lemma {:induction false} ChunksNameModel(lines: seq<string>, i: nat, model: string, parse: EventParser, now: Clock)
    requires i <= |lines|
    ensures ChunksFor(TranslateFrom(lines, i, model, parse, now).outputs, model)
    decreases |lines| - i
  {
    if i < |lines| {
      ChunksNameModel(lines, i + 1, model, parse, now);
      TranslateStep(lines, i, model, parse, now);
    }
  }

  // Properties of a whole body

  /**
   * Bytes after the last '\n' are never translated: two bodies with the
   * same complete lines translate alike, whatever their final fragments.
   */
  lemma FragmentNeverTranslated(lines: seq<string>, fragment1: string, fragment2: string, tail: Tail,
                                model: string, parse: EventParser, now: Clock)
    requires forall k :: 0 <= k < |lines| ==> LineReader.IsLine(lines[k])
    requires '\n' !in fragment1 && '\n' !in fragment2
    ensures TranslateBody(LineReader.Concat(lines) + fragment1, tail, model, parse, now)
            == TranslateBody(LineReader.Concat(lines) + fragment2, tail, model, parse, now)
  {
    LineReader.SplitOfJoin(lines, fragment1);
    LineReader.SplitOfJoin(lines, fragment2);
  }

  /**
   * The end of the stream and a cancellation end the run quietly: nothing
   * is added after the lines' outputs, and every error reported comes from
   * a payload that did not parse.
   */
  lemma QuietEnd(body: string, tail: Tail, model: string, parse: EventParser, now: Clock)
    requires tail == EndOfStream || tail == Cancelled
    ensures TranslateBody(body, tail, model, parse, now)
            == TranslateFrom(LineReader.Lines(body), 0, model, parse, now).outputs
    ensures OnlyMalformed(TranslateBody(body, tail, model, parse, now))
  {
    OnlyMalformedLinesFail(LineReader.Lines(body), 0, model, parse, now);
  }

  /** A failing read is reported once, last, unless a `done` event came first. */
  lemma ReadErrorReportedLast(body: string, detail: string, model: string, parse: EventParser, now: Clock)
    requires !TranslateFrom(LineReader.Lines(body), 0, model, parse, now).sawDone
    ensures var out := TranslateBody(body, ReadError(detail), model, parse, now);
            out == TranslateFrom(LineReader.Lines(body), 0, model, parse, now).outputs + [Err(ReadFailed(detail))] &&
            OnlyMalformed(out[..|out| - 1])
  {
    OnlyMalformedLinesFail(LineReader.Lines(body), 0, model, parse, now);
    var out := TranslateBody(body, ReadError(detail), model, parse, now);
    assert out[..|out| - 1] == TranslateFrom(LineReader.Lines(body), 0, model, parse, now).outputs;
  }

  /** What follows a run's outputs: nothing, or the way the stream ended. */
  lemma EndingIsLast(outputs: seq<Output>, ending: seq<Output>, tail: Tail, model: string)
    requires OnlyMalformed(outputs) && ChunksFor(outputs, model)
    requires ending == [] || ending == TailOutputs(tail)
    ensures ChunksFor(outputs + ending, model)
    ensures var out := outputs + ending;
            forall k :: 0 <= k < |out| && out[k].Err? && !out[k].error.UnmarshalFailed? ==>
              k == |out| - 1 && tail.ReadError? && out[k] == Err(ReadFailed(tail.detail))
  {
    var out := outputs + ending;
    forall k | |outputs| <= k < |out|
      ensures out[k] == Err(ReadFailed(tail.detail)) && k == |out| - 1 && tail.ReadError?
    {
      assert out[k] == ending[k - |outputs|];
    }
    assert forall k :: 0 <= k < |outputs| ==> out[k] == outputs[k];
  }

  /**
   * Over a whole body, every chunk is a delta chunk for the model, and
   * every error but a failing read comes from a payload that did not
   * parse; a failing read can only be the last output.
   */
  lemma BodyOutputsShape(body: string, tail: Tail, model: string, parse: EventParser, now: Clock)
    ensures ChunksFor(TranslateBody(body, tail, model, parse, now), model)
    ensures var out := TranslateBody(body, tail, model, parse, now);
            forall k :: 0 <= k < |out| && out[k].Err? && !out[k].error.UnmarshalFailed? ==>
              k == |out| - 1 && tail.ReadError? && out[k] == Err(ReadFailed(tail.detail))
  {
    var run := TranslateFrom(LineReader.Lines(body), 0, model, parse, now);
    OnlyMalformedLinesFail(LineReader.Lines(body), 0, model, parse, now);
    ChunksNameModel(LineReader.Lines(body), 0, model, parse, now);
    EndingIsLast(run.outputs, if run.sawDone then [] else TailOutputs(tail), tail, model);
  }
}
