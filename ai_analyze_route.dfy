/** The server route that forwards an analysis prompt to DashScope or
    OpenAI: request validation, the classification of provider errors into
    HTTP statuses, and the re-framing of the streamed answer as server-sent
    events that the browser reader takes apart again. */
module AiAnalyzeRoute {
  import opened Wrappers
  import opened Strings
  import opened Json
  import opened SseStream

  const SYSTEM_MSG := "You are a smart contract security auditor. Return findings in the requested markdown structure with clear, concrete locations and recommendations."

  datatype Message = Message(role: string, content: JsonValue)

  /** The chat completion the route asks for. */
  datatype ChatRequest = ChatRequest(provider: string, model: JsonValue, messages: seq<Message>, temperature: real)

  /** What the route does with a request body: answer with an error, call
      the model (streaming or not), or throw (a `null` body cannot be
      destructured, outside any `try`). */
  datatype Outcome =
    | Reply(status: int, error: string)
    | Chat(request: ChatRequest, stream: bool)
    | Thrown

  const INVALID_JSON := "Invalid JSON body"
  const MISSING_FIELDS := "Missing required fields: prompt, provider, model"
  const UNSUPPORTED := "This endpoint only supports \"dashscope\" and \"openai\" providers"

  /** The validation part of `POST`; `body` is the parsed body, `None` when
      it is not JSON. */
  function Validate(body: Option<JsonValue>): (r: Outcome)
    ensures body.None? ==> r == Reply(400, INVALID_JSON)
    ensures r.Reply? ==> r.status == 400
    ensures r.Thrown? <==> body.Some? && (body.value.Null? || body.value.Missing?)
    ensures r.Chat? <==> (body.Some? && !body.value.Null? && !body.value.Missing?
      && Truthy(Field(body.value, "prompt").value) && Truthy(Field(body.value, "model").value)
      && Field(body.value, "provider").value in {Str("dashscope"), Str("openai")})
    ensures r.Chat? ==> (r.request.provider in {"dashscope", "openai"}
      && r.request.messages == [Message("system", Str(SYSTEM_MSG)), Message("user", Field(body.value, "prompt").value)]
      && r.request.temperature == 0.5
      && r.stream == Truthy(Field(body.value, "stream").value))
  {
    if body.None? then Reply(400, INVALID_JSON)
    else if body.value.Null? || body.value.Missing? then Thrown
    else
      var b := body.value;
      var prompt, provider, model := Field(b, "prompt").value, Field(b, "provider").value, Field(b, "model").value;
      if !Truthy(prompt) || !Truthy(provider) || !Truthy(model) then Reply(400, MISSING_FIELDS)
      else if provider != Str("dashscope") && provider != Str("openai") then Reply(400, UNSUPPORTED)
      else
        var messages := [Message("system", Str(SYSTEM_MSG)), Message("user", prompt)];
        Chat(ChatRequest(provider.s, model, messages, 0.5), Truthy(Field(b, "stream").value))
  }

  /** The status of a failed non-streaming call, from the error message:
      401 for `401` or `403`, else 402, else 404, else 500. */
  function ErrorStatus(msg: string): (r: int)
    ensures r == 401 <==> Contains(msg, "401") || Contains(msg, "403")
    ensures r == 402 <==> !Contains(msg, "401") && !Contains(msg, "403") && Contains(msg, "402")
    ensures r == 404 <==> !Contains(msg, "401") && !Contains(msg, "403") && !Contains(msg, "402") && Contains(msg, "404")
    ensures r == 500 <==> !Contains(msg, "401") && !Contains(msg, "403") && !Contains(msg, "402") && !Contains(msg, "404")
  {
    if Contains(msg, "401") || Contains(msg, "403") then 401
    else if Contains(msg, "402") then 402
    else if Contains(msg, "404") then 404
    else 500
  }

  /** The reply to a failed non-streaming call; `message` is the message of
      the thrown `Error`, `None` when something else was thrown. */
  function FailureReply(message: Option<string>): (r: Outcome)
    ensures r.Reply? && r.error == message.GetOr("Unknown error")
    ensures r.status in {401, 402, 404, 500}
  {
    var msg := message.GetOr("Unknown error");
    Reply(ErrorStatus(msg), msg)
  }

  // ---------------------------------------------------------------- streaming

  /** The event carrying one piece of the answer. */
  function Frame(v: string): string {
    "data: " + Quote(v) + "\n\n"
  }

  const DONE_FRAME := "data: [DONE]\n\n"

  /** The event sent when reading the model's stream fails. */
  function ErrorFrame(msg: string): string {
    "event: error\ndata: " + Quote(msg) + "\n\n"
  }

  function Frames(values: seq<string>): (r: seq<string>)
    ensures |r| == |values|
  {
    if values == [] then [] else Frames(values[..|values| - 1]) + [Frame(values[|values| - 1])]
  }

  /** The last event: `[DONE]` after a complete stream; after a failure the
      error event with the error's message, or `Stream error`. */
  function Closing(failure: Option<Option<string>>): string {
    if failure.None? then DONE_FRAME else ErrorFrame(failure.value.GetOr("Stream error"))
  }

  /** The read loop of the route's stream: every piece the model sends is
      enqueued as one event, then the closing event. `values` are the pieces
      read before the stream ended or failed; `failure` is `None` when it
      ended, else the message of what was thrown. */
  method Reframe(values: seq<string>, failure: Option<Option<string>>) returns (events: seq<string>)
    ensures events == Frames(values) + [Closing(failure)]
  {
    events := [];
    var i := 0;
    while i < |values|
      invariant i <= |values|
      invariant events == Frames(values[..i])
    {
      assert values[..i + 1][..i] == values[..i];
      events := events + [Frame(values[i])];
      i := i + 1;
    }
    assert values[..|values|] == values;
    if failure.None? {
      events := events + [DONE_FRAME];
    } else {
      var msg := if failure.value.Some? then failure.value.value else "Stream error";
      events := events + [ErrorFrame(msg)];
    }
  }

  // ---------------------------------------------------------------- round trip

  /** A line followed by an empty line splits into the two and an empty rest. */
  lemma EventSplit(line: string)
    requires '\n' !in line
    ensures Split(line + "\n\n", '\n') == [line, "", ""]
  {
    assert line + "\n\n" == line + ['\n'] + ("" + ['\n'] + "");
    SplitCons(line, "" + ['\n'] + "", '\n');
    SplitCons("", "", '\n');
    assert Split("", '\n') == [""];
  }

  /** Feeding an event whose lines are `lines` into an empty buffer handles
      exactly those lines. */
  lemma FeedEvent(r: Reader, event: string, lines: seq<string>, effect: string -> LineEffect)
    requires r.buffer == "" && !r.finished
    requires Split(event, '\n') == lines + [""]
    ensures Feed(r, event, effect) == Reader("", HandleLines(r.pieces, lines, effect).0, HandleLines(r.pieces, lines, effect).1)
  {
    assert r.buffer + event == event;
    assert Init(lines + [""]) == lines;
  }

  /** Two complete lines, handled in order. */
  lemma HandleTwo(pieces: seq<string>, a: string, b: string, effect: string -> LineEffect)
    ensures HandleLines(pieces, [a, b], effect) == Step(Step((pieces, false), a, effect), b, effect)
  {
    assert [a, b][..1] == [a];
    assert [a][..0] == [];
    assert HandleLines(pieces, [a], effect) == Step((pieces, false), a, effect);
  }

  /** Three complete lines, handled in order. */
  lemma HandleThree(pieces: seq<string>, a: string, b: string, c: string, effect: string -> LineEffect)
    ensures HandleLines(pieces, [a, b, c], effect) == Step(HandleLines(pieces, [a, b], effect), c, effect)
  {
    assert [a, b, c][..2] == [a, b];
  }

  /** An event of one line whose effect is a piece. */
  lemma PieceEventRead(r: Reader, line: string, v: string, effect: string -> LineEffect)
    requires r.buffer == "" && !r.finished
    requires '\n' !in line && effect(line) == Piece(v) && effect("") == Ignore
    ensures Feed(r, line + "\n\n", effect) == Reader("", r.pieces + [v], false)
  {
    EventSplit(line);
    assert [line, "", ""] == [line, ""] + [""];
    FeedEvent(r, line + "\n\n", [line, ""], effect);
    HandleTwo(r.pieces, line, "", effect);
  }

  /** An event of one line whose effect is the end. */
  lemma FinishEventRead(r: Reader, line: string, effect: string -> LineEffect)
    requires r.buffer == "" && !r.finished
    requires '\n' !in line && effect(line) == Finish
    ensures Feed(r, line + "\n\n", effect) == Reader("", r.pieces, true)
  {
    EventSplit(line);
    assert [line, "", ""] == [line, ""] + [""];
    FeedEvent(r, line + "\n\n", [line, ""], effect);
    HandleTwo(r.pieces, line, "", effect);
  }

  /** The lines of an event of two lines. */
  lemma TwoLineSplit(a: string, line: string)
    requires '\n' !in a && '\n' !in line
    ensures Split(a + "\n" + line + "\n\n", '\n') == [a, line, "", ""]
  {
    Regroup(a, line);
    SplitCons(a, line + "\n\n", '\n');
    EventSplit(line);
    ConsFour(a, line, "", "");
  }

  lemma Regroup(a: string, line: string)
    ensures a + "\n" + line + "\n\n" == a + ['\n'] + (line + "\n\n")
  {
  }

  /** An event of an ignored line and a line whose effect is a piece. */
  lemma TwoLineEventRead(r: Reader, a: string, line: string, v: string, effect: string -> LineEffect)
    requires r.buffer == "" && !r.finished
    requires '\n' !in a && '\n' !in line
    requires effect(a) == Ignore && effect(line) == Piece(v) && effect("") == Ignore
    ensures Feed(r, a + "\n" + line + "\n\n", effect) == Reader("", r.pieces + [v], false)
  {
    TwoLineSplit(a, line);
    assert [a, line, "", ""] == [a, line, ""] + [""];
    FeedEvent(r, a + "\n" + line + "\n\n", [a, line, ""], effect);
    HandleThree(r.pieces, a, line, "", effect);
    HandleTwo(r.pieces, a, line, effect);
  }

  /** Reading one event of a piece passes that piece on and leaves nothing waiting. */
  lemma FrameRead(r: Reader, v: string, parse: string -> Option<JsonValue>)
    requires ParsesStrings(parse)
    requires r.buffer == "" && !r.finished
    ensures Feed(r, Frame(v), Parser(parse)) == Reader("", r.pieces + [v], false)
  {
    var line := "data: " + Quote(v);
    QuotedFrameLine(v, parse);
    assert Frame(v) == line + "\n\n";
    PieceEventRead(r, line, v, Parser(parse));
  }

  /** The line of a piece's event, and the empty line after it, as the
      reader sees them. */
  lemma QuotedFrameLine(v: string, parse: string -> Option<JsonValue>)
    requires ParsesStrings(parse)
    ensures '\n' !in "data: " + Quote(v)
    ensures Parser(parse)("data: " + Quote(v)) == Piece(v)
    ensures Parser(parse)("") == Ignore
  {
    OneLine("data: ", Quote(v));
    ParseQuoted(v, parse);
    QuotedDataLine(v, parse);
    EmptyLineIgnored(parse);
  }

  lemma OneLine(a: string, b: string)
    requires '\n' !in a && '\n' !in b
    ensures '\n' !in a + b
  {
  }

  /** Reads each of which passes one value on, and leaves nothing waiting,
      pass the values on in order. */
  lemma {:induction false} ReadEach(values: seq<string>, chunks: seq<string>, effect: string -> LineEffect)
    requires |chunks| == |values|
    requires forall i, pieces :: 0 <= i < |chunks| ==>
      Feed(Reader("", pieces, false), chunks[i], effect) == Reader("", pieces + [values[i]], false)
    ensures ReadAll(chunks, effect) == Reader("", values, false)
  {
    if values != [] {
      var n := |values| - 1;
      ReadEach(values[..n], chunks[..n], effect);
      Snoc(chunks);
      ReadAllStep(chunks[..n], chunks[n], effect);
      Snoc(values);
    }
  }

  function FramesAt(values: seq<string>, i: nat): (r: string)
    requires i < |values|
    ensures r == Frame(values[i])
    ensures Frames(values)[i] == r
  {
    if i == |values| - 1 then Frame(values[i])
    else
      assert Frames(values)[i] == Frames(values[..|values| - 1])[i];
      FramesAt(values[..|values| - 1], i)
  }

  /** The events of the pieces, read one event at a time. */
  lemma FramesRead(values: seq<string>, parse: string -> Option<JsonValue>)
    requires ParsesStrings(parse)
    ensures ReadAll(Frames(values), Parser(parse)) == Reader("", values, false)
  {
    var chunks := Frames(values);
    forall i, pieces | 0 <= i < |chunks|
      ensures Feed(Reader("", pieces, false), chunks[i], Parser(parse)) == Reader("", pieces + [values[i]], false)
    {
      var _ := FramesAt(values, i);
      FrameRead(Reader("", pieces, false), values[i], parse);
    }
    ReadEach(values, chunks, Parser(parse));
  }

  /** An event of one line that ends the stream. */
  lemma FinishingLineRead(r: Reader, line: string, parse: string -> Option<JsonValue>)
    requires r.buffer == "" && !r.finished
    requires '\n' !in line && LineEffectOf(line, parse) == Finish
    ensures Feed(r, line + "\n\n", Parser(parse)) == Reader("", r.pieces, true)
  {
    FinishEventRead(r, line, Parser(parse));
  }

  /** Reading the `[DONE]` event ends the stream. */
  lemma DoneRead(r: Reader, parse: string -> Option<JsonValue>)
    requires r.buffer == "" && !r.finished
    ensures Feed(r, DONE_FRAME, Parser(parse)) == Reader("", r.pieces, true)
  {
    var line := "data: [DONE]";
    assert DONE_FRAME == line + "\n\n";
    assert '\n' !in line;
    DoneLine(parse);
    FinishingLineRead(r, line, parse);
  }

  /** The first line of the error event is skipped. */
  lemma ErrorLineIgnored(parse: string -> Option<JsonValue>)
    ensures LineEffectOf("event: error", parse) == Ignore
    ensures LineEffectOf("", parse) == Ignore
  {
    assert "event: error" == "event: " + "error";
    EventAndEmptyLines("error", parse);
  }

  /** An event of a skipped line and a `data:` line carrying a string. */
  lemma SkippedThenQuotedRead(r: Reader, event: string, msg: string, parse: string -> Option<JsonValue>)
    requires ParsesStrings(parse)
    requires r.buffer == "" && !r.finished
    requires '\n' !in event && LineEffectOf(event, parse) == Ignore && LineEffectOf("", parse) == Ignore
    ensures Feed(r, event + "\n" + ("data: " + Quote(msg)) + "\n\n", Parser(parse)) == Reader("", r.pieces + [msg], false)
  {
    QuotedFrameLine(msg, parse);
    assert Parser(parse)(event) == Ignore;
    TwoLineEventRead(r, event, "data: " + Quote(msg), msg, Parser(parse));
  }

  /** Reading the error event passes its message on as a piece of the answer. */
  lemma ErrorRead(r: Reader, msg: string, parse: string -> Option<JsonValue>)
    requires ParsesStrings(parse)
    requires r.buffer == "" && !r.finished
    ensures Feed(r, ErrorFrame(msg), Parser(parse)) == Reader("", r.pieces + [msg], false)
  {
    var event := "event: error";
    assert ErrorFrame(msg) == event + "\n" + ("data: " + Quote(msg)) + "\n\n";
    assert '\n' !in event;
    ErrorLineIgnored(parse);
    SkippedThenQuotedRead(r, event, msg, parse);
  }

  /** Whatever reads the network cuts the route's events into, the browser
      passes on exactly the model's pieces, in order, and then stops. */
  lemma StreamDelivered(values: seq<string>, chunks: seq<string>, parse: string -> Option<JsonValue>)
    requires ParsesStrings(parse)
    requires Concat(chunks) == Concat(Frames(values) + [DONE_FRAME])
    ensures ReadAll(chunks, Parser(parse)).pieces == values
    ensures ReadAll(chunks, Parser(parse)).finished
  {
    var events := Frames(values) + [DONE_FRAME];
    SameTextSamePieces(chunks, events, Parser(parse));
    FramesRead(values, parse);
    assert events[..|events| - 1] == Frames(values);
    DoneRead(Reader("", values, false), parse);
  }

  /** After a failure the browser takes the error message for one more piece
      of the answer: the `event: error` line is skipped but its `data:` line
      is not, and the stream is never marked finished. */
  lemma StreamErrorBecomesText(values: seq<string>, msg: string, chunks: seq<string>, parse: string -> Option<JsonValue>)
    requires ParsesStrings(parse)
    requires Concat(chunks) == Concat(Frames(values) + [ErrorFrame(msg)])
    ensures ReadAll(chunks, Parser(parse)).pieces == values + [msg]
    ensures !ReadAll(chunks, Parser(parse)).finished
  {
    var events := Frames(values) + [ErrorFrame(msg)];
    SameTextSamePieces(chunks, events, Parser(parse));
    FramesRead(values, parse);
    assert events[..|events| - 1] == Frames(values);
    ErrorRead(Reader("", values, false), msg, parse);
  }
}
