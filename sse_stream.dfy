/** The client side of a server-sent event stream (`parseSSEStream`): the
    received text is cut into lines, an unfinished last line waits for the
    next read, and each `data:` line contributes a piece of the answer. */
module SseStream {
  import opened Wrappers
  import opened Strings
  import opened Json

  /** What one complete line does. */
  datatype LineEffect = Ignore | Finish | Piece(text: string)

  /** Optional property access `v?.key`: `Missing` when `v` has no such property. */
  function Member(v: JsonValue, key: string): JsonValue {
    if v.Obj? && key in v.fields then v.fields[key] else Missing
  }

  /** Optional indexing `v?.[0]`. The one-character string that indexing a
      string gives has no further properties, so it is `Missing` here as well. */
  function First(v: JsonValue): JsonValue {
    match v
    case Arr(items) => if items != [] then items[0] else Missing
    case Obj(m) => if "0" in m then m["0"] else Missing
    case _ => Missing
  }

  /** `parsed?.choices?.[0]?.delta?.content`. */
  function Delta(v: JsonValue): JsonValue {
    Member(Member(First(Member(v, "choices")), "delta"), "content")
  }

  const DATA := "data:"
  const EVENT := "event:"
  const DONE := "[DONE]"

  /** What follows `data:` in a trimmed line, trimmed. */
  function Payload(t: string): string
    requires StartsWith(t, DATA)
  {
    Trim(t[|DATA|..])
  }

  /** The handling of the payload of a `data:` line. */
  function PayloadEffect(payload: string, parse: string -> Option<JsonValue>): (e: LineEffect)
    ensures e == Finish <==> payload == DONE
    ensures e.Piece? ==> parse(payload).Some?
  {
    if payload == DONE then Finish
    else match parse(payload)
      case None => Ignore
      case Some(Str(s)) => Piece(s)
      case Some(v) => if Delta(v).Str? && Delta(v).s != "" then Piece(Delta(v).s) else Ignore
  }

  /** The handling of one line. `parse` is `JSON.parse`, `None` where it throws. */
  function LineEffectOf(line: string, parse: string -> Option<JsonValue>): (e: LineEffect)
    ensures !e.Ignore? ==> StartsWith(Trim(line), DATA)
    ensures e == Finish ==> Payload(Trim(line)) == DONE
    ensures e.Piece? ==> Payload(Trim(line)) != DONE && parse(Payload(Trim(line))).Some?
  {
    var t := Trim(line);
    if t == "" || StartsWith(t, EVENT) then Ignore
    else if !StartsWith(t, DATA) then Ignore
    else PayloadEffect(Payload(t), parse)
  }

  /** The pieces so far and whether the stream has finished, after one more line. */
  function Step(acc: (seq<string>, bool), line: string, effect: string -> LineEffect): (seq<string>, bool) {
    if acc.1 then acc
    else match effect(line)
      case Ignore => acc
      case Finish => (acc.0, true)
      case Piece(s) => (acc.0 + [s], false)
  }

  /** The complete lines `lines` handled in order after `pieces`; nothing
      after a `[DONE]` line counts. */
  function HandleLines(pieces: seq<string>, lines: seq<string>, effect: string -> LineEffect): (r: (seq<string>, bool))
    ensures |pieces| <= |r.0| && r.0[..|pieces|] == pieces
  {
    if lines == [] then (pieces, false)
    else Step(HandleLines(pieces, lines[..|lines| - 1], effect), lines[|lines| - 1], effect)
  }

  /** The reader's state: the unfinished line, the pieces passed on, and
      whether `[DONE]` was seen. */
  datatype Reader = Reader(buffer: string, pieces: seq<string>, finished: bool)

  function Init(lines: seq<string>): seq<string>
    requires lines != []
  {
    lines[..|lines| - 1]
  }

  function Last(lines: seq<string>): string
    requires lines != []
  {
    lines[|lines| - 1]
  }

  /** One read: the new text joins the unfinished line, every complete line
      is handled, and the rest waits. */
  function Feed(r: Reader, chunk: string, effect: string -> LineEffect): Reader
    requires !r.finished
  {
    var lines := Split(r.buffer + chunk, '\n');
    var h := HandleLines(r.pieces, Init(lines), effect);
    Reader(Last(lines), h.0, h.1)
  }

  /** The state after the reads `chunks`; reads after `[DONE]` change nothing. */
  function ReadAll(chunks: seq<string>, effect: string -> LineEffect): Reader {
    if chunks == [] then Reader("", [], false)
    else
      var r := ReadAll(chunks[..|chunks| - 1], effect);
      if r.finished then r else Feed(r, chunks[|chunks| - 1], effect)
  }

  /** One more read after reads that did not finish the stream. */
  lemma ReadAllStep(pre: seq<string>, chunk: string, effect: string -> LineEffect)
    requires !ReadAll(pre, effect).finished
    ensures ReadAll(pre + [chunk], effect) == Feed(ReadAll(pre, effect), chunk, effect)
  {
    assert (pre + [chunk])[..|pre|] == pre;
  }

  /** `parse` reads every JSON string literal as the string it denotes. */
  ghost predicate ParsesStrings(parse: string -> Option<JsonValue>) {
    forall p :: DecodeString(p).Some? ==> parse(p) == Some(Str(DecodeString(p).value))
  }

  /** `parse` reads a string literal as the string it denotes. */
  lemma ParseQuoted(v: string, parse: string -> Option<JsonValue>)
    requires ParsesStrings(parse)
    ensures parse(Quote(v)) == Some(Str(v))
  {
    QuoteRoundTrip(v);
  }

  /** A `data:` line, trimmed already, is handled by its payload. */
  lemma DataLine(line: string, payload: string, parse: string -> Option<JsonValue>)
    requires line == DATA + (" " + payload)
    requires payload != [] && !IsSpace(payload[0]) && !IsSpace(payload[|payload| - 1])
    ensures LineEffectOf(line, parse) == PayloadEffect(payload, parse)
  {
    assert line[0] == 'd' && line[|line| - 1] == payload[|payload| - 1];
    TrimUnchanged(line);
    assert line[..|DATA|] == DATA;
    assert EVENT[0] != line[0];
    assert line[|DATA|..] == " " + payload;
    TrimAfterSpace(payload);
  }

  /** A payload that parses to a string contributes that string. */
  lemma StringPayload(q: string, v: string, parse: string -> Option<JsonValue>)
    requires |q| >= 2 && q[0] == '"'
    requires parse(q) == Some(Str(v))
    ensures PayloadEffect(q, parse) == Piece(v)
  {
    assert q != DONE by { assert DONE[0] != q[0]; }
  }

  /** A `data:` line carrying a string literal contributes that string. */
  lemma QuotedDataLine(v: string, parse: string -> Option<JsonValue>)
    requires parse(Quote(v)) == Some(Str(v))
    ensures LineEffectOf("data: " + Quote(v), parse) == Piece(v)
  {
    var q := Quote(v);
    assert "data: " + q == DATA + (" " + q);
    DataLine("data: " + q, q, parse);
    StringPayload(q, v, parse);
  }

  /** The `data: [DONE]` line ends the stream. */
  lemma DoneLine(parse: string -> Option<JsonValue>)
    ensures LineEffectOf("data: [DONE]", parse) == Finish
  {
    assert "data: [DONE]" == DATA + (" " + DONE);
    DataLine("data: [DONE]", DONE, parse);
    assert PayloadEffect(DONE, parse) == Finish;
  }

  /** `event:` lines and empty lines do nothing. */
  lemma EmptyLineIgnored(parse: string -> Option<JsonValue>)
    ensures LineEffectOf("", parse) == Ignore
  {
    assert Trim("") == "";
  }

  lemma EventAndEmptyLines(name: string, parse: string -> Option<JsonValue>)
    requires name != [] && !IsSpace(name[|name| - 1])
    ensures LineEffectOf("event: " + name, parse) == Ignore
    ensures LineEffectOf("", parse) == Ignore
  {
    var line := "event: " + name;
    TrimUnchanged(line);
    assert line[..|EVENT|] == EVENT;
  }

  /** The handling of each line by `parseSSEStream`. */
  function Parser(parse: string -> Option<JsonValue>): string -> LineEffect {
    line => LineEffectOf(line, parse)
  }

  /** `parseSSEStream` over the decoded reads `chunks`: the text it returns
      and the pieces it passes to `onChunk`, in order. */
  method ParseSseStream(chunks: seq<string>, parse: string -> Option<JsonValue>) returns (fullText: string, emitted: seq<string>)
    ensures emitted == ReadAll(chunks, Parser(parse)).pieces
    ensures fullText == Concat(emitted)
  {
    fullText, emitted := ReadLines(chunks, Parser(parse));
  }

  /** The read loop, with the handling of one line as `effect`. */
  method ReadLines(chunks: seq<string>, effect: string -> LineEffect) returns (fullText: string, emitted: seq<string>)
    ensures emitted == ReadAll(chunks, effect).pieces
    ensures fullText == Concat(emitted)
  {
    var buffer := "";
    fullText := "";
    emitted := [];
    var i := 0;
    while i < |chunks|
      invariant i <= |chunks|
      invariant ReadAll(chunks[..i], effect) == Reader(buffer, emitted, false)
      invariant fullText == Concat(emitted)
    {
      var before, carried := emitted, buffer;
      buffer := buffer + chunks[i];
      var lines := Split(buffer, '\n');
      buffer := lines[|lines| - 1];
      var j := 0;
      while j < |lines| - 1
        invariant j <= |lines| - 1
        invariant HandleLines(before, lines[..j], effect) == (emitted, false)
        invariant fullText == Concat(emitted)
      {
        assert lines[..j + 1][..j] == lines[..j];
        var e := effect(lines[j]);
        if e == Finish {
          FinishedRead(chunks, i, carried, before, lines, j, effect);
          return;
        }
        if e.Piece? {
          ConcatAppend(emitted, [e.text]);
          emitted := emitted + [e.text];
          fullText := fullText + e.text;
        }
        j := j + 1;
      }
      assert lines[..|lines| - 1] == Init(lines);
      assert chunks[..i + 1][..i] == chunks[..i];
      i := i + 1;
    }
    assert chunks[..|chunks|] == chunks;
  }

  // ---------------------------------------------------------------- properties

  /** Once `[DONE]` has been seen, further reads change nothing. */
  lemma {:induction false} FinishedStays(chunks: seq<string>, k: nat, effect: string -> LineEffect)
    requires k <= |chunks|
    requires ReadAll(chunks[..k], effect).finished
    ensures ReadAll(chunks, effect) == ReadAll(chunks[..k], effect)
    decreases |chunks| - k
  {
    if k < |chunks| {
      assert chunks[..k + 1][..k] == chunks[..k];
      FinishedStays(chunks, k + 1, effect);
    } else {
      assert chunks[..k] == chunks;
    }
  }

  /** A `[DONE]` line in the current read ends the whole stream. */
  lemma FinishedRead(chunks: seq<string>, i: nat, carried: string, before: seq<string>, lines: seq<string>, j: nat, effect: string -> LineEffect)
    requires i < |chunks| && ReadAll(chunks[..i], effect) == Reader(carried, before, false)
    requires lines == Split(carried + chunks[i], '\n') && j < |lines| - 1
    requires !HandleLines(before, lines[..j], effect).1
    requires effect(lines[j]) == Finish
    ensures ReadAll(chunks, effect).pieces == HandleLines(before, lines[..j], effect).0
  {
    FinishInLines(before, lines, j, effect);
    var h := HandleLines(before, Init(lines), effect);
    TakeSnoc(chunks, i);
    ReadAllStep(chunks[..i], chunks[i], effect);
    assert ReadAll(chunks[..i + 1], effect) == Reader(Last(lines), h.0, h.1);
    FinishedStays(chunks, i + 1, effect);
  }

  /** A `[DONE]` line among the complete lines ends their handling there. */
  lemma FinishInLines(before: seq<string>, lines: seq<string>, j: nat, effect: string -> LineEffect)
    requires j < |lines| - 1
    requires !HandleLines(before, lines[..j], effect).1
    requires effect(lines[j]) == Finish
    ensures HandleLines(before, Init(lines), effect) == (HandleLines(before, lines[..j], effect).0, true)
  {
    var a, b := lines[..j + 1], lines[j + 1..|lines| - 1];
    assert a[..j] == lines[..j];
    assert HandleLines(before, a, effect) == (HandleLines(before, lines[..j], effect).0, true);
    HandleLinesAppend(before, a, b, effect);
    TakeSplit(lines, j + 1, |lines| - 1);
  }

  /** Handling two runs of lines one after the other. */
  lemma {:induction false} HandleLinesAppend(p: seq<string>, a: seq<string>, b: seq<string>, effect: string -> LineEffect)
    ensures HandleLines(p, a + b, effect)
      == (if HandleLines(p, a, effect).1 then HandleLines(p, a, effect) else HandleLines(HandleLines(p, a, effect).0, b, effect))
    decreases |b|
  {
    if b == [] {
      assert a + b == a;
    } else {
      assert (a + b)[..|a + b| - 1] == a + b[..|b| - 1];
      HandleLinesAppend(p, a, b[..|b| - 1], effect);
    }
  }

  /** A line put in front changes neither the last line nor the order of
      the others. */
  lemma ConsInitLast(a: string, lines: seq<string>)
    requires lines != []
    ensures Init([a] + lines) == [a] + Init(lines)
    ensures Last([a] + lines) == Last(lines)
  {
  }

  /** The pieces of a split that ends with an appended text: the complete
      lines before the last one stay, and the last one joins the text. */
  lemma {:induction false} SplitAppend(s: string, c: string, ch: char)
    ensures Split(s + c, ch) == Init(Split(s, ch)) + Split(Last(Split(s, ch)) + c, ch)
    decreases |s|
  {
    if ch in s {
      var i := IndexOf(s, ch);
      var a, t := s[..i], s[i + 1..];
      assert s == a + [ch] + t;
      assert s + c == a + [ch] + (t + c);
      SplitCons(a, t, ch);
      SplitCons(a, t + c, ch);
      SplitAppend(t, c, ch);
      ConsInitLast(a, Split(t, ch));
      Assoc([a], Init(Split(t, ch)), Split(Last(Split(t, ch)) + c, ch));
    } else {
      assert Split(s, ch) == [s];
    }
  }

  /** The text that has arrived so far decides the outcome, however it was
      cut into reads: the pieces are those of its complete lines, and the
      unfinished line is the one being kept. */
  lemma {:induction false} ReadAllByText(chunks: seq<string>, effect: string -> LineEffect)
    ensures var h := HandleLines([], Init(Split(Concat(chunks), '\n')), effect);
      && ReadAll(chunks, effect).pieces == h.0
      && ReadAll(chunks, effect).finished == h.1
      && (!h.1 ==> ReadAll(chunks, effect).buffer == Last(Split(Concat(chunks), '\n')))
  {
    if chunks != [] {
      var pre := chunks[..|chunks| - 1];
      var c := chunks[|chunks| - 1];
      ReadAllByText(pre, effect);
      var s := Concat(pre);
      SplitAppend(s, c, '\n');
      var rest := Split(Last(Split(s, '\n')) + c, '\n');
      assert Init(Split(s + c, '\n')) == Init(Split(s, '\n')) + Init(rest);
      HandleLinesAppend([], Init(Split(s, '\n')), Init(rest), effect);
    }
  }

  /** Chunkings of the same text give the same pieces. */
  lemma SameTextSamePieces(a: seq<string>, b: seq<string>, effect: string -> LineEffect)
    requires Concat(a) == Concat(b)
    ensures ReadAll(a, effect).pieces == ReadAll(b, effect).pieces
    ensures ReadAll(a, effect).finished == ReadAll(b, effect).finished
  {
    ReadAllByText(a, effect);
    ReadAllByText(b, effect);
  }

  /** A last line without its line break is never handled. */
  lemma UnterminatedLineIgnored(s: string, line: string, effect: string -> LineEffect)
    requires '\n' !in line
    ensures ReadAll([s + "\n", line], effect).pieces == ReadAll([s + "\n"], effect).pieces
  {
    var r := ReadAll([s + "\n"], effect);
    if !r.finished {
      ReadAllByText([s + "\n"], effect);
      ConcatOne(s + "\n");
      LineBreakEndsSplit(s);
      assert [s + "\n"] + [line] == [s + "\n", line];
      ReadAllStep([s + "\n"], line, effect);
      SplitNone(line, '\n');
      assert r.buffer + line == line;
    }
  }

  /** After a final line break the unfinished line is empty. */
  lemma LineBreakEndsSplit(s: string)
    ensures Last(Split(s + "\n", '\n')) == ""
  {
    SplitAppend(s, "\n", '\n');
    var u := Last(Split(s, '\n'));
    assert '\n' !in u;
    assert u + "\n" == u + ['\n'] + "";
    SplitCons(u, "", '\n');
    SplitNone("", '\n');
  }
}
