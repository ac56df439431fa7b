/** The streaming-answer aggregator `listenToSSEStream` (main.go:355-422):
    the response body is read line by line, `data: ` lines are decoded, the
    text of `thread.message.delta` events is appended in arrival order, and
    reading stops at `data: [DONE]`, at a `thread.message.completed` event or
    at the end of the body. */
module Aggregator {
  import opened Outcomes
  import opened GoStrings
  import opened LineReader
  import opened SseEvent

  /** How the transport ended after delivering `data`: `io.EOF`, or any other
      read error. */
  datatype Ending = AtEOF | ReadFailure

  /** Everything the transport delivers to the reader: the bytes, then the way it ended. */
  datatype Body = Body(data: string, ending: Ending)

  /** The two errors `listenToSSEStream` returns: a non-EOF read error
      (main.go:367) and the empty answer (main.go:418). */
  datatype StreamError = ReadFailed | EmptyResponse

  /*** The meaning of one line ***/

  /** The payload of a line: after trimming white space the line must start
      with `data: `, and the payload is what follows. */
  function DataPayload(line: string): (p: Option<string>)
    ensures p.Some? <==> DataPrefix <= TrimSpace(line)
    ensures p.Some? ==> TrimSpace(line) == DataPrefix + p.value
  {
    var t := TrimSpace(line);
    if DataPrefix <= t then Some(t[|DataPrefix|..]) else None
  }

  /** What the loop does with one line: nothing, append some text, or stop reading. */
  datatype LineAction = Skip | Append(texts: seq<string>) | Stop

  /** The fate of one line (main.go:370-411): a `data: [DONE]` line or a
      `thread.message.completed` event stops the reading, a
      `thread.message.delta` event with a `delta.content` list appends the
      text values found in it, and every other line is skipped. */
  function Classify(line: string, parse: Parser): LineAction {
    match DataPayload(line)
    case None => Skip
    case Some(p) => PayloadAction(p, parse)
  }

  /** The fate of a `data: ` line by its payload (main.go:378-411). */
  function PayloadAction(p: string, parse: Parser): LineAction {
    if p == DoneSentinel then Stop
    else match parse(p)
      case Malformed => Skip
      case Parsed(e) =>
        if e.obj == Some(DeltaObject) then
          (if e.content.Some? then Append(TextsOf(e.content.value)) else Skip)
        else if e.obj == Some(CompletedObject) then Stop
        else Skip
  }

  /** A line that leaves the accumulator alone and does not stop the reading:
      blank after trimming, not a `data: ` line, an undecodable payload, an
      event whose `object` is neither delta nor completed, or a delta event
      without a `delta.content` list. */
  predicate IsNeutral(line: string, parse: Parser) {
    var t := TrimSpace(line);
    || t == []
    || !(DataPrefix <= t)
    || IsNeutralPayload(t[|DataPrefix|..], parse)
  }

  /** A `data: ` payload that the loop skips: not the sentinel, and either
      undecodable, an event of another kind, or a delta without content. */
  predicate IsNeutralPayload(p: string, parse: Parser) {
    && p != DoneSentinel
    && match parse(p)
       case Malformed => true
       case Parsed(e) =>
         || (e.obj != Some(DeltaObject) && e.obj != Some(CompletedObject))
         || (e.obj == Some(DeltaObject) && e.content.None?)
  }

  /** The neutral payloads are exactly the ones the loop skips. */
  lemma SkipIsNeutralPayload(p: string, parse: Parser)
    ensures PayloadAction(p, parse) == Skip <==> IsNeutralPayload(p, parse)
  {
  }

  /** The neutral lines are exactly the ones the loop skips. */
  lemma SkipIsNeutral(line: string, parse: Parser)
    ensures Classify(line, parse) == Skip <==> IsNeutral(line, parse)
  {
    var t := TrimSpace(line);
    if DataPrefix <= t {
      assert DataPayload(line) == Some(t[|DataPrefix|..]);
      SkipIsNeutralPayload(t[|DataPrefix|..], parse);
    } else {
      assert DataPayload(line) == None;
    }
  }

  /** A line stops the reading exactly when it is `data: [DONE]` or a data
      line whose decoded `object` is `thread.message.completed`. */
  lemma StopLines(line: string, parse: Parser)
    ensures Classify(line, parse) == Stop
        <==> (var t := TrimSpace(line);
              && DataPrefix <= t
              && (var p := t[|DataPrefix|..];
                  p == DoneSentinel || (parse(p).Parsed? && parse(p).event.obj == Some(CompletedObject))))
  {
  }

  /*** The reference: what the loop computes ***/

  /** The action of every line, in order. */
  function Actions(lines: seq<string>, parse: Parser): (acts: seq<LineAction>)
    ensures |acts| == |lines|
  {
    if lines == [] then [] else [Classify(lines[0], parse)] + Actions(lines[1..], parse)
  }

  /** The `i`-th action is the action of the `i`-th line. */
  lemma {:induction false} ActionAt(lines: seq<string>, i: nat, parse: Parser)
    requires i < |lines|
    ensures Actions(lines, parse)[i] == Classify(lines[i], parse)
  {
    if i > 0 {
      ActionAt(lines[1..], i - 1, parse);
    }
  }

  /** Index of the first `Stop`, or `|acts|` when there is none. */
  function FirstStop(acts: seq<LineAction>): (k: nat)
    ensures k <= |acts|
    ensures forall i :: 0 <= i < k ==> !acts[i].Stop?
    ensures k < |acts| ==> acts[k].Stop?
  {
    if acts == [] then 0
    else if acts[0].Stop? then 0
    else 1 + FirstStop(acts[1..])
  }

  /** All appended fragments, action after action. */
  function Appended(acts: seq<LineAction>): seq<string> {
    if acts == [] then []
    else (if acts[0].Append? then acts[0].texts else []) + Appended(acts[1..])
  }

  /** Finalization (main.go:417-421): nothing accumulated is an error, never an empty answer. */
  function Finalize(acc: string): (r: Result<string, StreamError>)
    ensures r.Success? <==> acc != ""
    ensures r.Success? ==> r.value == acc
    ensures r.Failure? ==> r.error == EmptyResponse
  {
    if acc == "" then Failure(EmptyResponse) else Success(acc)
  }

  /** The outcome of a run of actions, where `failed` says whether the
      transport ends with a non-EOF error after them: the text appended
      before the first `Stop`, unless no `Stop` came and the read failed. */
  function Decide(acts: seq<LineAction>, failed: bool): Result<string, StreamError> {
    var k := FirstStop(acts);
    if k == |acts| && failed then Failure(ReadFailed)
    else Finalize(Concat(Appended(acts[..k])))
  }

  /** The outcome of reading `lines`. */
  function Outcome(lines: seq<string>, failed: bool, parse: Parser): Result<string, StreamError> {
    Decide(Actions(lines, parse), failed)
  }

  /** The outcome of a whole response body: its complete lines are read, the
      unterminated tail never is. */
  function Listen(body: Body, parse: Parser): (r: Result<string, StreamError>)
    ensures r.Success? ==> r.value != ""
  {
    Outcome(SplitLines(body.data).lines, body.ending == ReadFailure, parse)
  }

  /*** Algebra of the reference ***/

  lemma {:induction false} AppendedAppend(a: seq<LineAction>, b: seq<LineAction>)
    ensures Appended(a + b) == Appended(a) + Appended(b)
  {
    if a == [] {
      assert a + b == b;
    } else {
      assert (a + b)[0] == a[0] && (a + b)[1..] == a[1..] + b;
      AppendedAppend(a[1..], b);
    }
  }

  /** The first `Stop` of `a + b` is the one in `a` if there is one, and
      otherwise the first one of `b`, shifted by `|a|`. */
  lemma {:induction false} FirstStopAppend(a: seq<LineAction>, b: seq<LineAction>)
    ensures FirstStop(a + b)
         == if FirstStop(a) < |a| then FirstStop(a) else |a| + FirstStop(b)
  {
    if a != [] {
      assert (a + b)[0] == a[0] && (a + b)[1..] == a[1..] + b;
      FirstStopAppend(a[1..], b);
    } else {
      assert a + b == b;
    }
  }

  lemma {:induction false} ActionsAppend(a: seq<string>, b: seq<string>, parse: Parser)
    ensures Actions(a + b, parse) == Actions(a, parse) + Actions(b, parse)
  {
    if a == [] {
      assert a + b == b;
    } else {
      assert (a + b)[0] == a[0] && (a + b)[1..] == a[1..] + b;
      ActionsAppend(a[1..], b, parse);
    }
  }

  /** The actions of a single line. */
  lemma ActionsOne(line: string, parse: Parser)
    ensures Actions([line], parse) == [Classify(line, parse)]
  {
    assert [line][1..] == [];
  }

  /** Extending the read prefix by one action adds exactly that action's text. */
  lemma AppendedStep(acts: seq<LineAction>, k: nat)
    requires k < |acts|
    ensures Concat(Appended(acts[..k + 1]))
         == Concat(Appended(acts[..k])) + Concat(if acts[k].Append? then acts[k].texts else [])
  {
    assert acts[..k + 1] == acts[..k] + [acts[k]];
    AppendedAppend(acts[..k], [acts[k]]);
    assert Appended([acts[k]]) == (if acts[k].Append? then acts[k].texts else []) by {
      assert [acts[k]][1..] == [];
    }
    ConcatAppend(Appended(acts[..k]), if acts[k].Append? then acts[k].texts else []);
  }

  /*** The loop ***/

  /** Reading from the start of line `k` yields line `k` and leaves the rest. */
  lemma ReadNextLine(lines: seq<string>, k: nat, tail: string)
    requires AllLines(lines) && k < |lines|
    ensures ReadString(Concat(lines[k..]) + tail) == Line(lines[k], Concat(lines[k + 1..]) + tail)
  {
    assert lines[k..][0] == lines[k] && lines[k..][1..] == lines[k + 1..];
    assert Concat(lines[k..]) + tail == lines[k] + (Concat(lines[k + 1..]) + tail);
    ReadStringOfLine(lines[k], Concat(lines[k + 1..]) + tail);
  }

  /** Appending each text value of a content list, one after the other. */
  method AppendTexts(acc: string, content: seq<Part>) returns (r: string)
    ensures r == acc + Concat(TextsOf(content))
  {
    r := acc;
    for j := 0 to |content|
      invariant r == acc + Concat(TextsOf(content[..j]))
    {
      assert content[..j + 1] == content[..j] + [content[j]];
      TextsOfAppend(content[..j], [content[j]]);
      TextsOfOne(content[j]);
      ConcatAppend(TextsOf(content[..j]), TextsOf([content[j]]));
      match content[j] {
        case TextPart(value) =>
          assert Concat([value]) == value;
          r := r + value;
        case NoText =>
      }
    }
    assert content[..|content|] == content;
  }

  /** One pass of the loop body after the read (main.go:370-411): trims the
      line, skips it unless it is a `data: ` line, and hands the payload on. */
  method HandleLine(acc: string, raw: string, parse: Parser) returns (acc': string, stop: bool)
    ensures stop <==> Classify(raw, parse) == Stop
    ensures acc' == acc + Concat(if Classify(raw, parse).Append? then Classify(raw, parse).texts else [])
  {
    acc', stop := acc, false;
    var line := TrimSpace(raw);
    if |line| == 0 {
      assert DataPayload(raw) == None;
      return;
    }
    if DataPrefix <= line {
      var eventData := line[|DataPrefix|..];
      assert DataPayload(raw) == Some(eventData);
      acc', stop := HandlePayload(acc, eventData, parse);
    } else {
      assert DataPayload(raw) == None;
    }
  }

  /** The payload of a `data: ` line (main.go:378-411): stops at the sentinel
      or a completed event, skips what does not decode, and appends the text
      of a delta event. */
  method HandlePayload(acc: string, eventData: string, parse: Parser) returns (acc': string, stop: bool)
    ensures stop <==> PayloadAction(eventData, parse) == Stop
    ensures acc' == acc + Concat(if PayloadAction(eventData, parse).Append? then PayloadAction(eventData, parse).texts else [])
  {
    acc', stop := acc, false;
    if eventData == DoneSentinel {
      stop := true;
      return;
    }
    var payload := parse(eventData);
    if payload.Malformed? {
      return;
    }
    var event := payload.event;
    if event.obj == Some(DeltaObject) && event.content.Some? {
      acc' := AppendTexts(acc', event.content.value);
    }
    if event.obj == Some(CompletedObject) {
      stop := true;
      return;
    }
  }

  /** `listenToSSEStream`: the Go loop, step by step. Its answer is the
      reference outcome, and a successful answer is never empty. */
  method ListenToSSEStream(body: Body, parse: Parser) returns (r: Result<string, StreamError>)
    ensures r == Listen(body, parse)
    ensures r.Success? ==> r.value != ""
  {
    ghost var lines := SplitLines(body.data).lines;
    ghost var tail := SplitLines(body.data).tail;
    ghost var failed := body.ending == ReadFailure;
    ghost var acts := Actions(lines, parse);
    assert Listen(body, parse) == Decide(acts, failed);
    ghost var k: nat := 0;
    var rest := body.data;
    var finalMessage := "";
    while true
      invariant k <= |lines|
      invariant rest == Concat(lines[k..]) + tail
      invariant k <= FirstStop(acts)
      invariant finalMessage == Concat(Appended(acts[..k]))
      decreases |rest|
    {
      var read := ReadString(rest);
      if read.Partial? {
        if k < |lines| {
          ReadNextLine(lines, k, tail);
        }
        assert k == |acts| == FirstStop(acts);
        if body.ending == ReadFailure {
          assert Decide(acts, failed) == Failure(ReadFailed);
          return Failure(ReadFailed);
        }
        assert acts[..k] == acts;
        assert Decide(acts, failed) == Finalize(finalMessage);
        break;
      }
      ReadNextLine(lines, k, tail);
      AppendedStep(acts, k);
      ActionAt(lines, k, parse);
      rest := read.rest;
      var stop;
      finalMessage, stop := HandleLine(finalMessage, read.line, parse);
      if stop {
        assert acts[k] == Stop;
        assert FirstStop(acts) == k;
        assert finalMessage == Concat(Appended(acts[..k])) by {
          assert Concat([]) == "";
        }
        assert Decide(acts, failed) == Finalize(finalMessage);
        break;
      }
      assert !acts[k].Stop?;
      k := k + 1;
    }
    if finalMessage == "" {
      return Failure(EmptyResponse);
    }
    return Success(finalMessage);
  }
}
