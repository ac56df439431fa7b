/** Properties of the aggregator's reference outcome: what is read, what is
    ignored, and what a well-formed stream of delta events produces. */
module StreamProperties {
  import opened Outcomes
  import opened GoStrings
  import opened LineReader
  import opened SseEvent
  import opened Aggregator

  /*** Errors ***/

  /** The read error is returned exactly when the transport fails and no line
      of the body stopped the reading first; whatever text had been gathered
      is then dropped. */
  lemma ReadFailedExactly(body: Body, parse: Parser)
    ensures Listen(body, parse) == Failure(ReadFailed)
        <==> body.ending == ReadFailure && Stop !in Actions(SplitLines(body.data).lines, parse)
  {
    DecideReadFailed(Actions(SplitLines(body.data).lines, parse), body.ending == ReadFailure);
  }

  /** Action-level core of `ReadFailedExactly`. */
  lemma DecideReadFailed(acts: seq<LineAction>, failed: bool)
    ensures Decide(acts, failed) == Failure(ReadFailed) <==> failed && Stop !in acts
  {
    if Stop !in acts {
      assert FirstStop(acts) == |acts|;
    } else {
      assert acts[FirstStop(acts)] == Stop;
    }
  }

  /*** Lines that do not matter ***/

  /** Action-level core of `StopCutsStream`. */
  lemma StopCutsActions(a: seq<LineAction>, b: seq<LineAction>, failed: bool, failed': bool)
    requires Stop in a
    ensures Decide(a + b, failed) == Decide(a, failed')
  {
    FirstStopAppend(a, b);
    var k := FirstStop(a);
    assert (a + b)[..k] == a[..k];
  }

  /** Once a line has stopped the reading, nothing after it matters, and
      neither does how the transport would have ended. */
  lemma StopCutsStream(lines: seq<string>, more: seq<string>, failed: bool, failed': bool, parse: Parser)
    requires Stop in Actions(lines, parse)
    ensures Outcome(lines + more, failed, parse) == Outcome(lines, failed', parse)
  {
    var a := Actions(lines, parse);
    ActionsAppend(lines, more, parse);
    StopCutsActions(a, Actions(more, parse), failed, failed');
  }

  /** A `Skip` contributes no text. */
  lemma AppendedSkip(a: seq<LineAction>, c: seq<LineAction>)
    ensures Appended(a + [Skip] + c) == Appended(a + c)
  {
    AppendedAppend(a + [Skip], c);
    AppendedAppend(a, [Skip]);
    AppendedAppend(a, c);
    assert Appended([Skip]) == [] by {
      assert [Skip][1..] == [];
    }
  }

  /** A `Skip` does not move the first `Stop`, apart from shifting it past itself. */
  lemma FirstStopSkip(a: seq<LineAction>, b: seq<LineAction>)
    ensures FirstStop(a + [Skip] + b)
         == if FirstStop(a) < |a| then FirstStop(a) else |a| + 1 + FirstStop(b)
    ensures FirstStop(a + b)
         == if FirstStop(a) < |a| then FirstStop(a) else |a| + FirstStop(b)
  {
    assert a + [Skip] + b == a + ([Skip] + b);
    FirstStopAppend(a, [Skip] + b);
    FirstStopAppend(a, b);
    assert ([Skip] + b)[1..] == b;
  }

  /** Action-level core of `NeutralLineIgnored`: a `Skip` anywhere changes nothing. */
  lemma SkipIgnored(a: seq<LineAction>, b: seq<LineAction>, failed: bool)
    ensures Decide(a + [Skip] + b, failed) == Decide(a + b, failed)
  {
    var with := a + [Skip] + b;
    var without := a + b;
    FirstStopSkip(a, b);
    var ka := FirstStop(a);
    if ka < |a| {
      assert with[..ka] == a[..ka] == without[..ka];
    } else {
      var kb := FirstStop(b);
      var kw, ko := |a| + 1 + kb, |a| + kb;
      assert FirstStop(with) == kw && FirstStop(without) == ko;
      assert kw == |with| <==> ko == |without|;
      assert with[..kw] == a + [Skip] + b[..kb];
      assert without[..ko] == a + b[..kb];
      AppendedSkip(a, b[..kb]);
      assert Appended(with[..kw]) == Appended(without[..ko]);
    }
  }

  /** A neutral line (blank, not `data: `, undecodable, of another kind, or a
      delta without content) can be dropped from anywhere in the stream
      without changing the outcome. */
  lemma NeutralLineIgnored(pre: seq<string>, line: string, post: seq<string>, failed: bool, parse: Parser)
    requires IsNeutral(line, parse)
    ensures Outcome(pre + [line] + post, failed, parse) == Outcome(pre + post, failed, parse)
  {
    SkipIsNeutral(line, parse);
    ActionsAppend(pre + [line], post, parse);
    ActionsAppend(pre, [line], parse);
    ActionsAppend(pre, post, parse);
    ActionsOne(line, parse);
    SkipIgnored(Actions(pre, parse), Actions(post, parse), failed);
  }

  /** A trailing line that lacks its line feed is handed back with the
      end-of-stream and never processed: adding one to a body that ends on a
      line boundary changes nothing. */
  lemma PartialLineIgnored(data: string, partial: string, ending: Ending, parse: Parser)
    requires data == [] || data[|data| - 1] == '\n'
    requires '\n' !in partial
    ensures Listen(Body(data + partial, ending), parse) == Listen(Body(data, ending), parse)
  {
    PartialTailAddsNoLine(data, partial);
  }

  /** Bytes that arrive after a line that stopped the reading, and the way the
      transport ends after them, do not change the answer. */
  lemma BytesAfterStopIgnored(first: string, second: string, ending: Ending, ending': Ending, parse: Parser)
    requires first == [] || first[|first| - 1] == '\n'
    requires Stop in Actions(SplitLines(first).lines, parse)
    ensures Listen(Body(first + second, ending), parse) == Listen(Body(first, ending'), parse)
  {
    SplitLinesAppend(first, second);
    StopCutsStream(SplitLines(first).lines, SplitLines(second).lines,
                   ending == ReadFailure, ending' == ReadFailure, parse);
  }

  /*** Well-formed delta streams ***/

  /** The framed line `data: <p>` followed by a line feed. */
  function DataLine(p: string): string {
    DataPrefix + p + "\n"
  }

  function DataLines(ps: seq<string>): (ls: seq<string>)
    ensures |ls| == |ps|
    ensures forall i :: 0 <= i < |ps| ==> ls[i] == DataLine(ps[i])
  {
    seq(|ps|, i requires 0 <= i < |ps| => DataLine(ps[i]))
  }

  /** A payload that survives framing and trimming unchanged: one line, not
      empty, not ending in white space. */
  predicate Framable(p: string) {
    p != [] && !IsSpace(p[|p| - 1]) && '\n' !in p
  }

  /** A framed one-line payload is one complete line. */
  lemma DataLineIsLine(p: string)
    requires '\n' !in p
    ensures IsLine(DataLine(p))
  {
    var x := DataPrefix + p;
    assert DataLine(p)[..|DataLine(p)| - 1] == x;
    forall k | 0 <= k < |x| ensures x[k] != '\n' {
      if k >= |DataPrefix| { assert x[k] == p[k - |DataPrefix|]; }
    }
  }

  /** Trimming a framed line removes exactly the line feed. */
  lemma DataLineTrim(p: string)
    requires Framable(p)
    ensures TrimSpace(DataLine(p)) == DataPrefix + p
  {
    var x := DataPrefix + p;
    assert x[0] == 'd' && x[|x| - 1] == p[|p| - 1];
    assert AllSpace("\n");
    TrimSpacePadded("", x, "\n");
    assert "" + x + "\n" == DataLine(p);
  }

  /** A framed line is a complete line whose payload is exactly `p`. */
  lemma DataLinePayload(p: string)
    requires Framable(p)
    ensures IsLine(DataLine(p))
    ensures DataPayload(DataLine(p)) == Some(p)
  {
    DataLineIsLine(p);
    DataLineTrim(p);
    assert (DataPrefix + p)[|DataPrefix|..] == p;
  }

  /** The event a well-formed delta line carries: one content entry with text `t`. */
  function DeltaEvent(t: string): Payload {
    Parsed(Event(Some(DeltaObject), Some([TextPart(t)])))
  }

  /** `ps[i]` decodes to a delta event whose one content entry has the text `ts[i]`. */
  predicate DeltaPayloads(ps: seq<string>, ts: seq<string>, parse: Parser) {
    && |ps| == |ts|
    && forall i :: 0 <= i < |ps| ==>
         Framable(ps[i]) && ps[i] != DoneSentinel && parse(ps[i]) == DeltaEvent(ts[i])
  }

  function DeltaActions(ts: seq<string>): (acts: seq<LineAction>)
    ensures |acts| == |ts|
    ensures forall i :: 0 <= i < |ts| ==> acts[i] == Append([ts[i]])
  {
    seq(|ts|, i requires 0 <= i < |ts| => Append([ts[i]]))
  }

  lemma {:induction false} DeltaActionsText(ts: seq<string>)
    ensures Appended(DeltaActions(ts)) == ts
  {
    if ts != [] {
      DeltaActionsText(ts[1..]);
      assert DeltaActions(ts)[1..] == DeltaActions(ts[1..]);
    }
  }

  lemma DeltaLinesActions(ps: seq<string>, ts: seq<string>, parse: Parser)
    requires DeltaPayloads(ps, ts, parse)
    ensures AllLines(DataLines(ps))
    ensures Actions(DataLines(ps), parse) == DeltaActions(ts)
  {
    forall i | 0 <= i < |ps|
      ensures IsLine(DataLines(ps)[i])
      ensures Actions(DataLines(ps), parse)[i] == Append([ts[i]])
    {
      DataLinePayload(ps[i]);
      TextsOfOne(TextPart(ts[i]));
      ActionAt(DataLines(ps), i, parse);
    }
  }

  /** Delta actions, then optionally a `Stop`: the appended text is every delta's text. */
  lemma DeltaActionsDecide(ts: seq<string>, failed: bool)
    ensures Decide(DeltaActions(ts) + [Stop], failed) == Finalize(Concat(ts))
    ensures Decide(DeltaActions(ts), failed)
         == if failed then Failure(ReadFailed) else Finalize(Concat(ts))
  {
    var d := DeltaActions(ts);
    DeltaActionsText(ts);
    assert FirstStop(d) == |d|;
    FirstStopAppend(d, [Stop]);
    assert (d + [Stop])[..|d|] == d;
    assert d[..|d|] == d;
  }

  /** The body made of framed lines `ls` reads back as exactly those lines. */
  lemma FramedBody(ls: seq<string>)
    requires AllLines(ls)
    ensures SplitLines(Concat(ls)).lines == ls
  {
    SplitConcat(ls, "");
    assert Concat(ls) + "" == Concat(ls);
  }

  /** The lines of delta events followed by `data: [DONE]` act as the deltas and a `Stop`. */
  lemma DeltaLinesThenDoneActions(ps: seq<string>, ts: seq<string>, parse: Parser)
    requires DeltaPayloads(ps, ts, parse)
    ensures Concat(DataLines(ps)) + DataLine(DoneSentinel) == Concat(DataLines(ps) + [DataLine(DoneSentinel)])
    ensures AllLines(DataLines(ps) + [DataLine(DoneSentinel)])
    ensures Actions(DataLines(ps) + [DataLine(DoneSentinel)], parse) == DeltaActions(ts) + [Stop]
  {
    var ls := DataLines(ps);
    var done := DataLine(DoneSentinel);
    DeltaLinesActions(ps, ts, parse);
    DoneLine(parse);
    ConcatAppend(ls, [done]);
    assert Concat([done]) == done;
    ActionsAppend(ls, [done], parse);
    ActionsOne(done, parse);
    assert AllLines(ls + [done]) by {
      forall i | 0 <= i < |ls| + 1 ensures IsLine((ls + [done])[i]) {
        if i < |ls| { assert (ls + [done])[i] == ls[i]; }
      }
    }
  }

  /** `data: [DONE]` framed as a line is a complete line that stops the reading. */
  lemma DoneLine(parse: Parser)
    ensures IsLine(DataLine(DoneSentinel))
    ensures Classify(DataLine(DoneSentinel), parse) == Stop
  {
    DataLinePayload(DoneSentinel);
  }

  /** Data lines of delta events followed by `data: [DONE]`: the answer is the
      concatenation of the events' texts in arrival order, whatever the
      transport does afterwards — and the empty-answer error when those texts
      are all empty. */
  lemma DeltaStreamThenDone(ps: seq<string>, ts: seq<string>, ending: Ending, parse: Parser)
    requires DeltaPayloads(ps, ts, parse)
    ensures Concat(ts) != "" ==>
      Listen(Body(Concat(DataLines(ps)) + DataLine(DoneSentinel), ending), parse) == Success(Concat(ts))
    ensures Concat(ts) == "" ==>
      Listen(Body(Concat(DataLines(ps)) + DataLine(DoneSentinel), ending), parse) == Failure(EmptyResponse)
  {
    DeltaLinesThenDoneActions(ps, ts, parse);
    FramedBody(DataLines(ps) + [DataLine(DoneSentinel)]);
    DeltaActionsDecide(ts, ending == ReadFailure);
  }

  /** Data lines of delta events and then the end of the body, with no
      terminator: at end-of-stream the gathered text is the answer, while a
      read error discards it, and no text at end-of-stream is the empty-answer
      error. */
  lemma DeltaStreamThenEnd(ps: seq<string>, ts: seq<string>, ending: Ending, parse: Parser)
    requires DeltaPayloads(ps, ts, parse)
    ensures ending == ReadFailure ==>
      Listen(Body(Concat(DataLines(ps)), ending), parse) == Failure(ReadFailed)
    ensures ending == AtEOF && Concat(ts) != "" ==>
      Listen(Body(Concat(DataLines(ps)), ending), parse) == Success(Concat(ts))
    ensures ending == AtEOF && Concat(ts) == "" ==>
      Listen(Body(Concat(DataLines(ps)), ending), parse) == Failure(EmptyResponse)
  {
    DeltaLinesActions(ps, ts, parse);
    FramedBody(DataLines(ps));
    DeltaActionsDecide(ts, ending == ReadFailure);
  }

  /*** Concrete streams ***/

  /** The JSON text of a `thread.message.delta` event with one text entry
      `v`, as the backend sends it:
      `{"object":"thread.message.delta","delta":{"content":[{"text":{"value":"v"}}]}}`. */
  function DeltaJson(v: string): string {
    "{\"object\":\"thread.message.delta\"," + "\"delta\":{\"content\":[" + "{\"text\":{\"value\":\"" + v + "\"}}]}}"
  }

  lemma DeltaJsonFramable(v: string)
    requires '\n' !in v
    ensures Framable(DeltaJson(v))
    ensures DeltaJson(v) != DoneSentinel
  {
    assert '\n' !in "{\"object\":\"thread.message.delta\",";
    assert '\n' !in "\"delta\":{\"content\":[";
    assert '\n' !in "{\"text\":{\"value\":\"";
    assert '\n' !in "\"}}]}}";
    assert DeltaJson(v)[0] == '{';
  }

  /** The decoder on the two payloads of the example: each is a delta event
      with one text entry; nothing else decodes. */
  function ExampleParse(s: string): Payload {
    if s == DeltaJson("Hel") then DeltaEvent("Hel")
    else if s == DeltaJson("lo") then DeltaEvent("lo")
    else Malformed
  }

  lemma ExamplePayloads()
    ensures DeltaPayloads([DeltaJson("Hel"), DeltaJson("lo")], ["Hel", "lo"], ExampleParse)
  {
    assert |DeltaJson("Hel")| != |DeltaJson("lo")|;
    DeltaJsonFramable("Hel");
    DeltaJsonFramable("lo");
  }

  lemma ExampleFraming()
    ensures Concat(DataLines([DeltaJson("Hel"), DeltaJson("lo")])) + DataLine(DoneSentinel)
         == DataLine(DeltaJson("Hel")) + DataLine(DeltaJson("lo")) + DataLine(DoneSentinel)
    ensures Concat(["Hel", "lo"]) == "Hello"
  {
    var ps := [DeltaJson("Hel"), DeltaJson("lo")];
    assert DataLines(ps)[1..][1..] == [];
    assert ["Hel", "lo"][1..][1..] == [];
  }

  /** Two delta events carrying "Hel" and "lo", then `[DONE]`: the answer is "Hello". */
  lemma HelloExample(ending: Ending)
    ensures Listen(Body(DataLine(DeltaJson("Hel")) + DataLine(DeltaJson("lo")) + DataLine(DoneSentinel), ending),
                   ExampleParse)
         == Success("Hello")
  {
    ExamplePayloads();
    ExampleFraming();
    DeltaStreamThenDone([DeltaJson("Hel"), DeltaJson("lo")], ["Hel", "lo"], ending, ExampleParse);
  }

  /** A stream that is `data: [DONE]` at once yields the empty-answer error. */
  lemma DoneOnlyExample(ending: Ending, parse: Parser)
    ensures Listen(Body(DataLine(DoneSentinel), ending), parse) == Failure(EmptyResponse)
  {
    DeltaStreamThenDone([], [], ending, parse);
    assert Concat(DataLines([])) + DataLine(DoneSentinel) == DataLine(DoneSentinel);
  }

  /** An empty body is the empty-answer error at end-of-stream and the read error otherwise. */
  lemma EmptyBodyExample(parse: Parser)
    ensures Listen(Body("", AtEOF), parse) == Failure(EmptyResponse)
    ensures Listen(Body("", ReadFailure), parse) == Failure(ReadFailed)
  {
    SplitConcat([], "");
  }
}
