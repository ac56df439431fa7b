/** Line framing of the response body, as produced by repeated calls to
    `bufio.Reader.ReadString('\n')` (main.go:358-362). */
module LineReader {
  import opened GoStrings

  /** A complete line as `ReadString` returns it with a nil error: non-empty,
      ending in the one line feed it contains. */
  predicate IsLine(l: string) {
    |l| > 0 && l[|l| - 1] == '\n' && '\n' !in l[..|l| - 1]
  }

  /** Position of the first line feed in `s`, or `|s|` when there is none. */
  function NewlineIndex(s: string): (i: nat)
    ensures i <= |s|
    ensures forall k :: 0 <= k < i ==> s[k] != '\n'
    ensures i < |s| <==> '\n' in s
    ensures i < |s| ==> s[i] == '\n'
  {
    if s == [] then 0
    else if s[0] == '\n' then 0
    else 1 + NewlineIndex(s[1..])
  }

  /** What one `ReadString('\n')` call yields on the unread bytes `buf`:
      either a complete line and the bytes after it, or (no line feed left)
      the trailing partial text, which Go returns together with the
      transport's end-of-stream or error. */
  datatype Read = Line(line: string, rest: string) | Partial(tail: string)

  function ReadString(buf: string): (r: Read)
    ensures r.Line? ==> IsLine(r.line) && buf == r.line + r.rest
    ensures r.Partial? <==> '\n' !in buf
    ensures r.Partial? ==> r.tail == buf
  {
    var i := NewlineIndex(buf);
    if i < |buf| then Line(buf[..i + 1], buf[i + 1..]) else Partial(buf)
  }

  /** A complete line at the front of the buffer is what ReadString returns. */
  lemma ReadStringOfLine(l: string, more: string)
    requires IsLine(l)
    ensures ReadString(l + more) == Line(l, more)
  {
    var buf := l + more;
    var i := NewlineIndex(buf);
    assert buf[|l| - 1] == '\n';
    assert i == |l| - 1;
    assert buf[..i + 1] == l;
  }

  /** The body cut into the complete lines the loop sees, in order, and the
      unterminated tail that is left over. */
  datatype Framing = Framing(lines: seq<string>, tail: string)

  predicate AllLines(ls: seq<string>) {
    forall i :: 0 <= i < |ls| ==> IsLine(ls[i])
  }

  /** Repeated ReadString over the whole body: every piece is a complete line,
      the tail holds no line feed, and nothing is lost or reordered. */
  function SplitLines(data: string): (f: Framing)
    ensures AllLines(f.lines)
    ensures '\n' !in f.tail
    ensures Concat(f.lines) + f.tail == data
    decreases |data|
  {
    match ReadString(data)
    case Partial(t) => Framing([], t)
    case Line(l, rest) =>
      var f := SplitLines(rest);
      ConsLine(l, f.lines, f.tail);
      Framing([l] + f.lines, f.tail)
  }

  /** Putting a complete line in front keeps the framing invariants. */
  lemma ConsLine(l: string, ls: seq<string>, t: string)
    requires IsLine(l) && AllLines(ls)
    ensures AllLines([l] + ls)
    ensures Concat([l] + ls) + t == l + (Concat(ls) + t)
  {
    var ls' := [l] + ls;
    assert ls'[0] == l && ls'[1..] == ls;
    assert Concat(ls') == l + Concat(ls);
  }

  /** The framing is unique: joining complete lines and an unterminated tail
      and splitting again gives back the same lines and tail. */
  lemma {:induction false} SplitConcat(ls: seq<string>, t: string)
    requires AllLines(ls)
    requires '\n' !in t
    ensures SplitLines(Concat(ls) + t) == Framing(ls, t)
  {
    if ls == [] {
      assert Concat(ls) + t == t;
    } else {
      var more := Concat(ls[1..]) + t;
      assert Concat(ls) + t == ls[0] + more;
      ReadStringOfLine(ls[0], more);
      SplitConcat(ls[1..], t);
      assert [ls[0]] + ls[1..] == ls;
    }
  }

  lemma AllLinesAppend(a: seq<string>, b: seq<string>)
    requires AllLines(a) && AllLines(b)
    ensures AllLines(a + b)
  {
    forall i | 0 <= i < |a + b| ensures IsLine((a + b)[i]) {
      if i < |a| { assert (a + b)[i] == a[i]; } else { assert (a + b)[i] == b[i - |a|]; }
    }
  }

  /** A body that ends on a line boundary has an empty tail. */
  lemma LineCompleteHasNoTail(data: string)
    requires data == [] || data[|data| - 1] == '\n'
    ensures SplitLines(data).tail == []
  {
  }

  lemma JoinedFraming(first: string, second: string)
    requires first == [] || first[|first| - 1] == '\n'
    ensures first + second
         == Concat(SplitLines(first).lines + SplitLines(second).lines) + SplitLines(second).tail
  {
    var f1 := SplitLines(first);
    var f2 := SplitLines(second);
    LineCompleteHasNoTail(first);
    assert Concat(f1.lines) + [] == Concat(f1.lines);
    JoinConcat(f1.lines, f2.lines, f2.tail, first, second);
  }

  lemma JoinConcat(l1: seq<string>, l2: seq<string>, t2: string, first: string, second: string)
    requires Concat(l1) == first
    requires Concat(l2) + t2 == second
    ensures first + second == Concat(l1 + l2) + t2
  {
    ConcatAppend(l1, l2);
  }

  /** Bytes appended after a line boundary split independently: the lines of
      the whole are the lines of the first part followed by those of the rest. */
  lemma {:induction false} SplitLinesAppend(first: string, second: string)
    requires first == [] || first[|first| - 1] == '\n'
    ensures SplitLines(first + second)
         == Framing(SplitLines(first).lines + SplitLines(second).lines, SplitLines(second).tail)
  {
    var f1 := SplitLines(first);
    var f2 := SplitLines(second);
    JoinedFraming(first, second);
    AllLinesAppend(f1.lines, f2.lines);
    SplitConcat(f1.lines + f2.lines, f2.tail);
  }

  /** An unterminated tail after a line boundary is only ever the tail: it adds no line. */
  lemma {:induction false} PartialTailAddsNoLine(data: string, partial: string)
    requires data == [] || data[|data| - 1] == '\n'
    requires '\n' !in partial
    ensures SplitLines(data + partial) == Framing(SplitLines(data).lines, partial)
  {
    var f := SplitLines(data);
    LineCompleteHasNoTail(data);
    assert Concat(f.lines) + [] == Concat(f.lines);
    JoinConcat(f.lines, [], partial, data, partial);
    assert f.lines + [] == f.lines;
    SplitConcat(f.lines, partial);
  }
}
