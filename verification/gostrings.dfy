/** The pieces of Go's `strings` and `unicode` packages that the stream reader
    relies on, stated over Unicode code points. */
module GoStrings {

  /** Go's `unicode.IsSpace`: the Latin-1 spaces '\t', '\n', '\v', '\f', '\r',
      ' ', U+0085 and U+00A0, plus the other code points with the Unicode
      White_Space property. */
  predicate IsSpace(c: char) {
    || c == '\t' || c == '\n' || c == '\U{000B}' || c == '\U{000C}' || c == '\r' || c == ' '
    || c == '\U{0085}' || c == '\U{00A0}' || c == '\U{1680}'
    || ('\U{2000}' <= c <= '\U{200A}')
    || c == '\U{2028}' || c == '\U{2029}' || c == '\U{202F}' || c == '\U{205F}' || c == '\U{3000}'
  }

  /** All characters of `s` are white space. */
  predicate AllSpace(s: string) {
    forall k :: 0 <= k < |s| ==> IsSpace(s[k])
  }

  /** Drops the leading white space: the result is a suffix of `s` that does
      not start with a space (TrimLeftCut: what it drops is white space). */
  function TrimLeft(s: string): (r: string)
    ensures |r| <= |s|
    ensures r != [] ==> !IsSpace(r[0])
  {
    if s != [] && IsSpace(s[0]) then TrimLeft(s[1..]) else s
  }

  /** Drops the trailing white space: the result is a prefix of `s` that does
      not end with a space (TrimRightCut: what it drops is white space). */
  function TrimRight(s: string): (r: string)
    ensures |r| <= |s|
    ensures r != [] ==> !IsSpace(r[|r| - 1])
  {
    if s != [] && IsSpace(s[|s| - 1]) then TrimRight(s[..|s| - 1]) else s
  }

  /** TrimLeft keeps a suffix and everything it drops is white space. */
  lemma {:induction false} TrimLeftCut(s: string)
    ensures TrimLeft(s) == s[|s| - |TrimLeft(s)|..]
    ensures AllSpace(s[..|s| - |TrimLeft(s)|])
  {
    if s != [] && IsSpace(s[0]) {
      TrimLeftCut(s[1..]);
      assert s[1..][|s| - 1 - |TrimLeft(s)|..] == s[|s| - |TrimLeft(s)|..];
      var n := |s| - |TrimLeft(s)|;
      forall k | 0 <= k < n
        ensures IsSpace(s[..n][k])
      {
        if k > 0 {
          assert s[..n][k] == s[1..][..n - 1][k - 1];
        }
      }
    }
  }

  /** TrimRight keeps a prefix and everything it drops is white space. */
  lemma {:induction false} TrimRightCut(s: string)
    ensures TrimRight(s) == s[..|TrimRight(s)|]
    ensures AllSpace(s[|TrimRight(s)|..])
  {
    if s != [] && IsSpace(s[|s| - 1]) {
      var p := s[..|s| - 1];
      TrimRightCut(p);
      assert p[..|TrimRight(s)|] == s[..|TrimRight(s)|];
      var m := |TrimRight(s)|;
      forall k | 0 <= k < |s| - m
        ensures IsSpace(s[m..][k])
      {
        if m + k < |s| - 1 {
          assert s[m..][k] == p[m..][k];
        }
      }
    }
  }

  /** Go's `strings.TrimSpace`: `s` with leading and trailing white space removed. */
  function TrimSpace(s: string): (r: string)
    ensures |r| <= |s|
  {
    TrimRight(TrimLeft(s))
  }

  /** What trimming leaves: a slice of `s` cut only at white space, which
      neither starts nor ends with a space, and is empty exactly when `s` is
      all white space. */
  lemma TrimSpaceTrims(s: string)
    ensures var r := TrimSpace(s);
      && (exists i, j :: 0 <= i <= j <= |s| && r == s[i..j] && AllSpace(s[..i]) && AllSpace(s[j..]))
      && (r != [] ==> !IsSpace(r[0]) && !IsSpace(r[|r| - 1]))
      && (r == [] <==> AllSpace(s))
  {
    var i, j := TrimSpaceSlice(s);
    if TrimSpace(s) == [] {
      AllSpaceJoin(s, i);
    } else {
      assert s[i] == TrimSpace(s)[0];
      TrimRightCut(TrimLeft(s));
      assert TrimSpace(s)[0] == TrimLeft(s)[0];
    }
  }

  /** TrimSpace cuts `s` at `i` and `j`, and drops only white space. */
  lemma TrimSpaceSlice(s: string) returns (i: nat, j: nat)
    ensures i <= j <= |s| && TrimSpace(s) == s[i..j]
    ensures AllSpace(s[..i]) && AllSpace(s[j..])
  {
    var l := TrimLeft(s);
    i := |s| - |l|;
    var m := |TrimRight(l)|;
    j := i + m;
    TrimLeftCut(s);
    TrimRightCut(l);
    assert s[j..] == l[m..];
  }

  /** A string whose first `i` characters and the rest are white space is white space. */
  lemma AllSpaceJoin(s: string, i: nat)
    requires i <= |s| && AllSpace(s[..i]) && AllSpace(s[i..])
    ensures AllSpace(s)
  {
    forall k | 0 <= k < |s|
      ensures IsSpace(s[k])
    {
      if k < i {
        assert s[k] == s[..i][k];
      } else {
        assert s[k] == s[i..][k - i];
      }
    }
  }

  /** Leading white space in front of a non-space character is exactly what TrimLeft removes. */
  lemma {:induction false} TrimLeftPadded(lead: string, y: string)
    requires AllSpace(lead)
    requires y != [] && !IsSpace(y[0])
    ensures TrimLeft(lead + y) == y
  {
    if lead != [] {
      assert (lead + y)[1..] == lead[1..] + y;
      TrimLeftPadded(lead[1..], y);
    }
  }

  /** Trailing white space after a non-space character is exactly what TrimRight removes. */
  lemma {:induction false} TrimRightPadded(y: string, trail: string)
    requires AllSpace(trail)
    requires y != [] && !IsSpace(y[|y| - 1])
    ensures TrimRight(y + trail) == y
  {
    if trail != [] {
      var t := trail[..|trail| - 1];
      assert (y + trail)[..|y + trail| - 1] == y + t;
      TrimRightPadded(y, t);
    }
  }

  /** Trimming a string that is non-space text padded by white space on both
      sides gives back exactly the text. */
  lemma TrimSpacePadded(lead: string, x: string, trail: string)
    requires AllSpace(lead) && AllSpace(trail)
    requires x != [] && !IsSpace(x[0]) && !IsSpace(x[|x| - 1])
    ensures TrimSpace(lead + x + trail) == x
  {
    assert lead + x + trail == lead + (x + trail);
    TrimLeftPadded(lead, x + trail);
    TrimRightPadded(x, trail);
  }

  /** Concatenation of a list of strings, in order (Go's `strings.Join(ts, "")`,
      and the effect of appending each with `+=`). */
  function Concat(ts: seq<string>): string {
    if ts == [] then "" else ts[0] + Concat(ts[1..])
  }

  /** Concatenation is a homomorphism from list append to string append. */
  lemma {:induction false} ConcatAppend(a: seq<string>, b: seq<string>)
    ensures Concat(a + b) == Concat(a) + Concat(b)
  {
    if a == [] {
      assert a + b == b;
    } else {
      assert (a + b)[1..] == a[1..] + b;
      ConcatAppend(a[1..], b);
    }
  }
}
