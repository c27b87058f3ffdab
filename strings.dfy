/** The two Python string built-ins the hook relies on: `str.strip()` with
    no argument, and `str.split("\n")`. */
module Strings {

  /** The characters Python's `str.strip()` removes (those for which
      `str.isspace()` holds). */
  predicate IsSpace(c: char)
  {
    || ('\t' <= c <= '\r')
    || ('\U{1C}' <= c <= ' ')
    || c == '\U{85}' || c == '\U{A0}' || c == '\U{1680}'
    || ('\U{2000}' <= c <= '\U{200A}')
    || c == '\U{2028}' || c == '\U{2029}' || c == '\U{202F}' || c == '\U{205F}' || c == '\U{3000}'
  }

  /** Length of the longest prefix of `s` made of whitespace. */
  function LeadingSpaces(s: string): (n: nat)
    ensures n <= |s|
    ensures forall k :: 0 <= k < n ==> IsSpace(s[k])
    ensures n < |s| ==> !IsSpace(s[n])
  {
    if |s| > 0 && IsSpace(s[0]) then 1 + LeadingSpaces(s[1..]) else 0
  }

  /** Length of the longest suffix of `s` made of whitespace. */
  function TrailingSpaces(s: string): (n: nat)
    ensures n <= |s|
    ensures forall k :: |s| - n <= k < |s| ==> IsSpace(s[k])
    ensures n < |s| ==> !IsSpace(s[|s| - 1 - n])
  {
    if |s| > 0 && IsSpace(s[|s| - 1]) then 1 + TrailingSpaces(s[..|s| - 1]) else 0
  }

  /** `r` sits at offset `i` of `s` and everything around it is whitespace. */
  predicate Margins(s: string, r: string, i: int)
  {
    && 0 <= i && i + |r| <= |s|
    && s[i..i + |r|] == r
    && (forall k :: 0 <= k < i ==> IsSpace(s[k]))
    && (forall k :: i + |r| <= k < |s| ==> IsSpace(s[k]))
  }

  /** Neither end of `r` is whitespace. */
  predicate Unpadded(r: string)
  {
    r == [] || (!IsSpace(r[0]) && !IsSpace(r[|r| - 1]))
  }

  /** Python's `s.strip()`: `s` without its leading and trailing whitespace. */
  function Strip(s: string): (r: string)
    ensures Unpadded(r)
    ensures exists i :: Margins(s, r, i)
  {
    var a := LeadingSpaces(s);
    var rest := s[a..];
    var r := rest[..|rest| - TrailingSpaces(rest)];
    assert Margins(s, r, a) by {
      assert s[a..a + |r|] == r;
    }
    r
  }

  /** Stripping is determined by its contract: the only unpadded string that
      sits inside whitespace margins of `s` is `Strip(s)`. */
  lemma StripUnique(s: string, r: string, i: int)
    requires Unpadded(r) && Margins(s, r, i)
    ensures r == Strip(s)
  {
    var a := LeadingSpaces(s);
    if r == [] {
      assert forall k :: 0 <= k < |s| ==> IsSpace(s[k]) by {
        forall k | 0 <= k < |s| ensures IsSpace(s[k]) {
          if k >= i { assert i + |r| <= k; }
        }
      }
      assert a == |s|;
    } else {
      assert s[i] == r[0];
      assert a == i;
      var rest := s[a..];
      var t := TrailingSpaces(rest);
      assert rest[|r| - 1] == r[|r| - 1];
      assert forall k :: |r| <= k < |rest| ==> IsSpace(rest[k]) by {
        forall k | |r| <= k < |rest| ensures IsSpace(rest[k]) {
          assert rest[k] == s[i + k];
        }
      }
      assert t == |rest| - |r|;
      assert rest[..|rest| - t] == r;
    }
  }

  /** Stripping twice is stripping once. */
  lemma StripIdempotent(s: string)
    ensures Strip(Strip(s)) == Strip(s)
  {
    var r := Strip(s);
    assert r[0..|r|] == r;
    StripUnique(r, r, 0);
  }

  /** Index of the first `c` in `s`, or `|s|` when there is none. */
  function IndexOf(s: string, c: char): (i: nat)
    ensures i <= |s|
    ensures forall k :: 0 <= k < i ==> s[k] != c
    ensures i < |s| ==> s[i] == c
  {
    if |s| == 0 || s[0] == c then 0 else 1 + IndexOf(s[1..], c)
  }

  /** `s` holds no newline character. */
  predicate NoNewline(s: string)
  {
    forall k :: 0 <= k < |s| ==> s[k] != '\n'
  }

  lemma NoNewlineConcat(a: string, b: string)
    requires NoNewline(a) && NoNewline(b)
    ensures NoNewline(a + b)
  {
    forall k | 0 <= k < |a + b| ensures (a + b)[k] != '\n' {
      if k >= |a| { assert (a + b)[k] == b[k - |a|]; }
    }
  }

  /** No element of `lines` holds a newline character. */
  predicate AllNoNewline(lines: seq<string>)
  {
    forall k :: 0 <= k < |lines| ==> NoNewline(lines[k])
  }

  /** The concatenation of `lines`, each followed by a newline. */
  function Terminated(lines: seq<string>): string
  {
    if lines == [] then "" else lines[0] + "\n" + Terminated(lines[1..])
  }

  /** Python's `s.split("\n")`: the pieces between newlines, so that joining
      them with newlines gives back `s`. */
  function Split(s: string): (pieces: seq<string>)
    ensures SplitOf(s, pieces)
    decreases |s|
  {
    var i := IndexOf(s, '\n');
    if i == |s| then
      assert [s][..0] == [];
      [s]
    else
      var rest := Split(s[i + 1..]);
      SplitStep(s, i, rest);
      [s[..i]] + rest
  }

  /** `pieces` are newline-free and give back `s` when joined by newlines. */
  predicate SplitOf(s: string, pieces: seq<string>)
  {
    && |pieces| >= 1
    && AllNoNewline(pieces)
    && Terminated(pieces[..|pieces| - 1]) + pieces[|pieces| - 1] == s
  }

  lemma SplitStep(s: string, i: nat, rest: seq<string>)
    requires i < |s| && s[i] == '\n' && NoNewline(s[..i])
    requires SplitOf(s[i + 1..], rest)
    ensures SplitOf(s, [s[..i]] + rest)
  {
    var pieces := [s[..i]] + rest;
    var init := pieces[..|pieces| - 1];
    var last := rest[|rest| - 1];
    var t := Terminated(rest[..|rest| - 1]);
    assert init == [s[..i]] + rest[..|rest| - 1];
    assert init[0] == s[..i] && init[1..] == rest[..|rest| - 1];
    assert pieces[|pieces| - 1] == last;
    assert Terminated(init) == s[..i] + "\n" + t;
    assert t + last == s[i + 1..];
    assert s[..i] + "\n" + t + last == s[..i] + "\n" + (t + last);
    assert s == s[..i] + "\n" + s[i + 1..];
    assert AllNoNewline(pieces) by {
      forall k | 0 <= k < |pieces| ensures NoNewline(pieces[k]) {
        if k > 0 {
          assert pieces[k] == rest[k - 1];
        }
      }
    }
  }

  /** A newline-free line followed by a newline splits off as one piece. */
  lemma SplitCons(line: string, rest: string)
    requires NoNewline(line)
    ensures Split(line + "\n" + rest) == [line] + Split(rest)
  {
    var s := line + "\n" + rest;
    assert s[|line|] == '\n';
    assert forall k :: 0 <= k < |line| ==> s[k] == line[k];
    var i := IndexOf(s, '\n');
    assert i == |line|;
    assert s[..i] == line;
    assert s[i + 1..] == rest;
  }

  /** Splitting undoes `Terminated`: newline-terminated lines in front of any
      text come back unchanged, ahead of the pieces of that text. */
  lemma {:induction false} SplitTerminated(lines: seq<string>, s: string)
    requires AllNoNewline(lines)
    ensures Split(Terminated(lines) + s) == lines + Split(s)
    decreases |lines|
  {
    if lines == [] {
      assert Terminated(lines) + s == s;
    } else {
      var head, more := lines[0], lines[1..];
      var tail := Terminated(more) + s;
      AllNoNewlineTail(lines);
      calc {
        Split(Terminated(lines) + s);
        { TerminatedCons(lines, s); }
        Split(head + "\n" + tail);
        { SplitCons(head, tail); }
        [head] + Split(tail);
        { SplitTerminated(more, s); }
        [head] + (more + Split(s));
        { assert lines == [head] + more; }
        lines + Split(s);
      }
    }
  }

  lemma AllNoNewlineTail(lines: seq<string>)
    requires lines != [] && AllNoNewline(lines)
    ensures NoNewline(lines[0]) && AllNoNewline(lines[1..])
  {
    forall k | 0 <= k < |lines| - 1 ensures NoNewline(lines[1..][k]) {
      assert lines[1..][k] == lines[k + 1];
    }
  }

  lemma TerminatedCons(lines: seq<string>, s: string)
    requires lines != []
    ensures Terminated(lines) + s == lines[0] + "\n" + (Terminated(lines[1..]) + s)
  {
  }

  /** Round trip in the other direction: newline-free lines joined by
      newlines split back into exactly those lines. */
  lemma SplitRoundTrip(lines: seq<string>, last: string)
    requires AllNoNewline(lines)
    requires NoNewline(last)
    ensures Split(Terminated(lines) + last) == lines + [last]
  {
    SplitTerminated(lines, last);
    assert IndexOf(last, '\n') == |last|;
  }
}
