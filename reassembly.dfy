/** The line reassembly that `run` performs on the chunks of the container's
    log stream, stated as a fold: each decoded chunk is appended to the
    pending buffer, the buffer is split at newlines, every complete piece is
    dispatched and the last piece is kept. A chunk that fails to decode is
    `None` and is skipped. */
module Reassembly {
  import opened Effects
  import opened Strings

  /** The lines dispatched so far, in order, and the pending fragment. */
  datatype Reader = Reader(lines: seq<string>, buffer: string)

  /** The complete lines of `s`: every piece of the split except the last. */
  function Complete(s: string): seq<string>
  {
    Split(s)[..|Split(s)| - 1]
  }

  /** The text after the last newline of `s`. */
  function Pending(s: string): string
  {
    Split(s)[|Split(s)| - 1]
  }

  /** One iteration of the chunk loop. */
  function Step(r: Reader, chunk: Option<string>): Reader
  {
    match chunk
    case None => r
    case Some(text) =>
      var b := r.buffer + text;
      if '\n' in b then Reader(r.lines + Complete(b), Pending(b)) else Reader(r.lines, b)
  }

  /** The reader after the chunks, starting from an empty buffer. */
  function Reassemble(chunks: seq<Option<string>>): Reader
  {
    if chunks == [] then Reader([], "")
    else Step(Reassemble(chunks[..|chunks| - 1]), chunks[|chunks| - 1])
  }

  /** The concatenation of the chunks that decoded. */
  function Decoded(chunks: seq<Option<string>>): string
  {
    if chunks == [] then ""
    else
      var last := chunks[|chunks| - 1];
      Decoded(chunks[..|chunks| - 1]) + (if last.Some? then last.value else "")
  }

  /** A newline-free string is one piece. */
  lemma SplitSingle(s: string)
    requires NoNewline(s)
    ensures Split(s) == [s]
  {
    assert IndexOf(s, '\n') == |s|;
  }

  /** Complete lines and the pending fragment give back the text. */
  lemma CompletePending(s: string)
    ensures AllNoNewline(Complete(s)) && NoNewline(Pending(s))
    ensures Terminated(Complete(s)) + Pending(s) == s
  {
    var p := Split(s);
    assert AllNoNewline(Complete(s)) by {
      forall k | 0 <= k < |Complete(s)| ensures NoNewline(Complete(s)[k]) {
        assert Complete(s)[k] == p[k];
      }
    }
    assert NoNewline(p[|p| - 1]);
  }

  /** Text after complete lines: its complete lines follow theirs. */
  lemma CompleteAfter(lines: seq<string>, s: string)
    requires AllNoNewline(lines)
    ensures Complete(Terminated(lines) + s) == lines + Complete(s)
    ensures Pending(Terminated(lines) + s) == Pending(s)
  {
    SplitTerminated(lines, s);
    var p := Split(s);
    assert (lines + p)[..|lines + p| - 1] == lines + p[..|p| - 1];
  }

  /** One step only depends on the text: the reader for `text` followed by
      a chunk is the reader for the longer text. */
  lemma StepByText(d: string, chunk: Option<string>)
    ensures Step(Reader(Complete(d), Pending(d)), chunk)
         == Reader(Complete(d + (if chunk.Some? then chunk.value else "")),
                   Pending(d + (if chunk.Some? then chunk.value else "")))
  {
    if chunk.Some? {
      var t := chunk.value;
      var b := Pending(d) + t;
      CompletePending(d);
      assert d + t == Terminated(Complete(d)) + b;
      CompleteAfter(Complete(d), b);
      if '\n' !in b {
        assert NoNewline(b);
        SplitSingle(b);
      }
    } else {
      assert d + "" == d;
    }
  }

  /** Reassembly depends only on the decoded text, not on where the chunks
      were cut: the dispatched lines are the complete lines of the text and
      the buffer is what follows the last newline. */
  lemma {:induction false} ReassembleByText(chunks: seq<Option<string>>)
    ensures Reassemble(chunks) == Reader(Complete(Decoded(chunks)), Pending(Decoded(chunks)))
  {
    if chunks == [] {
      SplitSingle("");
    } else {
      var init := chunks[..|chunks| - 1];
      ReassembleByText(init);
      StepByText(Decoded(init), chunks[|chunks| - 1]);
    }
  }

  /** The reassembly invariant: the buffer holds no newline, no dispatched
      line holds one, and the dispatched lines, each followed by a newline,
      then the buffer, are exactly the decoded text. */
  lemma ReassembleInvariant(chunks: seq<Option<string>>)
    ensures NoNewline(Reassemble(chunks).buffer)
    ensures AllNoNewline(Reassemble(chunks).lines)
    ensures Terminated(Reassemble(chunks).lines) + Reassemble(chunks).buffer == Decoded(chunks)
  {
    ReassembleByText(chunks);
    CompletePending(Decoded(chunks));
  }

  /** Lines are dispatched in stream order and never taken back: reading
      more chunks only appends lines. */
  lemma {:induction false} ReassembleExtends(chunks: seq<Option<string>>, more: seq<Option<string>>)
    ensures Reassemble(chunks).lines <= Reassemble(chunks + more).lines
    decreases |more|
  {
    if more != [] {
      var all := chunks + more;
      assert all[..|all| - 1] == chunks + more[..|more| - 1];
      ReassembleExtends(chunks, more[..|more| - 1]);
    } else {
      assert chunks + more == chunks;
    }
  }

  /** A chunk that fails to decode changes nothing. */
  lemma UndecodableSkipped(chunks: seq<Option<string>>)
    ensures Reassemble(chunks + [None]) == Reassemble(chunks)
    ensures Decoded(chunks + [None]) == Decoded(chunks)
  {
    assert (chunks + [None])[..|chunks|] == chunks;
  }

  /** A trailing fragment with no newline is never dispatched: newline-free
      lines each followed by a newline, then a fragment, reassemble into
      exactly those lines with the fragment left in the buffer. */
  lemma FragmentStaysBuffered(chunks: seq<Option<string>>, lines: seq<string>, fragment: string)
    requires AllNoNewline(lines) && NoNewline(fragment)
    requires Decoded(chunks) == Terminated(lines) + fragment
    ensures Reassemble(chunks) == Reader(lines, fragment)
  {
    ReassembleByText(chunks);
    SplitRoundTrip(lines, fragment);
    assert (lines + [fragment])[..|lines|] == lines;
  }
}
