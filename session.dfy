/** One tailing session, `SlimeHook.run`: look up the container, refuse a
    container that is not running, then read its log stream chunk by chunk,
    reassemble lines and dispatch each one, catching whatever handling one
    line raises. When the stream ends the session reports that the server
    stopped and raises `ContainerNotRunning`; it never returns normally. */
module Session {
  import opened Effects
  import opened Strings
  import opened Registry
  import opened Reassembly

  /** How the log stream ended after its chunks. */
  datatype StreamEnd =
    | Closed   // the iteration finished
    | Broken   // the iteration raised

  /** What the container runtime offers a session. */
  datatype Attach =
    /** `containers.get` raised `docker.errors.NotFound`. */
    | Missing
    /** creating the client or looking up the container raised another error. */
    | Unreachable
    /** the container, its status, and its log stream: chunks (None when a
        chunk is not valid UTF-8), then how the stream ended. */
    | Found(status: string, chunks: seq<Option<string>>, end: StreamEnd)

  /** The exceptions a session can end with. */
  datatype Failure = NotFound | NotRunning | Unexpected

  /** How a call of `run` ends. */
  datatype Outcome = Returned | Raises(failure: Failure)

  const Listening := "Listening to log output from container..."
  const Stopped := ":skull: **Server has stopped**"

  /** The effects of the reading loop on one line: those of `handle_line`,
      or, when it raised, the two prints of the `except` clause. */
  function LineEffects(rules: seq<Rule>, line: string): seq<Event>
  {
    match Classify(rules, Strip(line), 0)
    case Handled(_, effects) => effects
    case Failed(error) => [Print("Failed to process line: " + line), PrintError(error)]
  }

  /** The effects of `f` on each of `xs` in turn. */
  function ConcatMap(xs: seq<string>, f: string -> seq<Event>): seq<Event>
  {
    if xs == [] then [] else ConcatMap(xs[..|xs| - 1], f) + f(xs[|xs| - 1])
  }

  /** The effects of dispatching `lines` one after another. */
  function DispatchAll(rules: seq<Rule>, lines: seq<string>): seq<Event>
  {
    ConcatMap(lines, line => LineEffects(rules, line))
  }

  /** What a session does: its trace of effects and how it ends. */
  function RunSpec(rules: seq<Rule>, attach: Attach): (seq<Event>, Outcome)
  {
    match attach
    case Missing => ([], Raises(NotFound))
    case Unreachable => ([], Raises(Unexpected))
    case Found(status, chunks, end) =>
      if status != "running" then ([], Raises(NotRunning))
      else
        var read := [Print(Listening)] + DispatchAll(rules, Reassemble(chunks).lines);
        match end
        case Closed => (read + [Send(Stopped)], Raises(NotRunning))
        case Broken => (read, Raises(Unexpected))
  }

  lemma {:induction false} ConcatMapAppend(a: seq<string>, b: seq<string>, f: string -> seq<Event>)
    ensures ConcatMap(a + b, f) == ConcatMap(a, f) + ConcatMap(b, f)
    decreases |b|
  {
    if b == [] {
      assert a + b == a;
    } else {
      var ab := a + b;
      assert ab[..|ab| - 1] == a + b[..|b| - 1];
      assert ab[|ab| - 1] == b[|b| - 1];
      ConcatMapAppend(a, b[..|b| - 1], f);
    }
  }

  lemma ConcatMapOne(x: string, f: string -> seq<Event>)
    ensures ConcatMap([x], f) == f(x)
  {
    assert [x][..0] == [];
  }

  /** Dispatching one line has that line's effects. */
  lemma DispatchOne(rules: seq<Rule>, line: string)
    ensures DispatchAll(rules, [line]) == LineEffects(rules, line)
  {
    ConcatMapOne(line, l => LineEffects(rules, l));
  }

  lemma DispatchAllAppend(rules: seq<Rule>, a: seq<string>, b: seq<string>)
    ensures DispatchAll(rules, a + b) == DispatchAll(rules, a) + DispatchAll(rules, b)
  {
    ConcatMapAppend(a, b, line => LineEffects(rules, line));
  }

  /** Error isolation: the effects of line `i` appear in the trace between
      those of the lines before it and those after it, whatever any of them
      raised. */
  lemma DispatchIsolated(rules: seq<Rule>, lines: seq<string>, i: nat)
    requires i < |lines|
    ensures DispatchAll(rules, lines)
         == DispatchAll(rules, lines[..i]) + LineEffects(rules, lines[i]) + DispatchAll(rules, lines[i + 1..])
  {
    assert lines == lines[..i] + [lines[i]] + lines[i + 1..];
    DispatchAllAppend(rules, lines[..i] + [lines[i]], lines[i + 1..]);
    DispatchAllAppend(rules, lines[..i], [lines[i]]);
    DispatchOne(rules, lines[i]);
  }

  /** The inner loop of `run`: handle each line in turn, and when handling
      one raises, print the line and the exception and go on. */
  method DispatchLines(rules: seq<Rule>, lines: seq<string>) returns (effects: seq<Event>)
    ensures effects == DispatchAll(rules, lines)
  {
    effects := [];
    for j := 0 to |lines|
      invariant effects == DispatchAll(rules, lines[..j])
    {
      assert lines[..j + 1][..j] == lines[..j];
      var d := HandleLine(rules, lines[j]);
      match d
      case Handled(_, more) =>
        effects := effects + more;
      case Failed(error) =>
        effects := effects + [Print("Failed to process line: " + lines[j]), PrintError(error)];
    }
    assert lines[..|lines|] == lines;
  }

  /** One more chunk read: a chunk that decoded is appended to the buffer,
      and when the buffer then holds a newline its complete lines are
      dispatched after the earlier ones and the rest is kept. */
  lemma ReadChunk(rules: seq<Rule>, chunks: seq<Option<string>>, i: nat)
    requires i < |chunks|
    ensures var r := Reassemble(chunks[..i]);
      chunks[i].None? ==> Reassemble(chunks[..i + 1]) == r
    ensures var r := Reassemble(chunks[..i]);
      chunks[i].Some? && '\n' !in r.buffer + chunks[i].value ==>
        Reassemble(chunks[..i + 1]) == Reader(r.lines, r.buffer + chunks[i].value)
    ensures var r := Reassemble(chunks[..i]);
      var b := if chunks[i].Some? then r.buffer + chunks[i].value else r.buffer;
      chunks[i].Some? && '\n' in b ==>
        && Reassemble(chunks[..i + 1]).buffer == Pending(b)
        && DispatchAll(rules, Reassemble(chunks[..i + 1]).lines)
           == DispatchAll(rules, r.lines) + DispatchAll(rules, Complete(b))
  {
    assert chunks[..i + 1][..i] == chunks[..i];
    var r := Reassemble(chunks[..i]);
    if chunks[i].Some? {
      var b := r.buffer + chunks[i].value;
      DispatchAllAppend(rules, r.lines, Complete(b));
    }
  }

  /** Split the buffer at its newlines, dispatch every complete line and
      keep what follows the last newline. */
  method TakeLines(rules: seq<Rule>, buffer: string) returns (effects: seq<Event>, rest: string)
    ensures effects == DispatchAll(rules, Complete(buffer))
    ensures rest == Pending(buffer)
  {
    var lines := Split(buffer);
    effects := DispatchLines(rules, lines[..|lines| - 1]);
    rest := lines[|lines| - 1];
  }

  /** The reading loop of `run`: decode each chunk, append it to the
      buffer, and dispatch the complete lines it then holds. */
  method ReadStream(rules: seq<Rule>, chunks: seq<Option<string>>) returns (effects: seq<Event>)
    ensures effects == DispatchAll(rules, Reassemble(chunks).lines)
  {
    effects := [];
    var buffer := "";
    for i := 0 to |chunks|
      invariant buffer == Reassemble(chunks[..i]).buffer
      invariant effects == DispatchAll(rules, Reassemble(chunks[..i]).lines)
    {
      ReadChunk(rules, chunks, i);
      match chunks[i]
      case None =>
      case Some(text) =>
        buffer := buffer + text;
        if '\n' in buffer {
          var more;
          more, buffer := TakeLines(rules, buffer);
          effects := effects + more;
        }
    }
    assert chunks[..|chunks|] == chunks;
  }

  /** `SlimeHook.run`. */
  method Run(rules: seq<Rule>, attach: Attach) returns (trace: seq<Event>, outcome: Outcome)
    ensures (trace, outcome) == RunSpec(rules, attach)
    ensures !outcome.Returned?
    ensures attach.Found? && attach.status != "running" ==> trace == [] && outcome == Raises(NotRunning)
  {
    match attach
    case Missing =>
      return [], Raises(NotFound);
    case Unreachable =>
      return [], Raises(Unexpected);
    case Found(status, chunks, end) =>
      if status != "running" {
        return [], Raises(NotRunning);
      }
      var read := ReadStream(rules, chunks);
      trace := [Print(Listening)] + read;
      match end
      case Closed =>
        trace := trace + [Send(Stopped)];
        outcome := Raises(NotRunning);
      case Broken =>
        outcome := Raises(Unexpected);
  }

  /** A running container whose stream closes: the session prints that it
      is listening, dispatches the complete lines of the decoded text in
      order, sends the stop message last and raises `ContainerNotRunning`. */
  lemma RunClosedStream(rules: seq<Rule>, chunks: seq<Option<string>>)
    ensures RunSpec(rules, Found("running", chunks, Closed))
         == ([Print(Listening)] + DispatchAll(rules, Complete(Decoded(chunks))) + [Send(Stopped)],
             Raises(NotRunning))
  {
    ReassembleByText(chunks);
  }

  /** What a session prints: the listening line, a rule's warning, or the
      report of a line whose handling raised. */
  predicate SessionText(rules: seq<Rule>, text: string)
  {
    || text == Listening
    || (exists k :: 0 <= k < |rules| && text == Warning(rules[k].name))
    || "Failed to process line: " <= text
  }

  lemma LinePrints(rules: seq<Rule>, line: string, e: Event)
    requires e in LineEffects(rules, line) && e.Print?
    ensures SessionText(rules, e.text)
  {
    if Classify(rules, Strip(line), 0).Handled? {
      ClassifyOnlyWarns(rules, Strip(line), e);
    }
  }

  /** Every event of dispatching the lines comes from one of them. */
  lemma {:induction false} DispatchAllFrom(rules: seq<Rule>, lines: seq<string>, e: Event)
    requires e in DispatchAll(rules, lines)
    ensures exists i :: 0 <= i < |lines| && e in LineEffects(rules, lines[i])
    decreases |lines|
  {
    var init := lines[..|lines| - 1];
    if e !in LineEffects(rules, lines[|lines| - 1]) {
      DispatchAllFrom(rules, init, e);
      var i :| 0 <= i < |init| && e in LineEffects(rules, init[i]);
      assert lines[i] == init[i];
    }
  }

  /** Everything a session prints is one of its own texts; in particular it
      never prints a retry notice. */
  lemma SessionPrints(rules: seq<Rule>, attach: Attach, e: Event)
    requires e in RunSpec(rules, attach).0 && e.Print?
    ensures SessionText(rules, e.text)
  {
    if e != Print(Listening) {
      var lines := Reassemble(attach.chunks).lines;
      DispatchAllFrom(rules, lines, e);
      var i :| 0 <= i < |lines| && e in LineEffects(rules, lines[i]);
      LinePrints(rules, lines[i], e);
    }
  }
}
