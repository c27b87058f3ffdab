/** Values shared by every part of the model: an optional value, the
    exceptions that handling one log line can raise, and the observable
    side effects of the hook, recorded as a trace of events. */
module Effects {

  datatype Option<+T> = None | Some(value: T)

  /** An exception raised while one line is being handled. */
  datatype LineError =
    /** `ValueError` from `process_line`: the pattern matched with a
        different number of groups than the rule declares. */
    | CaptureMismatch(expected: nat, got: nat)
    /** `TypeError` from calling a callback whose parameter count differs
        from the number of captured groups. */
    | ArityMismatch(arity: nat, got: nat)

  /** One observable side effect. */
  datatype Event =
    /** One POST of `{"content": message}` to the webhook. */
    | Send(message: string)
    /** One `print` of a text line. */
    | Print(text: string)
    /** `print(line.encode())` of a line no rule matched. */
    | Debug(line: string)
    /** `print(exception)` of an exception caught around one line. */
    | PrintError(error: LineError)
    /** `time.sleep(interval)`. */
    | Sleep(interval: real)

  /** How many times `e` occurs in `trace`. */
  function Occurrences(trace: seq<Event>, e: Event): (n: nat)
    ensures n == 0 <==> e !in trace
    ensures n <= |trace|
  {
    if trace == [] then 0
    else (if trace[0] == e then 1 else 0) + Occurrences(trace[1..], e)
  }

  lemma {:induction false} OccurrencesAppend(a: seq<Event>, b: seq<Event>, e: Event)
    ensures Occurrences(a + b, e) == Occurrences(a, e) + Occurrences(b, e)
  {
    if a == [] {
      assert a + b == b;
    } else {
      assert (a + b)[0] == a[0];
      assert (a + b)[1..] == a[1..] + b;
      OccurrencesAppend(a[1..], b, e);
    }
  }
}
