/** `SlimeHook.run_with_auto_retry`: run sessions one after another. A
    session that ends with `NotFound` or `ContainerNotRunning` is retried
    after the configured interval when that failure kind has a policy, and
    re-raised otherwise; any other exception propagates. The background
    notice is printed by the first retry only: one flag, shared by both
    failure kinds, is set then and never cleared.

    The attempts are a finite sequence of what the container runtime offers
    each session; when it is used up the supervisor is still retrying. */
module Supervisor {
  import opened Effects
  import opened Settings
  import opened Registry
  import opened Reassembly
  import opened Session

  /** How supervision ends. */
  datatype Verdict =
    /** `run` returned and the loop broke out. */
    | Finished
    /** the exception from the last session propagated. */
    | Fatal(failure: Failure)
    /** `ValueError("No auto_retry config provided")`. */
    | NoRetryConfig
    /** every attempt so far was retried. */
    | Retrying

  /** The notice of a retried failure (the `except` clauses only retry the
      two container failures). */
  function Notice(container: string, failure: Failure): (text: string)
    requires failure != Unexpected
    ensures |text| > 0 && text[0] == 'D'
  {
    match failure
    case NotFound => "Docker container \"" + container + "\" not found, retrying in background..."
    case NotRunning => "Docker container \"" + container + "\" not running, retrying in background..."
  }

  /** The policy for a failure; `Unexpected` is not caught at all. */
  function PolicyFor(retry: AutoRetry, failure: Failure): (p: Option<RetryPolicy>)
    ensures failure == Unexpected ==> p.None?
  {
    match failure
    case NotFound => retry.containerNotFound
    case NotRunning => retry.containerNotRunning
    case Unexpected => None
  }

  /** What `retry_later` does: None when it re-raises, otherwise its effects
      and the flag afterwards. */
  function RetryLater(policy: Option<RetryPolicy>, notice: string, shown: bool): (r: Option<(seq<Event>, bool)>)
    // It re-raises exactly when there is no policy.
    ensures r.None? <==> policy.None?
    // After a retry the notice counts as shown, and it was printed by this
    // call exactly when it had not been shown before; then it sleeps once
    // for the policy's interval.
    ensures r.Some? ==>
      && r.value.1
      && (Print(notice) in r.value.0 <==> !shown)
      && |r.value.0| == (if shown then 1 else 2)
      && r.value.0[|r.value.0| - 1] == Sleep(policy.value.interval)
  {
    match policy
    case None => None
    case Some(p) => Some(((if shown then [] else [Print(notice)]) + [Sleep(p.interval)], true))
  }

  /** What one call of `run` produced: its trace and how it ended. */
  type SessionResult = (seq<Event>, Outcome)

  /** The result of a session on each attempt. */
  function Results(rules: seq<Rule>, attempts: seq<Attach>): (runs: seq<SessionResult>)
    ensures |runs| == |attempts|
    decreases |attempts|
  {
    if attempts == [] then [] else [RunSpec(rules, attempts[0])] + Results(rules, attempts[1..])
  }

  lemma ResultsSplit(rules: seq<Rule>, attempts: seq<Attach>, i: nat)
    requires i < |attempts|
    ensures Results(rules, attempts[i..]) == [RunSpec(rules, attempts[i])] + Results(rules, attempts[i + 1..])
  {
    assert attempts[i..][0] == attempts[i] && attempts[i..][1..] == attempts[i + 1..];
  }

  /** A session result whose failure is retried. */
  predicate Retried(retry: AutoRetry, run: SessionResult)
  {
    run.1.Raises? && PolicyFor(retry, run.1.failure).Some?
  }

  /** The supervision loop from the current flag over the remaining session
      results: its trace and how it ends. */
  function Supervise(retry: AutoRetry, container: string, shown: bool, runs: seq<SessionResult>)
    : (seq<Event>, Verdict)
    decreases |runs|
  {
    if runs == [] then ([], Retrying)
    else
      var (trace, outcome) := runs[0];
      match outcome
      case Returned => (trace, Finished)
      case Raises(failure) =>
        var policy := PolicyFor(retry, failure);
        if policy.None? then (trace, Fatal(failure))
        else
          var wait := RetryLater(policy, Notice(container, failure), shown).value;
          var rest := Supervise(retry, container, wait.1, runs[1..]);
          (trace + wait.0 + rest.0, rest.1)
  }

  /** One turn of the supervision loop. */
  lemma SuperviseCons(retry: AutoRetry, container: string, shown: bool, trace: seq<Event>, outcome: Outcome,
                      runs: seq<SessionResult>)
    ensures var s := Supervise(retry, container, shown, [(trace, outcome)] + runs);
      match outcome
      case Returned => s == (trace, Finished)
      case Raises(failure) =>
        if PolicyFor(retry, failure).None? then s == (trace, Fatal(failure))
        else
          var wait := RetryLater(PolicyFor(retry, failure), Notice(container, failure), shown).value;
          var rest := Supervise(retry, container, wait.1, runs);
          s == (trace + wait.0 + rest.0, rest.1)
  {
    assert ([(trace, outcome)] + runs)[1..] == runs;
  }

  /** One turn of the loop, in terms of what is left to do: `whole` is the
      supervision of a session result and the later ones, after `effects`.
      A session that returned or whose failure has no policy ends it; a
      retried one leaves the supervision of the later results with the flag
      the retry set. */
  lemma Turn(retry: AutoRetry, container: string, shown: bool, effects: seq<Event>, whole: (seq<Event>, Verdict),
             trace: seq<Event>, outcome: Outcome, later: seq<SessionResult>)
    requires whole.0 == effects + Supervise(retry, container, shown, [(trace, outcome)] + later).0
    requires whole.1 == Supervise(retry, container, shown, [(trace, outcome)] + later).1
    ensures match outcome
      case Returned => whole == (effects + trace, Finished)
      case Raises(failure) =>
        if PolicyFor(retry, failure).None? then whole == (effects + trace, Fatal(failure))
        else
          var wait := RetryLater(PolicyFor(retry, failure), Notice(container, failure), shown).value;
          var rest := Supervise(retry, container, wait.1, later);
          whole.0 == effects + trace + wait.0 + rest.0 && whole.1 == rest.1
  {
    SuperviseCons(retry, container, shown, trace, outcome, later);
  }

  /** `SlimeHook.run_with_auto_retry`. */
  method RunWithAutoRetry(rules: seq<Rule>, config: Config, attempts: seq<Attach>)
    returns (effects: seq<Event>, verdict: Verdict)
    ensures config.autoRetry.None? ==> effects == [] && verdict == NoRetryConfig
    ensures config.autoRetry.Some? ==>
              (effects, verdict) == Supervise(config.autoRetry.value, config.container, false, Results(rules, attempts))
  {
    if config.autoRetry.None? {
      return [], NoRetryConfig;
    }
    var retry := config.autoRetry.value;
    assert attempts[0..] == attempts;
    ghost var whole := Supervise(retry, config.container, false, Results(rules, attempts));
    var shown := false;
    effects := [];
    var i := 0;
    assert whole.0 == effects + whole.0;
    while i < |attempts|
      invariant 0 <= i <= |attempts|
      invariant whole.0 == effects + Supervise(retry, config.container, shown, Results(rules, attempts[i..])).0
      invariant whole.1 == Supervise(retry, config.container, shown, Results(rules, attempts[i..])).1
    {
      var trace, outcome := Run(rules, attempts[i]);
      ResultsSplit(rules, attempts, i);
      Turn(retry, config.container, shown, effects, whole, trace, outcome, Results(rules, attempts[i + 1..]));
      effects := effects + trace;
      match outcome
      case Returned =>
        return effects, Finished;
      case Raises(failure) =>
        var policy := PolicyFor(retry, failure);
        if policy.None? {
          return effects, Fatal(failure);
        }
        var wait := RetryLater(policy, Notice(config.container, failure), shown);
        effects := effects + wait.value.0;
        shown := wait.value.1;
        i := i + 1;
    }
    assert attempts[i..] == [];
    assert effects + [] == effects;
    return effects, Retrying;
  }

  /** The first `k` session results were all retried. */
  predicate RetriedUpTo(retry: AutoRetry, runs: seq<SessionResult>, k: nat)
    requires k <= |runs|
  {
    forall j :: 0 <= j < k ==> Retried(retry, runs[j])
  }

  /** Supervision goes on exactly as long as every session was retried. */
  lemma {:induction false} VerdictRetrying(retry: AutoRetry, container: string, shown: bool, runs: seq<SessionResult>)
    ensures Supervise(retry, container, shown, runs).1 == Retrying <==> RetriedUpTo(retry, runs, |runs|)
    decreases |runs|
  {
    if runs != [] {
      var (trace, outcome) := runs[0];
      assert [(trace, outcome)] + runs[1..] == runs;
      SuperviseCons(retry, container, shown, trace, outcome, runs[1..]);
      if Retried(retry, runs[0]) {
        var wait := RetryLater(PolicyFor(retry, outcome.failure), Notice(container, outcome.failure), shown).value;
        VerdictRetrying(retry, container, wait.1, runs[1..]);
        assert RetriedUpTo(retry, runs[1..], |runs| - 1) <==> RetriedUpTo(retry, runs, |runs|) by {
          forall j | 0 <= j < |runs| - 1 ensures runs[1..][j] == runs[j + 1] { }
        }
      }
    }
  }

  /** The first session that is not retried decides the verdict: it
      finishes when that session returned, and otherwise its exception
      propagates. */
  lemma {:induction false} VerdictFirstUnretried(retry: AutoRetry, container: string, shown: bool,
                                                 runs: seq<SessionResult>, k: nat)
    requires k < |runs| && RetriedUpTo(retry, runs, k) && !Retried(retry, runs[k])
    ensures Supervise(retry, container, shown, runs).1
         == if runs[k].1.Returned? then Finished else Fatal(runs[k].1.failure)
    decreases k
  {
    var (trace, outcome) := runs[0];
    assert [(trace, outcome)] + runs[1..] == runs;
    SuperviseCons(retry, container, shown, trace, outcome, runs[1..]);
    if k > 0 {
      assert Retried(retry, runs[0]);
      var wait := RetryLater(PolicyFor(retry, outcome.failure), Notice(container, outcome.failure), shown).value;
      assert RetriedUpTo(retry, runs[1..], k - 1) by {
        forall j | 0 <= j < k - 1 ensures Retried(retry, runs[1..][j]) {
          assert runs[1..][j] == runs[j + 1];
        }
      }
      VerdictFirstUnretried(retry, container, wait.1, runs[1..], k - 1);
    }
  }

  /** `run` never returns, so supervision never finishes normally. */
  lemma {:induction false} NeverFinishes(rules: seq<Rule>, retry: AutoRetry, container: string, shown: bool,
                                         attempts: seq<Attach>)
    ensures Supervise(retry, container, shown, Results(rules, attempts)).1 != Finished
    decreases |attempts|
  {
    if attempts != [] {
      var (trace, outcome) := RunSpec(rules, attempts[0]);
      assert Results(rules, attempts) == [(trace, outcome)] + Results(rules, attempts[1..]);
      SuperviseCons(retry, container, shown, trace, outcome, Results(rules, attempts[1..]));
      if outcome.Raises? && PolicyFor(retry, outcome.failure).Some? {
        var wait := RetryLater(PolicyFor(retry, outcome.failure), Notice(container, outcome.failure), shown).value;
        NeverFinishes(rules, retry, container, wait.1, attempts[1..]);
      }
    }
  }

  /** None of the session traces prints a retry notice. */
  predicate Silent(container: string, runs: seq<SessionResult>)
  {
    forall k :: 0 <= k < |runs| ==>
      Print(Notice(container, NotFound)) !in runs[k].0 && Print(Notice(container, NotRunning)) !in runs[k].0
  }

  /** How many retry notices a trace prints. */
  function NoticeCount(container: string, trace: seq<Event>): nat
  {
    Occurrences(trace, Print(Notice(container, NotFound))) + Occurrences(trace, Print(Notice(container, NotRunning)))
  }

  lemma NoticeCountAppend(container: string, a: seq<Event>, b: seq<Event>)
    ensures NoticeCount(container, a + b) == NoticeCount(container, a) + NoticeCount(container, b)
  {
    OccurrencesAppend(a, b, Print(Notice(container, NotFound)));
    OccurrencesAppend(a, b, Print(Notice(container, NotRunning)));
  }

  /** The two notices differ. */
  lemma NoticesDiffer(container: string)
    ensures Notice(container, NotFound) != Notice(container, NotRunning)
  {
    assert Notice(container, NotFound)[|container| + 24] == 'f';
    assert Notice(container, NotRunning)[|container| + 24] == 'r';
  }

  /** A retry prints one notice when the flag is still clear, none after. */
  lemma NoticeCountWait(container: string, failure: Failure, shown: bool, interval: real)
    requires failure != Unexpected
    ensures NoticeCount(container, (if shown then [] else [Print(Notice(container, failure))]) + [Sleep(interval)])
         == if shown then 0 else 1
  {
    NoticesDiffer(container);
    var w := (if shown then [] else [Print(Notice(container, failure))]) + [Sleep(interval)];
    if shown {
      assert w == [Sleep(interval)];
    } else {
      assert w[1..] == [Sleep(interval)];
    }
  }

  /** The shared flag: over the whole life of the loop at most one notice
      is printed, by the first retry, and none once the flag is set,
      whichever failure kinds follow. */
  lemma {:induction false} NoticeAtMostOnce(retry: AutoRetry, container: string, shown: bool, runs: seq<SessionResult>)
    requires Silent(container, runs)
    ensures NoticeCount(container, Supervise(retry, container, shown, runs).0)
         == if !shown && |runs| > 0 && Retried(retry, runs[0]) then 1 else 0
    decreases |runs|
  {
    if runs != [] {
      var (trace, outcome) := runs[0];
      assert [(trace, outcome)] + runs[1..] == runs;
      SuperviseCons(retry, container, shown, trace, outcome, runs[1..]);
      assert NoticeCount(container, trace) == 0;
      if Retried(retry, runs[0]) {
        var failure := outcome.failure;
        var wait := RetryLater(PolicyFor(retry, failure), Notice(container, failure), shown).value;
        assert Silent(container, runs[1..]) by {
          forall k | 0 <= k < |runs| - 1 ensures runs[1..][k] == runs[k + 1] { }
        }
        NoticeAtMostOnce(retry, container, wait.1, runs[1..]);
        var rest := Supervise(retry, container, wait.1, runs[1..]).0;
        NoticeCountAppend(container, trace + wait.0, rest);
        NoticeCountAppend(container, trace, wait.0);
        NoticeCountWait(container, failure, shown, PolicyFor(retry, failure).value.interval);
      }
    }
  }

  lemma {:induction false} ResultsAt(rules: seq<Rule>, attempts: seq<Attach>, k: nat)
    requires k < |attempts|
    ensures Results(rules, attempts)[k] == RunSpec(rules, attempts[k])
    decreases k
  {
    if k > 0 {
      ResultsAt(rules, attempts[1..], k - 1);
    }
  }

  /** No session prints a retry notice: every session text starts with a
      letter other than the notices' first. */
  lemma SessionsSilent(rules: seq<Rule>, container: string, attempts: seq<Attach>)
    ensures Silent(container, Results(rules, attempts))
  {
    var runs := Results(rules, attempts);
    forall k, f | 0 <= k < |runs| && f != Unexpected
      ensures Print(Notice(container, f)) !in runs[k].0
    {
      ResultsAt(rules, attempts, k);
      if Print(Notice(container, f)) in runs[k].0 {
        SessionPrints(rules, attempts[k], Print(Notice(container, f)));
        assert false;
      }
    }
  }

  /** The notice printed is that of the first failure. */
  lemma FirstNotice(retry: AutoRetry, container: string, runs: seq<SessionResult>)
    requires |runs| > 0 && Retried(retry, runs[0])
    ensures Print(Notice(container, runs[0].1.failure)) in Supervise(retry, container, false, runs).0
  {
    var (trace, outcome) := runs[0];
    assert [(trace, outcome)] + runs[1..] == runs;
    SuperviseCons(retry, container, false, trace, outcome, runs[1..]);
  }

  /** Over a whole run with retries: exactly one notice when the first
      session is retried and none otherwise, and it names the first
      failure; a later failure of the other kind prints nothing. */
  lemma NoticeOnce(rules: seq<Rule>, retry: AutoRetry, container: string, attempts: seq<Attach>)
    ensures var runs := Results(rules, attempts);
      var trace := Supervise(retry, container, false, runs).0;
      && NoticeCount(container, trace) == (if |runs| > 0 && Retried(retry, runs[0]) then 1 else 0)
      && (|runs| > 0 && Retried(retry, runs[0]) ==> Print(Notice(container, runs[0].1.failure)) in trace)
  {
    var runs := Results(rules, attempts);
    SessionsSilent(rules, container, attempts);
    NoticeAtMostOnce(retry, container, false, runs);
    if |runs| > 0 && Retried(retry, runs[0]) {
      FirstNotice(retry, container, runs);
    }
  }
}
