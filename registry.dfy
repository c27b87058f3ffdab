/** The rule registry: each known kind of server log line, what a rule does
    with a line (`LogLineType.process_line`), the fixed ordered list of
    rules the hook builds from its configuration (`SlimeHook.LINE_TYPES`),
    and first-match dispatch of one line over that list (`handle_line`). */
module Registry {
  import opened Effects
  import opened Strings
  import opened Patterns
  import opened Settings

  /** The callbacks: each formats a notification and sends it. */
  datatype Action = JoinNotice | LeaveNotice | ChatNotice | BackupNotice | StartNotice

  /** Number of parameters of each callback lambda. */
  function Arity(action: Action): nat
  {
    match action
    case JoinNotice => 1
    case LeaveNotice => 1
    case ChatNotice => 2
    case BackupNotice => 0
    case StartNotice => 0
  }

  /** The text a callback sends for the captured groups, or None when the
      group count differs from the lambda's parameter count (Python raises
      `TypeError` at the call). */
  function Format(action: Action, groups: seq<string>): (r: Option<string>)
    ensures r.Some? <==> |groups| == Arity(action)
  {
    if |groups| != Arity(action) then None
    else
      match action
      case JoinNotice => Some(":inbox_tray: **" + groups[0] + "** has joined")
      case LeaveNotice => Some(":outbox_tray: **" + groups[0] + "** has left")
      case ChatNotice => Some("<**" + groups[0] + "**> " + groups[1])
      case BackupNotice => Some("_Backup successfully created_")
      case StartNotice => Some(":zap: **Server has started!**")
  }

  /** `LogLineType`: name, pattern, enabled flag, optional callback and the
      declared number of capture groups. */
  datatype Rule = Rule(
    name: string,
    pattern: Pattern,
    enabled: bool,
    callback: Option<Action>,
    captureGroups: nat)

  /** What `process_line` does: returns False, returns True after the
      recorded effects, or raises. */
  datatype Processed =
    | NoMatch
    | Consumed(effects: seq<Event>)
    | Raised(error: LineError)

  function Warning(name: string): string
  {
    "Warning: Tried to send a " + name + " log message, but it has not been implemented"
  }

  /** `LogLineType.process_line`. */
  function ProcessLine(rule: Rule, line: string): (r: Processed)
    // False exactly when the pattern does not match.
    ensures r.NoMatch? <==> Match(rule.pattern, line).None?
    // ValueError exactly when the match has the wrong number of groups.
    ensures (r.Raised? && r.error.CaptureMismatch?) <==>
              (Match(rule.pattern, line).Some? && |Match(rule.pattern, line).value| != rule.captureGroups)
    // A matched rule with the declared group count consumes the line
    // whatever its flag; only calling its callback can still raise.
    ensures Match(rule.pattern, line).Some? && |Match(rule.pattern, line).value| == rule.captureGroups ==>
              r.Consumed? || (rule.enabled && rule.callback.Some?
                              && r == Raised(ArityMismatch(Arity(rule.callback.value), rule.captureGroups)))
    // A disabled rule has no effect at all.
    ensures !rule.enabled && r.Consumed? ==> r.effects == []
    // An enabled rule without a callback only prints the warning.
    ensures rule.enabled && rule.callback.None? && r.Consumed? ==> r.effects == [Print(Warning(rule.name))]
    // An enabled rule with a callback sends exactly the formatted groups.
    ensures rule.enabled && rule.callback.Some? && r.Consumed? ==>
              && |r.effects| == 1 && r.effects[0].Send?
              && Format(rule.callback.value, Match(rule.pattern, line).value) == Some(r.effects[0].message)
  {
    match Match(rule.pattern, line)
    case None => NoMatch
    case Some(groups) =>
      if |groups| != rule.captureGroups then Raised(CaptureMismatch(rule.captureGroups, |groups|))
      else if !rule.enabled then Consumed([])
      else
        match rule.callback
        case None => Consumed([Print(Warning(rule.name))])
        case Some(action) =>
          match Format(action, groups)
          case Some(message) => Consumed([Send(message)])
          case None => Raised(ArityMismatch(Arity(action), |groups|))
  }

  /** The rule declares its pattern's group count and its callback takes
      that many arguments. */
  predicate WellFormed(rule: Rule)
  {
    && rule.captureGroups == GroupCount(rule.pattern)
    && (rule.callback.Some? ==> Arity(rule.callback.value) == rule.captureGroups)
  }

  /** A well-formed rule never raises. */
  lemma WellFormedNeverRaises(rule: Rule, line: string)
    requires WellFormed(rule)
    ensures !ProcessLine(rule, line).Raised?
  {
  }

  // The rules of `SlimeHook.LINE_TYPES`. The four progress rules without an
  // `is_enabled` argument are always disabled, and `world_save_progress` is
  // gated by the `world_backup` flag.

  function ConnectionAttempt(m: Messages): Rule
  {
    Rule("connection_attempt", Address(" is connecting..."), m.connectionAttempt, None, 0)
  }

  function ConnectionBooted(m: Messages): Rule
  {
    Rule("connection_booted", Address(" was booted: Invalid operation at this state."), m.connectionBooted, None, 0)
  }

  function PlayerJoined(m: Messages): Rule
  {
    Rule("player_joined", Trailing(" has joined"), m.playerJoined, Some(JoinNotice), 1)
  }

  function PlayerLeft(m: Messages): Rule
  {
    Rule("player_left", Trailing(" has left"), m.playerLeft, Some(LeaveNotice), 1)
  }

  function ChatMessage(m: Messages): Rule
  {
    Rule("chat_message", Chat, m.chatMessage, Some(ChatNotice), 2)
  }

  function WorldSaveProgress(m: Messages): Rule
  {
    Rule("world_save_progress", Percent("Saving world data: "), m.worldBackup, None, 1)
  }

  function WorldValidationProgress(m: Messages): Rule
  {
    Rule("world_validation_progress", Percent("Validating world save: "), false, None, 1)
  }

  function WorldBackup(m: Messages): Rule
  {
    Rule("world_backup", Literal("Backing up world file"), m.worldBackup, Some(BackupNotice), 0)
  }

  function TerrariaError(m: Messages): Rule
  {
    Rule("terraria_error", Literal("Error on message Terraria.MessageBuffer"), m.terrariaError, None, 0)
  }

  function WorldLoadObjectsProgress(m: Messages): Rule
  {
    Rule("world_load_objects_progress", Percent("Resetting game objects "), false, None, 1)
  }

  function WorldLoadDataProgress(m: Messages): Rule
  {
    Rule("world_load_data_progress", Percent("Loading world data: "), false, None, 1)
  }

  function WorldLoadLiquidsProgress(m: Messages): Rule
  {
    Rule("world_load_liquids_progress", Percent("Settling liquids "), false, None, 1)
  }

  function ServerListening(m: Messages): Rule
  {
    Rule("server_listening", Number("Listening on port "), m.serverListening, Some(StartNotice), 0)
  }

  /** `SlimeHook.LINE_TYPES`, built from the message flags, in the order the
      rules are tried. */
  function LineTypes(m: Messages): (rules: seq<Rule>)
    ensures |rules| == 13
  {
    [ ConnectionAttempt(m),
      ConnectionBooted(m),
      PlayerJoined(m),
      PlayerLeft(m),
      ChatMessage(m),
      WorldSaveProgress(m),
      WorldValidationProgress(m),
      WorldBackup(m),
      TerrariaError(m),
      WorldLoadObjectsProgress(m),
      WorldLoadDataProgress(m),
      WorldLoadLiquidsProgress(m),
      ServerListening(m) ]
  }

  /** Every shipped rule declares its pattern's group count, and every
      callback takes that many arguments. */
  lemma LineTypesWellFormed(m: Messages)
    ensures forall i :: 0 <= i < |LineTypes(m)| ==> WellFormed(LineTypes(m)[i])
  {
    var rules := LineTypes(m);
    forall i | 0 <= i < |rules| ensures WellFormed(rules[i]) {
    }
  }

  /** What `handle_line` does with one line: the index of the rule that
      took it (None when it printed the line as unmatched) and the effects,
      or the exception it let escape. */
  datatype Dispatch =
    | Handled(matched: Option<nat>, effects: seq<Event>)
    | Failed(error: LineError)

  /** First-match dispatch of an already stripped line over `rules[from..]`. */
  function Classify(rules: seq<Rule>, line: string, from: nat): Dispatch
    requires from <= |rules|
    decreases |rules| - from
  {
    if from == |rules| then Handled(None, [Debug(line)])
    else
      match ProcessLine(rules[from], line)
      case NoMatch => Classify(rules, line, from + 1)
      case Consumed(effects) => Handled(Some(from), effects)
      case Raised(error) => Failed(error)
  }

  /** No rule in `rules[from..to]` takes the line. */
  predicate NoneMatch(rules: seq<Rule>, line: string, from: nat, to: nat)
    requires from <= to <= |rules|
  {
    forall j :: from <= j < to ==> ProcessLine(rules[j], line).NoMatch?
  }

  /** First match wins: when a rule takes the line, it is the first rule at
      or after `from` whose pattern matches, and the effects are its own. */
  lemma {:induction false} ClassifyMatched(rules: seq<Rule>, line: string, from: nat)
    requires from <= |rules|
    requires Classify(rules, line, from).Handled? && Classify(rules, line, from).matched.Some?
    ensures var k := Classify(rules, line, from).matched.value;
      && from <= k < |rules|
      && ProcessLine(rules[k], line) == Consumed(Classify(rules, line, from).effects)
      && NoneMatch(rules, line, from, k)
    decreases |rules| - from
  {
    if ProcessLine(rules[from], line).NoMatch? {
      ClassifyMatched(rules, line, from + 1);
    }
  }

  /** Conversely, the first rule that consumes the line is the one that
      takes it. */
  lemma {:induction false} ClassifyTakes(rules: seq<Rule>, line: string, from: nat, k: nat)
    requires from <= k < |rules| && NoneMatch(rules, line, from, k) && ProcessLine(rules[k], line).Consumed?
    ensures Classify(rules, line, from) == Handled(Some(k), ProcessLine(rules[k], line).effects)
    decreases k - from
  {
    if from < k {
      assert ProcessLine(rules[from], line).NoMatch?;
      ClassifyTakes(rules, line, from + 1, k);
    }
  }

  /** When no rule takes the line, none matched it, and the only effect is
      the printed line: nothing is sent. */
  lemma {:induction false} ClassifyUnmatched(rules: seq<Rule>, line: string, from: nat)
    requires from <= |rules|
    requires Classify(rules, line, from).Handled? && Classify(rules, line, from).matched.None?
    ensures Classify(rules, line, from).effects == [Debug(line)]
    ensures NoneMatch(rules, line, from, |rules|)
    decreases |rules| - from
  {
    if from < |rules| {
      ClassifyUnmatched(rules, line, from + 1);
    }
  }

  /** Conversely, a line no rule matches is printed and nothing else. */
  lemma {:induction false} ClassifyNoneTake(rules: seq<Rule>, line: string, from: nat)
    requires from <= |rules| && NoneMatch(rules, line, from, |rules|)
    ensures Classify(rules, line, from) == Handled(None, [Debug(line)])
    decreases |rules| - from
  {
    if from < |rules| {
      ClassifyNoneTake(rules, line, from + 1);
    }
  }

  /** When dispatch raises, the exception comes from the first rule that
      did not return NoMatch. */
  lemma {:induction false} ClassifyFailed(rules: seq<Rule>, line: string, from: nat)
    requires from <= |rules|
    requires Classify(rules, line, from).Failed?
    ensures exists k :: && from <= k < |rules|
                        && ProcessLine(rules[k], line) == Raised(Classify(rules, line, from).error)
                        && NoneMatch(rules, line, from, k)
    decreases |rules| - from
  {
    if ProcessLine(rules[from], line).NoMatch? {
      ClassifyFailed(rules, line, from + 1);
      var k :| && from + 1 <= k < |rules|
               && ProcessLine(rules[k], line) == Raised(Classify(rules, line, from + 1).error)
               && NoneMatch(rules, line, from + 1, k);
      assert NoneMatch(rules, line, from, k);
    } else {
      assert NoneMatch(rules, line, from, from);
    }
  }

  /** The only text that handling a line prints is the "not implemented"
      warning of an enabled rule without a callback. */
  lemma ClassifyOnlyWarns(rules: seq<Rule>, line: string, e: Event)
    requires Classify(rules, line, 0).Handled? && e in Classify(rules, line, 0).effects && e.Print?
    ensures exists k :: 0 <= k < |rules| && rules[k].enabled && rules[k].callback.None?
                        && e == Print(Warning(rules[k].name))
  {
    if Classify(rules, line, 0).matched.Some? {
      ClassifyMatched(rules, line, 0);
    } else {
      ClassifyUnmatched(rules, line, 0);
    }
  }

  /** Over well-formed rules no line makes dispatch raise. */
  lemma {:induction false} ClassifyNeverFails(rules: seq<Rule>, line: string, from: nat)
    requires from <= |rules|
    requires forall i :: 0 <= i < |rules| ==> WellFormed(rules[i])
    ensures Classify(rules, line, from).Handled?
    decreases |rules| - from
  {
    if from < |rules| {
      WellFormedNeverRaises(rules[from], line);
      ClassifyNeverFails(rules, line, from + 1);
    }
  }

  /** The shipped registry never raises the capture-count or arity error. */
  lemma ShippedRegistryNeverFails(m: Messages, line: string)
    ensures Classify(LineTypes(m), line, 0).Handled?
  {
    LineTypesWellFormed(m);
    ClassifyNeverFails(LineTypes(m), line, 0);
  }

  /** `SlimeHook.handle_line`: strip the line, then try the rules in order
      and stop at the first that takes it. */
  method HandleLine(rules: seq<Rule>, line: string) returns (d: Dispatch)
    ensures d == Classify(rules, Strip(line), 0)
  {
    var s := Strip(line);
    for i := 0 to |rules|
      invariant Classify(rules, s, i) == Classify(rules, s, 0)
    {
      var p := ProcessLine(rules[i], s);
      match p
      case Consumed(effects) =>
        return Handled(Some(i), effects);
      case Raised(error) =>
        return Failed(error);
      case NoMatch =>
    }
    return Handled(None, [Debug(s)]);
  }
}
