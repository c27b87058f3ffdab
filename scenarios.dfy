/** Concrete lines and sessions worked through the model: what the shipped
    registry does with typical server output, and how the supervisor
    behaves for the retry policy of the documentation's example. */
module Scenarios {
  import opened Effects
  import opened Strings
  import opened Patterns
  import opened Settings
  import opened Registry
  import opened Reassembly
  import opened Session
  import opened Supervisor

  /** A line without surrounding whitespace strips to itself. */
  lemma StripsToItself(s: string)
    requires Unpadded(s)
    ensures Strip(s) == s
  {
    assert s[0..|s|] == s;
    StripUnique(s, s, 0);
  }

  /** A line that starts with neither a digit nor a dot is no connection
      line. */
  lemma NoAddress(m: Messages, line: string)
    requires |line| > 0 && !InClass(DigitOrDot, line[0])
    ensures ProcessLine(ConnectionAttempt(m), line).NoMatch? && ProcessLine(ConnectionBooted(m), line).NoMatch?
  {
    assert Span(DigitOrDot, line) == 0;
  }

  /** The registry begins with the shipped rules up to `world_save_progress`. */
  predicate ShippedPrefix(m: Messages, rules: seq<Rule>)
  {
    && |rules| >= 6
    && rules[0] == ConnectionAttempt(m) && rules[1] == ConnectionBooted(m)
    && rules[2] == PlayerJoined(m) && rules[3] == PlayerLeft(m)
    && rules[4] == ChatMessage(m) && rules[5] == WorldSaveProgress(m)
  }

  lemma LineTypesPrefix(m: Messages)
    ensures ShippedPrefix(m, LineTypes(m))
  {
  }

  lemma Skip(rules: seq<Rule>, line: string, from: nat)
    requires from < |rules| && ProcessLine(rules[from], line).NoMatch?
    ensures Classify(rules, line, from) == Classify(rules, line, from + 1)
  {
  }

  lemma Take(rules: seq<Rule>, line: string, from: nat)
    requires from < |rules| && ProcessLine(rules[from], line).Consumed?
    ensures Classify(rules, line, from) == Handled(Some(from), ProcessLine(rules[from], line).effects)
  {
  }

  /** The join rule captures the player's name; it sends the notice when
      enabled and does nothing otherwise. */
  lemma JoinRule(m: Messages, player: string)
    requires NoNewline(player)
    ensures ProcessLine(PlayerJoined(m), player + " has joined.")
         == Consumed(if m.playerJoined then [Send(":inbox_tray: **" + player + "** has joined")] else [])
  {
    var s := player + " has joined.";
    assert s == TrailingLine(player, " has joined", '.', false);
    TrailingMeaning(s, " has joined", player);
  }

  /** A join line: the join rule takes it. */
  lemma JoinOn(m: Messages, rules: seq<Rule>, player: string)
    requires ShippedPrefix(m, rules) && NoNewline(player) && |player| > 0 && !InClass(DigitOrDot, player[0])
    ensures Classify(rules, player + " has joined.", 0)
         == Handled(Some(2), if m.playerJoined then [Send(":inbox_tray: **" + player + "** has joined")] else [])
  {
    var s := player + " has joined.";
    NoAddress(m, s);
    Skip(rules, s, 0);
    Skip(rules, s, 1);
    JoinRule(m, player);
    Take(rules, s, 2);
  }

  /** The chat rule captures speaker and text; it relays them when enabled
      and does nothing otherwise. */
  lemma ChatRule(m: Messages, speaker: string, text: string)
    requires NoNewline(speaker) && NoNewline(text) && NoSeparator(text)
    ensures ProcessLine(ChatMessage(m), ChatLine(speaker, text, false))
         == Consumed(if m.chatMessage then [Send("<**" + speaker + "**> " + text)] else [])
  {
    ChatMeaning(ChatLine(speaker, text, false), speaker, text);
  }

  /** "<Alice> hello" is no join or leave line. */
  lemma HelloNotTrailing(m: Messages)
    ensures ProcessLine(PlayerJoined(m), "<Alice> hello").NoMatch?
    ensures ProcessLine(PlayerLeft(m), "<Alice> hello").NoMatch?
  {
    var s := "<Alice> hello";
    assert s[1..12][0] != " has joined"[0];
    assert s[3..12][0] != " has left"[0];
  }

  lemma HelloChat(m: Messages)
    ensures ProcessLine(ChatMessage(m), "<Alice> hello")
         == Consumed(if m.chatMessage then [Send("<**" + "Alice" + "**> " + "hello")] else [])
  {
    assert "<Alice> hello" == ChatLine("Alice", "hello", false);
    ChatRule(m, "Alice", "hello");
  }

  /** A chat line is relayed with the speaker in bold. */
  lemma ChatOn(m: Messages, rules: seq<Rule>)
    requires ShippedPrefix(m, rules)
    ensures Classify(rules, "<Alice> hello", 0)
         == Handled(Some(4), if m.chatMessage then [Send("<**" + "Alice" + "**> " + "hello")] else [])
  {
    var s := "<Alice> hello";
    NoAddress(m, s);
    HelloNotTrailing(m);
    Skip(rules, s, 0);
    Skip(rules, s, 1);
    Skip(rules, s, 2);
    Skip(rules, s, 3);
    HelloChat(m);
    Take(rules, s, 4);
  }

  /** A chat message whose text is a join line, such as
      "<Mallory> Alice has joined.", is a chat line from its speaker. */
  lemma SpoofIsChat(speaker: string, player: string)
    requires NoNewline(speaker) && NoNewline(player) && NoSeparator(player + " has joined.")
    ensures MatchChat("<" + speaker + "> " + player + " has joined.") == Some([speaker, player + " has joined."])
  {
    var text := player + " has joined.";
    assert "<" + speaker + "> " + player + " has joined." == ChatLine(speaker, text, false);
    NoNewlineConcat(player, " has joined.");
    ChatComplete(ChatLine(speaker, text, false), speaker, text, false);
  }

  /** Rule order decides: such a message would match the chat rule, but the
      join rule comes first and takes it, announcing the speaker in angle
      brackets and the text before "has joined." as the player's name. */
  lemma ChatSpoofsJoin(m: Messages, rules: seq<Rule>, speaker: string, player: string)
    requires ShippedPrefix(m, rules) && m.playerJoined
    requires NoNewline(speaker) && NoNewline(player) && NoSeparator(player + " has joined.")
    ensures MatchChat("<" + speaker + "> " + player + " has joined.") == Some([speaker, player + " has joined."])
    ensures Classify(rules, "<" + speaker + "> " + player + " has joined.", 0)
         == Handled(Some(2), [Send(":inbox_tray: **" + ("<" + speaker + "> " + player) + "** has joined")])
  {
    SpoofIsChat(speaker, player);
    var name := "<" + speaker + "> " + player;
    NoNewlineConcat("<", speaker);
    NoNewlineConcat("<" + speaker, "> ");
    NoNewlineConcat("<" + speaker + "> ", player);
    JoinOn(m, rules, name);
  }

  /** A save-progress line is taken by `world_save_progress`, which has no
      callback: at most the warning is printed and nothing is sent. */
  lemma SaveRule(m: Messages)
    ensures ProcessLine(WorldSaveProgress(m), "Saving world data: " + "42" + "%")
         == Consumed(if m.worldBackup then [Print(Warning("world_save_progress"))] else [])
  {
    PercentMeaning("Saving world data: " + "42" + "%", "Saving world data: ", "42");
  }

  lemma SaveNotEarlier(m: Messages)
    ensures ProcessLine(PlayerJoined(m), "Saving world data: " + "42" + "%").NoMatch?
    ensures ProcessLine(PlayerLeft(m), "Saving world data: " + "42" + "%").NoMatch?
    ensures ProcessLine(ChatMessage(m), "Saving world data: " + "42" + "%").NoMatch?
  {
    var s := "Saving world data: " + "42" + "%";
    assert s[10..21][0] != " has joined"[0];
    assert s[12..21][1] != " has left"[1];
    assert s[0] != '<';
  }

  lemma SaveProgressOn(m: Messages, rules: seq<Rule>)
    requires ShippedPrefix(m, rules)
    ensures Classify(rules, "Saving world data: " + "42" + "%", 0)
         == Handled(Some(5), if m.worldBackup then [Print(Warning("world_save_progress"))] else [])
  {
    var s := "Saving world data: " + "42" + "%";
    NoAddress(m, s);
    SaveNotEarlier(m);
    Skip(rules, s, 0);
    Skip(rules, s, 1);
    Skip(rules, s, 2);
    Skip(rules, s, 3);
    Skip(rules, s, 4);
    SaveRule(m);
    Take(rules, s, 5);
  }

  /** A registry that starts like the shipped one announces a join. */
  lemma JoinAnnounced(m: Messages, rules: seq<Rule>)
    requires ShippedPrefix(m, rules) && m.playerJoined
    ensures LineEffects(rules, "Bob" + " has joined.") == [Send(":inbox_tray: **" + "Bob" + "** has joined")]
  {
    JoinOn(m, rules, "Bob");
    StripsToItself("Bob" + " has joined.");
  }

  /** A line that ends in a carriage return (the server writes CRLF) is
      stripped before matching, so the `.` before `$` still meets the
      final period. */
  lemma CarriageReturnStripped()
    ensures Strip("Bob has joined.\r") == "Bob has joined."
  {
    var s := "Bob has joined.\r";
    var r := "Bob has joined.";
    assert s[0..|r|] == r;
    StripUnique(s, r, 0);
  }

  const Terraria := "terraria"

  /** Retry only "not found", every five seconds. */
  const NotFoundOnly := AutoRetry(Some(RetryPolicy(5.0)), None)

  /** Sessions that fail to find the container, or find it stopped, do
      nothing and raise. */
  lemma FailedSessions(rules: seq<Rule>)
    ensures RunSpec(rules, Missing) == ([], Raises(NotFound))
    ensures RunSpec(rules, Found("exited", [], Closed)) == ([], Raises(NotRunning))
  {
  }

  lemma ResultsCons(rules: seq<Rule>, a: Attach, attempts: seq<Attach>)
    ensures Results(rules, [a] + attempts) == [RunSpec(rules, a)] + Results(rules, attempts)
  {
    assert ([a] + attempts)[1..] == attempts;
  }

  /** The documented policy: a missing container is retried every five
      seconds with one notice; a container that exists but is not running
      is fatal at once. */
  lemma NotFoundOnlyExample(rules: seq<Rule>)
    ensures Supervise(NotFoundOnly, Terraria, false,
                      Results(rules, [Missing, Missing, Missing, Found("exited", [], Closed)]))
         == ([Print(Notice(Terraria, NotFound)), Sleep(5.0), Sleep(5.0), Sleep(5.0)], Fatal(NotRunning))
  {
    var missing: SessionResult := ([], Raises(NotFound));
    var stopped: SessionResult := ([], Raises(NotRunning));
    FailedSessions(rules);
    ResultsCons(rules, Found("exited", [], Closed), []);
    ResultsCons(rules, Missing, [Found("exited", [], Closed)]);
    ResultsCons(rules, Missing, [Missing, Found("exited", [], Closed)]);
    ResultsCons(rules, Missing, [Missing, Missing, Found("exited", [], Closed)]);
    assert [Missing] + [Found("exited", [], Closed)] == [Missing, Found("exited", [], Closed)];
    assert [Missing] + [Missing, Found("exited", [], Closed)] == [Missing, Missing, Found("exited", [], Closed)];
    assert [Missing] + [Missing, Missing, Found("exited", [], Closed)]
        == [Missing, Missing, Missing, Found("exited", [], Closed)];
    assert Results(rules, [Missing, Missing, Missing, Found("exited", [], Closed)])
        == [missing] + ([missing] + ([missing] + ([stopped] + [])));
    assert [missing] + ([missing] + ([missing] + ([stopped] + []))) == [missing, missing, missing, stopped];
    NotFoundOnlyRuns(missing, stopped);
  }

  lemma NotFoundOnlyRuns(missing: SessionResult, stopped: SessionResult)
    requires missing == ([], Raises(NotFound)) && stopped == ([], Raises(NotRunning))
    ensures Supervise(NotFoundOnly, Terraria, false, [missing, missing, missing, stopped])
         == ([Print(Notice(Terraria, NotFound)), Sleep(5.0), Sleep(5.0), Sleep(5.0)], Fatal(NotRunning))
  {
    var notice, sleep := Print(Notice(Terraria, NotFound)), Sleep(5.0);
    assert RetryLater(Some(RetryPolicy(5.0)), Notice(Terraria, NotFound), true).value.0 == [sleep];
    assert RetryLater(Some(RetryPolicy(5.0)), Notice(Terraria, NotFound), false).value.0 == [notice, sleep];
    SuperviseCons(NotFoundOnly, Terraria, true, [], Raises(NotFound), [stopped]);
    assert [missing] + [stopped] == [missing, stopped];
    assert [] + [sleep] + [] == [sleep];
    SuperviseCons(NotFoundOnly, Terraria, true, [], Raises(NotFound), [missing, stopped]);
    assert [missing] + [missing, stopped] == [missing, missing, stopped];
    assert [] + [sleep] + [sleep] == [sleep, sleep];
    SuperviseCons(NotFoundOnly, Terraria, false, [], Raises(NotFound), [missing, missing, stopped]);
    assert [missing] + [missing, missing, stopped] == [missing, missing, missing, stopped];
    assert [] + [notice, sleep] + [sleep, sleep] == [notice, sleep, sleep, sleep];
  }

  /** Retry both kinds. */
  const BothKinds := AutoRetry(Some(RetryPolicy(5.0)), Some(RetryPolicy(1.0)))

  /** One flag for both kinds: after "not found" has printed its notice, a
      later "not running" prints none. */
  lemma SharedFlagExample(rules: seq<Rule>)
    ensures Supervise(BothKinds, Terraria, false, Results(rules, [Missing, Found("exited", [], Closed), Missing]))
         == ([Print(Notice(Terraria, NotFound)), Sleep(5.0), Sleep(1.0), Sleep(5.0)], Retrying)
  {
    var missing: SessionResult := ([], Raises(NotFound));
    var stopped: SessionResult := ([], Raises(NotRunning));
    FailedSessions(rules);
    ResultsCons(rules, Missing, []);
    ResultsCons(rules, Found("exited", [], Closed), [Missing]);
    ResultsCons(rules, Missing, [Found("exited", [], Closed), Missing]);
    assert [Found("exited", [], Closed)] + [Missing] == [Found("exited", [], Closed), Missing];
    assert [Missing] + [Found("exited", [], Closed), Missing] == [Missing, Found("exited", [], Closed), Missing];
    assert Results(rules, [Missing, Found("exited", [], Closed), Missing])
        == [missing] + ([stopped] + ([missing] + []));
    assert [missing] + ([stopped] + ([missing] + [])) == [missing, stopped, missing];
    SharedFlagRuns(missing, stopped);
  }

  lemma SharedFlagRuns(missing: SessionResult, stopped: SessionResult)
    requires missing == ([], Raises(NotFound)) && stopped == ([], Raises(NotRunning))
    ensures Supervise(BothKinds, Terraria, false, [missing, stopped, missing])
         == ([Print(Notice(Terraria, NotFound)), Sleep(5.0), Sleep(1.0), Sleep(5.0)], Retrying)
  {
    var notice, five, one := Print(Notice(Terraria, NotFound)), Sleep(5.0), Sleep(1.0);
    assert RetryLater(Some(RetryPolicy(5.0)), Notice(Terraria, NotFound), true).value.0 == [five];
    assert RetryLater(Some(RetryPolicy(1.0)), Notice(Terraria, NotRunning), true).value.0 == [one];
    assert RetryLater(Some(RetryPolicy(5.0)), Notice(Terraria, NotFound), false).value.0 == [notice, five];
    SuperviseCons(BothKinds, Terraria, true, [], Raises(NotFound), []);
    assert [missing] + [] == [missing];
    assert [] + [five] + [] == [five];
    SuperviseCons(BothKinds, Terraria, true, [], Raises(NotRunning), [missing]);
    assert [stopped] + [missing] == [stopped, missing];
    assert [] + [one] + [five] == [one, five];
    SuperviseCons(BothKinds, Terraria, false, [], Raises(NotFound), [stopped, missing]);
    assert [missing] + [stopped, missing] == [missing, stopped, missing];
    assert [] + [notice, five] + [one, five] == [notice, five, one, five];
  }

  /** A line cut across two chunks, the second of which also holds the start
      of the next line: one complete line, and the fragment is pending. */
  lemma LineAcrossChunks(head: string, tail: string, fragment: string)
    requires NoNewline(head + tail) && NoNewline(fragment)
    ensures Complete(Decoded([Some(head), Some(tail + "\n" + fragment)])) == [head + tail]
    ensures Pending(Decoded([Some(head), Some(tail + "\n" + fragment)])) == fragment
  {
    var chunks := [Some(head), Some(tail + "\n" + fragment)];
    assert Decoded(chunks[..1]) == head by {
      assert chunks[..1][..0] == [];
    }
    assert Terminated([head + tail]) == head + tail + "\n" by {
      assert [head + tail][1..] == [];
    }
    assert Decoded(chunks) == Terminated([head + tail]) + fragment;
    assert AllNoNewline([head + tail]) by {
      assert [head + tail][0] == head + tail;
    }
    CompleteAfter([head + tail], fragment);
    SplitSingle(fragment);
  }

  /** A session that reads one line cut across two chunks, then the start of
      another, before the stream closes: the line is dispatched once, the
      unfinished fragment never, and the stop message is sent last. */
  lemma LineAcrossChunksSession(rules: seq<Rule>, head: string, tail: string, fragment: string)
    requires NoNewline(head + tail) && NoNewline(fragment)
    ensures RunSpec(rules, Found("running", [Some(head), Some(tail + "\n" + fragment)], Closed))
         == ([Print(Listening)] + LineEffects(rules, head + tail) + [Send(Stopped)], Raises(NotRunning))
  {
    RunClosedStream(rules, [Some(head), Some(tail + "\n" + fragment)]);
    LineAcrossChunks(head, tail, fragment);
    DispatchOne(rules, head + tail);
  }

  /** A one-line session whose line was cut after the player's name: the
      line's effects appear once, between the listening print and the stop
      message, and the unfinished "Al" is never dispatched. With
      `JoinAnnounced`, those effects are the join message. */
  lemma SplitLineSession(rules: seq<Rule>, announced: seq<Event>)
    requires LineEffects(rules, "Bob" + " has joined.") == announced
    ensures RunSpec(rules, Found("running", [Some("Bob"), Some(" has joined." + "\n" + "Al")], Closed))
         == ([Print(Listening)] + announced + [Send(Stopped)], Raises(NotRunning))
  {
    assert NoNewline("Bob" + " has joined.") && NoNewline("Al");
    LineAcrossChunksSession(rules, "Bob", " has joined.", "Al");
  }
}
