# slime-hook, modelled in Dafny

slime-hook tails the log output of a Terraria server running in a Docker
container and posts Discord webhook messages for the events it recognises
(players joining, leaving and chatting, world backups, server start and
stop). This project models the engine of `slime_hook.py` and proves
properties of that model:

- **Rules** (`Registry`). `LogLineType.process_line` and the 13 rules of
  `SlimeHook.LINE_TYPES`. Each regular expression is replaced by a
  hand-written matcher (`Patterns`) with a lemma saying exactly which lines
  it accepts and what it captures. The callbacks are formatting functions.
  `handle_line` is first-match dispatch over the ordered rules.
- **Line reassembly** (`Reassembly`). The `line_buffer` loop of `run`,
  stated as a fold over chunks. A chunk that fails to decode is `None`.
- **One session** (`Session`). `run`, as a method with the nested loops of
  the source, proved equal to a specification function `RunSpec`.
- **Retry supervisor** (`Supervisor`). `run_with_auto_retry` and
  `retry_later`, as a method with the `while` loop and the notice flag,
  proved equal to the specification function `Supervise`. Supervise runs
  over the results of a finite sequence of session attempts.
- **Scenarios** (`Scenarios`). Typical server lines and retry histories,
  worked through the model.

Side effects are recorded as a trace of `Event`s:
- `Send(message)`: a webhook POST;
- `Print(text)`: a `print` of a text;
- `Debug(line)`: the print of an unmatched line;
- `PrintError(error)`: the print of a caught exception;
- `Sleep(interval)`: a `time.sleep`.

What the container runtime offers a session is an `Attach` value:
- `Missing`: `containers.get` raised `NotFound`;
- `Unreachable`: any other client error;
- `Found(status, chunks, end)`: each chunk is `Some(text)` or `None` when
  it is not valid UTF-8, and `end` says whether the stream closed or broke.

The model follows the code where it departs from the intended design:
- **One notice flag.** `has_shown_message` is one flag, shared by the two
  failure kinds and never cleared. So over the whole life of the loop at
  most one "retrying in background" notice is printed. The design describes
  one flag per failure kind, reset when a session starts. `NoticeOnce` and
  `SharedFlagExample` state the code's behaviour.
- **`world_save_progress` flag.** This rule is enabled by the
  `world_backup` flag (slime_hook.py:132). The design asks each rule to have
  its own flag. The four other progress rules have no flag and are always
  disabled.
- **Stop message.** The stop message is sent whatever `server_stopped` says
  (slime_hook.py:229). The flag is read nowhere.

## Model

| member | source | states |
|---|---|---|
| Strings.Strip | slime_hook.py:187 | the result has no whitespace at either end (Python `isspace` set), and the input is the result with only whitespace around it |
| Strings.StripUnique | slime_hook.py:187 | the only unpadded string sitting inside whitespace margins of the input is its strip |
| Strings.StripIdempotent | slime_hook.py:187 | stripping a stripped line changes nothing |
| Strings.Split | slime_hook.py:219 | `split("\n")` gives at least one piece; no piece holds a newline; joining the pieces with newlines gives back the input |
| Strings.SplitTerminated | slime_hook.py:219 | newline-terminated, newline-free lines in front of any text split back into those same lines, followed by the pieces of the text |
| Strings.SplitRoundTrip | slime_hook.py:219 | newline-free lines joined by newlines split back into exactly those lines |
| Patterns.Match | slime_hook.py:60-61 | a successful match has exactly as many groups as its pattern has capture groups |
| Patterns.AddressSound | slime_hook.py:94-99 | a line the address matcher accepts has 7-15 digits or dots, a colon, 1-5 digits, then the rule's literal tail |
| Patterns.AddressComplete | slime_hook.py:94-99 | every line of that shape is accepted: the maximal runs are the only split that can work |
| Patterns.AddressMeaning | slime_hook.py:94-99 | the address matcher accepts a line if and only if it has that shape |
| Patterns.TrailingSound | slime_hook.py:104-113 | the capture of `^(.*) has joined.$` is newline-free, and the line is the capture, the suffix, one non-newline character, then possibly one final newline |
| Patterns.TrailingComplete | slime_hook.py:104-113 | every such line is matched and captures exactly its player name |
| Patterns.TrailingMeaning | slime_hook.py:104-113 | the trailing matcher captures a player if and only if the line is built from that player as above |
| Patterns.ChatSound | slime_hook.py:122 | the two captures of `^<(.*)> (.*)$` rebuild the line; neither holds a newline; the text holds no `> ` |
| Patterns.ChatComplete | slime_hook.py:122 | every chat line whose text holds no `> ` is split at the separator right after the speaker |
| Patterns.ChatMeaning | slime_hook.py:122 | the chat matcher captures a speaker and a text if and only if the line is built from them as above |
| Patterns.PercentMeaning | slime_hook.py:129-166 | `^<lead>(\d+)%` captures some digits if and only if they are non-empty ASCII digits and the line starts with lead, digits, `%` |
| Registry.Format | slime_hook.py:102-175 | a callback formats the captured groups exactly when their number equals the lambda's parameter count |
| Registry.ProcessLine | slime_hook.py:63-80 | returns False exactly when there is no match; raises the capture-count error exactly on a group-count mismatch, before any effect; a disabled rule consumes with no effect; an enabled rule without a callback only prints the warning; one with a callback sends exactly its formatted groups |
| Registry.WellFormedNeverRaises | slime_hook.py:63-80 | a rule whose declared count equals its pattern's groups and its callback's parameter count never raises |
| Registry.LineTypes | slime_hook.py:91-176 | the registry has 13 rules, in source order, built from the message flags |
| Registry.LineTypesWellFormed | slime_hook.py:91-176 | every shipped rule declares its pattern's group count, and every callback takes that many arguments |
| Registry.ClassifyMatched | slime_hook.py:188-191 | the rule that takes a line is the first rule whose pattern matches it; every earlier rule returned False; the effects are that rule's own |
| Registry.ClassifyTakes | slime_hook.py:188-191 | conversely, when every earlier rule returned False, the first rule that consumes the line takes it |
| Registry.ClassifyUnmatched | slime_hook.py:188-192 | when no rule takes the line, no rule matched it, and the only effect is printing the line: nothing is sent |
| Registry.ClassifyNoneTake | slime_hook.py:188-192 | conversely, a line no rule matches is printed and nothing else happens |
| Registry.ClassifyFailed | slime_hook.py:188-191 | an exception from dispatch comes from the first rule that did not return False |
| Registry.ClassifyOnlyWarns | slime_hook.py:73-80 | the only text handling a line prints is the warning of an enabled rule without a callback |
| Registry.ClassifyNeverFails | slime_hook.py:188-191 | over well-formed rules no line makes dispatch raise |
| Registry.ShippedRegistryNeverFails | slime_hook.py:91-176 | the shipped registry never raises the capture-count or arity error, whatever the flags and the line |
| Registry.HandleLine | slime_hook.py:186-192 | the loop strips the line and returns what first-match dispatch of the stripped line gives |
| Reassembly.CompletePending | slime_hook.py:219-226 | the complete lines and the new buffer hold no newline, and the lines, each followed by a newline, then the buffer give back the text |
| Reassembly.CompleteAfter | slime_hook.py:219-226 | text after complete lines yields those lines first, then its own |
| Reassembly.StepByText | slime_hook.py:211-226 | one iteration of the chunk loop depends only on the text read so far, not on where the chunks were cut |
| Reassembly.ReassembleByText | slime_hook.py:210-226 | after any chunks, the dispatched lines are the complete lines of the decoded text, and the buffer is what follows its last newline |
| Reassembly.ReassembleInvariant | slime_hook.py:210-226 | the loop invariant: the buffer holds no newline; no dispatched line holds one; the dispatched lines, each followed by a newline, then the buffer, are exactly the decoded chunks |
| Reassembly.ReassembleExtends | slime_hook.py:220-226 | lines are dispatched in stream order and never taken back: more chunks only append lines |
| Reassembly.UndecodableSkipped | slime_hook.py:212-215 | a chunk that fails to decode leaves the buffer, the dispatched lines and the decoded text unchanged |
| Reassembly.FragmentStaysBuffered | slime_hook.py:216-226 | text ending in a fragment with no newline dispatches exactly its lines and keeps the fragment buffered, undispatched |
| Session.DispatchAllAppend | slime_hook.py:220-225 | dispatching two batches of lines has the effects of the first batch, then those of the second |
| Session.DispatchIsolated | slime_hook.py:220-225 | each line's effects, or the two prints of its caught exception, appear between those of the lines before and after it, whatever any of them raised |
| Session.DispatchLines | slime_hook.py:220-225 | the inner loop produces, in order, the effects of every line, with a raising line reported by two prints instead |
| Session.ReadChunk | slime_hook.py:211-226 | one chunk: an undecodable chunk changes nothing; a chunk that leaves no newline only grows the buffer; otherwise the new complete lines are dispatched after the earlier ones and the rest is kept |
| Session.TakeLines | slime_hook.py:218-226 | splitting the buffer dispatches its complete lines and keeps what follows the last newline |
| Session.ReadStream | slime_hook.py:210-226 | the chunk loop's effects are those of dispatching the reassembled lines |
| Session.Run | slime_hook.py:200-230 | the session's trace and outcome are RunSpec's; it never returns normally; a container that is not running raises `ContainerNotRunning` before anything is printed or read |
| Session.RunClosedStream | slime_hook.py:209-230 | a closed stream: the listening print, then the effects of the complete lines of the decoded text, then the stop message, then `ContainerNotRunning` |
| Session.LinePrints | slime_hook.py:221-225 | a line prints only a rule's warning or the report of its caught exception |
| Session.DispatchAllFrom | slime_hook.py:220-225 | every event of the loop comes from one of the lines |
| Session.SessionPrints | slime_hook.py:200-230 | a session prints only the listening line, a rule's warning, or the report of a failed line |
| Supervisor.Notice | slime_hook.py:253-265 | each of the two notices is a non-empty text starting with "D", a letter no session print starts with |
| Supervisor.PolicyFor | slime_hook.py:253-265 | an exception other than the two container failures has no policy: it propagates |
| Supervisor.RetryLater | slime_hook.py:238-247 | re-raises exactly when there is no policy; otherwise it sets the flag, prints the notice exactly when it was not shown yet, then sleeps once for the policy's interval |
| Supervisor.SuperviseCons | slime_hook.py:249-266 | one turn of the loop: a returned session finishes; an unretried failure is fatal; a retried one waits, then the loop goes on with the new flag |
| Supervisor.Turn | slime_hook.py:249-266 | the same turn, relative to the effects printed so far |
| Supervisor.RunWithAutoRetry | slime_hook.py:232-266 | raises the missing-config error with no effects when there is no retry configuration; otherwise its trace and verdict are those of Supervise over the session results, from a clear flag |
| Supervisor.VerdictRetrying | slime_hook.py:249-266 | supervision goes on exactly as long as every session so far was retried |
| Supervisor.VerdictFirstUnretried | slime_hook.py:249-266 | the first unretried session decides the outcome: it finishes when that session returned, and otherwise that session's exception propagates |
| Supervisor.NeverFinishes | slime_hook.py:249-252 | `run` never returns, so the loop never breaks out normally |
| Supervisor.NoticesDiffer | slime_hook.py:257-264 | the two notices are different texts |
| Supervisor.NoticeCountWait | slime_hook.py:243-247 | a retry prints one notice while the flag is clear and none once it is set |
| Supervisor.NoticeAtMostOnce | slime_hook.py:236-247 | with the shared flag, the whole loop prints one notice when the flag starts clear and the first session is retried, and none otherwise, whatever failure kinds follow |
| Supervisor.ResultsAt | slime_hook.py:249-251 | the k-th session result is the session on the k-th attempt |
| Supervisor.SessionsSilent | slime_hook.py:200-230 | no session prints a retry notice |
| Supervisor.FirstNotice | slime_hook.py:244-245 | the notice printed is that of the first failure |
| Supervisor.NoticeOnce | slime_hook.py:236-266 | over a whole supervised run, exactly one notice when the first session is retried and none otherwise, naming the first failure |
| Scenarios.JoinRule | slime_hook.py:102-110 | "<player> has joined." consumed by the join rule sends ":inbox_tray: **<player>** has joined" when enabled, and nothing when disabled |
| Scenarios.JoinOn | slime_hook.py:186-192 | in a registry that starts like the shipped one, a join line whose name starts with neither a digit nor a dot is taken by `player_joined` |
| Scenarios.JoinAnnounced | slime_hook.py:186-192 | "Bob has joined." read from the stream sends exactly ":inbox_tray: **Bob** has joined" |
| Scenarios.ChatRule | slime_hook.py:120-128 | a chat line consumed by the chat rule sends "<**speaker**> text" when enabled |
| Scenarios.ChatOn | slime_hook.py:186-192 | "<Alice> hello" is taken by `chat_message`, the fifth rule, and sends "<**Alice**> hello" when enabled |
| Scenarios.SaveRule | slime_hook.py:129-134 | "Saving world data: 42%" is consumed by `world_save_progress`, which has no callback: at most the warning is printed, under the `world_backup` flag |
| Scenarios.SaveProgressOn | slime_hook.py:186-192 | that line is taken by the sixth rule and sends nothing |
| Scenarios.CarriageReturnStripped | slime_hook.py:187 | a CRLF-terminated join line is stripped to the bare line before matching |
| Scenarios.SpoofIsChat | slime_hook.py:122 | a chat message whose text is a join line is a chat line from its speaker |
| Scenarios.ChatSpoofsJoin | slime_hook.py:102-128 | rule order decides: the join rule comes first and takes such a message, announcing "<speaker> player" as the name of the player who joined |
| Scenarios.NotFoundOnlyExample | slime_hook.py:232-266 | retrying only "not found", every five seconds: three misses and then a stopped container print one notice, sleep three times, then `ContainerNotRunning` propagates |
| Scenarios.SharedFlagExample | slime_hook.py:236-247 | retrying both kinds: after "not found" printed its notice, a later "not running" prints none |
| Scenarios.LineAcrossChunks | slime_hook.py:216-226 | a line cut across two chunks is reassembled into one complete line, and the start of the next line stays pending |
| Scenarios.LineAcrossChunksSession | slime_hook.py:209-230 | in a session, that line is dispatched once, between the listening print and the stop message, and the fragment never is |
| Scenarios.SplitLineSession | slime_hook.py:209-230 | "Bob" then " has joined.\nAl": the session's trace is the listening print, the join line's effects, then the stop message |

## Left out

- Docker I/O is not modelled: the client creation, `containers.get`, the status lookup, `logs(...)` with `datetime.now()`, and the alternate `docker_connection` endpoint (slime_hook.py:194-208). A session's input is an `Attach` value instead.
- The webhook POST (`requests.post`) is not modelled; each send is a `Send` event and always succeeds. An exception raised by a failing POST is not modelled. The webhook URL is not part of `Settings.Config`.
- `time.sleep` has no timing semantics. Its interval is a number carried in the `Sleep` event, and a negative interval, which Python rejects, is not modelled.
- UTF-8 decoding is abstracted: each chunk is decoded text or `None`.
- Regular expressions are written as one matcher per pattern shape; there is no general engine. `\d` matches ASCII digits only, whereas Python's `\d` matches every Unicode decimal digit.
- `Debug(line)` stands for `print(line.encode())`. The `bytes` repr that is printed is not modelled.
- `PrintError` carries the exception as a value. The text Python prints for a `ValueError` or `TypeError` is not modelled.
- Exceptions other than Docker's `NotFound` and `ContainerNotRunning` all become one `Unexpected` failure. They propagate out of the supervisor unchanged, whatever they are.
- `RunWithAutoRetry` runs over a finite sequence of attempts, while the source's `while True` loop can run forever. When the attempts run out while every session was retried, the verdict is `Retrying`.
- The pydantic configuration classes (slime_hook.py:12-42) become plain datatypes. cli.py (argument, file and YAML handling, interrupt handling) and main.py (an earlier prototype that prints the log stream) are not part of this model.
- Scenarios.JoinOn: stated for any registry whose first six rules are the shipped ones (`ShippedPrefix`), rather than for `LineTypes(m)` itself; `Scenarios.LineTypesPrefix` shows the shipped registry is one.
- Scenarios.ChatOn: stated for any registry that starts like the shipped one, as above.
- Scenarios.SaveProgressOn: stated for any registry that starts like the shipped one, as above.
- Scenarios.JoinAnnounced: stated for any registry that starts like the shipped one, as above.
- Scenarios.ChatSpoofsJoin: stated for any registry that starts like the shipped one, as above.
