/** Hand-written matchers for the regular-expression shapes the rule
    registry uses. Each follows Python's `re.match`: anchored at the start
    of the line only, `.` matching anything but a newline, `$` matching at
    the end of the line or just before one final newline, and greedy
    repetition with backtracking. `\d` is taken to be an ASCII digit. */
module Patterns {
  import opened Effects
  import opened Strings

  predicate IsDigit(c: char) { '0' <= c <= '9' }

  /** The character classes `\d` and `[\d\.]`. */
  datatype CharClass = Digit | DigitOrDot

  predicate InClass(cls: CharClass, c: char)
  {
    match cls
    case Digit => IsDigit(c)
    case DigitOrDot => IsDigit(c) || c == '.'
  }

  /** Length of the longest prefix of `s` whose characters are in `cls`. */
  function Span(cls: CharClass, s: string): (n: nat)
    ensures n <= |s|
    ensures forall k :: 0 <= k < n ==> InClass(cls, s[k])
    ensures n < |s| ==> !InClass(cls, s[n])
  {
    if |s| > 0 && InClass(cls, s[0]) then 1 + Span(cls, s[1..]) else 0
  }

  predicate StartsWith(s: string, prefix: string)
  {
    |prefix| <= |s| && s[..|prefix|] == prefix
  }

  /** The shapes of the registry's patterns; the strings are the literal
      text the pattern requires, escapes resolved. */
  datatype Pattern =
    /** `^[\d\.]{7,15}:\d{1,5}` followed by `tail`, which starts with a non-digit */
    | Address(tail: string)
    /** `^(.*)` then `suffix` then `.$` */
    | Trailing(suffix: string)
    /** `^<(.*)> (.*)$` */
    | Chat
    /** `^` `lead` `(\d+)%` */
    | Percent(lead: string)
    /** `^` `lead` */
    | Literal(lead: string)
    /** `^` `lead` `\d+` */
    | Number(lead: string)

  /** Number of capture groups of each shape. */
  function GroupCount(p: Pattern): nat
  {
    match p
    case Address(_) => 0
    case Trailing(_) => 1
    case Chat => 2
    case Percent(_) => 1
    case Literal(_) => 0
    case Number(_) => 0
  }

  /** `re.match(p, line)`: the captured groups, or None when there is no match. */
  function Match(p: Pattern, line: string): (r: Option<seq<string>>)
    ensures r.Some? ==> |r.value| == GroupCount(p)
  {
    match p
    case Address(tail) => MatchAddress(line, tail)
    case Trailing(suffix) => MatchTrailing(line, suffix)
    case Chat => MatchChat(line)
    case Percent(lead) => MatchPercent(line, lead)
    case Literal(lead) => if StartsWith(line, lead) then Some([]) else None
    case Number(lead) =>
      if StartsWith(line, lead) && |line| > |lead| && IsDigit(line[|lead|]) then Some([]) else None
  }

  // ----- ^[\d\.]{7,15}:\d{1,5}<tail> -----

  /** Since `:` is not in `[\d\.]` and `tail` starts with a non-digit, the
      only way the two bounded repetitions can match is by taking maximal
      runs, so no backtracking is needed. */
  function MatchAddress(line: string, tail: string): (r: Option<seq<string>>)
    ensures r.Some? ==> r.value == []
  {
    var k := Span(DigitOrDot, line);
    if 7 <= k <= 15 && k < |line| && line[k] == ':' then
      var rest := line[k + 1..];
      var m := Span(Digit, rest);
      if 1 <= m <= 5 && StartsWith(rest[m..], tail) then Some([]) else None
    else None
  }

  /** The regular expression read directly: `k` address characters, a colon,
      `m` digits, then `tail`. */
  predicate AddressAt(line: string, tail: string, k: int, m: int)
  {
    && 7 <= k <= 15 && 1 <= m <= 5
    && k + 1 + m + |tail| <= |line|
    && (forall i :: 0 <= i < k ==> InClass(DigitOrDot, line[i]))
    && line[k] == ':'
    && (forall i :: k + 1 <= i < k + 1 + m ==> IsDigit(line[i]))
    && line[k + 1 + m..k + 1 + m + |tail|] == tail
  }

  /** A run of class characters at position `from` of `line`. */
  lemma SpanAt(cls: CharClass, line: string, from: nat)
    requires from <= |line|
    ensures forall i :: from <= i < from + Span(cls, line[from..]) ==> InClass(cls, line[i])
  {
    var rest := line[from..];
    forall i | from <= i < from + Span(cls, rest) ensures InClass(cls, line[i]) {
      assert line[i] == rest[i - from];
    }
  }

  /** A prefix of a suffix of `line` is a slice of `line`. */
  lemma StartsWithAt(line: string, from: nat, lead: string)
    requires from <= |line| && StartsWith(line[from..], lead)
    ensures from + |lead| <= |line| && line[from..from + |lead|] == lead
  {
    var got := line[from..from + |lead|];
    forall i | 0 <= i < |lead| ensures got[i] == lead[i] {
      assert got[i] == line[from..][..|lead|][i];
    }
  }

  /** What `MatchAddress` accepts is an address line: the maximal run of
      address characters, the colon, the maximal run of digits, the tail. */
  lemma AddressSound(line: string, tail: string)
    requires MatchAddress(line, tail).Some?
    ensures AddressAt(line, tail, Span(DigitOrDot, line), Span(Digit, line[Span(DigitOrDot, line) + 1..]))
  {
    var k := Span(DigitOrDot, line);
    var m := Span(Digit, line[k + 1..]);
    AddressRuns(line, tail, k, m);
  }

  lemma AddressRuns(line: string, tail: string, k: nat, m: nat)
    requires k == Span(DigitOrDot, line) && 7 <= k <= 15 && k < |line| && line[k] == ':'
    requires m == Span(Digit, line[k + 1..]) && 1 <= m <= 5 && StartsWith(line[k + 1..][m..], tail)
    ensures AddressAt(line, tail, k, m)
  {
    SpanAt(Digit, line, k + 1);
    assert line[k + 1..][m..] == line[k + 1 + m..];
    StartsWithAt(line, k + 1 + m, tail);
  }

  /** Every address line is accepted: no other split of the line into
      address characters, colon and port can work. */
  lemma AddressComplete(line: string, tail: string, k': int, m': int)
    requires tail != [] && !IsDigit(tail[0])
    requires AddressAt(line, tail, k', m')
    ensures MatchAddress(line, tail).Some?
  {
    var k := Span(DigitOrDot, line);
    assert k == k';
    var rest := line[k + 1..];
    var m := Span(Digit, rest);
    assert forall i :: 0 <= i < m' ==> rest[i] == line[k + 1 + i];
    assert m' < |rest| && rest[m'] == tail[0];
    assert m == m';
    var got := rest[m..][..|tail|];
    forall i | 0 <= i < |tail| ensures got[i] == tail[i] {
      assert got[i] == line[k + 1 + m + i];
      assert line[k + 1 + m..k + 1 + m + |tail|][i] == tail[i];
    }
    assert got == tail;
  }

  /** `MatchAddress` accepts exactly the lines the regular expression
      describes. */
  lemma AddressMeaning(line: string, tail: string)
    requires tail != [] && !IsDigit(tail[0])
    ensures MatchAddress(line, tail).Some? <==> exists k, m :: AddressAt(line, tail, k, m)
  {
    if MatchAddress(line, tail).Some? {
      AddressSound(line, tail);
    }
    if exists k, m :: AddressAt(line, tail, k, m) {
      var k, m :| AddressAt(line, tail, k, m);
      AddressComplete(line, tail, k, m);
    }
  }

  // ----- `$`: end of line, or just before one final newline -----

  /** The part of `line` that `.*` and the literals before `$` must cover. */
  function BeforeFinalNewline(line: string): (body: string)
    ensures line == body || line == body + "\n"
  {
    if |line| > 0 && line[|line| - 1] == '\n' then line[..|line| - 1] else line
  }

  // ----- ^(.*)<suffix>.$ -----

  /** The capture is everything before `suffix`: with `$` at the end, the
      lengths fix where `suffix` must sit. */
  function MatchTrailing(line: string, suffix: string): (r: Option<seq<string>>)
    ensures r.Some? ==> |r.value| == 1
  {
    var body := BeforeFinalNewline(line);
    var n := |body| - |suffix| - 1;
    if n >= 0 && body[|body| - 1] != '\n' && body[n..|body| - 1] == suffix && NoNewline(body[..n])
    then Some([body[..n]])
    else None
  }

  /** The text the pattern describes: a player name, the suffix, any one
      character, and possibly one final newline. */
  function TrailingLine(player: string, suffix: string, c: char, eol: bool): string
  {
    player + suffix + [c] + (if eol then "\n" else "")
  }

  /** What `MatchTrailing` captures is followed by the suffix and one
      character that is not a newline, then possibly a final newline. */
  lemma TrailingSound(line: string, suffix: string, player: string)
    requires MatchTrailing(line, suffix) == Some([player])
    ensures NoNewline(player)
    ensures var body := BeforeFinalNewline(line);
      body[|body| - 1] != '\n' && line == TrailingLine(player, suffix, body[|body| - 1], line != body)
  {
    var body := BeforeFinalNewline(line);
    var n := |body| - |suffix| - 1;
    var c := body[|body| - 1];
    assert body == body[..n] + body[n..|body| - 1] + [c];
  }

  /** Every trailing line is matched, capturing its player. */
  lemma TrailingComplete(line: string, suffix: string, player: string, c: char, eol: bool)
    requires NoNewline(suffix) && NoNewline(player) && c != '\n'
    requires line == TrailingLine(player, suffix, c, eol)
    ensures MatchTrailing(line, suffix) == Some([player])
  {
    var body := BeforeFinalNewline(line);
    var b := player + suffix + [c];
    assert line == b + (if eol then "\n" else "");
    assert body == b by {
      if eol { assert line[..|line| - 1] == b; } else { assert line[|line| - 1] == c; }
    }
    var n := |body| - |suffix| - 1;
    assert n == |player|;
    assert body[n..|body| - 1] == suffix;
    assert body[..n] == player;
  }

  /** `MatchTrailing` captures `player` exactly when the line is a
      `TrailingLine` built from it. */
  lemma TrailingMeaning(line: string, suffix: string, player: string)
    requires NoNewline(suffix)
    ensures MatchTrailing(line, suffix) == Some([player]) <==>
      NoNewline(player) && exists c, eol :: c != '\n' && line == TrailingLine(player, suffix, c, eol)
  {
    if MatchTrailing(line, suffix) == Some([player]) {
      TrailingSound(line, suffix, player);
    }
    if NoNewline(player) && exists c, eol :: c != '\n' && line == TrailingLine(player, suffix, c, eol) {
      var c, eol :| c != '\n' && line == TrailingLine(player, suffix, c, eol);
      TrailingComplete(line, suffix, player, c, eol);
    }
  }

  // ----- ^<(.*)> (.*)$ -----

  /** The separator `> ` starts at index `j` of `s`, after the opening `<`. */
  predicate SeparatorAt(s: string, j: int)
  {
    1 <= j && j + 1 < |s| && s[j] == '>' && s[j + 1] == ' '
  }

  /** The last separator starting below `bound`: greedy `(.*)` backtracks
      from the right, so it stops at the last `> ` it can. */
  function LastSeparator(s: string, bound: nat): (r: Option<nat>)
    requires bound <= |s|
    ensures r.Some? ==> r.value < bound && SeparatorAt(s, r.value)
    ensures forall j :: (if r.Some? then r.value < j else 0 <= j) && j < bound ==> !SeparatorAt(s, j)
    decreases bound
  {
    if bound == 0 then None
    else if SeparatorAt(s, bound - 1) then Some(bound - 1)
    else LastSeparator(s, bound - 1)
  }

  function MatchChat(line: string): (r: Option<seq<string>>)
    ensures r.Some? ==> |r.value| == 2
  {
    var body := BeforeFinalNewline(line);
    if |body| > 0 && body[0] == '<' && NoNewline(body) then
      match LastSeparator(body, |body|)
      case Some(j) => Some([body[1..j], body[j + 2..]])
      case None => None
    else None
  }

  /** `> ` occurs nowhere in `s`. */
  predicate NoSeparator(s: string)
  {
    forall j :: 0 <= j < |s| - 1 ==> !(s[j] == '>' && s[j + 1] == ' ')
  }

  /** The text the chat pattern describes. */
  function ChatLine(speaker: string, text: string, eol: bool): string
  {
    "<" + speaker + "> " + text + (if eol then "\n" else "")
  }

  /** What `MatchChat` captures rebuilds the line: neither capture holds a
      newline and the text holds no `> `. */
  lemma ChatSound(line: string, speaker: string, text: string)
    requires MatchChat(line) == Some([speaker, text])
    ensures NoNewline(speaker) && NoNewline(text) && NoSeparator(text)
    ensures line == ChatLine(speaker, text, line != BeforeFinalNewline(line))
  {
    var body := BeforeFinalNewline(line);
    var j := LastSeparator(body, |body|).value;
    assert body == "<" + body[1..j] + "> " + body[j + 2..];
    assert NoNewline(speaker) by {
      forall i | 0 <= i < |speaker| ensures speaker[i] != '\n' { assert speaker[i] == body[i + 1]; }
    }
    assert NoNewline(text) by {
      forall i | 0 <= i < |text| ensures text[i] != '\n' { assert text[i] == body[j + 2 + i]; }
    }
    assert NoSeparator(text) by {
      forall i | 0 <= i < |text| - 1 ensures !(text[i] == '>' && text[i + 1] == ' ') {
        assert !SeparatorAt(body, j + 2 + i);
      }
    }
  }

  /** A chat line is what `BeforeFinalNewline` leaves of it, without its
      final newline. */
  lemma ChatBody(line: string, speaker: string, text: string, eol: bool)
    requires NoNewline(text) && line == ChatLine(speaker, text, eol)
    ensures BeforeFinalNewline(line) == "<" + speaker + "> " + text
  {
    var b := "<" + speaker + "> " + text;
    if eol {
      assert line == b + "\n";
      assert line[..|line| - 1] == b;
    } else {
      assert line == b;
      if |text| > 0 { assert line[|line| - 1] == text[|text| - 1]; }
    }
  }

  /** Every chat line whose text holds no `> ` is split at the separator
      after the speaker. */
  lemma ChatComplete(line: string, speaker: string, text: string, eol: bool)
    requires NoNewline(speaker) && NoNewline(text) && NoSeparator(text)
    requires line == ChatLine(speaker, text, eol)
    ensures MatchChat(line) == Some([speaker, text])
  {
    ChatBody(line, speaker, text, eol);
    var body := "<" + speaker + "> " + text;
    var j := |speaker| + 1;
    assert NoNewline(body) by {
      forall i | 0 <= i < |body| ensures body[i] != '\n' {
        if 1 <= i < j { assert body[i] == speaker[i - 1]; }
        if j + 2 <= i { assert body[i] == text[i - j - 2]; }
      }
    }
    assert SeparatorAt(body, j);
    assert forall i :: j < i < |body| ==> !SeparatorAt(body, i) by {
      forall i | j < i < |body| ensures !SeparatorAt(body, i) {
        if i > j + 1 && i + 1 < |body| {
          assert body[i] == text[i - j - 2] && body[i + 1] == text[i - j - 1];
        }
      }
    }
    assert LastSeparator(body, |body|) == Some(j);
    assert body[1..j] == speaker;
    assert body[j + 2..] == text;
  }

  /** `MatchChat` splits a chat line at its last `> `: it captures
      `speaker` and `text` exactly when the line is the `ChatLine` built
      from them, neither holds a newline, and `text` holds no `> `. */
  lemma ChatMeaning(line: string, speaker: string, text: string)
    ensures MatchChat(line) == Some([speaker, text]) <==>
      && NoNewline(speaker) && NoNewline(text) && NoSeparator(text)
      && (line == ChatLine(speaker, text, false) || line == ChatLine(speaker, text, true))
  {
    if MatchChat(line) == Some([speaker, text]) {
      ChatSound(line, speaker, text);
    }
    if && NoNewline(speaker) && NoNewline(text) && NoSeparator(text)
       && (line == ChatLine(speaker, text, false) || line == ChatLine(speaker, text, true))
    {
      ChatComplete(line, speaker, text, line == ChatLine(speaker, text, true));
    }
  }

  // ----- ^<lead>(\d+)% -----

  /** `\d+` is greedy and `%` is not a digit, so the capture is the maximal
      run of digits after `lead`. */
  function MatchPercent(line: string, lead: string): (r: Option<seq<string>>)
    ensures r.Some? ==> |r.value| == 1
  {
    if StartsWith(line, lead) then
      var rest := line[|lead|..];
      var n := Span(Digit, rest);
      if 1 <= n < |rest| && rest[n] == '%' then Some([rest[..n]]) else None
    else None
  }

  predicate AllDigits(s: string)
  {
    forall i :: 0 <= i < |s| ==> IsDigit(s[i])
  }

  /** `MatchPercent` captures `digits` exactly when the line starts with
      `lead`, then those digits (at least one), then `%`. */
  lemma PercentMeaning(line: string, lead: string, digits: string)
    ensures MatchPercent(line, lead) == Some([digits]) <==>
      digits != [] && AllDigits(digits) && StartsWith(line, lead + digits + "%")
  {
    var p := lead + digits + "%";
    if MatchPercent(line, lead) == Some([digits]) {
      var rest := line[|lead|..];
      assert line[..|p|] == lead + rest[..|digits|] + [rest[|digits|]];
    }
    if digits != [] && AllDigits(digits) && StartsWith(line, p) {
      assert StartsWith(line, lead) by { assert line[..|lead|] == p[..|lead|]; }
      var rest := line[|lead|..];
      assert forall i :: 0 <= i <= |digits| ==> rest[i] == p[|lead| + i];
      var n := Span(Digit, rest);
      assert rest[|digits|] == '%';
      assert n == |digits|;
      assert rest[..n] == digits;
    }
  }
}
