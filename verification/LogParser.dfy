/**
 ParseLine of pkg/logparser/logparser.go. Its two fixed patterns are written out as matchers:
   \[(\d{2}:\d{2}:\d{2}(\.\d+)?)\]                              the timestamp
   \]\s*(INFO|WARN|WARNING|ERROR|DEBUG|FATAL|TRACE)\s*:         the level
 An unanchored search takes the leftmost match, and among alternatives the first that leads to a match.
 */
module LogParser {
  import opened Common
  import opened Text

  datatype LogEntry = LogEntry(timestamp: string, level: string, message: string, raw: string)

  /** The entry is returned together with the error. */
  datatype Parsed = Valid(entry: LogEntry) | InvalidFormat(entry: LogEntry)

  const LEVELS: seq<string> := ["INFO", "WARN", "WARNING", "ERROR", "DEBUG", "FATAL", "TRACE"]

  predicate IsDigit(c: char) { '0' <= c <= '9' }

  predicate AllDigits(s: string) { forall i :: 0 <= i < |s| ==> IsDigit(s[i]) }

  /** What the group of the timestamp pattern stands for: two digits thrice, and perhaps a point and digits. */
  predicate IsTimestamp(ts: string) {
    && (|ts| == 8 || |ts| >= 10)
    && forall i :: 0 <= i < |ts| ==>
         if i == 2 || i == 5 then ts[i] == ':' else if i == 8 then ts[i] == '.' else '0' <= ts[i] <= '9'
  }

  /** The same in the terms of the matcher. */
  lemma TimestampParts(ts: string)
    ensures IsTimestamp(ts) <==>
              |ts| >= 8 && IsClock(ts) && (|ts| == 8 || (|ts| >= 10 && ts[8] == '.' && AllDigits(ts[9..])))
  {
    if |ts| >= 10 {
      assert forall i :: 9 <= i < |ts| ==> ts[9..][i - 9] == ts[i];
    }
  }

  /** HH:MM:SS at the front of s, as far as the pattern looks: any digits. */
  predicate IsClock(s: string)
    requires |s| >= 8
  {
    && IsDigit(s[0]) && IsDigit(s[1]) && s[2] == ':'
    && IsDigit(s[3]) && IsDigit(s[4]) && s[5] == ':'
    && IsDigit(s[6]) && IsDigit(s[7])
  }

  function DigitRun(s: string): (n: nat)
    ensures n <= |s| && AllDigits(s[..n]) && (n < |s| ==> !IsDigit(s[n]))
  {
    if s != "" && IsDigit(s[0]) then
      var n := DigitRun(s[1..]);
      assert s[..n + 1] == [s[0]] + s[1..][..n];
      n + 1
    else 0
  }

  /** The length of the group if the timestamp pattern matches at the front of s. */
  function MatchTime(s: string): Option<nat> {
    if |s| < 10 || s[0] != '[' || !IsClock(s[1..]) then None
    else if s[9] == ']' then Some(8)
    else if s[9] == '.' then
      var n := DigitRun(s[10..]);
      if n > 0 && 10 + n < |s| && s[10 + n] == ']' then Some(9 + n) else None
    else None
  }

  function FindTime(line: string): Option<string> {
    match MatchTime(line)
    case Some(n) => if 1 + n <= |line| then Some(line[1..1 + n]) else None
    case None => if line == "" then None else FindTime(line[1..])
  }

  /** \s of the pattern language. */
  predicate IsPatternSpace(c: char) { c == '\t' || c == '\n' || c == '\U{000C}' || c == '\r' || c == ' ' }

  predicate BeforeColon(s: string) {
    s != "" && (s[0] == ':' || (IsPatternSpace(s[0]) && BeforeColon(s[1..])))
  }

  /** The first alternative that stands at the front of s with a colon behind it. */
  function TokenAt(s: string, levels: seq<string>): Option<string> {
    if levels == [] then None
    else if levels[0] <= s && BeforeColon(s[|levels[0]|..]) then Some(levels[0])
    else TokenAt(s, levels[1..])
  }

  function MatchLevel(s: string): Option<string> {
    if s == "" || s[0] != ']' then None else TokenAt(TrimLeft(s[1..], IsPatternSpace), LEVELS)
  }

  function FindLevel(line: string): Option<string> {
    match MatchLevel(line)
    case Some(l) => Some(l)
    case None => if line == "" then None else FindLevel(line[1..])
  }

  function Normalised(level: string): string { if level == "WARNING" then "WARN" else level }

  function MessageOf(line: string): string {
    match SplitTwo(line, ": ").1
    case Some(m) => m
    case None => line
  }

  function ParseLine(line: string): Parsed {
    var time := FindTime(line);
    var level := match FindLevel(line) { case Some(l) => Normalised(l) case None => "INFO" };
    var entry := LogEntry(if time.Some? then time.value else "", level, MessageOf(line), line);
    if entry.timestamp == "" then InvalidFormat(entry) else Valid(entry)
  }

  // ---------------------------------------------------------------- what the search finds

  /** The bracketed timestamp ts stands at position i of the line. */
  predicate TimeAt(line: string, i: nat, ts: string) {
    IsTimestamp(ts) && i <= |line| && "[" + ts + "]" <= line[i..]
  }

  lemma {:induction false} DigitRunExact(d: string, rest: string)
    requires AllDigits(d) && (rest != "" ==> !IsDigit(rest[0]))
    ensures DigitRun(d + rest) == |d|
  {
    if d == "" {
      assert d + rest == rest;
    } else {
      assert forall i :: 0 <= i < |d[1..]| ==> d[1..][i] == d[i + 1];
      assert (d + rest)[1..] == d[1..] + rest;
      DigitRunExact(d[1..], rest);
    }
  }

  /** The bracketed ts stands at the front of s, character by character. */
  predicate Bracketed(s: string, ts: string) {
    |s| >= |ts| + 2 && s[0] == '[' && s[1..|ts| + 1] == ts && s[|ts| + 1] == ']'
  }

  lemma BracketedIsPrefix(s: string, ts: string)
    ensures Bracketed(s, ts) <==> "[" + ts + "]" <= s
  {
    var w := "[" + ts + "]";
    assert w[0] == '[' && w[1..|ts| + 1] == ts && w[|ts| + 1] == ']';
    if Bracketed(s, ts) {
      assert s[..|ts| + 2] == w;
    }
    if w <= s {
      assert forall k :: 0 <= k < |w| ==> s[k] == w[k];
      assert s[1..|ts| + 1] == w[1..|ts| + 1];
    }
  }

  lemma SameClock(s: string, ts: string)
    requires |s| >= 8 && |ts| >= 8 && forall k :: 0 <= k < 8 ==> s[k] == ts[k]
    ensures IsClock(s) <==> IsClock(ts)
  {
  }

  /** The digits of a fraction end at the bracket. */
  lemma FractionRun(s: string, ts: string)
    requires Bracketed(s, ts) && |ts| >= 10 && AllDigits(ts[9..])
    ensures DigitRun(s[10..]) == |ts| - 9
  {
    assert s[10..] == ts[9..] + s[|ts| + 1..];
    DigitRunExact(ts[9..], s[|ts| + 1..]);
  }

  /** A bracketed timestamp is matched ... */
  lemma TimeIsMatched(s: string, ts: string)
    requires Bracketed(s, ts) && IsTimestamp(ts)
    ensures MatchTime(s) == Some(|ts|)
  {
    TimestampParts(ts);
    assert forall k :: 0 <= k < |ts| ==> s[k + 1] == ts[k];
    SameClock(s[1..], ts);
    if |ts| > 8 {
      assert s[9] == '.';
      FractionRun(s, ts);
    }
  }

  /** ... and nothing else is. */
  lemma MatchIsTime(s: string)
    requires MatchTime(s).Some?
    ensures MatchTime(s).value < |s| && IsTimestamp(s[1..MatchTime(s).value + 1])
    ensures Bracketed(s, s[1..MatchTime(s).value + 1])
  {
    var ts := s[1..MatchTime(s).value + 1];
    TimestampParts(ts);
    SameClock(s[1..], ts);
    if |ts| > 8 {
      assert ts[8] == s[9];
      assert ts[9..] == s[10..][..|ts| - 9];
    }
  }

  /** The bracketed timestamp ts stands at i and none stands further left. */
  ghost predicate LeftmostTime(line: string, i: nat, ts: string) {
    TimeAt(line, i, ts) && forall j: nat, other :: j < i ==> !TimeAt(line, j, other)
  }

  ghost predicate NoTime(line: string) { forall i: nat, ts :: !TimeAt(line, i, ts) }

  lemma TimeAtShifts(line: string, i: nat, ts: string)
    requires line != ""
    ensures TimeAt(line, i + 1, ts) <==> TimeAt(line[1..], i, ts)
  {
  }

  /** A line that does not begin with a timestamp has those of its tail. */
  lemma TimesOfTail(line: string)
    requires line != "" && forall ts :: !TimeAt(line, 0, ts)
    ensures NoTime(line[1..]) ==> NoTime(line)
    ensures forall i: nat, ts :: LeftmostTime(line[1..], i, ts) ==> LeftmostTime(line, i + 1, ts)
  {
    forall i: nat, ts
      ensures TimeAt(line, i, ts) ==> i > 0 && TimeAt(line[1..], i - 1, ts)
    {
      if i > 0 {
        TimeAtShifts(line, i - 1, ts);
      }
    }
    forall i: nat, ts | LeftmostTime(line[1..], i, ts)
      ensures LeftmostTime(line, i + 1, ts)
    {
      TimeAtShifts(line, i, ts);
    }
  }

  lemma MatchAtFront(line: string, ts: string)
    ensures TimeAt(line, 0, ts) <==> Bracketed(line, ts) && IsTimestamp(ts)
  {
    assert line[0..] == line;
    BracketedIsPrefix(line, ts);
  }

  lemma MatchIsLeftmost(line: string)
    requires MatchTime(line).Some?
    ensures FindTime(line).Some? && LeftmostTime(line, 0, FindTime(line).value)
  {
    MatchIsTime(line);
    MatchAtFront(line, FindTime(line).value);
  }

  lemma NoMatchNoTime(line: string)
    requires MatchTime(line).None?
    ensures forall ts :: !TimeAt(line, 0, ts)
  {
    forall ts
      ensures !TimeAt(line, 0, ts)
    {
      MatchAtFront(line, ts);
      if Bracketed(line, ts) && IsTimestamp(ts) {
        TimeIsMatched(line, ts);
      }
    }
  }

  /** The search returns the leftmost bracketed timestamp of the line, and fails only if there is none. */
  lemma {:induction false} FindTimeExact(line: string)
    ensures FindTime(line).None? ==> NoTime(line)
    ensures FindTime(line).Some? ==> exists i: nat :: LeftmostTime(line, i, FindTime(line).value)
    decreases |line|
  {
    if MatchTime(line).Some? {
      MatchIsLeftmost(line);
    } else {
      NoMatchNoTime(line);
      if line != "" {
        FindTimeExact(line[1..]);
        TimesOfTail(line);
        if FindTime(line).Some? {
          var i: nat :| LeftmostTime(line[1..], i, FindTime(line).value);
          assert LeftmostTime(line, i + 1, FindTime(line).value);
        }
      }
    }
  }

  /** A line is rejected exactly when no bracketed timestamp occurs anywhere in it. */
  lemma RejectedExactly(line: string)
    ensures ParseLine(line).InvalidFormat? <==> NoTime(line)
    ensures ParseLine(line).Valid? ==> exists i: nat :: LeftmostTime(line, i, ParseLine(line).entry.timestamp)
  {
    FindTimeExact(line);
  }

  // ---------------------------------------------------------------- parsing undoes printing

  /** A log line with white space a before and b after the level; the printer uses " " and "". */
  function Line(ts: string, a: string, level: string, b: string, msg: string): string {
    "[" + ts + "]" + a + level + b + ": " + msg
  }

  /** The printed form of tests/simulation/virtual_serial.go. */
  function Print(ts: string, level: string, msg: string): string {
    "[" + ts + "] " + level + ": " + msg
  }

  /** White space as the pattern language has it: tab, newline, form feed, carriage return and space. */
  predicate Blank(s: string) {
    forall i :: 0 <= i < |s| ==> s[i] as int == 9 || s[i] as int == 10 || s[i] as int == 12 || s[i] as int == 13
                                 || s[i] as int == 32
  }

  /** The seven level tokens. */
  predicate IsLevel(l: string) {
    l == "INFO" || l == "WARN" || l == "WARNING" || l == "ERROR" || l == "DEBUG" || l == "FATAL" || l == "TRACE"
  }

  lemma LevelsExactly(l: string)
    ensures l in LEVELS <==> IsLevel(l)
  {
    if IsLevel(l) {
      assert LEVELS[0] == "INFO" && LEVELS[1] == "WARN" && LEVELS[2] == "WARNING" && LEVELS[3] == "ERROR";
      assert LEVELS[4] == "DEBUG" && LEVELS[5] == "FATAL" && LEVELS[6] == "TRACE";
    }
  }

  lemma PrintIsLine(ts: string, level: string, msg: string)
    ensures Print(ts, level, msg) == Line(ts, " ", level, "", msg)
  {
  }

  lemma LineTime(ts: string, a: string, level: string, b: string, msg: string)
    requires IsTimestamp(ts)
    ensures FindTime(Line(ts, a, level, b, msg)) == Some(ts)
  {
    var line := Line(ts, a, level, b, msg);
    assert line == "[" + ts + "]" + (a + level + b + ": " + msg);
    BracketedIsPrefix(line, ts);
    TimeIsMatched(line, ts);
  }

  lemma {:induction false} FindLevelSkips(before: string, s: string)
    requires ']' !in before
    ensures FindLevel(before + s) == FindLevel(s)
    decreases |before|
  {
    if before == "" {
      assert before + s == s;
    } else {
      assert before[0] in before;
      assert (before + s)[1..] == before[1..] + s;
      FindLevelSkips(before[1..], s);
    }
  }

  lemma OtherToken(s: string, levels: seq<string>)
    requires levels != [] && levels[0] != "" && s != "" && s[0] != levels[0][0]
    ensures TokenAt(s, levels) == TokenAt(s, levels[1..])
  {
  }

  lemma {:induction false} BlankBeforeColon(b: string, rest: string)
    requires Blank(b)
    ensures BeforeColon(b + ":" + rest)
  {
    if b == "" {
      assert (b + ":" + rest)[0] == ':';
    } else {
      assert (b + ":" + rest)[1..] == b[1..] + ":" + rest;
      BlankBeforeColon(b[1..], rest);
    }
  }

  lemma TokenHere(s: string, levels: seq<string>)
    requires levels != [] && levels[0] <= s && BeforeColon(s[|levels[0]|..])
    ensures TokenAt(s, levels) == Some(levels[0])
  {
  }

  /** WARN is tried before WARNING, but only a colon (or space) may follow it. */
  lemma WarnTokens(level: string, t: string)
    requires (level == "WARN" || level == "WARNING") && BeforeColon(t)
    ensures TokenAt(level + t, LEVELS[1..]) == Some(level)
  {
  }

  /** The other levels differ in their first letters. */
  lemma {:induction false} DistinctTokens(i: nat, k: nat, t: string)
    requires k <= i < |LEVELS| && i != 1 && i != 2 && BeforeColon(t)
    ensures TokenAt(LEVELS[i] + t, LEVELS[k..]) == Some(LEVELS[i])
    decreases i - k
  {
    var s := LEVELS[i] + t;
    if k == i {
      assert s[|LEVELS[i]|..] == t;
      TokenHere(s, LEVELS[k..]);
    } else {
      assert s[0] == LEVELS[i][0];
      assert LEVELS[k][0] != LEVELS[i][0];
      OtherToken(s, LEVELS[k..]);
      assert LEVELS[k..][1..] == LEVELS[k + 1..];
      DistinctTokens(i, k + 1, t);
    }
  }

  lemma TokenFound(level: string, t: string)
    requires level in LEVELS && BeforeColon(t)
    ensures TokenAt(level + t, LEVELS) == Some(level)
  {
    var i :| 0 <= i < |LEVELS| && LEVELS[i] == level;
    assert LEVELS[0..] == LEVELS;
    if i == 1 || i == 2 {
      WarnTokens(level, t);
      assert (level + t)[0] == 'W';
      OtherToken(level + t, LEVELS);
    } else {
      DistinctTokens(i, 0, t);
    }
  }

  lemma TokenStands(level: string, b: string, rest: string)
    requires level in LEVELS && Blank(b)
    ensures TokenAt(level + (b + ":" + rest), LEVELS) == Some(level)
    ensures !IsPatternSpace(level[0])
  {
    BlankBeforeColon(b, rest);
    TokenFound(level, b + ":" + rest);
  }

  lemma LevelAfterBracket(a: string, level: string, b: string, rest: string)
    requires level in LEVELS && Blank(a) && Blank(b)
    ensures MatchLevel("]" + (a + (level + (b + ":" + rest)))) == Some(level)
    ensures FindLevel("]" + (a + (level + (b + ":" + rest)))) == Some(level)
  {
    var tail := level + (b + ":" + rest);
    TokenStands(level, b, rest);
    assert tail[0] == level[0];
    TrimLeftAll(a, tail, IsPatternSpace);
    assert ("]" + (a + tail))[1..] == a + tail;
  }

  lemma LineLevel(ts: string, a: string, level: string, b: string, msg: string)
    requires ']' !in ts && level in LEVELS && Blank(a) && Blank(b)
    ensures FindLevel(Line(ts, a, level, b, msg)) == Some(level)
  {
    var s := "]" + (a + (level + (b + ":" + (" " + msg))));
    assert Line(ts, a, level, b, msg) == ("[" + ts) + s;
    FindLevelSkips("[" + ts, s);
    LevelAfterBracket(a, level, b, " " + msg);
  }

  lemma TimestampHasNoBracket(ts: string)
    requires IsTimestamp(ts)
    ensures ']' !in ts && ' ' !in ts
  {
  }

  lemma LevelIsPlain(level: string)
    requires level in LEVELS
    ensures level != "" && ':' !in level && ' ' !in level && ']' !in level
  {
  }

  /** A head in which every colon is followed by something other than a space. */
  lemma FirstSeparator(head: string, msg: string)
    requires forall i :: 0 <= i < |head| && head[i] == ':' ==> i + 1 < |head| && head[i + 1] != ' '
    ensures Find(head + ": " + msg, ": ") == Some(|head|)
    ensures MessageOf(head + ": " + msg) == msg
  {
    var line := head + ": " + msg;
    assert line[|head|..] == ": " + msg;
    forall i | 0 <= i < |head|
      ensures !(": " <= line[i..])
    {
      assert line[i..][0] == head[i];
      assert head[i] == ':' ==> line[i..][1] == head[i + 1];
    }
    FindLeftmost(line, ": ", |head|);
    assert line[|head| + 2..] == msg;
  }

  lemma HeadSeparates(ts: string, front: string, msg: string)
    requires ' ' !in ts && ':' !in front
    ensures MessageOf("[" + ts + "]" + front + ": " + msg) == msg
  {
    var head := "[" + ts + "]" + front;
    assert forall i :: |ts| + 2 <= i < |head| ==> head[i] == front[i - |ts| - 2];
    forall i | 0 <= i < |head| && head[i] == ':'
      ensures i + 1 < |head| && head[i + 1] != ' '
    {
      assert head[i + 1] == if i < |ts| then ts[i] else ']';
    }
    FirstSeparator(head, msg);
  }

  lemma LineMessage(ts: string, a: string, level: string, b: string, msg: string)
    requires ' ' !in ts && ':' !in level && Blank(a) && Blank(b)
    ensures MessageOf(Line(ts, a, level, b, msg)) == msg
  {
    var front := a + level + b;
    assert ':' !in front by {
      assert ':' !in a && ':' !in b;
    }
    HeadSeparates(ts, front, msg);
    assert "[" + ts + "]" + front + ": " + msg == Line(ts, a, level, b, msg);
  }

  /**
   Parsing undoes printing: for every timestamp HH:MM:SS with an optional fraction, every level token with
   any white space around it and every message, whatever brackets or colons it contains.
   */
  lemma ParseUndoesLine(ts: string, a: string, level: string, b: string, msg: string)
    requires IsTimestamp(ts) && IsLevel(level) && Blank(a) && Blank(b)
    ensures ParseLine(Line(ts, a, level, b, msg))
         == Valid(LogEntry(ts, if level == "WARNING" then "WARN" else level, msg, Line(ts, a, level, b, msg)))
  {
    TimestampHasNoBracket(ts);
    LevelsExactly(level);
    LevelIsPlain(level);
    LineTime(ts, a, level, b, msg);
    LineLevel(ts, a, level, b, msg);
    LineMessage(ts, a, level, b, msg);
  }

  lemma ParseUndoesPrint(ts: string, level: string, msg: string)
    requires IsTimestamp(ts) && IsLevel(level)
    ensures ParseLine(Print(ts, level, msg))
         == Valid(LogEntry(ts, if level == "WARNING" then "WARN" else level, msg, Print(ts, level, msg)))
  {
    PrintIsLine(ts, level, msg);
    ParseUndoesLine(ts, " ", level, "", msg);
  }

  // ---------------------------------------------------------------- every line, whatever its shape

  /** A bracket at position i is followed by the level l and a colon, with any white space around l. */
  ghost predicate LevelAt(line: string, i: nat, l: string) {
    i <= |line| && LevelHere(line[i..], l)
  }

  ghost predicate LevelHere(s: string, l: string) {
    IsLevel(l) && exists a, b, rest :: Blank(a) && Blank(b) && s == Around(a, l, b, rest)
  }

  function Around(a: string, l: string, b: string, rest: string): string { "]" + (a + (l + (b + ":" + rest))) }

  lemma {:induction false} TokenIsLevel(s: string, levels: seq<string>)
    requires TokenAt(s, levels).Some?
    ensures var l := TokenAt(s, levels).value; l in levels && l <= s && BeforeColon(s[|l|..])
  {
    if !(levels[0] <= s && BeforeColon(s[|levels[0]|..])) {
      TokenIsLevel(s, levels[1..]);
    }
  }

  lemma {:induction false} ColonBehind(s: string) returns (b: string, rest: string)
    requires BeforeColon(s)
    ensures Blank(b) && s == b + ":" + rest
  {
    if s[0] == ':' {
      b, rest := "", s[1..];
    } else {
      b, rest := ColonBehind(s[1..]);
      assert s == [s[0]] + s[1..];
      b := [s[0]] + b;
    }
  }

  lemma {:induction false} BlanksInFront(s: string) returns (a: string)
    ensures Blank(a) && s == a + TrimLeft(s, IsPatternSpace)
  {
    if s != "" && IsPatternSpace(s[0]) {
      a := BlanksInFront(s[1..]);
      assert s == [s[0]] + s[1..];
      a := [s[0]] + a;
    } else {
      a := "";
    }
  }

  lemma LevelIsMatched(s: string, l: string)
    requires LevelHere(s, l)
    ensures MatchLevel(s) == Some(l)
  {
    var a, b, rest :| Blank(a) && Blank(b) && s == Around(a, l, b, rest);
    LevelsExactly(l);
    LevelAfterBracket(a, l, b, rest);
  }

  lemma MatchIsLevel(s: string, l: string)
    requires MatchLevel(s) == Some(l)
    ensures LevelHere(s, l)
  {
    var a := BlanksInFront(s[1..]);
    var tail := TrimLeft(s[1..], IsPatternSpace);
    TokenIsLevel(tail, LEVELS);
    LevelsExactly(l);
    var b, rest := ColonBehind(tail[|l|..]);
    Assembled(s, a, tail, l, b + ":" + rest);
    assert s == Around(a, l, b, rest);
  }

  lemma Assembled(s: string, a: string, tail: string, l: string, behind: string)
    requires s != "" && s[0] == ']' && s[1..] == a + tail && l <= tail && tail[|l|..] == behind
    ensures s == "]" + (a + (l + behind))
  {
    assert tail == l + behind;
    assert s == "]" + s[1..];
  }

  /** The matcher recognises exactly the levels behind a bracket. */
  lemma MatchLevelExact(s: string, l: string)
    ensures MatchLevel(s) == Some(l) <==> LevelHere(s, l)
  {
    if LevelHere(s, l) {
      LevelIsMatched(s, l);
    }
    if MatchLevel(s) == Some(l) {
      MatchIsLevel(s, l);
    }
  }

  /** Level l stands at i and none stands further left. */
  ghost predicate LeftmostLevel(line: string, i: nat, l: string) {
    LevelAt(line, i, l) && forall j: nat, other :: j < i ==> !LevelAt(line, j, other)
  }

  ghost predicate NoLevel(line: string) { forall i: nat, l :: !LevelAt(line, i, l) }

  lemma LevelAtShifts(line: string, i: nat, l: string)
    requires line != ""
    ensures LevelAt(line, i + 1, l) <==> LevelAt(line[1..], i, l)
  {
    if i + 1 <= |line| {
      assert line[i + 1..] == line[1..][i..];
    }
  }

  lemma LevelsOfTail(line: string)
    requires line != "" && forall l :: !LevelAt(line, 0, l)
    ensures NoLevel(line[1..]) ==> NoLevel(line)
    ensures forall i: nat, l :: LeftmostLevel(line[1..], i, l) ==> LeftmostLevel(line, i + 1, l)
  {
    forall i: nat, l
      ensures LevelAt(line, i, l) ==> i > 0 && LevelAt(line[1..], i - 1, l)
    {
      if i > 0 {
        LevelAtShifts(line, i - 1, l);
      }
    }
    forall i: nat, l | LeftmostLevel(line[1..], i, l)
      ensures LeftmostLevel(line, i + 1, l)
    {
      LevelAtShifts(line, i, l);
    }
  }

  lemma LevelAtFront(line: string)
    ensures forall l :: LevelAt(line, 0, l) <==> MatchLevel(line) == Some(l)
  {
    assert line[0..] == line;
    forall l
      ensures LevelAt(line, 0, l) <==> MatchLevel(line) == Some(l)
    {
      MatchLevelExact(line, l);
    }
  }

  lemma {:induction false} FindLevelExact(line: string)
    ensures FindLevel(line).None? ==> NoLevel(line)
    ensures FindLevel(line).Some? ==> exists i: nat :: LeftmostLevel(line, i, FindLevel(line).value)
    decreases |line|
  {
    LevelAtFront(line);
    if MatchLevel(line).Some? {
      assert LeftmostLevel(line, 0, FindLevel(line).value);
    } else if line == "" {
      assert forall i: nat, l :: LevelAt(line, i, l) ==> i == 0;
    } else {
      FindLevelExact(line[1..]);
      LevelsOfTail(line);
      if FindLevel(line).Some? {
        var i: nat :| LeftmostLevel(line[1..], i, FindLevel(line).value);
        assert LeftmostLevel(line, i + 1, FindLevel(line).value);
      }
    }
  }

  /** A colon and a space at position i. */
  predicate SeparatorAt(line: string, i: nat) { i + 1 < |line| && line[i] == ':' && line[i + 1] == ' ' }

  /** The message is what stands behind the first colon and space, or the whole line if there is none. */
  lemma MessageExactly(line: string, i: nat)
    ensures SeparatorAt(line, i) && (forall j: nat :: j < i ==> !SeparatorAt(line, j)) ==>
              MessageOf(line) == line[i + 2..]
    ensures (forall j: nat :: !SeparatorAt(line, j)) ==> MessageOf(line) == line
  {
    forall j: nat | j <= |line|
      ensures ": " <= line[j..] <==> SeparatorAt(line, j)
    {
      if SeparatorAt(line, j) {
        assert line[j..][..2] == ": ";
      }
      if ": " <= line[j..] {
        assert line[j..][0] == ':' && line[j..][1] == ' ';
      }
    }
    if SeparatorAt(line, i) && forall j: nat :: j < i ==> !SeparatorAt(line, j) {
      FindLeftmost(line, ": ", i);
    }
  }

  /**
   For every line: the level is the leftmost one that stands between a bracket and a colon, WARNING becoming
   WARN, and INFO if there is none; the raw line is kept.
   */
  lemma LevelExactly(line: string)
    ensures ParseLine(line).entry.raw == line
    ensures NoLevel(line) ==> ParseLine(line).entry.level == "INFO"
    ensures !NoLevel(line) ==>
              exists i: nat, l :: LeftmostLevel(line, i, l)
                                  && ParseLine(line).entry.level == if l == "WARNING" then "WARN" else l
  {
    FindLevelExact(line);
    if FindLevel(line).Some? {
      var i: nat :| LeftmostLevel(line, i, FindLevel(line).value);
    }
  }
}
