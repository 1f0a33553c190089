/** The log command of internal/cli/cli.go: filtering, both output formats, and the field extractors. */
module Cli {
  import opened Common
  import opened Text
  import Lines
  import LogParser

  /** The JSON document is left as the list of the entries that are marshalled into it. */
  datatype Output = Plain(text: string) | Json(entries: seq<Entry>)

  datatype Entry = Entry(timestamp: string, level: string, message: string, raw: string)

  datatype Options = Options(filter: string, format: string)

  // ---------------------------------------------------------------- extractors

  predicate IsBlankChar(c: char) { c == ' ' }

  function ExtractTimestamp(line: string): string {
    if "[" <= line then
      match Find(line, "]")
      case Some(end) => if 0 < end then Trim(line[1..end], IsBlankChar) else ""
      case None => ""
    else ""
  }

  function ExtractLevel(line: string): string {
    match SplitTwo(line, "]").1
    case Some(rest) =>
      var levelPart := TrimSpace(rest);
      if Contains(levelPart, ":") then TrimSpace(SplitTwo(levelPart, ":").0) else "INFO"
    case None => "INFO"
  }

  function ExtractMessage(line: string): string {
    match SplitTwo(line, ": ").1
    case Some(m) => m
    case None => line
  }

  function EntryOf(line: string): Entry {
    Entry(ExtractTimestamp(line), ExtractLevel(line), ExtractMessage(line), line)
  }

  // ---------------------------------------------------------------- the command

  /**
   The option loop from position i. After a filter the value is looked at once more, so that a filter
   value equal to "--format" is itself taken for a flag.
   */
  function ScanOptions(args: seq<string>, i: nat, o: Options): Options
    decreases |args| - i
  {
    if i >= |args| then o
    else
      var (j, p) := if args[i] == "--filter" && i + 1 < |args| then (i + 1, o.(filter := args[i + 1])) else (i, o);
      if args[j] == "--format" && j + 1 < |args| then ScanOptions(args, j + 2, p.(format := args[j + 1]))
      else ScanOptions(args, j + 1, p)
  }

  function OptionsOf(args: seq<string>): Options { ScanOptions(args, 0, Options("", "text")) }

  /** The documented reading: a flag takes the argument behind it, which is then done with. */
  function Documented(args: seq<string>, i: nat, o: Options): Options
    decreases |args| - i
  {
    if i >= |args| then o
    else if args[i] == "--filter" && i + 1 < |args| then Documented(args, i + 2, o.(filter := args[i + 1]))
    else if args[i] == "--format" && i + 1 < |args| then Documented(args, i + 2, o.(format := args[i + 1]))
    else Documented(args, i + 1, o)
  }

  /** A filter at position i has the value "--format", and there is an argument behind that. */
  predicate FlagAsFilter(args: seq<string>, i: nat) {
    i + 2 < |args| && args[i] == "--filter" && args[i + 1] == "--format"
  }

  /** The documented reading never takes such a position for a flag. */
  predicate Unambiguous(args: seq<string>, i: nat)
    decreases |args| - i
  {
    i < |args| ==> !FlagAsFilter(args, i) && Unambiguous(args, if TakesValue(args, i) then i + 2 else i + 1)
  }

  /** A flag with an argument behind it. */
  predicate TakesValue(args: seq<string>, i: nat) {
    i + 1 < |args| && (args[i] == "--filter" || args[i] == "--format")
  }

  /** The positions that the documented reading takes for flags. */
  function DocumentedFlags(args: seq<string>, i: nat): seq<nat>
    decreases |args| - i
  {
    if i >= |args| then []
    else if TakesValue(args, i) then [i] + DocumentedFlags(args, i + 2)
    else DocumentedFlags(args, i + 1)
  }

  /** Those that the code takes for flags. */
  function ScannedFlags(args: seq<string>, i: nat): seq<nat>
    decreases |args| - i
  {
    if i >= |args| then []
    else if FlagAsFilter(args, i) then [i, i + 1] + ScannedFlags(args, i + 3)
    else if TakesValue(args, i) then [i] + ScannedFlags(args, i + 2)
    else ScannedFlags(args, i + 1)
  }

  lemma {:induction false} DocumentedFlagsFrom(args: seq<string>, i: nat)
    ensures forall k :: k in DocumentedFlags(args, i) ==> k >= i
    decreases |args| - i
  {
    if i < |args| {
      DocumentedFlagsFrom(args, if TakesValue(args, i) then i + 2 else i + 1);
    }
  }

  lemma {:induction false} FlagsAgreeExactly(args: seq<string>, i: nat)
    ensures ScannedFlags(args, i) == DocumentedFlags(args, i) <==> Unambiguous(args, i)
    decreases |args| - i
  {
    if i < |args| {
      if FlagAsFilter(args, i) {
        DocumentedFlagsFrom(args, i + 2);
        assert i + 1 !in DocumentedFlags(args, i);
        assert ScannedFlags(args, i)[1] == i + 1;
      } else if TakesValue(args, i) {
        FlagsAgreeExactly(args, i + 2);
        SameTail(i, ScannedFlags(args, i + 2), DocumentedFlags(args, i + 2));
      } else {
        FlagsAgreeExactly(args, i + 1);
      }
    }
  }

  lemma SameTail(x: nat, a: seq<nat>, b: seq<nat>)
    ensures [x] + a == [x] + b <==> a == b
  {
    assert ([x] + a)[1..] == a && ([x] + b)[1..] == b;
  }

  /** The options after the flag at position k has taken its value. */
  function Assign(args: seq<string>, k: nat, o: Options): Options {
    if k + 1 >= |args| then o
    else if args[k] == "--filter" then o.(filter := args[k + 1])
    else o.(format := args[k + 1])
  }

  /** The options that result from taking the given positions for flags, in order. */
  function FromFlags(args: seq<string>, flags: seq<nat>, o: Options): Options {
    if flags == [] then o else FromFlags(args, flags[1..], Assign(args, flags[0], o))
  }

  lemma TwoFlags(args: seq<string>, i: nat, rest: seq<nat>, o: Options)
    ensures FromFlags(args, [i, i + 1] + rest, o) == FromFlags(args, rest, Assign(args, i + 1, Assign(args, i, o)))
  {
    assert ([i, i + 1] + rest)[1..] == [i + 1] + rest && ([i + 1] + rest)[1..] == rest;
  }

  lemma {:induction false} ScanTakesFlags(args: seq<string>, i: nat, o: Options)
    ensures ScanOptions(args, i, o) == FromFlags(args, ScannedFlags(args, i), o)
    decreases |args| - i
  {
    if i < |args| {
      if FlagAsFilter(args, i) {
        TwoFlags(args, i, ScannedFlags(args, i + 3), o);
        ScanTakesFlags(args, i + 3, Assign(args, i + 1, Assign(args, i, o)));
      } else if TakesValue(args, i) {
        assert ([i] + ScannedFlags(args, i + 2))[1..] == ScannedFlags(args, i + 2);
        ScanTakesFlags(args, i + 2, Assign(args, i, o));
      } else {
        ScanTakesFlags(args, i + 1, o);
      }
    }
  }

  lemma {:induction false} DocumentedTakesFlags(args: seq<string>, i: nat, o: Options)
    ensures Documented(args, i, o) == FromFlags(args, DocumentedFlags(args, i), o)
    decreases |args| - i
  {
    if i < |args| {
      if TakesValue(args, i) {
        assert ([i] + DocumentedFlags(args, i + 2))[1..] == DocumentedFlags(args, i + 2);
        DocumentedTakesFlags(args, i + 2, Assign(args, i, o));
      } else {
        DocumentedTakesFlags(args, i + 1, o);
      }
    }
  }

  /**
   For any arguments: the code takes for flags what the documentation says iff no filter that the documented
   reading finds has the value "--format" with an argument behind it. Both read what their flags say, so the
   options are then the same.
   */
  lemma OptionsAsDocumented(args: seq<string>)
    ensures ScannedFlags(args, 0) == DocumentedFlags(args, 0) <==> Unambiguous(args, 0)
    ensures var o := Options("", "text");
            && OptionsOf(args) == FromFlags(args, ScannedFlags(args, 0), o)
            && Documented(args, 0, o) == FromFlags(args, DocumentedFlags(args, 0), o)
            && (Unambiguous(args, 0) ==> OptionsOf(args) == Documented(args, 0, o))
  {
    FlagsAgreeExactly(args, 0);
    ScanTakesFlags(args, 0, Options("", "text"));
    DocumentedTakesFlags(args, 0, Options("", "text"));
  }

  /**
   The documented uses with both flags. With the format first they are always read as documented; with the
   filter first, unless the filter value is itself "--format".
   */
  lemma OptionPairExactly(filter: string, format: string)
    ensures OptionsOf(["--format", format, "--filter", filter]) == Options(filter, format)
    ensures OptionsOf(["--filter", filter, "--format", format]) == Options(filter, format)
            <==> filter != "--format" || format == "--format"
  {
    FormatFirst(filter, format);
    FilterFirst(filter, format);
  }

  lemma FormatFirst(filter: string, format: string)
    ensures OptionsOf(["--format", format, "--filter", filter]) == Options(filter, format)
  {
    var args := ["--format", format, "--filter", filter];
    var o := Options("", format);
    assert OptionsOf(args) == ScanOptions(args, 2, o);
    assert ScanOptions(args, 4, o.(filter := filter)) == Options(filter, format);
  }

  lemma FilterFirst(filter: string, format: string)
    ensures OptionsOf(["--filter", filter, "--format", format]) == Options(filter, format)
            <==> filter != "--format" || format == "--format"
  {
    var args := ["--filter", filter, "--format", format];
    var o := Options(filter, "text");
    if filter == "--format" {
      assert OptionsOf(args) == ScanOptions(args, 3, o.(format := "--format"));
      assert ScanOptions(args, 4, o.(format := "--format")) == o.(format := "--format");
    } else {
      assert OptionsOf(args) == ScanOptions(args, 2, o);
      assert ScanOptions(args, 4, o.(format := format)) == o.(format := format);
    }
  }

  predicate Matches(line: string, filter: string) { filter == "" || Contains(line, filter) }

  function Selected(lines: seq<string>, filter: string): seq<string> {
    if lines == [] then []
    else
      var n := |lines| - 1;
      Selected(lines[..n], filter) + if Matches(lines[n], filter) then [lines[n]] else []
  }

  /** What f makes of the elements, in order. */
  function Mapped<T, U>(f: T -> U, xs: seq<T>): seq<U> {
    if xs == [] then []
    else
      var n := |xs| - 1;
      Mapped(f, xs[..n]) + [f(xs[n])]
  }

  lemma {:induction false} MappedAt<T, U>(f: T -> U, xs: seq<T>, i: nat)
    requires i < |xs|
    ensures |Mapped(f, xs)| == |xs| && Mapped(f, xs)[i] == f(xs[i])
    decreases |xs|
  {
    var n := |xs| - 1;
    if i < n {
      MappedAt(f, xs[..n], i);
    } else if n > 0 {
      MappedAt(f, xs[..n], 0);
    }
  }

  function Entries(lines: seq<string>): seq<Entry> { Mapped(EntryOf, lines) }

  class CLI {
    var logData: seq<string>

    constructor ()
      ensures logData == []
    {
      logData := [];
    }

    method SetLogData(data: seq<string>)
      modifies this
      ensures logData == data
    {
      logData := data;
    }

    method HandleLog(args: seq<string>) returns (out: Output)
      ensures var o := OptionsOf(args);
              out == if o.format == "json" then Json(Entries(Selected(logData, o.filter)))
                     else Plain(Join(Selected(logData, o.filter)))
    {
      var o := ReadOptions(args);
      var filtered := FilterLines(logData, o.filter);
      if o.format == "json" {
        var entries := MakeEntries(filtered);
        return Json(entries);
      }
      return Plain(Join(filtered));
    }
  }

  method MakeEntries(filtered: seq<string>) returns (entries: seq<Entry>)
    ensures entries == Entries(filtered)
  {
    entries := [];
    for k := 0 to |filtered|
      invariant entries == Entries(filtered[..k])
    {
      assert filtered[..k + 1][..k] == filtered[..k];
      entries := entries + [EntryOf(filtered[k])];
    }
    assert filtered[..|filtered|] == filtered;
  }

  method ReadOptions(args: seq<string>) returns (o: Options)
    ensures o == OptionsOf(args)
  {
    var filter, format := "", "text";
    var i := 0;
    while i < |args|
      invariant OptionsOf(args) == ScanOptions(args, i, Options(filter, format))
    {
      if args[i] == "--filter" && i + 1 < |args| {
        filter := args[i + 1];
        i := i + 1;
      }
      if args[i] == "--format" && i + 1 < |args| {
        format := args[i + 1];
        i := i + 1;
      }
      i := i + 1;
    }
    o := Options(filter, format);
  }

  method FilterLines(lines: seq<string>, filter: string) returns (filtered: seq<string>)
    ensures filtered == Selected(lines, filter)
  {
    filtered := [];
    for k := 0 to |lines|
      invariant filtered == Selected(lines[..k], filter)
    {
      assert lines[..k + 1][..k] == lines[..k];
      if filter == "" || Contains(lines[k], filter) {
        filtered := filtered + [lines[k]];
      }
    }
    assert lines[..|lines|] == lines;
  }

  // ---------------------------------------------------------------- filtering and re-reading

  lemma {:induction false} SelectedMembers(lines: seq<string>, filter: string)
    ensures forall x :: x in Selected(lines, filter) <==> x in lines && Matches(x, filter)
  {
    if lines != [] {
      var n := |lines| - 1;
      SelectedMembers(lines[..n], filter);
      assert lines == lines[..n] + [lines[n]];
    }
  }

  lemma {:induction false} NonEmptyIsIdentity(lines: seq<string>)
    requires "" !in lines
    ensures Lines.NonEmpty(lines) == lines
  {
    if lines != [] {
      assert lines[0] in lines;
      assert lines == [lines[0]] + lines[1..];
      NonEmptyIsIdentity(lines[1..]);
    }
  }

  /** A stored line with no newline comes back from the text output iff it matches and is not empty. */
  lemma TextOutputOfLines(stored: seq<string>, filter: string)
    requires Lines.OneLineEach(stored)
    ensures Lines.LogLines(Join(Selected(stored, filter))) == Lines.NonEmpty(Selected(stored, filter))
  {
    SelectedMembers(stored, filter);
    Lines.LogLinesOfJoin(Selected(stored, filter));
    Lines.LogLinesOfLines(Selected(stored, filter));
  }

  /**
   For every input read by the client and every filter, re-reading the text output yields exactly the
   matching lines: the output loses nothing and invents nothing.
   */
  lemma TextOutputRoundTrip(data: string, filter: string)
    ensures Lines.LogLines(Join(Selected(Lines.LogLines(data), filter))) == Selected(Lines.LogLines(data), filter)
  {
    var stored := Lines.LogLines(data);
    Lines.PiecesAreOneLine(data);
    TextOutputOfLines(stored, filter);
    SelectedMembers(stored, filter);
    NonEmptyIsIdentity(Selected(stored, filter));
  }

  // ---------------------------------------------------------------- extractors against the parser

  /** Cutting at the first of a one-character separator. */
  lemma CutAtFirst(before: string, after: string, sep: char)
    requires sep !in before
    ensures Find(before + [sep] + after, [sep]) == Some(|before|)
    ensures SplitTwo(before + [sep] + after, [sep]) == (before, Some(after))
  {
    var s := before + [sep] + after;
    assert s[|before|..] == [sep] + after;
    forall i | 0 <= i < |before|
      ensures !([sep] <= s[i..])
    {
      assert s[i..][0] == before[i];
    }
    FindLeftmost(s, [sep], |before|);
    assert s[..|before|] == before && s[|before| + 1..] == after;
  }

  lemma LevelPart(a: string, level: string, b: string, msg: string)
    requires level in LogParser.LEVELS && LogParser.Blank(a) && LogParser.Blank(b)
    ensures var part := TrimSpace(a + (level + b + ":" + (" " + msg)));
            exists tail :: part == level + b + ":" + tail
  {
    var x := level + b + ":" + (" " + msg);
    assert !IsSpace(level[0]);
    assert x[0] == level[0];
    TrimLeftAll(a, x, IsSpace);
    var k := |level| + |b|;
    assert x[k] == ':' && !IsSpace(':');
    TrimRightKeeps(x, IsSpace, k);
    var part := TrimRight(x, IsSpace);
    assert part == level + b + ":" + part[k + 1..];
  }

  lemma LevelIsTrimmed(level: string, b: string)
    requires level in LogParser.LEVELS && LogParser.Blank(b)
    ensures TrimSpace(level + b) == level && ':' !in level + b
  {
    assert !IsSpace(level[0]) && !IsSpace(level[|level| - 1]);
    assert (level + b)[0] == level[0];
    TrimRightAll(level, b, IsSpace);
    LogParser.LevelIsPlain(level);
    assert ':' !in b;
  }

  lemma ExtractedLevel(ts: string, a: string, level: string, b: string, msg: string)
    requires ']' !in ts && level in LogParser.LEVELS && LogParser.Blank(a) && LogParser.Blank(b)
    ensures ExtractLevel(LogParser.Line(ts, a, level, b, msg)) == level
  {
    var rest := a + (level + b + ":" + (" " + msg));
    assert LogParser.Line(ts, a, level, b, msg) == ("[" + ts) + "]" + rest;
    CutAtFirst("[" + ts, rest, ']');
    LevelPart(a, level, b, msg);
    var tail :| TrimSpace(rest) == level + b + ":" + tail;
    LevelIsTrimmed(level, b);
    CutAtFirst(level + b, tail, ':');
  }

  lemma ExtractedTimestamp(ts: string, rest: string)
    requires ']' !in ts && ts != "" && ts[0] != ' ' && ts[|ts| - 1] != ' '
    ensures ExtractTimestamp("[" + ts + "]" + rest) == ts
  {
    var line := "[" + ts + "]" + rest;
    assert line == ("[" + ts) + "]" + rest;
    CutAtFirst("[" + ts, rest, ']');
    assert line[1..|ts| + 1] == ts;
  }

  lemma ExtractedTimestampOfLine(ts: string, a: string, level: string, b: string, msg: string)
    requires ']' !in ts && ' ' !in ts && ts != ""
    ensures ExtractTimestamp(LogParser.Line(ts, a, level, b, msg)) == ts
  {
    var rest := a + level + b + ": " + msg;
    assert ts[|ts| - 1] in ts && ts[0] in ts;
    ExtractedTimestamp(ts, rest);
    assert LogParser.Line(ts, a, level, b, msg) == "[" + ts + "]" + rest;
  }

  /**
   On every line of the printed shape the string-splitting extractors agree with the parser, except that
   they keep the level WARNING that the parser turns into WARN.
   */
  lemma ExtractorsAgreeExactly(ts: string, a: string, level: string, b: string, msg: string)
    requires LogParser.IsTimestamp(ts) && LogParser.IsLevel(level) && LogParser.Blank(a) && LogParser.Blank(b)
    ensures var line := LogParser.Line(ts, a, level, b, msg);
            var parsed := LogParser.ParseLine(line).entry;
            && ExtractTimestamp(line) == parsed.timestamp == ts
            && ExtractMessage(line) == parsed.message == msg
            && ExtractLevel(line) == level
            && (ExtractLevel(line) == parsed.level <==> level != "WARNING")
  {
    LogParser.TimestampHasNoBracket(ts);
    LogParser.LevelsExactly(level);
    LogParser.ParseUndoesLine(ts, a, level, b, msg);
    ExtractedLevel(ts, a, level, b, msg);
    ExtractedTimestampOfLine(ts, a, level, b, msg);
  }

  // ---------------------------------------------------------------- what is selected, and in which order

  /** The filter occurs somewhere in the line; the empty filter always does. */
  ghost predicate Occurs(line: string, filter: string) { exists j: nat :: j <= |line| && filter <= line[j..] }

  lemma MatchesExactly(line: string, filter: string)
    ensures Matches(line, filter) <==> Occurs(line, filter)
  {
    if filter == "" {
      assert filter <= line[0..];
    }
    if Contains(line, filter) {
      assert filter <= line[Find(line, filter).value..];
    }
  }

  /** The positions, in increasing order, of the lines in which the filter occurs. */
  ghost predicate Picks(lines: seq<string>, filter: string, idx: seq<nat>) {
    && (forall k :: 0 <= k < |idx| ==> idx[k] < |lines| && Occurs(lines[idx[k]], filter))
    && (forall k, l :: 0 <= k < l < |idx| ==> idx[k] < idx[l])
    && (forall i: nat :: i < |lines| && Occurs(lines[i], filter) ==> i in idx)
  }

  lemma PicksSkip(lines: seq<string>, filter: string, idx: seq<nat>, x: string)
    requires Picks(lines, filter, idx) && !Occurs(x, filter)
    ensures Picks(lines + [x], filter, idx)
  {
    var more := lines + [x];
    forall i: nat | i < |more| && Occurs(more[i], filter)
      ensures i in idx
    {
      assert i < |lines| && more[i] == lines[i];
    }
  }

  lemma PicksNext(lines: seq<string>, filter: string, idx: seq<nat>, x: string)
    requires Picks(lines, filter, idx) && Occurs(x, filter)
    ensures Picks(lines + [x], filter, idx + [|lines|])
  {
    var more, all := lines + [x], idx + [|lines|];
    assert all[|idx|] == |lines|;
    forall i: nat | i < |more| && Occurs(more[i], filter)
      ensures i in all
    {
      if i < |lines| {
        assert more[i] == lines[i] && i in idx;
      }
    }
    forall k | 0 <= k < |all|
      ensures all[k] < |more| && Occurs(more[all[k]], filter)
    {
      if k < |idx| {
        assert more[idx[k]] == lines[idx[k]];
      }
    }
  }

  /** The selected lines are the picked ones. */
  ghost predicate PickedLines(lines: seq<string>, idx: seq<nat>, picked: seq<string>) {
    |picked| == |idx| && forall k :: 0 <= k < |idx| ==> idx[k] < |lines| && picked[k] == lines[idx[k]]
  }

  lemma PickedSnoc(lines: seq<string>, idx: seq<nat>, picked: seq<string>, x: string)
    requires PickedLines(lines, idx, picked)
    ensures PickedLines(lines + [x], idx, picked)
    ensures PickedLines(lines + [x], idx + [|lines|], picked + [x])
  {
  }

  lemma {:induction false} SelectedPicks(lines: seq<string>, filter: string) returns (idx: seq<nat>)
    ensures Picks(lines, filter, idx) && PickedLines(lines, idx, Selected(lines, filter))
  {
    idx := [];
    if lines != [] {
      var n := |lines| - 1;
      var front := lines[..n];
      idx := SelectedPicks(front, filter);
      assert lines == front + [lines[n]];
      PickedSnoc(front, idx, Selected(front, filter), lines[n]);
      MatchesExactly(lines[n], filter);
      if Matches(lines[n], filter) {
        PicksNext(front, filter, idx, lines[n]);
        idx := idx + [n];
      } else {
        PicksSkip(front, filter, idx, lines[n]);
      }
    }
  }

  /** The output has the lines in which the filter occurs, each once, in the order in which they are stored. */
  lemma SelectedExactly(lines: seq<string>, filter: string)
    ensures exists idx :: Picks(lines, filter, idx) && PickedLines(lines, idx, Selected(lines, filter))
  {
    var idx := SelectedPicks(lines, filter);
  }

  // ---------------------------------------------------------------- the JSON entries

  /** There is one entry for each line, in order, and for a line of the printed form it has the parts of that line. */
  lemma EntriesExactly(lines: seq<string>, i: nat, ts: string, a: string, level: string, b: string, msg: string)
    requires i < |lines|
    ensures |Entries(lines)| == |lines| && Entries(lines)[i].raw == lines[i]
    ensures LogParser.IsTimestamp(ts) && LogParser.IsLevel(level) && LogParser.Blank(a) && LogParser.Blank(b)
            && lines[i] == LogParser.Line(ts, a, level, b, msg)
            ==> Entries(lines)[i] == Entry(ts, level, msg, lines[i])
  {
    MappedAt(EntryOf, lines, i);
    if LogParser.IsTimestamp(ts) && LogParser.IsLevel(level) && LogParser.Blank(a) && LogParser.Blank(b)
       && lines[i] == LogParser.Line(ts, a, level, b, msg) {
      ExtractorsAgreeExactly(ts, a, level, b, msg);
    }
  }

  // ---------------------------------------------------------------- the extractors on every line

  /** Unicode white space, by code point. */
  predicate White(c: char) {
    var n := c as int;
    || 0x9 <= n <= 0xD || n == 0x20 || n == 0x85 || n == 0xA0 || n == 0x1680 || 0x2000 <= n <= 0x200A
    || n == 0x2028 || n == 0x2029 || n == 0x202F || n == 0x205F || n == 0x3000
  }

  /** What is left of s without the characters in front and behind that are to be cut. */
  ghost predicate Stripped(s: string, r: string, cut: char -> bool) {
    && (r != "" ==> !cut(r[0]) && !cut(r[|r| - 1]))
    && exists a, b :: AllCut(a, cut) && AllCut(b, cut) && s == a + (r + b)
  }

  predicate AllCut(a: string, cut: char -> bool) { forall i :: 0 <= i < |a| ==> cut(a[i]) }

  lemma {:induction false} CutInFront(s: string, cut: char -> bool) returns (a: string)
    ensures s == a + TrimLeft(s, cut) && AllCut(a, cut)
    ensures TrimLeft(s, cut) != "" ==> !cut(TrimLeft(s, cut)[0])
  {
    a := "";
    if s != "" && cut(s[0]) {
      a := CutInFront(s[1..], cut);
      assert s == [s[0]] + s[1..];
      a := [s[0]] + a;
    }
  }

  lemma {:induction false} CutBehind(s: string, cut: char -> bool) returns (b: string)
    ensures s == TrimRight(s, cut) + b && AllCut(b, cut)
    ensures TrimRight(s, cut) != "" ==> !cut(TrimRight(s, cut)[|TrimRight(s, cut)| - 1])
    decreases |s|
  {
    b := "";
    if s != "" && cut(s[|s| - 1]) {
      var n := |s| - 1;
      b := CutBehind(s[..n], cut);
      assert s == s[..n] + [s[n]];
      b := b + [s[n]];
    }
  }

  lemma TrimStrips(s: string, cut: char -> bool)
    ensures Stripped(s, Trim(s, cut), cut)
  {
    var a := CutInFront(s, cut);
    var m := TrimLeft(s, cut);
    var b := CutBehind(m, cut);
    assert s == a + (Trim(s, cut) + b);
    if Trim(s, cut) != "" {
      assert m[0] == Trim(s, cut)[0];
    }
  }

  /** The timestamp is what stands in the bracket at the front of the line, without spaces around it. */
  lemma ExtractTimestampExactly(line: string, inner: string, rest: string)
    ensures line == "[" + inner + "]" + rest && ']' !in inner ==>
              Stripped(inner, ExtractTimestamp(line), c => c == ' ')
    ensures line == "" || line[0] != '[' || ']' !in line ==> ExtractTimestamp(line) == ""
  {
    if line == "[" + inner + "]" + rest && ']' !in inner {
      assert line == ("[" + inner) + "]" + rest;
      CutAtFirst("[" + inner, rest, ']');
      assert line[1..|inner| + 1] == inner;
      TrimStrips(inner, IsBlankChar);
      SameCut(inner, Trim(inner, IsBlankChar), IsBlankChar, c => c == ' ');
    }
    FoundIsThere(line, ']');
  }

  lemma SameCut(s: string, r: string, cut: char -> bool, other: char -> bool)
    requires Stripped(s, r, cut) && forall c :: cut(c) <==> other(c)
    ensures Stripped(s, r, other)
  {
    var a, b :| AllCut(a, cut) && AllCut(b, cut) && s == a + (r + b);
    assert AllCut(a, other) && AllCut(b, other);
  }

  lemma FoundIsThere(s: string, c: char)
    ensures Find(s, [c]).Some? ==> c in s
  {
    if Find(s, [c]).Some? {
      var i := Find(s, [c]).value;
      assert s[i] == s[i..][0];
    }
  }

  lemma {:induction false} TrimLeftOfFront(u: string, rest: string, cut: char -> bool)
    requires rest != "" && !cut(rest[0])
    ensures TrimLeft(u + rest, cut) == TrimLeft(u, cut) + rest
  {
    if u == "" {
      assert u + rest == rest;
    } else if cut(u[0]) {
      assert (u + rest)[1..] == u[1..] + rest;
      TrimLeftOfFront(u[1..], rest, cut);
    }
  }

  lemma StrippedFront(a: string, m: string, r: string, cut: char -> bool)
    requires AllCut(a, cut) && Stripped(m, r, cut)
    ensures Stripped(a + m, r, cut)
  {
    var x, y :| AllCut(x, cut) && AllCut(y, cut) && m == x + (r + y);
    assert AllCut(a + x, cut);
    assert a + (x + (r + y)) == (a + x) + (r + y);
  }

  lemma SpaceIsWhite()
    ensures forall c :: IsSpace(c) <==> White(c)
  {
  }

  /** Trimming white space leaves the first colon and the word in front of it. */
  lemma TrimmedAtColon(u: string, tail: string) returns (more: string)
    ensures TrimSpace(u + (":" + tail)) == TrimLeft(u, IsSpace) + [':'] + more
  {
    var w := TrimLeft(u, IsSpace);
    var s := w + (":" + tail);
    TrimLeftOfFront(u, ":" + tail, IsSpace);
    assert s[|w|] == ':';
    TrimRightKeeps(s, IsSpace, |w|);
    var part := TrimRight(s, IsSpace);
    more := part[|w| + 1..];
    assert part == w + [':'] + more;
  }

  lemma WordBeforeColon(u: string, more: string)
    requires ':' !in u
    ensures SplitTwo(TrimLeft(u, IsSpace) + [':'] + more, ":").0 == TrimLeft(u, IsSpace)
    ensures Contains(TrimLeft(u, IsSpace) + [':'] + more, ":")
  {
    var a := CutInFront(u, IsSpace);
    CutAtFirst(TrimLeft(u, IsSpace), more, ':');
  }

  lemma WordIsStripped(u: string)
    ensures Stripped(u, TrimSpace(TrimLeft(u, IsSpace)), White)
  {
    var a := CutInFront(u, IsSpace);
    var w := TrimLeft(u, IsSpace);
    TrimStrips(w, IsSpace);
    StrippedFront(a, w, TrimSpace(w), IsSpace);
    SpaceIsWhite();
    SameCut(u, TrimSpace(w), IsSpace, White);
  }

  /** The word in front of the first colon behind the bracket, without the white space around it. */
  lemma LevelWord(x: string, u: string, tail: string)
    requires ']' !in x && ':' !in u
    ensures Stripped(u, ExtractLevel(x + "]" + (u + (":" + tail))), White)
  {
    CutAtFirst(x, u + (":" + tail), ']');
    var more := TrimmedAtColon(u, tail);
    WordBeforeColon(u, more);
    WordIsStripped(u);
  }

  /** Trimming invents no characters. */
  lemma TrimmedIsThere(s: string, c: char)
    ensures c in TrimSpace(s) ==> c in s
  {
    var a := CutInFront(s, IsSpace);
    var b := CutBehind(TrimLeft(s, IsSpace), IsSpace);
  }

  /**
   For every line: the level is INFO if no bracket closes in the line, or no colon follows the first one that
   does; otherwise it is what stands between that bracket and the next colon, without white space around it.
   */
  lemma ExtractLevelExactly(line: string, x: string, rest: string, u: string, tail: string)
    ensures ']' !in line ==> ExtractLevel(line) == "INFO"
    ensures line == x + "]" + rest && ']' !in x && ':' !in rest ==> ExtractLevel(line) == "INFO"
    ensures line == x + "]" + (u + (":" + tail)) && ']' !in x && ':' !in u ==> Stripped(u, ExtractLevel(line), White)
  {
    FoundIsThere(line, ']');
    if line == x + "]" + rest && ']' !in x && ':' !in rest {
      CutAtFirst(x, rest, ']');
      TrimmedIsThere(rest, ':');
      FoundIsThere(TrimSpace(rest), ':');
    }
    if line == x + "]" + (u + (":" + tail)) && ']' !in x && ':' !in u {
      LevelWord(x, u, tail);
    }
  }

  /** For every line the message is that of the parser. */
  lemma ExtractMessageExactly(line: string)
    ensures ExtractMessage(line) == LogParser.MessageOf(line)
  {
  }
}
