/** splitLines and parseLogData of cmd/cli/main.go, and what they make of joined lines. */
module Lines {
  import opened Text

  /** The position of the first newline, or the length if there is none. */
  function NewlineAt(data: string): (k: nat)
    ensures k <= |data|
  {
    if data == "" || data[0] == '\n' then 0 else NewlineAt(data[1..]) + 1
  }

  /** The pieces between newlines; a last piece without a newline counts only if it is not empty. */
  function Pieces(data: string): seq<string>
    decreases |data|
  {
    var k := NewlineAt(data);
    if data == "" then []
    else if k == |data| then [data]
    else [data[..k]] + Pieces(data[k + 1..])
  }

  predicate OneLine(s: string) { forall i :: 0 <= i < |s| ==> s[i] != '\n' }

  lemma {:induction false} NewlineAtExact(data: string)
    ensures OneLine(data[..NewlineAt(data)])
    ensures NewlineAt(data) < |data| ==> data[NewlineAt(data)] == '\n'
  {
    if data != "" && data[0] != '\n' {
      NewlineAtExact(data[1..]);
      assert data[..NewlineAt(data)] == [data[0]] + data[1..][..NewlineAt(data) - 1];
    }
  }

  lemma {:induction false} NewlineAfter(x: string, rest: string)
    requires OneLine(x)
    ensures NewlineAt(x + "\n" + rest) == |x|
  {
    var data := x + "\n" + rest;
    if x == "" {
      assert data[0] == '\n';
    } else {
      assert data[0] == x[0];
      assert data[1..] == x[1..] + "\n" + rest;
      NewlineAfter(x[1..], rest);
    }
  }

  lemma PiecesOf(x: string, rest: string)
    requires OneLine(x)
    ensures Pieces(x + "\n" + rest) == [x] + Pieces(rest)
  {
    var data := x + "\n" + rest;
    NewlineAfter(x, rest);
    assert data[..|x|] == x && data[|x| + 1..] == rest;
  }

  lemma PieceAlone(x: string)
    requires OneLine(x)
    ensures Pieces(x) == if x == "" then [] else [x]
  {
    NewlineAtExact(x);
  }

  /** The loop of splitLines has cut `result` off and is reading the piece that begins at `start`. */
  ghost predicate SplitSoFar(data: string, result: seq<string>, start: nat, i: nat) {
    && start <= i <= |data|
    && OneLine(data[start..i])
    && Pieces(data) == result + Pieces(data[start..])
  }

  lemma CutKeeps(data: string, result: seq<string>, start: nat, i: nat)
    requires SplitSoFar(data, result, start, i) && i < |data| && data[i] == '\n'
    ensures SplitSoFar(data, result + [data[start..i]], i + 1, i + 1)
  {
    var (x, rest) := (data[start..i], data[i + 1..]);
    assert data[start..] == x + "\n" + rest;
    PiecesOf(x, rest);
    assert result + ([x] + Pieces(rest)) == (result + [x]) + Pieces(rest);
  }

  lemma SkipKeeps(data: string, result: seq<string>, start: nat, i: nat)
    requires SplitSoFar(data, result, start, i) && i < |data| && data[i] != '\n'
    ensures SplitSoFar(data, result, start, i + 1)
  {
    assert data[start..i + 1] == data[start..i] + [data[i]];
  }

  lemma LastPiece(data: string, result: seq<string>, start: nat)
    requires SplitSoFar(data, result, start, |data|)
    ensures Pieces(data) == if start < |data| then result + [data[start..]] else result
  {
    assert data[start..|data|] == data[start..];
    PieceAlone(data[start..]);
  }

  lemma SplitStarts(data: string)
    ensures SplitSoFar(data, [], 0, 0)
  {
    assert data[0..] == data;
  }

  method SplitLines(data: string) returns (result: seq<string>)
    ensures result == Pieces(data)
  {
    result := [];
    var start := 0;
    SplitStarts(data);
    for i := 0 to |data|
      invariant SplitSoFar(data, result, start, i)
    {
      if data[i] == '\n' {
        CutKeeps(data, result, start, i);
        result := result + [data[start..i]];
        start := i + 1;
      } else {
        SkipKeeps(data, result, start, i);
      }
    }
    LastPiece(data, result, start);
    if start < |data| {
      result := result + [data[start..]];
    }
  }

  /** The lines that are not empty, in order. */
  function NonEmpty(lines: seq<string>): (r: seq<string>)
    ensures forall x :: x in r <==> x in lines && x != ""
  {
    if lines == [] then []
    else (if lines[0] != "" then [lines[0]] else []) + NonEmpty(lines[1..])
  }

  lemma {:induction false} NonEmptyAppend(a: seq<string>, b: seq<string>)
    ensures NonEmpty(a + b) == NonEmpty(a) + NonEmpty(b)
  {
    if a == [] {
      assert a + b == b;
    } else {
      assert (a + b)[1..] == a[1..] + b;
      NonEmptyAppend(a[1..], b);
    }
  }

  lemma NonEmptyOne(x: string)
    ensures NonEmpty([x]) == if x != "" then [x] else []
  {
  }

  function LogLines(data: string): seq<string> { NonEmpty(Pieces(data)) }

  method ParseLogData(data: string) returns (lines: seq<string>)
    ensures lines == LogLines(data)
  {
    lines := [];
    var pieces := SplitLines(data);
    for i := 0 to |pieces|
      invariant lines == NonEmpty(pieces[..i])
    {
      assert pieces[..i + 1] == pieces[..i] + [pieces[i]];
      NonEmptyAppend(pieces[..i], [pieces[i]]);
      if pieces[i] != "" {
        lines := lines + [pieces[i]];
      }
    }
    assert pieces[..|pieces|] == pieces;
  }

  // ---------------------------------------------------------------- splitting and joining

  predicate OneLineEach(lines: seq<string>) { forall x :: x in lines ==> OneLine(x) }

  lemma {:induction false} PiecesAreOneLine(data: string)
    ensures OneLineEach(Pieces(data))
    decreases |data|
  {
    var k := NewlineAt(data);
    NewlineAtExact(data);
    assert data[..|data|] == data;
    if data != "" && k < |data| {
      PiecesAreOneLine(data[k + 1..]);
    }
  }

  predicate EndsInNewline(data: string) { data != "" && data[|data| - 1] == '\n' }

  lemma JoinCons(x: string, rest: seq<string>)
    ensures Join([x]) == x
    ensures rest != [] ==> Join([x] + rest) == x + "\n" + Join(rest)
  {
  }

  /** The newline that joining does not restore. */
  function Ending(data: string): string {
    if EndsInNewline(data) then "\n" else ""
  }

  lemma EndingOfTail(x: string, rest: string)
    ensures Ending(x + "\n" + rest) == if rest == "" then "\n" else Ending(rest)
  {
  }

  lemma CutAt(data: string, k: nat)
    requires k < |data| && data[k] == '\n'
    ensures data == data[..k] + "\n" + data[k + 1..]
  {
  }

  lemma NoPieces(data: string)
    ensures Pieces(data) == [] <==> data == ""
  {
  }

  lemma Reassociate(x: string, joined: string, ending: string)
    ensures x + "\n" + (joined + ending) == (x + "\n" + joined) + ending
  {
  }

  /** What the rejoining theorem says of one text. */
  predicate Rejoins(data: string) { data == Join(Pieces(data)) + Ending(data) }

  lemma RejoinsAlone(data: string)
    requires OneLine(data)
    ensures Rejoins(data)
  {
    PieceAlone(data);
    JoinCons(data, []);
    assert data + "" == data;
  }

  lemma RejoinsAfter(x: string, rest: string)
    requires OneLine(x) && Rejoins(rest)
    ensures Rejoins(x + "\n" + rest)
  {
    PiecesOf(x, rest);
    NoPieces(rest);
    EndingOfTail(x, rest);
    if rest == "" {
      JoinCons(x, []);
      assert [x] + Pieces(rest) == [x];
      assert x + "\n" + rest == x + "\n";
    } else {
      JoinCons(x, Pieces(rest));
      Reassociate(x, Join(Pieces(rest)), Ending(rest));
    }
  }

  /** Rejoining the pieces restores the input up to one trailing newline. */
  lemma {:induction false} JoinUndoesSplit(data: string)
    ensures data == Join(Pieces(data)) + Ending(data)
    decreases |data|
  {
    var k := NewlineAt(data);
    NewlineAtExact(data);
    if k < |data| {
      CutAt(data, k);
      JoinUndoesSplit(data[k + 1..]);
      RejoinsAfter(data[..k], data[k + 1..]);
    } else {
      assert data[..k] == data;
      RejoinsAlone(data);
    }
  }

  predicate LastIsNotEmpty(lines: seq<string>) { lines == [] || lines[|lines| - 1] != "" }

  /** The lines that survive joining and splitting: a last empty line does not. */
  function Surviving(lines: seq<string>): seq<string> {
    if LastIsNotEmpty(lines) then lines else lines[..|lines| - 1]
  }

  lemma SurvivingCons(x: string, rest: seq<string>)
    ensures Surviving([x]) == if x == "" then [] else [x]
    ensures rest != [] ==> Surviving([x] + rest) == [x] + Surviving(rest)
  {
  }

  lemma OneLineTail(x: string, rest: seq<string>)
    requires OneLineEach([x] + rest)
    ensures OneLine(x) && OneLineEach(rest)
  {
  }

  lemma {:induction false} SplitOfJoin(lines: seq<string>)
    requires OneLineEach(lines)
    ensures Pieces(Join(lines)) == Surviving(lines)
  {
    if lines != [] {
      var (x, rest) := (lines[0], lines[1..]);
      assert lines == [x] + rest;
      OneLineTail(x, rest);
      SurvivingCons(x, rest);
      JoinCons(x, rest);
      if rest == [] {
        PieceAlone(x);
      } else {
        SplitOfJoin(rest);
        PiecesOf(x, Join(rest));
      }
    }
  }

  /** Splitting restores joined lines exactly when the last of them is not empty. */
  lemma SplitUndoesJoinExactly(lines: seq<string>)
    requires OneLineEach(lines)
    ensures Pieces(Join(lines)) == lines <==> LastIsNotEmpty(lines)
  {
    SplitOfJoin(lines);
  }

  lemma LogLinesOfPiece(x: string, y: string)
    requires OneLine(x)
    ensures LogLines(x + "\n" + y) == (if x != "" then [x] else []) + LogLines(y)
  {
    PiecesOf(x, y);
    assert Pieces(x + "\n" + y)[1..] == Pieces(y);
  }

  /** Reading log lines commutes with cutting the text at any newline. */
  lemma {:induction false} LogLinesAcrossNewline(x: string, y: string)
    ensures LogLines(x + "\n" + y) == LogLines(x) + LogLines(y)
    decreases |x|
  {
    var k := NewlineAt(x);
    NewlineAtExact(x);
    if k == |x| {
      assert x[..k] == x;
      LogLinesOfPiece(x, y);
      PieceAlone(x);
      NonEmptyOne(x);
    } else {
      var (head, rest) := (x[..k], x[k + 1..]);
      assert x + "\n" + y == head + "\n" + (rest + "\n" + y);
      LogLinesOfPiece(head, rest + "\n" + y);
      assert x == head + "\n" + rest;
      LogLinesOfPiece(head, rest);
      LogLinesAcrossNewline(rest, y);
    }
  }

  /** The log lines of each of several texts, one after the other. */
  function LogLinesOfAll(texts: seq<string>): seq<string> {
    if texts == [] then [] else LogLines(texts[0]) + LogLinesOfAll(texts[1..])
  }

  /** Re-reading joined texts, whatever newlines and empty lines they contain. */
  lemma {:induction false} LogLinesOfJoin(texts: seq<string>)
    ensures LogLines(Join(texts)) == LogLinesOfAll(texts)
  {
    if texts == [] {
      PieceAlone("");
    } else if |texts| > 1 {
      LogLinesOfJoin(texts[1..]);
      LogLinesAcrossNewline(texts[0], Join(texts[1..]));
    } else {
      assert LogLinesOfAll(texts[1..]) == [];
    }
  }

  /** In particular joined newline-free lines come back, less the empty ones. */
  lemma {:induction false} LogLinesOfLines(lines: seq<string>)
    requires OneLineEach(lines)
    ensures LogLinesOfAll(lines) == NonEmpty(lines)
  {
    if lines != [] {
      var rest := lines[1..];
      assert lines[0] in lines && forall x :: x in rest ==> x in lines;
      PieceAlone(lines[0]);
      NonEmptyOne(lines[0]);
      LogLinesOfLines(rest);
    }
  }
}
