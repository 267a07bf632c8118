/** Helper.cs: the CSV printer DataTableToCsv and the line parser CsvParser, and what survives a trip through both. */
module Csv {
  import opened Options
  import opened Sequences

  // ---- Cutting a line into pieces ----

  /** Is the place before the n-th character inside qualifiers? */
  function Inside(s: string, q: char, n: nat): bool
    requires n <= |s|
  {
    n > 0 && Inside(s, q, n - 1) != (s[n - 1] == q)
  }

  function Join(pieces: seq<string>, separator: char): string {
    if pieces == [] then [] else if |pieces| == 1 then pieces[0]
      else pieces[0] + [separator] + Join(pieces[1..], separator)
  }

  /** Every separator in the piece is inside qualifiers. */
  predicate Guarded(piece: string, separator: char, q: char) {
    forall i | 0 <= i < |piece| :: piece[i] == separator ==> Inside(piece, q, i)
  }

  /** The qualifiers in the piece come in pairs. */
  predicate Balanced(piece: string, q: char) {
    !Inside(piece, q, |piece|)
  }

  predicate GoodPieces(pieces: seq<string>, separator: char, q: char) {
    && (forall i | 0 <= i < |pieces| :: Guarded(pieces[i], separator, q))
    && (forall i | 0 <= i < |pieces| - 1 :: Balanced(pieces[i], q))
  }

  /** The text cut at the separators that are outside qualifiers, and nowhere else. */
  predicate IsCut(text: string, pieces: seq<string>, separator: char, q: char) {
    pieces != [] && Join(pieces, separator) == text && GoodPieces(pieces, separator, q)
  }

  /** The pieces from start on, when the text up to i has been looked at. */
  function Pieces(text: string, separator: char, q: char, start: nat, i: nat, inText: bool): (pieces: seq<string>)
    requires start <= i <= |text|
    ensures pieces != []
    decreases |text| - i
  {
    if i == |text| then [text[start..]]
    else if text[i] == q then Pieces(text, separator, q, start, i + 1, !inText)
    else if text[i] == separator && !inText then [text[start..i]] + Pieces(text, separator, q, i + 1, i + 1, false)
    else Pieces(text, separator, q, start, i + 1, inText)
  }

  lemma {:induction false} InsidePrefix(s: string, t: string, q: char, n: nat)
    requires n <= |s| && n <= |t| && forall i | 0 <= i < n :: s[i] == t[i]
    ensures Inside(s, q, n) == Inside(t, q, n)
  {
    if n > 0 {
      InsidePrefix(s, t, q, n - 1);
    }
  }

  /** Looking at a guarded piece finds no place to cut. */
  lemma {:induction false} ScanPiece(text: string, separator: char, q: char, start: nat, piece: string, k: nat)
    requires k <= |piece| && start + |piece| <= |text| && separator != q && Guarded(piece, separator, q)
    requires forall i | 0 <= i < |piece| :: text[start + i] == piece[i]
    ensures Pieces(text, separator, q, start, start + k, Inside(piece, q, k)) ==
            Pieces(text, separator, q, start, start + |piece|, Inside(piece, q, |piece|))
    decreases |piece| - k
  {
    if k < |piece| {
      ScanPiece(text, separator, q, start, piece, k + 1);
      assert text[start + k] == piece[k];
    }
  }

  lemma {:induction false} CutUniqueFrom(text: string, separator: char, q: char, start: nat, pieces: seq<string>)
    requires separator != q && start <= |text| && IsCut(text[start..], pieces, separator, q)
    ensures Pieces(text, separator, q, start, start, false) == pieces
    decreases |pieces|
  {
    var p := pieces[0];
    FirstPiece(pieces, separator);
    assert forall i | 0 <= i < |p| :: text[start + i] == text[start..][i];
    ScanPiece(text, separator, q, start, p, 0);
    if |pieces| == 1 {
      assert text[start..] == p;
    } else {
      var next := start + |p| + 1;
      assert text[start + |p|] == text[start..][|p|] == separator;
      assert text[next..] == text[start..][|p| + 1..];
      assert text[start..start + |p|] == p;
      CutUniqueFrom(text, separator, q, next, pieces[1..]);
    }
  }

  lemma FirstPiece(pieces: seq<string>, separator: char)
    requires pieces != []
    ensures var text := Join(pieces, separator);
            && |text| >= |pieces[0]| && text[..|pieces[0]|] == pieces[0]
            && (|pieces| == 1 ==> text == pieces[0])
            && (|pieces| > 1 ==> |text| > |pieces[0]| && text[|pieces[0]|] == separator
                                 && text[|pieces[0]| + 1..] == Join(pieces[1..], separator))
  {
  }

  lemma {:induction false} CutExistsFrom(text: string, separator: char, q: char, start: nat, i: nat)
    requires separator != q && start <= i <= |text| && Guarded(text[start..i], separator, q)
    ensures IsCut(text[start..], Pieces(text, separator, q, start, i, Inside(text[start..i], q, i - start)),
                  separator, q)
    decreases |text| - i
  {
    var piece := text[start..i];
    var inText := Inside(piece, q, i - start);
    if i == |text| {
      assert text[start..] == piece;
    } else if text[i] == separator && !inText {
      CutExistsFrom(text, separator, q, i + 1, i + 1);
      var rest := Pieces(text, separator, q, i + 1, i + 1, false);
      CutAround(text, start, i);
      AddPiece(piece, rest, separator, q);
    } else {
      GrowPiece(piece, text[i], separator, q);
      CutAround(text, start, i);
      CutExistsFrom(text, separator, q, start, i + 1);
    }
  }

  lemma CutAround(text: string, start: nat, i: nat)
    requires start <= i < |text|
    ensures text[start..] == text[start..i] + [text[i]] + text[i + 1..]
    ensures text[start..i + 1] == text[start..i] + [text[i]]
  {
  }

  lemma AddPiece(piece: string, rest: seq<string>, separator: char, q: char)
    requires rest != [] && GoodPieces(rest, separator, q) && Guarded(piece, separator, q) && Balanced(piece, q)
    ensures GoodPieces([piece] + rest, separator, q)
    ensures Join([piece] + rest, separator) == piece + [separator] + Join(rest, separator)
  {
    assert ([piece] + rest)[1..] == rest;
  }

  lemma GrowPiece(piece: string, c: char, separator: char, q: char)
    requires Guarded(piece, separator, q) && (c == separator ==> Inside(piece, q, |piece|))
    ensures Guarded(piece + [c], separator, q)
    ensures Inside(piece + [c], q, |piece| + 1) == (Inside(piece, q, |piece|) != (c == q))
  {
    forall i | 0 <= i <= |piece| ensures Inside(piece + [c], q, i) == Inside(piece, q, i) {
      InsidePrefix(piece + [c], piece, q, i);
    }
  }

  /** There is exactly one way to cut a text, and Pieces finds it. */
  lemma PiecesIsTheCut(text: string, separator: char, q: char, pieces: seq<string>)
    requires separator != q
    ensures IsCut(text, pieces, separator, q) <==> pieces == Pieces(text, separator, q, 0, 0, false)
  {
    assert text[0..] == text;
    CutExistsFrom(text, separator, q, 0, 0);
    if IsCut(text, pieces, separator, q) {
      CutUniqueFrom(text, separator, q, 0, pieces);
    }
  }

  // ---- What is done to a piece ----

  /** Replace(q, ""). */
  function Without(s: string, q: char): string {
    if s == [] then [] else (if s[0] == q then [] else [s[0]]) + Without(s[1..], q)
  }

  function TrimStart(white: char -> bool, s: string): string {
    if s != [] && white(s[0]) then TrimStart(white, s[1..]) else s
  }

  function TrimEnd(white: char -> bool, s: string): string {
    if s != [] && white(s[|s| - 1]) then TrimEnd(white, s[..|s| - 1]) else s
  }

  /** Trim(); white says which characters are white space. */
  function Trim(white: char -> bool, s: string): string {
    TrimEnd(white, TrimStart(white, s))
  }

  function Clean(white: char -> bool, piece: string, q: char): string {
    Trim(white, Without(piece, q))
  }

  function CleanAll(white: char -> bool, pieces: seq<string>, q: char): (tokens: seq<string>)
    ensures |tokens| == |pieces|
  {
    seq(|pieces|, i requires 0 <= i < |pieces| => Clean(white, pieces[i], q))
  }

  /** A last piece without a character gives no token. */
  function DropFinalEmpty(pieces: seq<string>): seq<string> {
    if pieces != [] && pieces[|pieces| - 1] == [] then pieces[..|pieces| - 1] else pieces
  }

  predicate IsClean(white: char -> bool, s: string, q: char) {
    q !in s && (s != [] ==> !white(s[0]) && !white(s[|s| - 1]))
  }

  lemma {:induction false} TrimEndClean(white: char -> bool, s: string)
    ensures var t := TrimEnd(white, s);
            t <= s && (t != [] ==> !white(t[|t| - 1]))
    decreases |s|
  {
    if s != [] && white(s[|s| - 1]) {
      TrimEndClean(white, s[..|s| - 1]);
    }
  }

  lemma {:induction false} TrimStartClean(white: char -> bool, s: string)
    ensures var t := TrimStart(white, s);
            |t| <= |s| && t == s[|s| - |t|..] && (t != [] ==> !white(t[0]))
    decreases |s|
  {
    if s != [] && white(s[0]) {
      TrimStartClean(white, s[1..]);
    }
  }

  lemma {:induction false} WithoutClean(s: string, q: char)
    ensures q !in Without(s, q)
    ensures q !in s ==> Without(s, q) == s
  {
    if s != [] {
      WithoutClean(s[1..], q);
      assert s == [s[0]] + s[1..];
    }
  }

  lemma {:induction false} WithoutConcat(s: string, t: string, q: char)
    ensures Without(s + t, q) == Without(s, q) + Without(t, q)
  {
    if s == [] {
      assert s + t == t;
    } else {
      assert (s + t)[1..] == s[1..] + t;
      WithoutConcat(s[1..], t, q);
    }
  }

  /** A token never has a qualifier or white space at its ends, and a text that has none is left alone. */
  lemma CleanIsClean(white: char -> bool, piece: string, q: char)
    ensures IsClean(white, Clean(white, piece, q), q)
    ensures IsClean(white, piece, q) ==> Clean(white, piece, q) == piece
  {
    var s := Without(piece, q);
    WithoutClean(piece, q);
    TrimStartClean(white, s);
    TrimEndClean(white, TrimStart(white, s));
  }

  lemma {:induction false} TrimStartCutsWhite(white: char -> bool, s: string)
    ensures var t := TrimStart(white, s);
            |t| <= |s| && forall k | 0 <= k < |s| - |t| :: white(s[k])
    decreases |s|
  {
    if s != [] && white(s[0]) {
      TrimStartCutsWhite(white, s[1..]);
      assert forall k | 1 <= k < |s| :: s[k] == s[1..][k - 1];
    }
  }

  lemma {:induction false} TrimEndCutsWhite(white: char -> bool, s: string)
    ensures var t := TrimEnd(white, s);
            |t| <= |s| && forall k | |t| <= k < |s| :: white(s[k])
    decreases |s|
  {
    if s != [] && white(s[|s| - 1]) {
      TrimEndCutsWhite(white, s[..|s| - 1]);
    }
  }

  /** The part of s from i up to j, where all the rest is white space. */
  predicate WhiteAround(white: char -> bool, s: string, i: nat, j: nat) {
    i <= j <= |s| && (forall k | 0 <= k < i :: white(s[k])) && forall k | j <= k < |s| :: white(s[k])
  }

  /** Trimming cuts off nothing but white space, at the two ends. */
  lemma TrimCutsWhite(white: char -> bool, s: string) returns (i: nat, j: nat)
    ensures WhiteAround(white, s, i, j) && Trim(white, s) == s[i..j]
  {
    var t := TrimStart(white, s);
    TrimStartClean(white, s);
    TrimStartCutsWhite(white, s);
    TrimEndClean(white, t);
    TrimEndCutsWhite(white, t);
    i := |s| - |t|;
    j := i + |Trim(white, s)|;
    forall k | j <= k < |s| ensures white(s[k]) {
      assert s[k] == t[k - i];
    }
  }

  /** Nothing but the qualifiers is taken out, and all of them are. */
  lemma WithoutByCharacter(s: string, c: char, q: char)
    ensures Without(s + [c], q) == if c == q then Without(s, q) else Without(s, q) + [c]
    ensures Without([], q) == []
  {
    WithoutConcat(s, [c], q);
    assert Without([c], q) == (if c == q then [] else [c]) + Without([c][1..], q);
    assert Without(s, q) + [] == Without(s, q);
  }

  // ---- The parser ----

  function Tokens(white: char -> bool, text: string, separator: char, q: char): seq<string> {
    CleanAll(white, DropFinalEmpty(Pieces(text, separator, q, 0, 0, false)), q)
  }

  lemma CleanFirst(white: char -> bool, tokens: seq<string>, piece: string, rest: seq<string>, q: char)
    requires rest != []
    ensures tokens + CleanAll(white, DropFinalEmpty([piece] + rest), q) ==
            tokens + [Clean(white, piece, q)] + CleanAll(white, DropFinalEmpty(rest), q)
  {
    assert DropFinalEmpty([piece] + rest) == [piece] + DropFinalEmpty(rest);
  }

  method CsvParser(white: char -> bool, csvText: string, separator: char, qualifier: char) returns (tokens: seq<string>)
    ensures tokens == Tokens(white, csvText, separator, qualifier)
  {
    tokens := [];
    var last := -1;
    var inText := false;
    for current := 0 to |csvText|
      invariant -1 <= last < current
      invariant tokens + CleanAll(white, DropFinalEmpty(
                  Pieces(csvText, separator, qualifier, last + 1, current, inText)), qualifier) ==
                Tokens(white, csvText, separator, qualifier)
    {
      if csvText[current] == qualifier {
        inText := !inText;
      } else if csvText[current] == separator && !inText {
        CleanFirst(white, tokens, csvText[last + 1..current],
                   Pieces(csvText, separator, qualifier, current + 1, current + 1, false), qualifier);
        tokens := tokens + [Clean(white, csvText[last + 1..current], qualifier)];
        last := current;
      }
    }
    if last != |csvText| - 1 {
      tokens := tokens + [Clean(white, csvText[last + 1..], qualifier)];
    }
  }

  // ---- The printer ----

  const QUOTE := '"'

  function Value(v: Option<string>): string {
    if v.Some? then v.value else []
  }

  function Cell(value: string, separator: char): string {
    if separator in value then [QUOTE] + value + [QUOTE] else value
  }

  function Cells(values: seq<string>, separator: char): (cells: seq<string>)
    ensures |cells| == |values|
  {
    seq(|values|, i requires 0 <= i < |values| => Cell(values[i], separator))
  }

  function Line(values: seq<string>, separator: char): string {
    Join(Cells(values, separator), separator)
  }

  function Values(row: seq<Option<string>>): seq<string> {
    seq(|row|, i requires 0 <= i < |row| => Value(row[i]))
  }

  /** The lines of the first n rows. */
  function RowLines(rows: seq<seq<Option<string>>>, separator: char, newLine: string, n: nat): string
    requires n <= |rows|
  {
    if n == 0 then [] else RowLines(rows, separator, newLine, n - 1) + (Line(Values(rows[n - 1]), separator) + newLine)
  }

  /** Column names are printed as they are. */
  method DataTableToCsv(columns: seq<string>, rows: seq<seq<Option<string>>>, separator: char, includeHeaders: bool,
                        newLine: string)
    returns (text: string)
    ensures text == (if includeHeaders then Join(columns, separator) + newLine else [])
            + RowLines(rows, separator, newLine, |rows|)
  {
    text := [];
    if includeHeaders {
      text := Join(columns, separator) + newLine;
    }
    ghost var header := text;
    for i := 0 to |rows|
      invariant text == header + RowLines(rows, separator, newLine, i)
    {
      text := text + (Line(Values(rows[i]), separator) + newLine);
      Associative(header, RowLines(rows, separator, newLine, i), Line(Values(rows[i]), separator) + newLine);
    }
  }

  // ---- Through both ----

  lemma {:induction false} NeverInside(s: string, q: char, n: nat)
    requires n <= |s| && q !in s
    ensures !Inside(s, q, n)
  {
    if n > 0 {
      NeverInside(s, q, n - 1);
    }
  }

  lemma {:induction false} InsideQuotes(value: string, n: nat)
    requires QUOTE !in value && 0 < n <= |value| + 1
    ensures Inside([QUOTE] + value + [QUOTE], QUOTE, n)
  {
    var s := [QUOTE] + value + [QUOTE];
    if n > 1 {
      InsideQuotes(value, n - 1);
      assert s[n - 1] == value[n - 2];
    }
  }

  lemma CellIsPiece(value: string, separator: char)
    requires QUOTE !in value && separator != QUOTE
    ensures Guarded(Cell(value, separator), separator, QUOTE) && Balanced(Cell(value, separator), QUOTE)
  {
    var cell := Cell(value, separator);
    if separator in value {
      forall i | 0 <= i < |cell| && cell[i] == separator ensures Inside(cell, QUOTE, i) {
        InsideQuotes(value, i);
      }
      InsideQuotes(value, |value| + 1);
    } else {
      NeverInside(value, QUOTE, |value|);
    }
  }

  lemma CellReadBack(white: char -> bool, value: string, separator: char)
    requires IsClean(white, value, QUOTE)
    ensures Clean(white, Cell(value, separator), QUOTE) == value
  {
    CleanIsClean(white, value, QUOTE);
    WithoutClean(value, QUOTE);
    WithoutConcat([QUOTE] + value, [QUOTE], QUOTE);
    WithoutConcat([QUOTE], value, QUOTE);
  }

  predicate AllClean(white: char -> bool, values: seq<string>) {
    forall i | 0 <= i < |values| :: IsClean(white, values[i], QUOTE)
  }

  lemma CellsAreTheCut(values: seq<string>, separator: char)
    requires separator != QUOTE && values != [] && forall i | 0 <= i < |values| :: QUOTE !in values[i]
    ensures Pieces(Line(values, separator), separator, QUOTE, 0, 0, false) == Cells(values, separator)
  {
    var cells := Cells(values, separator);
    forall i | 0 <= i < |cells| ensures Guarded(cells[i], separator, QUOTE) && Balanced(cells[i], QUOTE) {
      CellIsPiece(values[i], separator);
    }
    PiecesIsTheCut(Line(values, separator), separator, QUOTE, cells);
  }

  /** A printed row of clean fields is read back, less a final empty field. */
  lemma RowRoundTrip(white: char -> bool, values: seq<string>, separator: char)
    requires separator != QUOTE && AllClean(white, values)
    ensures Tokens(white, Line(values, separator), separator, QUOTE) == DropFinalEmpty(values)
  {
    if values != [] {
      var cells := Cells(values, separator);
      CellsAreTheCut(values, separator);
      assert DropFinalEmpty(cells) == Cells(DropFinalEmpty(values), separator);
      forall i | 0 <= i < |values| ensures Clean(white, Cell(values[i], separator), QUOTE) == values[i] {
        CellReadBack(white, values[i], separator);
      }
    }
  }

  /** Exactly the rows of clean fields are read back. */
  lemma RowRoundTripIff(white: char -> bool, values: seq<string>, separator: char)
    requires separator != QUOTE
    ensures Tokens(white, Line(values, separator), separator, QUOTE) == DropFinalEmpty(values) <==>
            AllClean(white, values)
  {
    var tokens := Tokens(white, Line(values, separator), separator, QUOTE);
    if AllClean(white, values) {
      RowRoundTrip(white, values, separator);
    } else if tokens == DropFinalEmpty(values) {
      TokensAreClean(white, Line(values, separator), separator, QUOTE);
      assert forall i | 0 <= i < |values| :: i < |tokens| ==> values[i] == tokens[i];
      assert false;
    }
  }

  /** Whatever the line, no token has a qualifier or white space at its ends. */
  lemma TokensAreClean(white: char -> bool, text: string, separator: char, q: char)
    ensures forall i | 0 <= i < |Tokens(white, text, separator, q)| ::
            IsClean(white, Tokens(white, text, separator, q)[i], q)
  {
    var pieces := DropFinalEmpty(Pieces(text, separator, q, 0, 0, false));
    forall i | 0 <= i < |pieces| ensures IsClean(white, Clean(white, pieces[i], q), q) {
      CleanIsClean(white, pieces[i], q);
    }
  }

  /** The token is the text without some white space around it. */
  ghost predicate IsTrimmed(white: char -> bool, s: string, token: string) {
    exists i: nat, j: nat :: WhiteAround(white, s, i, j) && token == s[i..j]
  }

  /** One token for each piece of the line, except for a last piece that is empty; each is its piece without qualifiers
      and without the white space around. */
  lemma TokensByPosition(white: char -> bool, text: string, separator: char, q: char)
    ensures var pieces, tokens := Pieces(text, separator, q, 0, 0, false), Tokens(white, text, separator, q);
            && |tokens| == |pieces| - (if pieces[|pieces| - 1] == "" then 1 else 0)
            && forall k | 0 <= k < |tokens| :: IsTrimmed(white, Without(pieces[k], q), tokens[k])
  {
    var pieces, tokens := Pieces(text, separator, q, 0, 0, false), Tokens(white, text, separator, q);
    forall k | 0 <= k < |tokens| ensures IsTrimmed(white, Without(pieces[k], q), tokens[k]) {
      var i, j := TrimCutsWhite(white, Without(pieces[k], q));
    }
  }

  /** A field is printed as it is unless it holds a separator; then it stands between two double quotes. */
  lemma PrintedRow(values: seq<string>, separator: char)
    ensures (forall i | 0 <= i < |values| :: separator !in values[i]) ==>
              Line(values, separator) == Join(values, separator)
    ensures forall i | 0 <= i < |values| && separator in values[i] ::
              Cells(values, separator)[i] == "\"" + values[i] + "\""
  {
    if forall i | 0 <= i < |values| :: separator !in values[i] {
      assert Cells(values, separator) == values;
    }
  }

  // ---- A whole file ----

  /** The lines of a text whose lines end with a character. */
  function ReadLines(text: string, end: char, start: nat, i: nat): seq<string>
    requires start <= i <= |text|
    decreases |text| - i
  {
    if i == |text| then (if start == i then [] else [text[start..]])
    else if text[i] == end then [text[start..i]] + ReadLines(text, end, i + 1, i + 1)
    else ReadLines(text, end, start, i + 1)
  }

  lemma {:induction false} NoEndBefore(text: string, end: char, start: nat, i: nat, stop: nat)
    requires start <= i <= stop <= |text| && forall k | i <= k < stop :: text[k] != end
    ensures ReadLines(text, end, start, i) == ReadLines(text, end, start, stop)
    decreases stop - i
  {
    if i < stop {
      NoEndBefore(text, end, start, i + 1, stop);
    }
  }

  /** The first line of what is left of a text. */
  lemma FirstLine(text: string, end: char, start: nat, line: string, rest: string)
    requires start <= |text| && text[start..] == line + [end] + rest && end !in line
    ensures var next := start + |line| + 1;
            && next <= |text| && text[next..] == rest
            && ReadLines(text, end, start, start) == [line] + ReadLines(text, end, next, next)
  {
    var left, stop := text[start..], start + |line|;
    forall k | start <= k < stop ensures text[k] != end {
      assert text[k] == left[k - start] == line[k - start];
    }
    assert text[stop] == left[|line|] == end;
    assert text[start..stop] == left[..|line|] == line;
    assert text[stop + 1..] == left[|line| + 1..] == rest;
    NoEndBefore(text, end, start, start, stop);
  }

  /** Lines one after the other, each with its end. */
  function Ended(lines: seq<string>, end: char): string {
    if lines == [] then [] else lines[0] + [end] + Ended(lines[1..], end)
  }

  /** Lines without an end inside are read back. */
  lemma {:induction false} LinesReadBack(text: string, end: char, start: nat, lines: seq<string>)
    requires start <= |text| && text[start..] == Ended(lines, end)
    requires forall k | 0 <= k < |lines| :: end !in lines[k]
    ensures ReadLines(text, end, start, start) == lines
    decreases |lines|
  {
    if lines == [] {
      assert start == |text|;
    } else {
      FirstLine(text, end, start, lines[0], Ended(lines[1..], end));
      LinesReadBack(text, end, start + |lines[0]| + 1, lines[1..]);
      assert lines == [lines[0]] + lines[1..];
    }
  }

  lemma {:induction false} EndedSnoc(lines: seq<string>, line: string, end: char)
    ensures Ended(lines + [line], end) == Ended(lines, end) + (line + [end])
  {
    if lines == [] {
      assert [] + [line] == [line] && [line][1..] == [];
      assert line + [end] + [] == [] + (line + [end]);
    } else {
      assert (lines + [line])[1..] == lines[1..] + [line];
      EndedSnoc(lines[1..], line, end);
      Associative(lines[0] + [end], Ended(lines[1..], end), line + [end]);
    }
  }

  /** The line of the i-th row. */
  function RowLine(rows: seq<seq<Option<string>>>, separator: char, i: nat): string
    requires i < |rows|
  {
    Line(Values(rows[i]), separator)
  }

  /** The lines of the first n rows, in their order. */
  function RowsAsLines(rows: seq<seq<Option<string>>>, separator: char, n: nat): (lines: seq<string>)
    requires n <= |rows|
    ensures |lines| == n && forall i | 0 <= i < n :: lines[i] == RowLine(rows, separator, i)
  {
    seq(n, i requires 0 <= i < n => RowLine(rows, separator, i))
  }

  /** Every row is a line of its own, in order, and each ends with the line break. */
  lemma {:induction false} RowLinesAreEnded(rows: seq<seq<Option<string>>>, separator: char, end: char, n: nat)
    requires n <= |rows|
    ensures RowLines(rows, separator, [end], n) == Ended(RowsAsLines(rows, separator, n), end)
  {
    if n > 0 {
      RowLinesAreEnded(rows, separator, end, n - 1);
      assert RowsAsLines(rows, separator, n) == RowsAsLines(rows, separator, n - 1) + [RowLine(rows, separator, n - 1)];
      EndedSnoc(RowsAsLines(rows, separator, n - 1), RowLine(rows, separator, n - 1), end);
    }
  }

  /** What DataTableToCsv writes below its header is read back line by line: one line for each row, in order. */
  lemma RowsReadBack(rows: seq<seq<Option<string>>>, separator: char, end: char, text: string)
    requires text == RowLines(rows, separator, [end], |rows|)
    requires forall i | 0 <= i < |rows| :: end !in RowLine(rows, separator, i)
    ensures ReadLines(text, end, 0, 0) == RowsAsLines(rows, separator, |rows|)
  {
    RowLinesAreEnded(rows, separator, end, |rows|);
    assert text[0..] == text;
    LinesReadBack(text, end, 0, RowsAsLines(rows, separator, |rows|));
  }

  /** And parsing the line of a clean row gives the row's fields, with null as the empty text, less a final empty
      field. */
  lemma FieldsReadBack(white: char -> bool, row: seq<Option<string>>, separator: char)
    requires separator != '"' && AllClean(white, Values(row))
    ensures var tokens := Tokens(white, Line(Values(row), separator), separator, '"');
            && |tokens| == |row| - (if row != [] && FieldText(row, |row| - 1) == "" then 1 else 0)
            && forall i | 0 <= i < |tokens| :: tokens[i] == FieldText(row, i)
  {
    RowRoundTrip(white, Values(row), separator);
    forall i | 0 <= i < |row| ensures Values(row)[i] == FieldText(row, i) {
    }
  }

  function FieldText(row: seq<Option<string>>, i: nat): string
    requires i < |row|
  {
    match row[i] case Some(value) => value case None => ""
  }
}
