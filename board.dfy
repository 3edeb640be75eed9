/**
 * The board and outcome evaluator: a row-major board of nine cells, each
 * holding the empty marker " " or a player's symbol, and the two pure
 * predicates every other part of the game consults after a placement.
 */
module Board {

  /** The marker of a free cell. */
  const Empty: string := " "

  /** The symbols the two players start with: a cross and a nought. */
  const Cross: string := "\U{274C}"
  const Nought: string := "\U{2B55}"

  /** The eight index triples of a completed line: three rows, three columns, two diagonals. */
  const WinPatterns: seq<(nat, nat, nat)> :=
    [(0, 1, 2), (3, 4, 5), (6, 7, 8), (0, 3, 6), (1, 4, 7), (2, 5, 8), (0, 4, 8), (2, 4, 6)]

  /** The board with nothing placed on it. */
  const EmptyBoard: seq<string> := [Empty, Empty, Empty, Empty, Empty, Empty, Empty, Empty, Empty]

  /** All three cells of `line` hold `s`. */
  predicate Filled(b: seq<string>, line: (nat, nat, nat), s: string) {
    line.0 < |b| && line.1 < |b| && line.2 < |b| &&
    b[line.0] == s && b[line.1] == s && b[line.2] == s
  }

  /** check_winner: some win pattern is entirely `s`. */
  predicate CheckWinner(b: seq<string>, s: string) {
    exists k :: 0 <= k < |WinPatterns| && Filled(b, WinPatterns[k], s)
  }

  /** is_full: no cell is free. */
  predicate IsFull(b: seq<string>) {
    forall i :: 0 <= i < |b| ==> b[i] != Empty
  }

  /** The number of free cells. */
  function Empties(b: seq<string>): (n: nat)
    ensures n <= |b|
    ensures n == 0 <==> IsFull(b)
  {
    if b == [] then 0
    else
      var rest := Empties(b[1..]);
      assert IsFull(b) <==> b[0] != Empty && IsFull(b[1..]) by {
        assert forall i :: 0 < i < |b| ==> b[i] == b[1..][i - 1];
      }
      (if b[0] == Empty then 1 else 0) + rest
  }

  /** Placing a symbol on a free cell takes exactly one free cell away. */
  lemma {:induction false} PlaceShrinks(b: seq<string>, i: nat, s: string)
    requires i < |b| && b[i] == Empty && s != Empty
    ensures Empties(b[i := s]) == Empties(b) - 1
  {
    if i > 0 {
      assert b[i := s][1..] == b[1..][i - 1 := s];
      PlaceShrinks(b[1..], i - 1, s);
    } else {
      assert b[i := s][1..] == b[1..];
    }
  }

  /** A row of the grid, counted from the top, is entirely `s`. */
  ghost predicate RowOf(b: seq<string>, r: nat, s: string)
    requires |b| == 9 && r < 3
  {
    b[3 * r] == s && b[3 * r + 1] == s && b[3 * r + 2] == s
  }

  /** A column of the grid, counted from the left, is entirely `s`. */
  ghost predicate ColumnOf(b: seq<string>, c: nat, s: string)
    requires |b| == 9 && c < 3
  {
    b[c] == s && b[c + 3] == s && b[c + 6] == s
  }

  /** The line `s` completes, described on the 3x3 grid instead of by index triples. */
  ghost predicate GridLine(b: seq<string>, s: string)
    requires |b| == 9
  {
    (exists r: nat :: r < 3 && RowOf(b, r, s)) ||
    (exists c: nat :: c < 3 && ColumnOf(b, c, s)) ||
    (forall d: nat :: d < 3 ==> b[4 * d] == s) ||
    (forall d: nat :: d < 3 ==> b[2 * d + 2] == s)
  }

  /** CheckWinner with its eight cases written out. */
  lemma CheckWinnerCases(b: seq<string>, s: string)
    requires |b| == 9
    ensures CheckWinner(b, s) <==>
      Filled(b, (0, 1, 2), s) || Filled(b, (3, 4, 5), s) || Filled(b, (6, 7, 8), s) ||
      Filled(b, (0, 3, 6), s) || Filled(b, (1, 4, 7), s) || Filled(b, (2, 5, 8), s) ||
      Filled(b, (0, 4, 8), s) || Filled(b, (2, 4, 6), s)
  {
    if CheckWinner(b, s) {
      var k :| 0 <= k < |WinPatterns| && Filled(b, WinPatterns[k], s);
      assert k == 0 || k == 1 || k == 2 || k == 3 || k == 4 || k == 5 || k == 6 || k == 7;
    } else {
      assert !Filled(b, WinPatterns[0], s) && !Filled(b, WinPatterns[1], s);
      assert !Filled(b, WinPatterns[2], s) && !Filled(b, WinPatterns[3], s);
      assert !Filled(b, WinPatterns[4], s) && !Filled(b, WinPatterns[5], s);
      assert !Filled(b, WinPatterns[6], s) && !Filled(b, WinPatterns[7], s);
    }
  }

  /**
   * The eight triples are exactly the three rows, the three columns and the
   * two diagonals of a row-major 3x3 grid.
   */
  lemma CheckWinnerIsGridLine(b: seq<string>, s: string)
    requires |b| == 9
    ensures CheckWinner(b, s) <==> GridLine(b, s)
  {
    CheckWinnerCases(b, s);
    if GridLine(b, s) {
      if r: nat :| r < 3 && RowOf(b, r, s) {
        assert r == 0 || r == 1 || r == 2;
      } else if c: nat :| c < 3 && ColumnOf(b, c, s) {
        assert c == 0 || c == 1 || c == 2;
      } else if forall d: nat :: d < 3 ==> b[4 * d] == s {
        assert b[4 * 0] == s && b[4 * 1] == s && b[4 * 2] == s;
      } else {
        assert b[2 * 0 + 2] == s && b[2 * 1 + 2] == s && b[2 * 2 + 2] == s;
      }
    }
    if Filled(b, (0, 1, 2), s) { assert RowOf(b, 0, s); }
    if Filled(b, (3, 4, 5), s) { assert RowOf(b, 1, s); }
    if Filled(b, (6, 7, 8), s) { assert RowOf(b, 2, s); }
    if Filled(b, (0, 3, 6), s) { assert ColumnOf(b, 0, s); }
    if Filled(b, (1, 4, 7), s) { assert ColumnOf(b, 1, s); }
    if Filled(b, (2, 5, 8), s) { assert ColumnOf(b, 2, s); }
  }

  /**
   * On the empty board no symbol has a line, except the empty marker itself,
   * which "wins" everywhere: callers must never pass it.
   */
  lemma EmptyBoardLines(s: string)
    ensures CheckWinner(EmptyBoard, s) <==> s == Empty
  {
    CheckWinnerCases(EmptyBoard, s);
  }
}
