/**
 * The scripted opponent's search: plain minimax as the specification, and the
 * alpha-beta search that works in place on the shared board, proved to
 * compute the same value and to leave the board as it found it.
 */
module Search {
  import opened Board
  import opened Wrappers

  /** A score extended with the two infinities the search starts its bounds from. */
  datatype Ext = NegInf | Fin(v: int) | PosInf

  predicate Le(a: Ext, b: Ext) {
    a.NegInf? || b.PosInf? || (a.Fin? && b.Fin? && a.v <= b.v)
  }

  predicate Lt(a: Ext, b: Ext) {
    !Le(b, a)
  }

  function Max(a: Ext, b: Ext): Ext {
    if Le(a, b) then b else a
  }

  function Min(a: Ext, b: Ext): Ext {
    if Le(a, b) then a else b
  }

  /** The symbol placed on a ply: the opponent's own on maximizing plies. */
  function Mover(maximizing: bool, ai: string, human: string): string {
    if maximizing then ai else human
  }

  /** The search stops here: someone has a line or the board is full. */
  predicate Finished(b: seq<string>, ai: string, human: string) {
    CheckWinner(b, ai) || CheckWinner(b, human) || IsFull(b)
  }

  /**
   * The unpruned minimax value of `b`, scored from the point of view of `ai`:
   * 10 - depth for a line of `ai`, depth - 10 for a line of `human`, 0 for a
   * full board, else the best child for the player to move.
   */
  function Minimax(b: seq<string>, depth: int, maximizing: bool, ai: string, human: string): int
    requires |b| == 9 && ai != Empty && human != Empty
    decreases Empties(b), 10
  {
    if CheckWinner(b, ai) then 10 - depth
    else if CheckWinner(b, human) then depth - 10
    else if IsFull(b) then 0
    else Sweep(b, depth, maximizing, ai, human, 9).v
  }

  /**
   * The best value for the player to move over the children reached by a
   * placement on a free cell below `n`, in index order; the starting
   * infinity when there is none.
   */
  function Sweep(b: seq<string>, depth: int, maximizing: bool, ai: string, human: string, n: nat): (r: Ext)
    requires |b| == 9 && ai != Empty && human != Empty && n <= 9
    ensures r.Fin? <==> exists j :: 0 <= j < n && b[j] == Empty
    ensures r != if maximizing then PosInf else NegInf
    decreases Empties(b), n
  {
    if n == 0 then (if maximizing then NegInf else PosInf)
    else
      var prev := Sweep(b, depth, maximizing, ai, human, n - 1);
      if b[n - 1] != Empty then prev
      else
        var s := Mover(maximizing, ai, human);
        PlaceShrinks(b, n - 1, s);
        var child := Fin(Minimax(b[n - 1 := s], depth + 1, !maximizing, ai, human));
        if maximizing then Max(prev, child) else Min(prev, child)
  }

  /**
   * What a fail-soft alpha-beta search promises about its result `v` when the
   * true value is `m` and the window is (alpha, beta): a result at or below
   * alpha bounds the value from above, one at or above beta bounds it from
   * below, and one inside the window is exact.
   */
  predicate FailSoft(v: int, m: int, alpha: Ext, beta: Ext) {
    (Le(Fin(v), alpha) ==> m <= v) &&
    (Le(beta, Fin(v)) ==> v <= m) &&
    (Lt(alpha, Fin(v)) && Lt(Fin(v), beta) ==> m == v)
  }

  /**
   * minimax_ab: the alpha-beta search over the shared board. Every trial
   * placement is undone before the next one and before a cut-off, so the board
   * is as it was on entry; with a non-empty window the result is related to
   * the unpruned value as FailSoft says, and with the full window it is that
   * value.
   */
  method MinimaxAB(board: array<string>, depth: int, maximizing: bool, ai: string, human: string, alpha: Ext, beta: Ext)
    returns (r: int)
    requires board.Length == 9 && ai != Empty && human != Empty
    modifies board
    ensures board[..] == old(board[..])
    ensures Finished(old(board[..]), ai, human) ==> r == Minimax(old(board[..]), depth, maximizing, ai, human)
    ensures Lt(alpha, beta) ==> FailSoft(r, Minimax(old(board[..]), depth, maximizing, ai, human), alpha, beta)
    ensures alpha == NegInf && beta == PosInf ==> r == Minimax(old(board[..]), depth, maximizing, ai, human)
    decreases Empties(board[..]), 1
  {
    if CheckWinner(board[..], ai) {
      return 10 - depth;
    } else if CheckWinner(board[..], human) {
      return depth - 10;
    } else if IsFull(board[..]) {
      return 0;
    }
    if maximizing {
      r := MaxPly(board, depth, ai, human, alpha, beta);
    } else {
      r := MinPly(board, depth, ai, human, alpha, beta);
    }
  }

  /**
   * The maximizing branch of minimax_ab on a board with no line and a free
   * cell: try the opponent's symbol on each free cell in index order, keep the
   * largest result, raise alpha, and stop once beta <= alpha.
   */
  method MaxPly(board: array<string>, depth: int, ai: string, human: string, alpha: Ext, beta: Ext)
    returns (r: int)
    requires board.Length == 9 && ai != Empty && human != Empty
    requires !CheckWinner(board[..], ai) && !CheckWinner(board[..], human) && !IsFull(board[..])
    modifies board
    ensures board[..] == old(board[..])
    ensures Lt(alpha, beta) ==> FailSoft(r, Minimax(old(board[..]), depth, true, ai, human), alpha, beta)
    decreases Empties(board[..]), 0
  {
    ghost var b0 := board[..];
    var maxEval := NegInf;
    var a := alpha;
    var i := 0;
    while i < 9
      invariant 0 <= i <= 9
      invariant board[..] == b0
      invariant a == Max(alpha, maxEval)
      invariant maxEval != PosInf
      invariant maxEval.Fin? <==> Sweep(b0, depth, true, ai, human, i).Fin?
      invariant Lt(alpha, beta) ==> Lt(a, beta)
      invariant Lt(alpha, beta) && Le(maxEval, alpha) ==> Le(Sweep(b0, depth, true, ai, human, i), maxEval)
      invariant Lt(alpha, beta) && Lt(alpha, maxEval) ==> Sweep(b0, depth, true, ai, human, i) == maxEval
    {
      if board[i] == Empty {
        PlaceShrinks(b0, i, ai);
        board[i] := ai;
        var eval := MinimaxAB(board, depth + 1, false, ai, human, a, beta);
        board[i] := Empty;
        assert board[..] == b0;
        ghost var mc := Minimax(b0[i := ai], depth + 1, false, ai, human);
        ghost var sw := Sweep(b0, depth, true, ai, human, i);
        assert Sweep(b0, depth, true, ai, human, i + 1) == Max(sw, Fin(mc));
        if Lt(alpha, beta) {
          MaxStep(alpha, beta, maxEval, sw, eval, mc);
        }
        maxEval := Max(maxEval, Fin(eval));
        a := Max(a, Fin(eval));
        if Le(beta, a) {
          if Lt(alpha, beta) {
            SweepMonotone(b0, depth, true, ai, human, i + 1, 9);
          }
          break;
        }
      }
      i := i + 1;
    }
    r := maxEval.v;
  }

  /**
   * The minimizing branch of minimax_ab: try the other player's symbol on each
   * free cell, keep the smallest result, lower beta, and stop once
   * beta <= alpha.
   */
  method MinPly(board: array<string>, depth: int, ai: string, human: string, alpha: Ext, beta: Ext)
    returns (r: int)
    requires board.Length == 9 && ai != Empty && human != Empty
    requires !CheckWinner(board[..], ai) && !CheckWinner(board[..], human) && !IsFull(board[..])
    modifies board
    ensures board[..] == old(board[..])
    ensures Lt(alpha, beta) ==> FailSoft(r, Minimax(old(board[..]), depth, false, ai, human), alpha, beta)
    decreases Empties(board[..]), 0
  {
    ghost var b0 := board[..];
    var minEval := PosInf;
    var bt := beta;
    var i := 0;
    while i < 9
      invariant 0 <= i <= 9
      invariant board[..] == b0
      invariant bt == Min(beta, minEval)
      invariant minEval != NegInf
      invariant minEval.Fin? <==> Sweep(b0, depth, false, ai, human, i).Fin?
      invariant Lt(alpha, beta) ==> Lt(alpha, bt)
      invariant Lt(alpha, beta) && Le(beta, minEval) ==> Le(minEval, Sweep(b0, depth, false, ai, human, i))
      invariant Lt(alpha, beta) && Lt(minEval, beta) ==> Sweep(b0, depth, false, ai, human, i) == minEval
    {
      if board[i] == Empty {
        PlaceShrinks(b0, i, human);
        board[i] := human;
        var eval := MinimaxAB(board, depth + 1, true, ai, human, alpha, bt);
        board[i] := Empty;
        assert board[..] == b0;
        ghost var mc := Minimax(b0[i := human], depth + 1, true, ai, human);
        ghost var sw := Sweep(b0, depth, false, ai, human, i);
        assert Sweep(b0, depth, false, ai, human, i + 1) == Min(sw, Fin(mc));
        if Lt(alpha, beta) {
          MinStep(alpha, beta, minEval, sw, eval, mc);
        }
        minEval := Min(minEval, Fin(eval));
        bt := Min(bt, Fin(eval));
        if Le(bt, alpha) {
          if Lt(alpha, beta) {
            SweepMonotone(b0, depth, false, ai, human, i + 1, 9);
          }
          break;
        }
      }
      i := i + 1;
    }
    r := minEval.v;
  }

  /**
   * One child of a maximizing node: how the running maximum of the search
   * results keeps tracking the running maximum of the true values.
   */
  lemma MaxStep(alpha: Ext, beta: Ext, maxEval: Ext, sw: Ext, e: int, mc: int)
    requires Lt(alpha, beta) && Lt(Max(alpha, maxEval), beta) && maxEval != PosInf
    requires Le(maxEval, alpha) ==> Le(sw, maxEval)
    requires Lt(alpha, maxEval) ==> sw == maxEval
    requires FailSoft(e, mc, Max(alpha, maxEval), beta)
    ensures Max(Max(alpha, maxEval), Fin(e)) == Max(alpha, Max(maxEval, Fin(e)))
    ensures Lt(Max(alpha, Max(maxEval, Fin(e))), beta) ==>
      (Le(Max(maxEval, Fin(e)), alpha) ==> Le(Max(sw, Fin(mc)), Max(maxEval, Fin(e)))) &&
      (Lt(alpha, Max(maxEval, Fin(e))) ==> Max(sw, Fin(mc)) == Max(maxEval, Fin(e)))
    ensures Le(beta, Max(alpha, Max(maxEval, Fin(e)))) ==>
      Max(maxEval, Fin(e)) == Fin(e) && Le(beta, Fin(e)) && e <= mc
  {
  }

  /** One child of a minimizing node, the mirror image of MaxStep. */
  lemma MinStep(alpha: Ext, beta: Ext, minEval: Ext, sw: Ext, e: int, mc: int)
    requires Lt(alpha, beta) && Lt(alpha, Min(beta, minEval)) && minEval != NegInf
    requires Le(beta, minEval) ==> Le(minEval, sw)
    requires Lt(minEval, beta) ==> sw == minEval
    requires FailSoft(e, mc, alpha, Min(beta, minEval))
    ensures Min(Min(beta, minEval), Fin(e)) == Min(beta, Min(minEval, Fin(e)))
    ensures Lt(alpha, Min(beta, Min(minEval, Fin(e)))) ==>
      (Le(beta, Min(minEval, Fin(e))) ==> Le(Min(minEval, Fin(e)), Min(sw, Fin(mc)))) &&
      (Lt(Min(minEval, Fin(e)), beta) ==> Min(sw, Fin(mc)) == Min(minEval, Fin(e)))
    ensures Le(Min(beta, Min(minEval, Fin(e))), alpha) ==>
      Min(minEval, Fin(e)) == Fin(e) && Le(Fin(e), alpha) && mc <= e
  {
  }

  /** Looking at more cells can only improve the value for the player to move. */
  lemma {:induction false} SweepMonotone(b: seq<string>, depth: int, maximizing: bool, ai: string, human: string, n: nat, k: nat)
    requires |b| == 9 && ai != Empty && human != Empty && n <= k <= 9
    ensures maximizing ==> Le(Sweep(b, depth, maximizing, ai, human, n), Sweep(b, depth, maximizing, ai, human, k))
    ensures !maximizing ==> Le(Sweep(b, depth, maximizing, ai, human, k), Sweep(b, depth, maximizing, ai, human, n))
    decreases k
  {
    if n < k {
      SweepMonotone(b, depth, maximizing, ai, human, n, k - 1);
    }
  }

  /** The score best_move gives to playing the opponent's symbol on cell `i`. */
  function Score(b: seq<string>, ai: string, human: string, i: nat): int
    requires |b| == 9 && ai != Empty && human != Empty && i < 9
  {
    Minimax(b[i := ai], 0, false, ai, human)
  }

  /**
   * `i` is what best_move picks: a free cell whose score no free cell beats,
   * and the first one in index order with that score.
   */
  ghost predicate IsBestLowest(b: seq<string>, ai: string, human: string, i: nat)
    requires |b| == 9 && ai != Empty && human != Empty
  {
    i < 9 && b[i] == Empty &&
    (forall j :: 0 <= j < 9 && b[j] == Empty ==> Score(b, ai, human, j) <= Score(b, ai, human, i)) &&
    (forall j :: 0 <= j < i && b[j] == Empty ==> Score(b, ai, human, j) < Score(b, ai, human, i))
  }

  /**
   * best_move: score each free cell by placing the opponent's symbol there and
   * searching with the full window, keep the first strictly greatest score,
   * and give back `None` when no cell is free. The board is restored.
   */
  method BestMove(board: array<string>, ai: string, human: string) returns (move: Option<nat>)
    requires board.Length == 9 && ai != Empty && human != Empty
    modifies board
    ensures board[..] == old(board[..])
    ensures move.None? <==> IsFull(old(board[..]))
    ensures move.Some? ==> IsBestLowest(old(board[..]), ai, human, move.value)
  {
    ghost var b0 := board[..];
    var bestScore := NegInf;
    move := None;
    for i := 0 to 9
      invariant board[..] == b0
      invariant move.None? <==> forall j :: 0 <= j < i ==> b0[j] != Empty
      invariant move.None? ==> bestScore == NegInf
      invariant move.Some? ==>
        var k := move.value;
        k < i && b0[k] == Empty && bestScore == Fin(Score(b0, ai, human, k)) &&
        (forall j :: 0 <= j < i && b0[j] == Empty ==> Score(b0, ai, human, j) <= Score(b0, ai, human, k)) &&
        (forall j :: 0 <= j < k && b0[j] == Empty ==> Score(b0, ai, human, j) < Score(b0, ai, human, k))
    {
      if board[i] == Empty {
        board[i] := ai;
        var score := MinimaxAB(board, 0, false, ai, human, NegInf, PosInf);
        board[i] := Empty;
        assert board[..] == b0;
        if Lt(bestScore, Fin(score)) {
          bestScore, move := Fin(score), Some(i);
        }
      }
    }
  }

  /** Two cells cannot both be the first best one: IsBestLowest pins best_move's answer down. */
  lemma BestLowestUnique(b: seq<string>, ai: string, human: string, i: nat, j: nat)
    requires |b| == 9 && ai != Empty && human != Empty
    requires IsBestLowest(b, ai, human, i) && IsBestLowest(b, ai, human, j)
    ensures i == j
  {
  }

  /**
   * Scores are depth-shaped: with `depth` plies already played and no more than
   * 9 - depth free cells they lie in [depth - 10, 10 - depth], the top score
   * belongs exactly to boards where the opponent has a line, and the bottom
   * one exactly to boards where only the other player has one.
   */
  lemma {:induction false} MinimaxBounds(b: seq<string>, depth: int, maximizing: bool, ai: string, human: string)
    requires |b| == 9 && ai != Empty && human != Empty
    requires 0 <= depth && depth + Empties(b) <= 9
    ensures depth - 10 <= Minimax(b, depth, maximizing, ai, human) <= 10 - depth
    ensures Minimax(b, depth, maximizing, ai, human) == 10 - depth <==> CheckWinner(b, ai)
    ensures Minimax(b, depth, maximizing, ai, human) == depth - 10 <==> !CheckWinner(b, ai) && CheckWinner(b, human)
    decreases Empties(b), 10
  {
    if !CheckWinner(b, ai) && !CheckWinner(b, human) && !IsFull(b) {
      SweepBounds(b, depth, maximizing, ai, human, 9);
    }
  }

  /** Every child value a sweep combines lies in [depth - 9, 9 - depth]. */
  lemma {:induction false} SweepBounds(b: seq<string>, depth: int, maximizing: bool, ai: string, human: string, n: nat)
    requires |b| == 9 && ai != Empty && human != Empty && n <= 9
    requires 0 <= depth && depth + Empties(b) <= 9
    ensures Sweep(b, depth, maximizing, ai, human, n).Fin? ==>
      depth - 9 <= Sweep(b, depth, maximizing, ai, human, n).v <= 9 - depth
    decreases Empties(b), n
  {
    if n > 0 {
      SweepBounds(b, depth, maximizing, ai, human, n - 1);
      if b[n - 1] == Empty {
        var s := Mover(maximizing, ai, human);
        PlaceShrinks(b, n - 1, s);
        MinimaxBounds(b[n - 1 := s], depth + 1, !maximizing, ai, human);
      }
    }
  }

  /**
   * An immediate win is taken: if placing the opponent's symbol on free cell
   * `i` completes a line and no free cell below `i` does, best_move picks `i`,
   * because only an immediate win scores 10.
   */
  lemma ImmediateWinTaken(b: seq<string>, ai: string, human: string, i: nat)
    requires |b| == 9 && ai != Empty && human != Empty && i < 9 && b[i] == Empty
    requires CheckWinner(b[i := ai], ai)
    requires forall j :: 0 <= j < i && b[j] == Empty ==> !CheckWinner(b[j := ai], ai)
    ensures IsBestLowest(b, ai, human, i)
  {
    assert Score(b, ai, human, i) == 10;
    forall j | 0 <= j < 9 && b[j] == Empty
      ensures Score(b, ai, human, j) <= 10
      ensures j < i ==> Score(b, ai, human, j) < 10
    {
      PlaceShrinks(b, j, ai);
      MinimaxBounds(b[j := ai], 0, false, ai, human);
    }
  }
}
