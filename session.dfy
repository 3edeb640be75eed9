/**
 * One browser session of the game: the board of the current round, whose
 * turn it is, the winner once there is one, and the running scores, win
 * streaks and history that outlive a round. Each method is one block of the
 * page script that changes these fields.
 */
module Session {
  import opened Wrappers
  import opened Board
  import opened Search

  datatype Player = Player1 | Player2

  /** How a round ended. */
  datatype Outcome = Won(player: Player) | Draw

  datatype Mode = SinglePlayer | Multiplayer

  datatype Difficulty = Easy | Medium | Hard

  function Other(p: Player): Player {
    if p == Player1 then Player2 else Player1
  }

  /** The scores table: rounds won by each player and rounds drawn. */
  datatype Scores = Scores(player1: nat, player2: nat, draws: nat)

  /** The streak table: each player's current run of wins, and who won last. */
  datatype Streak = Streak(player1: nat, player2: nat, lastWinner: Option<Player>)

  /** A history entry: how the round ended and the board it ended on. */
  datatype Record = Record(outcome: Outcome, board: seq<string>)

  function RunOf(s: Streak, p: Player): nat {
    if p == Player1 then s.player1 else s.player2
  }

  /** The scores table after recording one more round. */
  function ScoreStep(sc: Scores, o: Outcome): Scores {
    match o
    case Draw => sc.(draws := sc.draws + 1)
    case Won(Player1) => sc.(player1 := sc.player1 + 1)
    case Won(Player2) => sc.(player2 := sc.player2 + 1)
  }

  /**
   * The streak table after recording one more round: a draw leaves it alone;
   * a repeat winner extends their run; a new winner starts a run of one and
   * the other player's run drops to zero.
   */
  function StreakStep(st: Streak, o: Outcome): Streak {
    match o
    case Draw => st
    case Won(w) =>
      if st.lastWinner == Some(w) then
        if w == Player1 then st.(player1 := st.player1 + 1) else st.(player2 := st.player2 + 1)
      else
        Streak(if w == Player1 then 1 else 0, if w == Player2 then 1 else 0, Some(w))
  }

  /** The scores table after recording every round of `os`, from all zeros. */
  function Tally(os: seq<Outcome>): Scores {
    if os == [] then Scores(0, 0, 0)
    else ScoreStep(Tally(os[..|os| - 1]), os[|os| - 1])
  }

  /** The streak table after recording every round of `os`, from all zeros. */
  function Streaks(os: seq<Outcome>): Streak {
    if os == [] then Streak(0, 0, None)
    else StreakStep(Streaks(os[..|os| - 1]), os[|os| - 1])
  }

  /** How many rounds of `os` ended as `o`. */
  function Count(os: seq<Outcome>, o: Outcome): nat {
    if os == [] then 0
    else Count(os[..|os| - 1], o) + (if os[|os| - 1] == o then 1 else 0)
  }

  /** The winners of the rounds of `os` that were not drawn, in order. */
  function Winners(os: seq<Outcome>): seq<Player> {
    if os == [] then []
    else
      var last := os[|os| - 1];
      Winners(os[..|os| - 1]) + (if last.Won? then [last.player] else [])
  }

  /** How many of the last entries of `ws` are `p`, counting back to the first that is not. */
  function TrailingRun(ws: seq<Player>, p: Player): nat {
    if ws == [] || ws[|ws| - 1] != p then 0
    else TrailingRun(ws[..|ws| - 1], p) + 1
  }

  /** The outcomes of the recorded rounds, in order. */
  function Outcomes(h: seq<Record>): seq<Outcome> {
    seq(|h|, i requires 0 <= i < |h| => h[i].outcome)
  }

  /** The scores table counts every recorded round exactly once, under its outcome. */
  lemma {:induction false} TallyCounts(os: seq<Outcome>)
    ensures Tally(os) == Scores(Count(os, Won(Player1)), Count(os, Won(Player2)), Count(os, Draw))
    ensures Tally(os).player1 + Tally(os).player2 + Tally(os).draws == |os|
  {
    if os != [] {
      TallyCounts(os[..|os| - 1]);
    }
  }

  /** The last entry of `ws`, if any. */
  function Last(ws: seq<Player>): Option<Player> {
    if ws == [] then None else Some(ws[|ws| - 1])
  }

  /** Recording one round keeps the streak table in step with the winners so far. */
  lemma StreakStepRuns(st: Streak, ws: seq<Player>, o: Outcome)
    requires RunOf(st, Player1) == TrailingRun(ws, Player1) && RunOf(st, Player2) == TrailingRun(ws, Player2)
    requires st.lastWinner == Last(ws)
    ensures var ws' := ws + (if o.Won? then [o.player] else []);
      RunOf(StreakStep(st, o), Player1) == TrailingRun(ws', Player1) &&
      RunOf(StreakStep(st, o), Player2) == TrailingRun(ws', Player2) &&
      StreakStep(st, o).lastWinner == Last(ws')
  {
    if o.Won? {
      var w := o.player;
      assert (ws + [w])[..|ws|] == ws;
      assert TrailingRun(ws + [w], w) == TrailingRun(ws, w) + 1;
      assert TrailingRun(ws + [w], Other(w)) == 0;
      if st.lastWinner != Some(w) {
        assert TrailingRun(ws, w) == 0;
      }
    } else {
      assert ws + [] == ws;
    }
  }

  /**
   * A player's streak is the number of rounds they won in a row since the
   * last round someone else won (drawn rounds do not break a run), and the
   * last winner is the winner of the last round that was not drawn.
   */
  lemma {:induction false} StreaksAreTrailingRuns(os: seq<Outcome>)
    ensures RunOf(Streaks(os), Player1) == TrailingRun(Winners(os), Player1)
    ensures RunOf(Streaks(os), Player2) == TrailingRun(Winners(os), Player2)
    ensures Streaks(os).lastWinner == Last(Winners(os))
  {
    if os != [] {
      var init := os[..|os| - 1];
      StreaksAreTrailingRuns(init);
      StreakStepRuns(Streaks(init), Winners(init), os[|os| - 1]);
    }
  }

  /** Appending a round to the history advances both tables by that round's step. */
  lemma RecordExtendsTables(h: seq<Record>, r: Record)
    ensures Tally(Outcomes(h + [r])) == ScoreStep(Tally(Outcomes(h)), r.outcome)
    ensures Streaks(Outcomes(h + [r])) == StreakStep(Streaks(Outcomes(h)), r.outcome)
  {
    var os := Outcomes(h);
    assert Outcomes(h + [r]) == os + [r.outcome];
    assert (os + [r.outcome])[..|os|] == os;
  }

  /** The outcome of a placement by `mover`: a line wins, a full board draws, else the turn passes. */
  datatype Status = Status(winner: Option<Outcome>, turn: Player)

  function Settle(b: seq<string>, mover: Player, sym: string): Status {
    if CheckWinner(b, sym) then Status(Some(Won(mover)), mover)
    else if IsFull(b) then Status(Some(Draw), mover)
    else Status(None, Other(mover))
  }

  /** Whether a click on cell `idx` is taken: the cell is free, nobody has won, and it is the clicker's turn. */
  predicate Accepts(mode: Mode, b: seq<string>, winner: Option<Outcome>, turn: Player, idx: nat)
    requires idx < |b|
  {
    b[idx] == Empty && winner.None? && (turn == Player1 || (mode == Multiplayer && turn == Player2))
  }

  /** best_move(...) or random.choice(available), as written: Python treats both None and 0 as false. */
  function HardPickAsWritten(best: Option<nat>, fallback: nat): nat {
    if best.None? || best.value == 0 then fallback else best.value
  }

  /** The Hard opponent's choice as evidently intended: the random cell only when best_move found nothing. */
  function HardPick(best: Option<nat>, fallback: nat): nat {
    match best
    case Some(cell) => cell
    case None => fallback
  }

  /**
   * The as-written and the intended choice part ways exactly when the search
   * answers cell 0 and the random cell is another one.
   */
  lemma HardPickAsWrittenDiffers(best: Option<nat>, fallback: nat)
    ensures HardPickAsWritten(best, fallback) != HardPick(best, fallback) <==> best == Some(0) && fallback != 0
  {
  }

  /** On `X X _ / O O _ / _ _ _` with crosses to move, the search completes the top row on cell 2. */
  lemma TopRowCompleted()
    ensures IsBestLowest([Cross, Cross, Empty, Nought, Nought, Empty, Empty, Empty, Empty], Cross, Nought, 2)
  {
    var b := [Cross, Cross, Empty, Nought, Nought, Empty, Empty, Empty, Empty];
    assert Filled(b[2 := Cross], WinPatterns[0], Cross);
    ImmediateWinTaken(b, Cross, Nought, 2);
  }

  /**
   * A position with the opponent (noughts) to move where cell 0 completes its
   * top row; crosses hold the middle row but for cell 5.
   */
  const CornerWin: seq<string> := [Empty, Nought, Nought, Cross, Cross, Empty, Empty, Empty, Cross]

  /**
   * As written, the Hard opponent throws the search's answer away when it is
   * cell 0: on CornerWin the search picks the winning cell 0, the pick falls
   * back to the free cell 7, which wins nothing, and crosses then win on cell 5.
   */
  lemma HardPickAsWrittenMissesWin()
    ensures IsBestLowest(CornerWin, Nought, Cross, 0)
    ensures CheckWinner(CornerWin[0 := Nought], Nought)
    ensures CornerWin[7] == Empty && HardPickAsWritten(Some(0), 7) == 7
    ensures !CheckWinner(CornerWin[7 := Nought], Nought)
    ensures CornerWin[7 := Nought][5] == Empty && CheckWinner(CornerWin[7 := Nought][5 := Cross], Cross)
  {
    assert Filled(CornerWin[0 := Nought], WinPatterns[0], Nought);
    ImmediateWinTaken(CornerWin, Nought, Cross, 0);
    CheckWinnerCases(CornerWin[7 := Nought], Nought);
    assert Filled(CornerWin[7 := Nought][5 := Cross], WinPatterns[1], Cross);
  }

  /** Corrected, the Hard opponent keeps the search's cell, cell 0 included, and wins on CornerWin. */
  lemma HardPickTakesWin(fallback: nat)
    ensures HardPick(Some(0), fallback) == 0
    ensures IsBestLowest(CornerWin, Nought, Cross, HardPick(Some(0), fallback))
    ensures CheckWinner(CornerWin[HardPick(Some(0), fallback) := Nought], Nought)
  {
    assert Filled(CornerWin[0 := Nought], WinPatterns[0], Nought);
    ImmediateWinTaken(CornerWin, Nought, Cross, 0);
  }

  class Game {
    var board: array<string>
    var turn: Player
    var winner: Option<Outcome>
    var scores: Scores
    var streak: Streak
    var history: seq<Record>
    var player1Symbol: string
    var player2Symbol: string

    function Symbol(p: Player): string
      reads this
    {
      if p == Player1 then player1Symbol else player2Symbol
    }

    /**
     * The session invariant: a round without a winner still has a free cell, a
     * recorded winner has a line, a draw is a full board, and the scores and
     * streaks are those of the rounds in the history.
     */
    ghost predicate Valid()
      reads this, board
    {
      board.Length == 9 && player1Symbol != Empty && player2Symbol != Empty &&
      (winner.None? ==> !IsFull(board[..])) &&
      (winner == Some(Won(Player1)) ==> CheckWinner(board[..], player1Symbol)) &&
      (winner == Some(Won(Player2)) ==> CheckWinner(board[..], player2Symbol)) &&
      (winner == Some(Draw) ==> IsFull(board[..])) &&
      scores == Tally(Outcomes(history)) &&
      streak == Streaks(Outcomes(history))
    }

    /** init_state: an empty board, player 1 to move, nothing recorded. */
    constructor (symbol1: string, symbol2: string)
      requires symbol1 != Empty && symbol2 != Empty
      ensures Valid() && fresh(board)
      ensures board[..] == EmptyBoard && turn == Player1 && winner == None
      ensures scores == Scores(0, 0, 0) && streak == Streak(0, 0, None) && history == []
      ensures player1Symbol == symbol1 && player2Symbol == symbol2
    {
      board := new string[9](_ => Empty);
      turn := Player1;
      winner := None;
      scores := Scores(0, 0, 0);
      streak := Streak(0, 0, None);
      history := [];
      player1Symbol := symbol1;
      player2Symbol := symbol2;
      new;
      assert board[..] == EmptyBoard;
      assert board[0] == Empty;
    }

    /**
     * A click on cell `idx`: taken only on a free cell, with no winner yet, by
     * the player whose turn it is (player 2 only in multiplayer); it places that
     * player's symbol on exactly that cell and then settles the round.
     */
    method Click(mode: Mode, idx: nat)
      requires Valid() && idx < 9
      modifies this, board
      ensures Valid() && board == old(board)
      ensures player1Symbol == old(player1Symbol) && player2Symbol == old(player2Symbol)
      ensures scores == old(scores) && streak == old(streak) && history == old(history)
      ensures Accepts(mode, old(board[..]), old(winner), old(turn), idx) ==>
        board[..] == old(board[..])[idx := Symbol(old(turn))] &&
        Status(winner, turn) == Settle(board[..], old(turn), Symbol(old(turn)))
      ensures !Accepts(mode, old(board[..]), old(winner), old(turn), idx) ==>
        board[..] == old(board[..]) && winner == old(winner) && turn == old(turn)
    {
      if board[idx] == Empty && winner.None? && turn == Player1 {
        board[idx] := player1Symbol;
        if CheckWinner(board[..], board[idx]) {
          winner := Some(Won(Player1));
        } else if IsFull(board[..]) {
          winner := Some(Draw);
        } else {
          turn := Player2;
        }
      } else if mode == Multiplayer && board[idx] == Empty && winner.None? && turn == Player2 {
        board[idx] := player2Symbol;
        if CheckWinner(board[..], board[idx]) {
          winner := Some(Won(Player2));
        } else if IsFull(board[..]) {
          winner := Some(Draw);
        } else {
          turn := Player1;
        }
      }
    }

    /**
     * ai_move: player 2's symbol on a free cell. Easy plays an arbitrary free
     * cell, Medium either that or the search's cell. Hard plays the search's
     * cell, except that a search answer of cell 0 reads as false and is
     * replaced by an arbitrary free cell.
     */
    method AiMove(difficulty: Difficulty) returns (move: nat)
      requires Valid() && !IsFull(board[..])
      modifies board
      ensures move < 9 && old(board[move]) == Empty
      ensures board[..] == old(board[..])[move := player2Symbol]
      ensures difficulty == Hard && !IsBestLowest(old(board[..]), player2Symbol, player1Symbol, 0) ==>
        IsBestLowest(old(board[..]), player2Symbol, player1Symbol, move)
    {
      assert exists i :: 0 <= i < 9 && board[..][i] == Empty;
      if difficulty == Easy {
        move :| move < 9 && board[move] == Empty;
      } else if difficulty == Medium {
        var heads: bool :| true;
        if heads {
          move :| move < 9 && board[move] == Empty;
        } else {
          var best := BestMove(board, player2Symbol, player1Symbol);
          move := best.value;
        }
      } else {
        var best := BestMove(board, player2Symbol, player1Symbol);
        var fallback: nat :| fallback < 9 && board[fallback] == Empty;
        move := HardPickAsWritten(best, fallback);
      }
      board[move] := player2Symbol;
    }

    /**
     * The opponent's turn in single-player mode: when it is player 2's turn and
     * nobody has won, play an opponent move and settle the round; otherwise
     * nothing happens. Returns the cell played, if any.
     */
    method AiTurn(mode: Mode, difficulty: Difficulty) returns (played: Option<nat>)
      requires Valid()
      modifies this, board
      ensures Valid() && board == old(board)
      ensures player1Symbol == old(player1Symbol) && player2Symbol == old(player2Symbol)
      ensures scores == old(scores) && streak == old(streak) && history == old(history)
      ensures played.Some? <==> mode == SinglePlayer && old(turn) == Player2 && old(winner).None?
      ensures played.None? ==> board[..] == old(board[..]) && winner == old(winner) && turn == old(turn)
      ensures played.Some? ==>
        played.value < 9 && old(board[played.value]) == Empty &&
        board[..] == old(board[..])[played.value := player2Symbol] &&
        Status(winner, turn) == Settle(board[..], Player2, player2Symbol) &&
        (difficulty == Hard && !IsBestLowest(old(board[..]), player2Symbol, player1Symbol, 0) ==>
          IsBestLowest(old(board[..]), player2Symbol, player1Symbol, played.value))
    {
      played := None;
      if mode == SinglePlayer && turn == Player2 && winner.None? {
        var move := AiMove(difficulty);
        played := Some(move);
        if CheckWinner(board[..], player2Symbol) {
          winner := Some(Won(Player2));
        } else if IsFull(board[..]) {
          winner := Some(Draw);
        } else {
          turn := Player1;
        }
      }
    }

    /**
     * The move timer ran out with no winner: the turn is forfeited to the other
     * player, except that the opponent of single-player mode moves at once.
     */
    method Timeout(mode: Mode, difficulty: Difficulty) returns (played: Option<nat>)
      requires Valid()
      modifies this, board
      ensures Valid() && board == old(board)
      ensures player1Symbol == old(player1Symbol) && player2Symbol == old(player2Symbol)
      ensures scores == old(scores) && streak == old(streak) && history == old(history)
      ensures old(winner).Some? ==>
        played.None? && board[..] == old(board[..]) && winner == old(winner) && turn == old(turn)
      ensures old(winner).None? && (mode == Multiplayer || old(turn) == Player1) ==>
        played.None? && board[..] == old(board[..]) && winner == None && turn == Other(old(turn))
      ensures old(winner).None? && mode == SinglePlayer && old(turn) == Player2 ==>
        played.Some? && played.value < 9 && old(board[played.value]) == Empty &&
        board[..] == old(board[..])[played.value := player2Symbol] &&
        Status(winner, turn) == Settle(board[..], Player2, player2Symbol) &&
        (difficulty == Hard && !IsBestLowest(old(board[..]), player2Symbol, player1Symbol, 0) ==>
          IsBestLowest(old(board[..]), player2Symbol, player1Symbol, played.value))
    {
      played := None;
      if winner.None? {
        if mode == Multiplayer || turn == Player1 {
          turn := if turn == Player1 then Player2 else Player1;
        } else {
          played := AiTurn(mode, difficulty);
        }
      }
    }

    /**
     * The outcome block: once a round has a winner or is drawn, count it in the
     * scores, update the streaks on a win, and append it to the history with a
     * copy of the board.
     */
    method RecordOutcome()
      requires Valid()
      modifies this
      ensures Valid()
      ensures board == old(board) && turn == old(turn) && winner == old(winner)
      ensures player1Symbol == old(player1Symbol) && player2Symbol == old(player2Symbol)
      ensures old(winner).None? ==> scores == old(scores) && streak == old(streak) && history == old(history)
      ensures old(winner).Some? ==>
        history == old(history) + [Record(old(winner).value, board[..])] &&
        scores == ScoreStep(old(scores), old(winner).value) &&
        streak == StreakStep(old(streak), old(winner).value)
    {
      if winner.Some? {
        var o := winner.value;
        match o {
          case Draw =>
            scores := scores.(draws := scores.draws + 1);
          case Won(w) =>
            scores := if w == Player1 then scores.(player1 := scores.player1 + 1)
                      else scores.(player2 := scores.player2 + 1);
            if streak.lastWinner == Some(w) {
              streak := if w == Player1 then streak.(player1 := streak.player1 + 1)
                        else streak.(player2 := streak.player2 + 1);
            } else {
              streak := streak.(player1 := if w == Player1 then 1 else 0);
              streak := streak.(player2 := if w == Player2 then 1 else 0);
            }
            streak := streak.(lastWinner := Some(w));
        }
        RecordExtendsTables(history, Record(o, board[..]));
        history := history + [Record(o, board[..])];
      }
    }

    /** A new round: a fresh empty board, player 1 to move, no winner; the tables are kept. */
    method NewRound()
      requires Valid()
      modifies this
      ensures Valid() && fresh(board)
      ensures board[..] == EmptyBoard && turn == Player1 && winner == None
      ensures player1Symbol == old(player1Symbol) && player2Symbol == old(player2Symbol)
      ensures scores == old(scores) && streak == old(streak) && history == old(history)
    {
      board := new string[9](_ => Empty);
      turn := Player1;
      winner := None;
      assert board[..] == EmptyBoard;
      assert board[0] == Empty;
    }
  }
}
