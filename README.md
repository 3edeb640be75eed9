# Tic-Tac-Toe (AI) — a verified model of the game core

The game is a single-page tic-tac-toe app. Two people play each other, or one
person plays a scripted opponent at one of three difficulties: Easy, Medium or
Hard ("unbeatable"). This project models the part of `app.py` that does not
depend on the web framework:

- **Board** (`board.dfy`): the row-major board of nine cells. A cell holds the
  empty marker `" "` or a player's symbol. The module also holds the two
  outcome predicates: `check_winner` (one of eight fixed index triples is all
  one symbol) and `is_full`.
- **Search** (`search.dfy`): the opponent's search.
  - `minimax_ab` is a method on the shared `array<string>` board. It places a
    trial symbol, recurses, and clears the cell again. It is proved against
    `Minimax`, a plain unpruned minimax specification, and against the
    fail-soft alpha-beta contract. With the full window it returns exactly the
    minimax value, and it always leaves the board as it found it.
  - `best_move` is a method too. It returns the lowest free cell that attains
    the best score, or `None` on a full board.
- **Snapshot** (`snapshot.dfy`): `render_board_snapshot`. Each cell is drawn
  through the `EMOJIS` table and a newline follows every third cell. The
  module proves the row layout and that the snapshot loses nothing.
- **Session** (`session.dfy`): one session of the game as a class `Game`.
  - Fields: the board, the turn, the winner, the scores, the streaks, the
    history and the two symbols.
  - One method per block of the page script that changes those fields: a
    click on a cell, the opponent's move (`ai_move`), the opponent's turn, the
    move timeout, the outcome bookkeeping, and a new round.
  - The class invariant ties the scores and streaks to the history through
    the folds `Tally` and `Streaks`. Lemmas say what those folds count.

Modelling choices:

- The search's float infinities are the `NegInf`/`PosInf` cases of an
  extended-integer datatype `Ext`.
- `random.choice` and `random.random` are arbitrary choices (`:|`) among the
  cells they draw from.
- The search terminates because each recursive call has one free cell fewer.
- The search requires both symbols to differ from the empty marker. The empty
  marker "wins" on an empty board (`Board.EmptyBoardLines`), and placing it
  fills no cell, so the count of free cells would not serve as the search's
  termination measure.

## Model

| member | source | states |
|---|---|---|
| Board.CheckWinnerCases | app.py:58-60 | `CheckWinner` (check_winner) holds exactly when one of the eight listed triples (rows 0-1-2, 3-4-5, 6-7-8; columns 0-3-6, 1-4-7, 2-5-8; diagonals 0-4-8, 2-4-6) holds the symbol in all three cells |
| Board.CheckWinnerIsGridLine | app.py:58-60 | the eight triples are exactly the three rows, three columns and two diagonals of the 3x3 grid read row-major |
| Board.EmptyBoardLines | app.py:58-60 | on the empty board check_winner holds for the empty marker and for no other symbol, so callers must never pass " " |
| Board.Empties | app.py:62-63 | the count of free cells is at most the board size, and it is zero exactly when `IsFull` (is_full) holds (no cell is " ") |
| Board.PlaceShrinks | app.py:82-84 | placing a symbol on a free cell removes exactly one free cell, which is why the search terminates |
| Search.Sweep | app.py:79-102 | the best child value over the cells below n is finite exactly when one of those cells is free; with no free cell below n it is the starting infinity of the player to move (minus infinity when maximizing), and it never becomes the other side's infinity |
| Search.MinimaxAB | app.py:71-102 | the board is restored on return; on a finished board the result is the terminal score; for any window with alpha < beta the result is fail-soft with respect to the unpruned minimax value; with the full window (as best_move calls it) it equals that value |
| Search.MaxPly | app.py:79-90 | the maximizing loop keeps the largest result, raises alpha and cuts off when beta <= alpha; every trial placement is undone, and the result is fail-soft against the maximum over all free cells |
| Search.MinPly | app.py:91-102 | the minimizing loop, the mirror image of MaxPly |
| Search.MaxStep | app.py:84-89 | one child of a maximizing node keeps the running maximum of results in step with the running maximum of true values, and a cut-off only happens on a result that bounds the true value from below |
| Search.MinStep | app.py:96-101 | one child of a minimizing node, the mirror image of MaxStep |
| Search.SweepMonotone | app.py:81-89 | looking at more cells never makes the value worse for the player to move, so the children skipped by a cut-off cannot undo it |
| Search.MinimaxBounds | app.py:71-77 | with depth plies played and at most 9 - depth free cells, the value lies in [depth - 10, 10 - depth]; it is 10 - depth exactly when the opponent has a line, and depth - 10 exactly when only the other player has one |
| Search.SweepBounds | app.py:79-102 | every value a ply combines lies in [depth - 9, 9 - depth] |
| Search.BestMove | app.py:105-115 | the board is unchanged afterwards; the answer is None exactly when the board is full; otherwise it is a free cell whose score no free cell beats, and no lower free cell scores as much |
| Search.BestLowestUnique | app.py:113-114 | at most one cell is the lowest best one, so the strict comparison pins best_move's answer down |
| Search.ImmediateWinTaken | app.py:110-114 | if the opponent can complete a line on a free cell and on no lower free cell, best_move picks that cell |
| Session.TopRowCompleted | app.py:105-115 | on X X _ / O O _ / _ _ _ with X to move, best_move picks cell 2 |
| Snapshot.GlyphShowsCell | app.py:20 | `Glyph`, which is EMOJIS.get(c, c), draws the empty marker as a white square and every other cell content as itself |
| Snapshot.RenderRow | app.py:130 | rendering from the start of a row emits that row's three glyphs and a newline, then the rows below it |
| Snapshot.RenderRows | app.py:129-130 | `Render` (render_board_snapshot) gives the three rows, top to bottom, each ended by a newline |
| Snapshot.PaletteGlyphs | app.py:20 | every symbol of the emoji table is drawn as one character, and different symbols are drawn differently |
| Snapshot.SameRow | app.py:130 | two rows with the same text hold the same symbols |
| Snapshot.RenderInjective | app.py:129-130 | two boards over the emoji table with the same snapshot are the same board |
| Session.TallyCounts | app.py:190-201 | the scores table holds, per player and for draws, the number of recorded rounds with that outcome, and the three entries add up to the number of rounds |
| Session.StreakStepRuns | app.py:203-208 | one recorded round keeps each player's streak equal to their trailing run of wins and keeps the last winner right |
| Session.StreaksAreTrailingRuns | app.py:202-208 | a player's streak is the number of wins in a row since someone else last won (draws do not break a run), and last_winner is the winner of the last round that was not drawn |
| Session.RecordExtendsTables | app.py:190-214 | appending a round to the history advances the scores and the streaks by exactly that round's step |
| Session.HardPickAsWrittenDiffers | app.py:126 | the as-written `best_move(...) or random.choice(...)` and the evidently intended choice (the random cell only when best_move returns None) differ exactly when best_move answers cell 0 and the random cell is another one |
| Session.HardPickAsWrittenMissesWin | app.py:126 | as written (`HardPickAsWritten`), a searched cell 0 is discarded: on the CornerWin board the winning cell 0 is dropped for a non-winning cell 7, after which crosses win |
| Session.HardPickTakesWin | app.py:126 | the evidently intended correction of this line, which the app does not contain, keeps cell 0 on CornerWin and completes the opponent's line |
| Session.Game.constructor | app.py:23-39 | a session starts with the empty board, player 1 to move, no winner, zero scores and streaks and an empty history |
| Session.Game.Click | app.py:156-175 | a click is taken only on a free cell, with no winner, by the player whose turn it is (player 2 only in multiplayer); it changes exactly that cell to the player's symbol and then sets the winner, or a draw, or passes the turn; any other click changes nothing |
| Session.Game.AiMove | app.py:117-127 | the opponent places its symbol on a free cell and changes nothing else; on Hard that cell is best_move's answer unless best_move's answer is cell 0, which `or` replaces by an arbitrary free cell |
| Session.Game.AiTurn | app.py:178-187 | in single-player mode, with player 2 to move and no winner, the opponent plays a free cell and the round is settled, on Hard best_move's answer unless that is cell 0; otherwise nothing changes |
| Session.Game.Timeout | app.py:243-264 | when time runs out with no winner, the turn passes to the other player, except in single-player mode on player 2's turn, where the opponent moves at once (on Hard, best_move's answer whenever that answer is not cell 0); with a winner nothing changes |
| Session.Game.RecordOutcome | app.py:190-214 | a finished round is counted in the scores, updates the streaks on a win and is appended to the history with its board; the invariant linking the tables to the history is kept |
| Session.Game.NewRound | app.py:217-222 | a new round has a fresh empty board, player 1 to move and no winner, and keeps scores, streaks and history |

## Left out

- Streamlit page setup, theme, widgets, buttons, `st.rerun` and the session-state plumbing (app.py:8-17, 44-55, 141-155, 225-241). The session fields are plain fields of `Game`.
- Timers and `datetime` (app.py:164, 174, 186, 220, 244-246, 252, 263). Wall-clock time is not modelled. `Game.Timeout` is the transition taken once the limit has passed.
- Sounds and `st.audio` (app.py:132-138), balloons and messages, and the CSV export (app.py:239-241) are foreign calls.
- The history's `timestamp` and `winner_name` strings (app.py:210-214). A record keeps the outcome and the board copy. Player names are display-only.
- The probabilities of `random.choice` and `random.random` (app.py:122-126). Only the set of possible choices is modelled.
- `MAX_DEPTH`, `memo` and `board_to_tuple` (app.py:65-69) are never used by the search, so there is no depth cutoff and no memo table.
- Game.RecordOutcome models one execution of the outcome block. The page script runs that block on every pass while a round stays won, including the pass that handles "New Round" (line 190 runs before line 217). So a round that is followed by "New Round" is always counted at least twice: once on the pass after the deciding move (the `st.rerun` at app.py:165, 175 or 187 leads into line 190), and again on the pass that handles "New Round". A repeat winner's streak rises by two as well. The model does not describe how many passes happen.
- Symbols equal to the empty marker: the emoji picker offers `" "` (app.py:53-54), but the model requires both symbols to differ from it. With `" "` as a symbol, check_winner is true on the empty board, so the search returns at once there (app.py:72-73 when the opponent's symbol is `" "`, app.py:74-75 when the other player's is). A placement of `" "` fills no cell, so the model's termination measure, the count of free cells, does not decrease on such a ply. The app's search terminates as long as only one symbol is `" "`. With both symbols `" "`, on a board where every line holds a mark and some cell is free, it recurses without end (app.py:79-84, 92-96).
- Symbol changes in the middle of a round (app.py:53-54 reassign the symbols on every pass). `Game` keeps the symbols fixed for the session.
- Search.MinimaxBounds: the range [depth - 10, 10 - depth] is proved for depth >= 0 with at most 9 - depth free cells. That covers every search the game runs. For larger depths a terminal score 10 - depth lies below -10, so no range [-10, 10] holds for every depth >= 0.
- The timeout's single-player branch (app.py:254-264) is never reached in the app. That branch needs single-player mode, player 2 to move and no winner, which is exactly the condition at app.py:178, and that block ends the pass with `st.rerun()` first. The method models the branch as written.
- Game.AiMove requires a free cell. On a full board `random.choice` fails in the app. The opponent's turn only runs with no winner, and the session invariant then guarantees a free cell.
- Deep concrete evaluations (scores of positions that need a long search) are not worked out. Only positions settled by an immediate win are given as examples.

## Findings

| source | as written | input that shows it | evidently intended | confidence | as-written member | corrected member |
|---|---|---|---|---|---|---|
| app.py:126 | `best_move(...) or random.choice(available)` treats a best move of cell 0 as "no move", because 0 is false in Python, and plays a random free cell instead | noughts (the opponent) to move on `_ O O / X X _ / _ _ X`: best_move returns 0, which wins the top row; the fallback may play 7, which wins nothing, and crosses then win on 5 | fall back to a random cell only when best_move returns None | high (not executed) | Session.HardPickAsWrittenMissesWin | Session.HardPickTakesWin |

`Session.HardPickAsWritten` is the as-written choice, and `Game.AiMove` plays it. On Hard, `Game.AiMove` is therefore proved to play best_move's answer whenever that answer is not cell 0. `Session.HardPick` is the evidently intended choice. `Session.HardPickTakesWin` proves that it keeps the winning cell 0 on CornerWin, and `Session.HardPickAsWrittenDiffers` proves that the two choices differ on exactly that case.
