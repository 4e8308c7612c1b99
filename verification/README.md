# Chess and checkers rule engines, verified

A Dafny model of the two board-game engines of the `junior` site: the chess engine in
`js/chess.js` and the checkers engine in `js/checkers.js`. For each game the model covers:

- the board;
- move generation and legality;
- the board update;
- the game-end decision;
- the position evaluation;
- the alpha-beta search the computer opponent uses, and how it picks its move;
- the mutable game session that clicks, the online peer and the computer drive.

Each engine's module-level state (`board`, `currentTurn`, `selectedCell`, `validMoves`,
`gameOver`, castling rights, the en-passant target, `multiJumpPiece`, …) is a `Session` class.
Its methods update the fields in place, as `makeMove`, `switchTurn` and `checkGameEnd` do.
Everything that only computes (`getPseudoMoves`, `simulateMove`, `getMovesForPiece`,
`evaluateBoard`, …) is a function.

Both games' searches (`minimax`, `checkersMinmax`) are one alpha-beta routine over different
move generators, so they share one engine. `AlphaBeta.Game` bundles a move generator, a move
application, a leaf evaluation and the score of a node without moves:

- `AlphaBeta.Value` is plain minimax over that game (no pruning).
- `AlphaBeta.Search` is the pruned loop with `break` at a cut-off. It is proved fail-soft
  against `Value`: a result strictly inside the window is exact, and one on either side
  bounds the exact value on that side.
- `AlphaBeta.SelectBest` is the root loop of `aiMove`. It is proved to return exactly the
  moves with the best root score.

Files:

| file | module | contents |
|---|---|---|
| `wrappers.dfy` | `Wrappers` | `Option` |
| `alphabeta.dfy` | `AlphaBeta` | the generic minimax value, the fail-soft alpha-beta search, root selection |
| `chess_board.dfy` | `ChessBoard` | pieces, the 8×8 board, the initial position |
| `chess_moves.dfy` | `ChessMoves` | `getPseudoMoves`, `isSquareAttacked`, `findKing`, `isInCheck`, `simulateMove`, `getLegalMoves` |
| `chess_eval.dfy` | `ChessEval` | piece values, piece-square tables, `evaluateBoard` |
| `chess_search.dfy` | `ChessSearch` | `getAllMovesForColor`, `hasAnyLegalMoves`, `minimax`, `aiMove`'s choice |
| `chess_opening.dfy` | `ChessOpening` | White's twenty legal moves in the starting position |
| `chess_game.dfy` | `ChessPlay` | `makeMove`, `switchTurn`, `checkGameEnd`, the session |
| `checkers_board.dfy` | `CheckersBoard` | the board, `getMovesForPiece`, `getAllJumps`, `getLegalMoves`, `simulateAIMove`, piece counts |
| `checkers_search.dfy` | `CheckersSearch` | `getAllAIMoves`, `evaluateBoard`, `checkersMinmax`, `aiMove`'s choice |
| `checkers_game.dfy` | `CheckersPlay` | `makeMove` with multi-jump continuation, `countPieces`, `hasLegalMoves`, `checkGameEnd`, the session, `aiMove`/`doAITurn` |

Behaviour of the source that the model keeps and states as lemmas:

- **`isSquareAttacked` counts pawn pushes as attacks.** It asks `getPseudoMoves` of every
  enemy piece, so a square a pawn could push onto counts as attacked, while a square it
  attacks diagonally does not count unless an enemy stands there. `ChessMoves.IsSquareAttackedIff`
  states the rule exactly as the code has it.
- **The search drops fewer castling rights than the real move.** `minimax` clears castling
  rights only for king and rook moves. `makeMove` also clears a right when a rook's corner is
  captured onto. `ChessPlay.SearchRightsKeepMore` shows that the search keeps at least the
  real rights, and exactly them away from the corners. `ChessPlay.SearchRightsMissesCornerCapture`
  gives a concrete case where they differ.
- **`aiMove` (chess) keeps the castling rights unchanged at the root.** It passes the current
  castling rights to every root child unchanged, whoever moved. `ChessSearch.AIScoreIs` states
  this.
- **Promotions are checked for king safety as queens.** `getLegalMoves` checks king safety
  on the board `simulateMove` builds, where the promoted pawn is always a queen, while the
  dialog (js/chess.js:569) lets the player pick a queen, rook, bishop or knight.
  `ChessPlay.AfterMoveKeepsCheck` shows that the choice cannot matter: `isInCheck` sees the
  promoted piece only as a piece of the mover's colour on that square. So the king-safety
  guarantee of `ChessPlay.Session.PlayLegal` covers every piece the dialog offers.
- **Checkers `hasLegalMoves` ignores the capture rule.** It looks at every move, not just the
  mandatory jumps. `CheckersPlay.HasMovesIffAIMoves` shows that it still agrees with the
  computer's move list.
- **The checkers remote handler leaves a stale selection.** See "Findings".
- **The checkers AI continuation is not locked to the jumping piece.** The continuation of a
  computer multi-jump (`doAITurn` calling itself) asks `getAllAIMoves` again instead of
  restricting play to the piece that just jumped. `CheckersPlay.AIContinuationIgnoresLock`
  shows that another black piece's jump is offered there, although `getLegalMoves` would
  refuse it under the multi-jump lock.

## Model

| member | source | states |
|---|---|---|
| `ChessBoard.Put` | js/chess.js:392-393 | writing one square changes that square and no other |
| `ChessBoard.InitialBoard` | js/chess.js:163-172 | the starting position: White's back rank rook, knight, bishop, queen, king, bishop, knight, rook on row 7, Black's the same kinds on row 0, pawns on rows 1 and 6, empty middle rows |
| `ChessMoves.Ray` | js/chess.js:250-276 | every square a slide produces is empty (a move) or enemy-held (a capture) |
| `ChessMoves.RayShape` | js/chess.js:252-259 | a slide yields at most n squares, consecutive along its direction, all but the last a quiet move |
| `ChessMoves.RayStopsAtBlocker` | js/chess.js:254-258 | a slide that ends early or on a quiet move ends because the next square is off the board or held by an own piece |
| `ChessMoves.Rays` | js/chess.js:250-276 | every target of the rook, bishop and queen directions is empty or enemy-held |
| `ChessMoves.Leap` | js/chess.js:280-283 | one knight or king step yields at most that square, and does yield it unless it is off the board or own-held |
| `ChessMoves.Leaps` | js/chess.js:278-293 | the knight and king steps give at most one move per offset, each onto an empty or enemy-held square |
| `ChessMoves.LeapsSound` | js/chess.js:279-283 | each knight or king move lands on the origin plus one of the offsets |
| `ChessMoves.LeapsComplete` | js/chess.js:279-283 | every offset whose target is on the board and not own-held produces a move there |
| `ChessMoves.PawnForward` | js/chess.js:229-237 | pawn pushes go to empty squares ahead (double push from the start row, promotion on the last row) and never capture |
| `ChessMoves.PawnDiagonal` | js/chess.js:238-247 | diagonal pawn moves capture an enemy piece or take en passant on the en-passant target one row ahead |
| `ChessMoves.PawnMoves` | js/chess.js:228-248 | all pawn moves satisfy the target rules and none is a castling move |
| `ChessMoves.ReachableIsGood` | js/chess.js:250-293 | slide and leap targets satisfy the same target rules as pawn moves, without en passant |
| `ChessMoves.PieceMoves` | js/chess.js:250-293 | rook, bishop, queen, knight and king moves land on empty or enemy-held squares |
| `ChessMoves.BasicMoves` | js/chess.js:219-293 | an empty square has no moves; every non-castling move lands on the board, not on the origin and not on an own piece |
| `ChessMoves.PseudoMoves` | js/chess.js:219-312 | getPseudoMoves: nothing from an empty square, every target obeys the target rules, every move can be applied |
| `ChessMoves.CastleKingsideIff` | js/chess.js:294-301 | a kingside castle is offered iff the king is on e1/e8, the right is held, f and g are empty, the rook is on h, and e, f, g are not attacked |
| `ChessMoves.CastleQueensideIff` | js/chess.js:302-306 | a queenside castle is offered iff the king is on e1/e8, the right is held, b, c, d are empty, the rook is on a, and e, d, c are not attacked |
| `ChessMoves.AttackedFromRowIntro` | js/chess.js:316-320 | an attacker in the scanned part of a row makes the square attacked |
| `ChessMoves.AttackedFromRowElim` | js/chess.js:316-320 | a row reports an attack only when some scanned square of it holds an attacker |
| `ChessMoves.AttackedFromRowsIntro` | js/chess.js:315-320 | an attacker anywhere in the scanned rows makes the square attacked |
| `ChessMoves.AttackedFromRowsElim` | js/chess.js:315-320 | the scan reports an attack only when some scanned square holds an attacker |
| `ChessMoves.IsSquareAttackedIff` | js/chess.js:314-324 | a square is attacked iff some piece of the attacker has a pseudo-move (no en passant, no castling) landing on it |
| `ChessMoves.KingInRowSpec` | js/chess.js:328-329 | the row scan finds the first king of that colour in the row, or reports that there is none |
| `ChessMoves.KingInRowsSpec` | js/chess.js:327-329 | the scan over the first rows finds the first king in row-major order, or there is none |
| `ChessMoves.FindKingSpec` | js/chess.js:326-331 | findKing returns the first square in row-major order holding the king, or null when there is no king |
| `ChessMoves.RaySame` | js/chess.js:252-259 | a slide depends only on which squares are empty and on the colour of the others |
| `ChessMoves.RaysSame` | js/chess.js:250-276 | the rook, bishop and queen slides depend only on which squares are empty and on the colour of the others |
| `ChessMoves.LeapsSame` | js/chess.js:278-293 | the knight and king steps depend only on which squares are empty and on the colour of the others |
| `ChessMoves.PawnMovesSame` | js/chess.js:228-248 | without an en-passant target, the pawn moves depend only on which squares are empty and on the colour of the others |
| `ChessMoves.PieceMovesSame` | js/chess.js:250-293 | the moves of a rook, bishop, queen, knight or king depend only on which squares are empty and on the colour of the others |
| `ChessMoves.PseudoMovesSame` | js/chess.js:219-312 | getPseudoMoves without en passant and castling gives the same moves for the same piece on two boards with the same empty squares and colours |
| `ChessMoves.AttackedSame` | js/chess.js:314-324 | isSquareAttacked answers the same on two boards with the same empty squares and colours and the same attacking pieces |
| `ChessMoves.KingInRowSame` | js/chess.js:328-329 | the row scan for a king gives the same answer when that colour's kings stand on the same squares of the row |
| `ChessMoves.KingInRowsSame` | js/chess.js:327-329 | the scan over the first rows gives the same answer when that colour's kings stand on the same squares |
| `ChessMoves.InCheckSame` | js/chess.js:333-338 | isInCheck depends only on which squares are empty, the colours, the side's kings and the enemy's pieces: the kind of an own non-king piece does not matter |
| `ChessMoves.SimulateMoveEffect` | js/chess.js:351-370 | simulateMove moves the piece (a promotion makes a queen), removes the en-passant victim, moves the castling rook, and keeps every other square |
| `ChessMoves.KingSafe` | js/chess.js:345-348 | the filter keeps a subset of the candidate moves |
| `ChessMoves.KingSafeIff` | js/chess.js:345-348 | a move survives the filter iff the mover's king is not in check after simulateMove |
| `ChessMoves.LegalMoves` | js/chess.js:340-349 | every legal move can be applied to the board |
| `ChessMoves.LegalMovesIff` | js/chess.js:340-349 | a move is legal iff the square holds a piece, the move is one of its pseudo-moves with castling, and the mover is not in check afterwards |
| `ChessEval.PawnBonus` | js/chess.js:85-94 | the pawn table's bonus is within ±50 |
| `ChessEval.KnightBonus` | js/chess.js:95-104 | the knight table's bonus is within ±50 |
| `ChessEval.BishopBonus` | js/chess.js:105-114 | the bishop table's bonus is within ±50 |
| `ChessEval.RookBonus` | js/chess.js:115-124 | the rook table's bonus is within ±50 |
| `ChessEval.QueenBonus` | js/chess.js:125-134 | the queen table's bonus is within ±50 |
| `ChessEval.KingBonus` | js/chess.js:135-144 | the king table's bonus is within ±50 |
| `ChessEval.Bonus` | js/chess.js:630-631 | the positional bonus of any piece is within ±50 |
| `ChessEval.SquareScore` | js/chess.js:625-632 | a square scores 0 when empty, positive for White and negative for Black, and is bounded |
| `ChessEval.RowScore` | js/chess.js:624-633 | a row's score is bounded by its length times the square bound |
| `ChessEval.RowsScore` | js/chess.js:623-634 | the score of the first rows is bounded by their square count times the square bound |
| `ChessEval.Evaluation` | js/chess.js:621-636 | the whole evaluation is bounded, strictly inside the search sentinels |
| `ChessEval.EvaluateBoard` | js/chess.js:621-636 | the nested loop computes the evaluation |
| `ChessEval.SquareScoreMirror` | js/chess.js:630-632 | a piece mirrored to the other colour and row scores the exact negative (Black reads the tables flipped vertically) |
| `ChessSearch.PliesFrom` | js/chess.js:644 | one ply per legal move of the square, all from that square |
| `ChessSearch.PliesFromIff` | js/chess.js:644 | a ply is produced iff it starts at the square and its move is among the legal moves |
| `ChessSearch.SquarePlies` | js/chess.js:642-644 | a square contributes plies iff it holds a piece of the colour with a legal move, and every ply can be applied |
| `ChessSearch.RowPlies` | js/chess.js:641-645 | every ply a row contributes can be applied |
| `ChessSearch.Collected` | js/chess.js:640-647 | every collected ply can be applied |
| `ChessSearch.Captures` | js/chess.js:649-651 | the capture part draws only from the input plies |
| `ChessSearch.Quiet` | js/chess.js:649-651 | the non-capture part draws only from the input plies |
| `ChessSearch.CapturesIff` | js/chess.js:649-651 | a ply is in the capture part iff it is an input capture or en passant |
| `ChessSearch.QuietIff` | js/chess.js:649-651 | a ply is in the quiet part iff it is an input ply that is not a capture |
| `ChessSearch.CaptureFirstPermutes` | js/chess.js:648-652 | the move ordering is a permutation of the collected plies |
| `ChessSearch.CaptureFirstOrdered` | js/chess.js:648-652 | after the ordering, captures and en passant come first and all other moves after them |
| `ChessSearch.OrderedPlies` | js/chess.js:638-654 | every ply getAllMovesForColor returns can be applied |
| `ChessSearch.OrderedPliesIff` | js/chess.js:648-653 | sorting keeps exactly the collected plies |
| `ChessSearch.RowPliesIff` | js/chess.js:641-646 | a row's plies are exactly the legal plies starting in its scanned columns |
| `ChessSearch.CollectedIff` | js/chess.js:640-647 | the collection is exactly the legal plies starting in the scanned rows |
| `ChessSearch.OrderedPliesLegal` | js/chess.js:638-654 | getAllMovesForColor returns exactly the legal plies of the colour |
| `ChessSearch.PushPlies` | js/chess.js:644 | the inner loop appends one ply per legal move |
| `ChessSearch.AllMovesForColor` | js/chess.js:638-654 | the loops and the sort return the capture-first ordering of all legal plies |
| `ChessSearch.HasAnyLegalMoves` | js/chess.js:372-380 | true iff some piece of the colour has a legal move |
| `ChessSearch.ScanRow` | js/chess.js:374-377 | a row scan reports a legal move only when there is one, and otherwise the row contributes no ply |
| `ChessSearch.RowPliesEmpty` | js/chess.js:374-377 | a row contributes no ply iff none of its scanned squares has a movable piece |
| `ChessSearch.CollectedEmpty` | js/chess.js:373-378 | nothing is collected iff no scanned square has a movable piece |
| `ChessSearch.NoPliesIffNoLegalMoves` | js/chess.js:372-380 | getAllMovesForColor is empty iff hasAnyLegalMoves is false |
| `ChessSearch.SearchRights` | js/chess.js:669-674 | the search clears both rights on a king move and one right on a rook move from a or h, keeps the enemy's rights, and changes nothing otherwise |
| `ChessSearch.MateScore` | js/chess.js:660-663 | a mate found within the three plies of the search scores between 99996 and 99999 against the mated side |
| `ChessSearch.ChessBounded` | js/chess.js:656-701 | up to depth 3 every leaf evaluation and every mate or stalemate score lies within the evaluation bound, so every minimax value stays strictly inside the sentinels |
| `ChessSearch.ChessValueNoMoves` | js/chess.js:660-663 | with no legal ply a node scores as mate (adjusted by depth) when in check and 0 when stalemated |
| `ChessSearch.ChessValueBestChild` | js/chess.js:664-700 | a node's value is the best child value for its side, and some child attains it |
| `ChessSearch.Minimax` | js/chess.js:656-701 | the alpha-beta minimax is fail-soft against the exact minimax value |
| `ChessSearch.AIScoreIs` | js/chess.js:709-712 | a root ply scores as the depth-2 maximizing search of the child, with the en-passant target it creates and the castling rights unchanged |
| `ChessSearch.AIOptimalIff` | js/chess.js:713-719 | an optimal root ply is one whose score no other ply beats (the lowest, for Black) |
| `ChessSearch.AIChoices` | js/chess.js:705-719 | bestMoves holds exactly Black's optimal plies, and is empty only when Black has no legal ply |
| `ChessPlay.RightsAfterMove` | js/chess.js:402-410 | makeMove clears a right when its king moves, its rook leaves its corner, or any move lands on that corner |
| `ChessPlay.RightsOnlyDrop` | js/chess.js:402-410 | a move never restores a castling right |
| `ChessPlay.SearchRightsKeepMore` | js/chess.js:669-674 | the search keeps every right makeMove keeps, and the same rights when the move lands away from the corners |
| `ChessPlay.SearchRightsMissesCornerCapture` | js/chess.js:407-408 | a capture onto h8 clears Black's kingside right in makeMove but not in the search |
| `ChessPlay.Taken` | js/chess.js:385-390 | makeMove adds at most the destination's piece and, for en passant, the victim square's content to the mover's list; nothing when the destination is empty and the move is not en passant |
| `ChessPlay.AfterMoveIsSimulate` | js/chess.js:382-396 | makeMove builds the same board as simulateMove, except for a promotion to a piece other than a queen |
| `ChessPlay.AfterMoveKeepsCheck` | js/chess.js:382-396 | after a promotion to any piece but a king, the mover is in check exactly when it is on simulateMove's queen board |
| `ChessPlay.BoardUpdateMatches` | js/chess.js:387-396 | makeMove's board writes, in its own order, give the board after the move |
| `ChessPlay.Verdict` | js/chess.js:419-434 | play goes on iff the side to move has a legal move; checkmate requires check and names the other side; stalemate requires no check |
| `ChessPlay.VerdictMatchesSearch` | js/chess.js:419-434 | the game ends iff the search finds no ply; a checkmate scores as mate and a stalemate as 0 in the search |
| `ChessPlay.Session.Init` | js/chess.js:177-190 | the initial position, White to move, all castling rights, no en-passant target, empty histories and selection |
| `ChessPlay.Session.PushCaptured` | js/chess.js:386 | a captured piece is appended to the capturing side's list only; every other field, the selection included, is kept |
| `ChessPlay.Session.RecordCaptures` | js/chess.js:385-391 | the captured piece (and the pawn taken en passant) are appended to the mover's captures; every other field is kept |
| `ChessPlay.Session.MovePieces` | js/chess.js:387-396 | the board after the writes is the board after the move; every other field is kept |
| `ChessPlay.Session.DropRights` | js/chess.js:402-410 | the rights after the move are RightsAfterMove's, and every other field is kept |
| `ChessPlay.Session.Record` | js/chess.js:397-412 | the en-passant target of a double step (none otherwise), the rights after the move and the history entry; board, turn, captured lists and selection kept |
| `ChessPlay.Session.MakeMove` | js/chess.js:382-413 | makeMove: new board, en-passant target, castling rights, captured lists and history entry; turn, game-over and selection unchanged |
| `ChessPlay.Session.SwitchTurn` | js/chess.js:415-417 | the side to move flips and nothing else changes |
| `ChessPlay.Session.CheckGameEnd` | js/chess.js:419-434 | the outcome is the verdict for the side to move, game-over is set when it is not ongoing, and nothing else changes |
| `ChessPlay.Session.Commit` | js/chess.js:543-551 | makeMove, switchTurn, checkGameEnd: the combined effect on every field, the selection left as it was |
| `ChessPlay.Session.Select` | js/chess.js:553-559 | clicking a piece of the side to move selects it with its legal moves, none of which leaves the mover in check; any other square clears the selection |
| `ChessPlay.Session.Deselect` | js/chess.js:544-545 | the selection and its moves are cleared and nothing else changes |
| `ChessPlay.Session.PlayLegal` | js/chess.js:535-551 | a legal clicked move: the board after the move, the turn passes, the mover's king is safe after any promotion but to a king, the en-passant target, rights, captured lists and history entry of makeMove, the game-end verdict, the selection cleared |
| `ChessPlay.Session.ApplyDescriptor` | js/chess.js:193-200 | a peer's move is applied as makeMove with its promotion type (board, en-passant target, rights, captured lists, history), then switchTurn and checkGameEnd; the selection is left as it was |
| `ChessPlay.Session.AIMove` | js/chess.js:703-729 | nothing at all changes when the game is over or Black cannot move; otherwise an optimal legal ply is played (promoting to a queen) with makeMove's en-passant target, rights, captures and history entry, the turn passes, game-over follows the verdict, and the selection is kept |
| `ChessOpening.InitialLayout` | js/chess.js:163-172 | INITIAL_BOARD has both armies on their home rows and rows 2-5 empty |
| `ChessOpening.RaysBlocked` | js/chess.js:252-258 | a slide whose first square in every direction is off the board or own-held yields nothing |
| `ChessOpening.LeapsBlocked` | js/chess.js:279-283 | a knight or king whose every step is off the board or own-held has no move |
| `ChessOpening.BlackPawnNear` | js/chess.js:228-248 | a black pawn on rows 0-1 moves only onto rows 2-3 |
| `ChessOpening.LeaperNear` | js/chess.js:278-293 | a knight or king on rows 0-1 moves at most two rows down |
| `ChessOpening.BlackSliderStuck` | js/chess.js:250-276 | a black rook, bishop or queen on row 0 behind a full row of pawns has no move |
| `ChessOpening.PseudoMovesOf` | js/chess.js:219-312 | without castling, getPseudoMoves of a pawn is its pawn moves and of any other piece its slides or steps |
| `ChessOpening.BlackStaysNear` | js/chess.js:219-312 | while Black's pieces are all on rows 0-1 with pawns on row 1, each of their pseudo-moves lands on rows 0-3 |
| `ChessOpening.BlackAtHomeNoCheck` | js/chess.js:333-338 | with Black still at home, a white king on rows 4-7 is not in check |
| `ChessOpening.OpeningPawn` | js/chess.js:229-247 | a white pawn on its start row has exactly the single and the double push |
| `ChessOpening.KnightLeaps` | js/chess.js:278-293 | a knight on b1 or g1 has exactly its two jumps onto row 5 |
| `ChessOpening.OpeningKnight` | js/chess.js:219-312 | getPseudoMoves of a knight on b1 or g1 is those two jumps |
| `ChessOpening.HemmedIn` | js/chess.js:163-172 | every square next to a piece of row 7 is off the board or held by White |
| `ChessOpening.WhiteSliderStuck` | js/chess.js:250-276 | White's rooks, bishops and queen on row 7 cannot slide |
| `ChessOpening.OpeningSliderStuck` | js/chess.js:219-312 | White's rooks, bishops and queen have no pseudo-move |
| `ChessOpening.OpeningKingStuck` | js/chess.js:278-306 | White's king has no step, and both castlings are blocked by the pieces between king and rooks |
| `ChessOpening.OpeningMoveSafe` | js/chess.js:340-370 | no pawn push or knight jump onto rows 4-5 exposes White's king |
| `ChessOpening.KingSafeKeepsAll` | js/chess.js:345-348 | the king-safety filter keeps the whole list when no move exposes the king |
| `ChessOpening.OpeningPawnLegal` | js/chess.js:340-349 | both pushes of each pawn are legal |
| `ChessOpening.OpeningKnightLegal` | js/chess.js:340-349 | both jumps of each knight are legal |
| `ChessOpening.OpeningLegalCount` | js/chess.js:340-349 | each pawn and knight has two legal moves, every other white piece none |
| `ChessOpening.OpeningSquare` | js/chess.js:642-644 | the number of plies each square contributes for White in the opening |
| `ChessOpening.OpeningRow` | js/chess.js:641-645 | row 6 contributes two plies per column, row 7 two per knight, the other rows none |
| `ChessOpening.OpeningRows` | js/chess.js:640-647 | the first seven rows contribute 16 plies and all eight 20 |
| `ChessOpening.OpeningTwentyMoves` | js/chess.js:638-654 | from the opening layout, with any castling rights, getAllMovesForColor gives White exactly 20 plies |
| `ChessOpening.InitialTwentyMoves` | js/chess.js:638-654 | in the starting position White to move has exactly 20 legal plies |
| `AlphaBeta.MaxNodeStep` | js/chess.js:676-679 | one child of a maximizing node keeps the loop invariant or proves a cut-off |
| `AlphaBeta.MinNodeStep` | js/chess.js:694-697 | one child of a minimizing node keeps the loop invariant or proves a cut-off |
| `AlphaBeta.MaxNodeDone` | js/chess.js:681 | a finished maximizing loop returns a fail-soft value |
| `AlphaBeta.MinNodeDone` | js/chess.js:699 | a finished minimizing loop returns a fail-soft value |
| `AlphaBeta.FailHigh` | js/chess.js:679 | a result at or above beta that bounds the truth from below is fail-soft |
| `AlphaBeta.FailLow` | js/chess.js:697 | a result at or below alpha that bounds the truth from above is fail-soft |
| `AlphaBeta.BestSnoc` | js/chess.js:678 | adding a child takes the max (or min) of the running best and its value |
| `AlphaBeta.BestPrefix` | js/chess.js:666-680 | the best over a prefix of the children never beats the best over all of them |
| `AlphaBeta.BestIsBest` | js/chess.js:664-700 | no child's value beats the node's best |
| `AlphaBeta.BestAttained` | js/chess.js:664-700 | in a bounded game some child attains the node's best |
| `AlphaBeta.ValueBounded` | js/chess.js:656-701 | in a bounded game every minimax value is within the bound |
| `AlphaBeta.BestBounded` | js/chess.js:664-700 | in a bounded game the best child value is within the bound |
| `AlphaBeta.FullWindowExact` | js/chess.js:712 | a search called with the infinite window returns the exact value |
| `AlphaBeta.Search` | js/chess.js:656-701 | the alpha-beta search is fail-soft against the exact minimax value |
| `AlphaBeta.MaxChildStep` | js/chess.js:666-680 | the maximizing loop's step, stated against the prefix of the children searched so far |
| `AlphaBeta.MinChildStep` | js/chess.js:684-698 | the minimizing loop's step, stated against the prefix of the children searched so far |
| `AlphaBeta.MaxNode` | js/chess.js:664-681 | the maximizing loop with its cut-off is fail-soft against the best child value |
| `AlphaBeta.MinNode` | js/chess.js:682-700 | the minimizing loop with its cut-off is fail-soft against the best child value |
| `AlphaBeta.TiesIff` | js/chess.js:713-719 | the tie list holds exactly the moves scoring the given score |
| `AlphaBeta.TiesNone` | js/chess.js:713-719 | with no move at that score the tie list is empty |
| `AlphaBeta.SelectBest` | js/chess.js:707-719 | the root loop returns the best score (attained, unbeaten) and exactly the optimal moves, and is empty only when there are no moves |
| `CheckersBoard.Put` | js/checkers.js:128-131 | writing one square changes that square and no other |
| `CheckersBoard.InitialRow` | js/checkers.js:41-52 | each row of the starting position holds the layout's squares |
| `CheckersBoard.InitialBoard` | js/checkers.js:41-52 | dark squares hold black men on rows 0-2 and red men on rows 5-7; all other squares are empty |
| `CheckersBoard.DirsAdvance` | js/checkers.js:78-79 | red men move up, black men down, kings both ways |
| `CheckersBoard.StepsAlongIff` | js/checkers.js:81-87 | a step is produced iff it goes one row in an allowed direction and one column aside onto an empty square |
| `CheckersBoard.JumpsAlongIff` | js/checkers.js:81-92 | a jump is produced iff it goes over an adjacent opponent piece in an allowed direction onto the empty square beyond |
| `CheckersBoard.MovesForPieceIff` | js/checkers.js:70-97 | getMovesForPiece returns exactly the piece's steps and exactly its jumps |
| `CheckersBoard.RowJumpsIff` | js/checkers.js:102-106 | a row's entries are exactly its own pieces, in the scanned columns, that can jump, with their jumps |
| `CheckersBoard.RowsJumpsIff` | js/checkers.js:101-107 | the entries of the scanned rows are exactly their pieces that can jump |
| `CheckersBoard.AllJumpsIff` | js/checkers.js:99-110 | getAllJumps lists exactly the pieces of the colour that can jump, and is empty iff no piece can jump |
| `CheckersBoard.FindJumps` | js/checkers.js:120 | the lookup finds an entry for the square iff one is listed |
| `CheckersBoard.LegalMovesRule` | js/checkers.js:112-124 | the selection rule: nothing for a non-own square or another square than the multi-jump piece; jumps only during a multi-jump; otherwise jumps when any piece can jump, else steps |
| `CheckersBoard.LegalMovesSound` | js/checkers.js:112-124 | every legal move belongs to an own piece, is one of its steps or jumps, and a step only when no capture is pending |
| `CheckersBoard.LegalIsApplicable` | js/checkers.js:112-124 | every legal move can be applied to the board |
| `CheckersBoard.SimulateAIMove` | js/checkers.js:312-322 | the piece lands (crowned on the far row), the origin and the jumped square empty, every other square kept |
| `CheckersBoard.RowCountPut` | js/checkers.js:155-161 | writing a square changes a row's count by what left and what arrived |
| `CheckersBoard.RowsCountPut` | js/checkers.js:155-161 | writing a square changes the count of the scanned rows by what left and what arrived |
| `CheckersBoard.CountPut` | js/checkers.js:155-161 | writing a square changes a colour's piece count by what left and what arrived |
| `CheckersBoard.CountPositive` | js/checkers.js:155-161 | a colour with a piece on the board has a positive count |
| `CheckersBoard.SimulateAIMoveCounts` | js/checkers.js:126-135 | a move keeps the mover's count, and a jump lowers the opponent's count by one |
| `CheckersBoard.SimulateIsWrites` | js/checkers.js:126-135 | makeMove's writes, in its own order, give simulateAIMove's board |
| `CheckersSearch.PliesFrom` | js/checkers.js:304-305 | one ply per move of the square |
| `CheckersSearch.PliesFromIff` | js/checkers.js:304-305 | a ply is produced iff it starts at the square with one of its moves |
| `CheckersSearch.RowPliesIff` | js/checkers.js:301-307 | a row contributes exactly the offers of its scanned squares |
| `CheckersSearch.RowsPliesIff` | js/checkers.js:300-308 | the scanned rows contribute exactly their squares' offers |
| `CheckersSearch.CollectIff` | js/checkers.js:297-308 | the jump list (and the move list) holds exactly the jumps (steps) of the colour's pieces |
| `CheckersSearch.CollectJumpsEmpty` | js/checkers.js:304 | the jump list is nonempty iff some piece of the colour can jump |
| `CheckersSearch.AIMovesAreLegal` | js/checkers.js:297-310 | getAllAIMoves returns exactly the plies getLegalMoves allows the colour when no multi-jump is under way |
| `CheckersSearch.AIMovesApplicable` | js/checkers.js:297-310 | every AI ply moves an own piece onto an empty square, and a jump goes over an opponent piece |
| `CheckersSearch.InitialRedSide` | js/checkers.js:41-52 | the starting position has no red piece on rows 0-4, row 4 empty, and red men on exactly the dark squares of rows 5-7 |
| `CheckersSearch.PliesFromPair` | js/checkers.js:305 | two moves of a square give two plies in the same order |
| `CheckersSearch.RedManOptions` | js/checkers.js:78-92 | a red man looks only upward: two step targets and two jump targets |
| `CheckersSearch.OpeningRedMen` | js/checkers.js:70-97 | at the opening no red man can jump, and the men behind the front row cannot move |
| `CheckersSearch.OpeningNoRedJump` | js/checkers.js:99-110 | at the opening Red has no jump |
| `CheckersSearch.EmptyRow` | js/checkers.js:300-308 | at the opening only row 5 offers Red any move |
| `CheckersSearch.RowFiveGaps` | js/checkers.js:302 | at the opening the light squares of row 5 offer nothing |
| `CheckersSearch.RowFiveMen` | js/checkers.js:303-305 | at the opening each red man of row 5 offers its diagonal steps, edges having one |
| `CheckersSearch.OpeningRowFive` | js/checkers.js:300-308 | at the opening row 5 offers Red's seven steps in scan order |
| `CheckersSearch.OpeningRedMoves` | js/checkers.js:297-310 | any board with the opening's red side gives Red exactly the seven opening steps |
| `CheckersSearch.InitialRedMoves` | js/checkers.js:297-310 | Red's moves in the starting position are exactly its seven opening steps, in scan order |
| `CheckersSearch.SquareValue` | js/checkers.js:284-291 | a square is worth 0 when empty, positive for Black and negative for Red, and is bounded |
| `CheckersSearch.RowValue` | js/checkers.js:283-292 | a row's value is bounded by its length times the square bound |
| `CheckersSearch.RowsValue` | js/checkers.js:282-293 | the value of the scanned rows is bounded by their square count times the square bound |
| `CheckersSearch.Evaluate` | js/checkers.js:280-295 | the evaluation is bounded, well inside the search sentinels |
| `CheckersSearch.CheckersBounded` | js/checkers.js:324-350 | every minmax value stays within the evaluation bound |
| `CheckersSearch.CheckersValueLeaf` | js/checkers.js:327 | at depth 0 or without moves a node scores its evaluation |
| `CheckersSearch.CheckersValueBestChild` | js/checkers.js:329-349 | a node's value is the best child value for its side, and some child attains it |
| `CheckersSearch.Minmax` | js/checkers.js:324-350 | the alpha-beta minmax is fail-soft against the exact minimax value |
| `CheckersSearch.AIScoreIs` | js/checkers.js:360-361 | a root ply scores as the depth-4 minimizing search of the child board |
| `CheckersSearch.AIOptimalIff` | js/checkers.js:362-367 | an optimal root ply is one whose score no other ply beats (the highest, for Black) |
| `CheckersSearch.AIChoices` | js/checkers.js:355-368 | bestMoves holds exactly Black's optimal plies, and is empty only when Black has no move |
| `CheckersPlay.HasMovesIffAIMoves` | js/checkers.js:163-173 | hasLegalMoves is true iff getAllAIMoves offers a ply |
| `CheckersPlay.Verdict` | js/checkers.js:175-195 | play goes on iff both sides have pieces and the side to move can move; a side wins by capturing everything or by leaving the other side without moves |
| `CheckersPlay.OngoingHasLegalMove` | js/checkers.js:175-195 | while play goes on, the side to move has a move getLegalMoves allows |
| `CheckersPlay.AIContinuationIgnoresLock` | js/checkers.js:355-375 | during a computer multi-jump any black piece's jump is offered, though getLegalMoves refuses it away from the locked piece |
| `CheckersPlay.JumpCount` | js/checkers.js:352-386 | the jumps of a played sequence are at most its length |
| `CheckersPlay.RunCons` | js/checkers.js:354-384 | an optimal applicable first ply followed by an optimal run from the board it leaves is an optimal run, replayed ply by ply |
| `CheckersPlay.OptimalRunEach` | js/checkers.js:354-384 | in an optimal run every ply can be applied to, and is optimal for, the board the earlier plies leave |
| `CheckersPlay.FindTarget` | js/checkers.js:250 | validMoves.find: nothing iff no offered move lands on the square, else the first offered move landing there |
| `CheckersPlay.Session.Init` | js/checkers.js:29-52 | the starting position, Red to move, no selection, no multi-jump, game not over, and the selection consistent |
| `CheckersPlay.Session.MakeMove` | js/checkers.js:126-149 | the board after the move; the turn ends unless a jump can continue, and then the landed piece is locked and selected with its jumps |
| `CheckersPlay.Session.SwitchTurn` | js/checkers.js:151-153 | the side to move flips and nothing else changes |
| `CheckersPlay.Session.CountPieces` | js/checkers.js:155-161 | the loops count the colour's pieces |
| `CheckersPlay.Session.HasLegalMoves` | js/checkers.js:163-173 | true iff some piece of the colour has a step or a jump |
| `CheckersPlay.Session.RowHasMover` | js/checkers.js:165-169 | the inner loop over a row finds a piece of the colour that can move, or none of the row's squares has one |
| `CheckersPlay.Session.CheckGameEnd` | js/checkers.js:175-195 | the outcome is the verdict for the side to move, game-over is set when it is not ongoing, and nothing else changes |
| `CheckersPlay.Session.Select` | js/checkers.js:265-271 | outside a multi-jump, clicking an own piece selects it with its legal moves and any other square clears the selection; during a multi-jump nothing changes; a consistent selection stays consistent |
| `CheckersPlay.Session.PlayLegal` | js/checkers.js:251-263 | a legal clicked move: the board after it, piece counts, and either the turn passes with the verdict and the selection cleared, or the same side continues, locked to the landed piece, which alone has legal moves; the selection is consistent afterwards |
| `CheckersPlay.Session.Click` | js/checkers.js:245-275 | onCellClick: a move is played iff something is selected and an offered move lands on the square, and it is then the first such move, legal for the selected piece; otherwise only the selection changes, to the clicked square iff it holds a piece of the side to move outside a multi-jump; the selection stays consistent |
| `CheckersPlay.Session.ApplyDescriptorAsWritten` | js/checkers.js:54-63 | the remote handler as written: makeMove, the turn passes when it is over, the verdict is taken, and at the end of the turn the selection is left as it was |
| `CheckersPlay.Session.ApplyDescriptor` | js/checkers.js:54-63 | the remote handler with the selection cleared when the turn is over: then nothing is selected; during a multi-jump the landed piece is locked and selected with its jumps; the selection is consistent afterwards |
| `CheckersPlay.Session.AIStep` | js/checkers.js:355-383 | one round of doAITurn: no ply iff Black cannot move, and then only the verdict is taken; otherwise an optimal ply is played, counts change by the capture, and either the jumping piece is locked and selected with its jumps, or the turn passes with the selection cleared |
| `CheckersPlay.Session.PlayAIPly` | js/checkers.js:370-383 | playing a chosen AI ply: the board after it, the counts, and the continuation locked to the landed piece, or the turn passing with the selection cleared and the verdict |
| `CheckersPlay.Session.DoAITurn` | js/checkers.js:354-384 | the computer's whole turn: the board is the replay of the played plies, each optimal for the board it was played on, every ply but the last is a jump, Red loses one piece per jump, the turn passes with the selection and lock cleared, and the verdict is taken |
| `CheckersPlay.Session.AIMove` | js/checkers.js:352-386 | nothing when the game is over; otherwise doAITurn's guarantees |
| `CheckersPlay.ScenarioBoard` | js/checkers.js:41-52 | the three boards of the remote multi-jump example, square by square |
| `CheckersPlay.ScenarioJumps` | js/checkers.js:126-135 | the red man's jumps (6,1) to (4,3) and (4,3) to (2,5) can be applied and lead from each example board to the next |
| `CheckersPlay.ScenarioContinues` | js/checkers.js:136-145 | after the first jump the red man can jump again and play goes on |
| `CheckersPlay.ScenarioEnds` | js/checkers.js:136-147 | after the second jump the red man cannot jump again, (4,3) is empty and (2,5) holds the red man; Black has no legal move from (4,3) |
| `CheckersPlay.ScenarioGoesOn` | js/checkers.js:175-195 | after the second jump play goes on with Black to move |
| `CheckersPlay.ScenarioCounts` | js/checkers.js:155-161 | both sides still have pieces after the second jump |
| `CheckersPlay.ScenarioBlackMoves` | js/checkers.js:297-310 | Black has a move after the second jump |
| `CheckersPlay.RemoteFirstJump` | js/checkers.js:54-63 | the peer's first jump keeps Red on move, locked to (4,3), with the second jump offered |
| `CheckersPlay.RemoteSecondJump` | js/checkers.js:54-63 | the peer's second jump passes the turn to Black but leaves (4,3) selected with its jump to (2,5) offered |
| `CheckersPlay.StaleSelectionAfterRemoteJump` | js/checkers.js:54-63 | after a peer's double jump Black's selection names the empty square (4,3), a click on (2,5) finds an offered move that cannot be applied, and the selection is not consistent |

## Left out

- Rendering, status text, game-over dialogs, the promotion dialog's DOM, piece images and
  team tables: presentation only. The promotion choice reaches the model as the `promo`
  argument of `ChessPlay.Session.MakeMove`.
- Timers (`setTimeout` before the computer moves and between its jumps) are left out. The
  computer's move is a direct call, and a multi-jump continuation is a recursive call.
- `Math.random` becomes a parameter: `pick` (chess) and `picks` (checkers, one index per
  round). Each is reduced modulo the number of best moves.
- The online transport (`Multiplayer.sendMove`, `setOnMoveReceived`), `myColor` and the
  `vsAI`/online guards in `onCellClick` are left out. A received move is the `Descriptor`
  argument of `ApplyDescriptor`.
- `lastMove` is display-only state and is not modelled.
- Checkers `mustJump` is set but never read, and is not modelled.
- ChessPlay.Session.ApplyDescriptor: requires the move to be applicable (on the board, a
  piece on the origin). On a malformed peer message the source would throw or write outside
  the board. A peer's move is otherwise applied without a legality check, as the source does.
- CheckersPlay.Session.ApplyDescriptor: requires the move to be applicable. Both squares
  must be on the board, with a piece on the origin. The target must differ from the origin:
  for a move onto its own square, makeMove (js/checkers.js:128-129) writes the piece and
  then erases it. A jump's captured square must differ from the target: otherwise the write
  at js/checkers.js:130-132 erases the piece that just landed. The same holds for
  CheckersPlay.Session.ApplyDescriptorAsWritten. No move the peer's own engine generates
  breaks these conditions.
- ChessPlay.Session.PlayLegal: its king-safety guarantee excludes a promotion to a king.
  The dialog never offers one (js/chess.js:569).
- Infinity: `-Infinity`/`Infinity` in both searches are the sentinels ∓10 000 000. Every
  evaluation and mate score lies strictly inside them (`ChessBounded`, `CheckersBounded`),
  so results are unchanged.
- CheckersSearch.SquareValue: the checkers evaluation uses fractional weights (3, 5, 0.3
  per row, 0.5 centre bonus). The model scales all weights by 10 to integers. JavaScript's
  binary floating point rounds `r * 0.3` and the running sum, so two scores the model calls
  equal may differ in their last bits there. This can change which moves tie in `aiMove`.
- Both searches are specified by functions (`ChessValue`, `CheckersValue`) that call
  `getAllMovesForColor`/`getAllAIMoves` as functions. The loop versions
  (`AllMovesForColor`, `CountPieces`, `EvaluateBoard`, …) are proved equal to them.
- ChessSearch.ChessBounded: is stated up to depth 3, the deepest search the source makes.
  The mate score `99999 - (3 - depth)` is the quantity that needs the depth bound.
- The searches treat each checkers jump as one ply and do not follow multi-jumps, as
  `checkersMinmax` does.
- In a ply played inside the search, a non-applicable ply leaves the board unchanged. This
  never happens: every generated ply is applicable (`OrderedPlies`, `AIMovesApplicable`).
- ChessMoves.EpAfter: the en-passant target after a double step is `(fromR + move.r) / 2`.
  For a double step the generator produces, the rows are 6 and 4 or 1 and 3, so the sum is
  even and the division exact. A peer's descriptor is not checked. A 'double' move with an
  odd row sum gives JavaScript a fractional row that matches no square, and then no en
  passant is possible. The model rounds that row down instead.
- js/app.js, js/multiplayer.js and the server are not part of this model.

## Findings

| source | as written | input that shows it | evidently intended | confidence | as-written member | corrected member |
|---|---|---|---|---|---|---|
| js/checkers.js:55-63 | when a peer's move ends its turn, the handler switches the turn but leaves `selectedCell` and `validMoves` as makeMove last set them during the peer's multi-jump | online game, Red (the peer) to move: red man on (6,1), black men on (5,2), (3,4) and (0,1); the peer jumps (6,1) to (4,3), then (4,3) to (2,5). Black is then to move with (4,3), now empty, still selected and the jump to (2,5) still offered. A click on (2,5) replays that jump from the empty square: makeMove copies the empty origin over the red man on (2,5), then fails reading the missing piece's colour (js/checkers.js:133) | clear the selection when the turn is over, as the click path (js/checkers.js:257-258) and the computer's turn (js/checkers.js:377-378) do | not executed | `CheckersPlay.StaleSelectionAfterRemoteJump` | `CheckersPlay.Session.ApplyDescriptor` |
