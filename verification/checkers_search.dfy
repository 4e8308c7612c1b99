/**
 * The checkers computer player of js/checkers.js: getAllAIMoves, evaluateBoard (scaled to
 * integers), checkersMinmax with alpha-beta pruning and the selection loop of aiMove.
 * Black maximises, Red minimises. The search is specified by CheckersValue, plain minimax
 * without pruning; the pruned method is proved fail-soft against it.
 */
module CheckersSearch {
  import opened Wrappers
  import opened AlphaBeta
  import opened CheckersBoard

  /** `{ fromR, fromC, move }`. */
  datatype Ply = Ply(fromR: int, fromC: int, move: Move)

  // ---------------------------------------------------------------------------------------
  // getAllAIMoves

  function PliesFrom(r: int, c: int, ms: seq<Move>): (ps: seq<Ply>)
    ensures |ps| == |ms|
  {
    if |ms| == 0 then [] else [Ply(r, c, ms[0])] + PliesFrom(r, c, ms[1..])
  }

  lemma {:induction false} PliesFromIff(r: int, c: int, ms: seq<Move>)
    ensures forall p :: p in PliesFrom(r, c, ms) <==> p.fromR == r && p.fromC == c && p.move in ms
  {
    if |ms| > 0 {
      PliesFromIff(r, c, ms[1..]);
      assert forall m :: m in ms <==> m == ms[0] || m in ms[1..];
    }
  }

  /** The moves of the piece on (r, c) that getAllAIMoves collects into allJumps (jumps) or allMoves (plain moves). */
  function PieceMoves(b: Board, r: int, c: int, jumps: bool): seq<Move>
    requires InBounds(r, c)
  {
    if jumps then MovesForPiece(b, r, c).jumps else MovesForPiece(b, r, c).moves
  }

  function SquarePlies(b: Board, color: Side, jumps: bool, r: int, c: int): seq<Ply>
    requires InBounds(r, c)
  {
    if OwnedBy(b, r, c, color) then PliesFrom(r, c, PieceMoves(b, r, c, jumps)) else []
  }

  function RowPlies(b: Board, color: Side, jumps: bool, r: int, n: nat): seq<Ply>
    requires 0 <= r < 8 && n <= 8
  {
    if n == 0 then [] else RowPlies(b, color, jumps, r, n - 1) + SquarePlies(b, color, jumps, r, n - 1)
  }

  function RowsPlies(b: Board, color: Side, jumps: bool, n: nat): seq<Ply>
    requires n <= 8
  {
    if n == 0 then [] else RowsPlies(b, color, jumps, n - 1) + RowPlies(b, color, jumps, n - 1, 8)
  }

  /** allJumps (jumps = true) or allMoves (jumps = false) after the double loop. */
  function Collect(b: Board, color: Side, jumps: bool): seq<Ply>
  {
    RowsPlies(b, color, jumps, 8)
  }

  /** getAllAIMoves: every jump of `color` if there is one, otherwise every plain move. */
  function AIMoves(color: Side, b: Board): seq<Ply>
  {
    var allJumps := Collect(b, color, true);
    if |allJumps| > 0 then allJumps else Collect(b, color, false)
  }

  /** A ply of a piece of `color` whose move getMovesForPiece lists among its jumps or plain moves. */
  predicate PieceOffers(b: Board, color: Side, jumps: bool, p: Ply)
  {
    InBounds(p.fromR, p.fromC) && OwnedBy(b, p.fromR, p.fromC, color) && p.move in PieceMoves(b, p.fromR, p.fromC, jumps)
  }

  lemma {:induction false} RowPliesIff(b: Board, color: Side, jumps: bool, r: int, n: nat)
    requires 0 <= r < 8 && n <= 8
    ensures forall p :: p in RowPlies(b, color, jumps, r, n) <==> p.fromR == r && 0 <= p.fromC < n && PieceOffers(b, color, jumps, p)
  {
    if n > 0 {
      RowPliesIff(b, color, jumps, r, n - 1);
      var front, sq := RowPlies(b, color, jumps, r, n - 1), SquarePlies(b, color, jumps, r, n - 1);
      assert RowPlies(b, color, jumps, r, n) == front + sq;
      PliesFromIff(r, n - 1, PieceMoves(b, r, n - 1, jumps));
      forall p: Ply
        ensures p in front + sq <==> p.fromR == r && 0 <= p.fromC < n && PieceOffers(b, color, jumps, p)
      {
        if p.fromR == r && p.fromC == n - 1 {
          assert p !in front;
        } else {
          assert p !in sq;
        }
      }
    }
  }

  lemma {:induction false} RowsPliesIff(b: Board, color: Side, jumps: bool, n: nat)
    requires n <= 8
    ensures forall p :: p in RowsPlies(b, color, jumps, n) <==> 0 <= p.fromR < n && PieceOffers(b, color, jumps, p)
  {
    if n > 0 {
      RowsPliesIff(b, color, jumps, n - 1);
      RowPliesIff(b, color, jumps, n - 1, 8);
    }
  }

  /** The collected lists hold exactly the jumps, or exactly the plain moves, of the pieces of `color`. */
  lemma CollectIff(b: Board, color: Side, jumps: bool)
    ensures forall p :: p in Collect(b, color, jumps) <==> PieceOffers(b, color, jumps, p)
  {
    RowsPliesIff(b, color, jumps, 8);
  }

  /** allJumps is empty exactly when no piece of `color` can jump. */
  lemma CollectJumpsEmpty(b: Board, color: Side)
    ensures |Collect(b, color, true)| > 0 <==> AnyJump(b, color)
  {
    CollectIff(b, color, true);
    if AnyJump(b, color) {
      var r, c :| 0 <= r < 8 && 0 <= c < 8 && CanJump(b, color, r, c);
      var m := MovesForPiece(b, r, c).jumps[0];
      assert PieceOffers(b, color, true, Ply(r, c, m));
    }
    if |Collect(b, color, true)| > 0 {
      var p := Collect(b, color, true)[0];
      assert PieceOffers(b, color, true, p);
      assert CanJump(b, color, p.fromR, p.fromC);
    }
  }

  /**
   * The computer's move list and a player's are the same moves: a ply is in getAllAIMoves
   * exactly when getLegalMoves, outside a multi-jump, offers its move for its square.
   */
  lemma AIMovesAreLegal(color: Side, b: Board)
    ensures forall p :: p in AIMoves(color, b) <==>
      InBounds(p.fromR, p.fromC) && p.move in LegalMoves(b, color, None, p.fromR, p.fromC)
  {
    CollectIff(b, color, true);
    CollectIff(b, color, false);
    CollectJumpsEmpty(b, color);
    forall p: Ply | InBounds(p.fromR, p.fromC)
      ensures p.move in LegalMoves(b, color, None, p.fromR, p.fromC) <==>
        PieceOffers(b, color, AnyJump(b, color), p)
    {
      LegalMovesRule(b, color, None, p.fromR, p.fromC);
    }
  }

  /** Every ply of getAllAIMoves can be applied, and a jump among them takes a piece of the opponent. */
  lemma AIMovesApplicable(color: Side, b: Board, p: Ply)
    requires p in AIMoves(color, b)
    ensures Applicable(b, p.fromR, p.fromC, p.move)
    ensures b[p.fromR][p.fromC].color == color && b[p.move.r][p.move.c] == Vacant
    ensures p.move.Jump? ==>
      b[p.move.capturedR][p.move.capturedC].Occupied? && b[p.move.capturedR][p.move.capturedC].color == Opponent(color)
  {
    AIMovesAreLegal(color, b);
    LegalMovesSound(b, color, None, p.fromR, p.fromC, p.move);
  }

  /**
   * What the initial layout looks like from Red's side: no red piece on rows 0-4, row 4
   * empty, and red men on the dark squares of rows 5-7 with their light squares empty.
   */
  predicate RedOpeningLayout(b: Board)
  {
    && (forall r, c :: 0 <= r <= 4 && 0 <= c < 8 ==> !OwnedBy(b, r, c, Red))
    && (forall c :: 0 <= c < 8 ==> b[4][c] == Vacant)
    && (forall r, c :: 5 <= r < 8 && 0 <= c < 8 ==> b[r][c] == if (r + c) % 2 == 1 then Occupied(Red, false) else Vacant)
  }

  lemma InitialRedSide()
    ensures RedOpeningLayout(InitialBoard())
  {
  }

  lemma PliesFromPair(r: int, c: int, m1: Move, m2: Move)
    ensures PliesFrom(r, c, [m1, m2]) == [Ply(r, c, m1), Ply(r, c, m2)]
  {
    assert [m1, m2][1..] == [m2];
    assert PliesFrom(r, c, [m2]) == [Ply(r, c, m2)];
  }

  /** A red man looks only up the board: its moves and jumps are those of direction -1. */
  lemma RedManOptions(b: Board, r: int, c: int)
    requires InBounds(r, c) && b[r][c] == Occupied(Red, false)
    ensures MovesForPiece(b, r, c).moves == StepTo(b, r, c, -1, -1) + StepTo(b, r, c, -1, 1)
    ensures MovesForPiece(b, r, c).jumps == JumpOver(b, r, c, Red, -1, -1) + JumpOver(b, r, c, Red, -1, 1)
  {
    var dirs := Dirs(Red, false);
    assert dirs == [-1] && dirs[1..] == [];
    assert StepsAlong(b, r, c, dirs) == StepTo(b, r, c, -1, -1) + StepTo(b, r, c, -1, 1) + [];
    assert JumpsAlong(b, r, c, Red, dirs) == JumpOver(b, r, c, Red, -1, -1) + JumpOver(b, r, c, Red, -1, 1) + [];
  }

  /** In that layout no red man can jump, and those on rows 6 and 7 cannot move at all. */
  lemma OpeningRedMen(b: Board, r: int, c: int)
    requires RedOpeningLayout(b) && InBounds(r, c) && OwnedBy(b, r, c, Red)
    ensures MovesForPiece(b, r, c).jumps == []
    ensures r >= 6 ==> MovesForPiece(b, r, c).moves == []
  {
    RedManOptions(b, r, c);
    assert (r - 1 + c - 1) % 2 == (r + c) % 2 && (r - 1 + c + 1) % 2 == (r + c) % 2;
  }

  lemma OpeningNoRedJump(b: Board)
    requires RedOpeningLayout(b)
    ensures !AnyJump(b, Red)
  {
    forall r, c | 0 <= r < 8 && 0 <= c < 8
      ensures !CanJump(b, Red, r, c)
    {
      if OwnedBy(b, r, c, Red) {
        OpeningRedMen(b, r, c);
      }
    }
  }

  /**
   * From the initial layout Red has exactly seven moves, none of them a jump: each of the
   * four men on row 5 steps diagonally onto row 4 (the one on the edge one way, the others
   * two ways), and the men behind them are blocked.
   */
  lemma InitialRedMoves()
    ensures AIMoves(Red, InitialBoard()) ==
      [Ply(5, 0, Step(4, 1)), Ply(5, 2, Step(4, 1)), Ply(5, 2, Step(4, 3)), Ply(5, 4, Step(4, 3)),
       Ply(5, 4, Step(4, 5)), Ply(5, 6, Step(4, 5)), Ply(5, 6, Step(4, 7))]
  {
    InitialRedSide();
    OpeningRedMoves(InitialBoard());
  }

  lemma OpeningRedMoves(b: Board)
    requires RedOpeningLayout(b)
    ensures AIMoves(Red, b) ==
      [Ply(5, 0, Step(4, 1)), Ply(5, 2, Step(4, 1)), Ply(5, 2, Step(4, 3)), Ply(5, 4, Step(4, 3)),
       Ply(5, 4, Step(4, 5)), Ply(5, 6, Step(4, 5)), Ply(5, 6, Step(4, 7))]
  {
    OpeningNoRedJump(b);
    CollectJumpsEmpty(b, Red);
    EmptyRow(b, 0, 8);
    EmptyRow(b, 1, 8);
    EmptyRow(b, 2, 8);
    EmptyRow(b, 3, 8);
    EmptyRow(b, 4, 8);
    OpeningRowFive(b);
    EmptyRow(b, 6, 8);
    EmptyRow(b, 7, 8);
    assert RowsPlies(b, Red, false, 1) == [];
    assert RowsPlies(b, Red, false, 2) == [];
    assert RowsPlies(b, Red, false, 3) == [];
    assert RowsPlies(b, Red, false, 4) == [];
    assert RowsPlies(b, Red, false, 5) == [];
    assert RowsPlies(b, Red, false, 6) == RowPlies(b, Red, false, 5, 8);
    assert RowsPlies(b, Red, false, 7) == RowPlies(b, Red, false, 5, 8);
    assert RowsPlies(b, Red, false, 8) == RowPlies(b, Red, false, 5, 8);
    assert |Collect(b, Red, true)| == 0;
  }

  /** Rows 0-4 hold no red man and rows 6-7 only blocked ones: none of them contributes a move. */
  lemma {:induction false} EmptyRow(b: Board, r: int, n: nat)
    requires RedOpeningLayout(b) && 0 <= r < 8 && r != 5 && n <= 8
    ensures RowPlies(b, Red, false, r, n) == []
  {
    if n > 0 {
      EmptyRow(b, r, n - 1);
      if OwnedBy(b, r, n - 1, Red) {
        OpeningRedMen(b, r, n - 1);
      }
    }
  }

  lemma OpeningRowFive(b: Board)
    requires RedOpeningLayout(b)
    ensures RowPlies(b, Red, false, 5, 8) ==
      [Ply(5, 0, Step(4, 1)), Ply(5, 2, Step(4, 1)), Ply(5, 2, Step(4, 3)), Ply(5, 4, Step(4, 3)),
       Ply(5, 4, Step(4, 5)), Ply(5, 6, Step(4, 5)), Ply(5, 6, Step(4, 7))]
  {
    RowFiveGaps(b);
    RowFiveMen(b);
    assert RowPlies(b, Red, false, 5, 1) == [Ply(5, 0, Step(4, 1))];
    assert RowPlies(b, Red, false, 5, 2) == [Ply(5, 0, Step(4, 1))];
    assert RowPlies(b, Red, false, 5, 3) == [Ply(5, 0, Step(4, 1)), Ply(5, 2, Step(4, 1)), Ply(5, 2, Step(4, 3))];
    assert RowPlies(b, Red, false, 5, 4) == RowPlies(b, Red, false, 5, 3);
    assert RowPlies(b, Red, false, 5, 5) == RowPlies(b, Red, false, 5, 3) + [Ply(5, 4, Step(4, 3)), Ply(5, 4, Step(4, 5))];
    assert RowPlies(b, Red, false, 5, 6) == RowPlies(b, Red, false, 5, 5);
    assert RowPlies(b, Red, false, 5, 7) == RowPlies(b, Red, false, 5, 5) + [Ply(5, 6, Step(4, 5)), Ply(5, 6, Step(4, 7))];
  }

  /** The light squares of row 5 are empty. */
  lemma RowFiveGaps(b: Board)
    requires RedOpeningLayout(b)
    ensures SquarePlies(b, Red, false, 5, 1) == [] && SquarePlies(b, Red, false, 5, 3) == []
    ensures SquarePlies(b, Red, false, 5, 5) == [] && SquarePlies(b, Red, false, 5, 7) == []
  {
    assert b[5][1] == Vacant && b[5][3] == Vacant && b[5][5] == Vacant && b[5][7] == Vacant;
  }

  /** Each red man of row 5 steps onto the empty dark squares of row 4 diagonally ahead of it. */
  lemma RowFiveMen(b: Board)
    requires RedOpeningLayout(b)
    ensures SquarePlies(b, Red, false, 5, 0) == [Ply(5, 0, Step(4, 1))]
    ensures SquarePlies(b, Red, false, 5, 2) == [Ply(5, 2, Step(4, 1)), Ply(5, 2, Step(4, 3))]
    ensures SquarePlies(b, Red, false, 5, 4) == [Ply(5, 4, Step(4, 3)), Ply(5, 4, Step(4, 5))]
    ensures SquarePlies(b, Red, false, 5, 6) == [Ply(5, 6, Step(4, 5)), Ply(5, 6, Step(4, 7))]
  {
    assert b[5][0] == Occupied(Red, false) && b[5][2] == Occupied(Red, false);
    assert b[5][4] == Occupied(Red, false) && b[5][6] == Occupied(Red, false);
    assert b[4][1] == Vacant && b[4][3] == Vacant && b[4][5] == Vacant && b[4][7] == Vacant;
    RedManOptions(b, 5, 0);
    RedManOptions(b, 5, 2);
    RedManOptions(b, 5, 4);
    RedManOptions(b, 5, 6);
    PliesFromPair(5, 2, Step(4, 1), Step(4, 3));
    PliesFromPair(5, 4, Step(4, 3), Step(4, 5));
    PliesFromPair(5, 6, Step(4, 5), Step(4, 7));
  }

  // ---------------------------------------------------------------------------------------
  // evaluateBoard, scaled by 10

  /**
   * One square's term of evaluateBoard times ten: a king is worth 50, a man 30 plus 3 per
   * row advanced, a piece on the central 4x4 squares 5 more; Black counts positive, Red
   * negative.
   */
  function SquareValue(x: Square, r: int, c: int): (v: int)
    requires InBounds(r, c)
    ensures -SquareBound <= v <= SquareBound
    ensures x == Vacant ==> v == 0
    ensures x.Occupied? && x.color == Black ==> v > 0
    ensures x.Occupied? && x.color == Red ==> v < 0
  {
    match x
    case Vacant => 0
    case Occupied(color, king) =>
      var base := if king then 50 else 30 + 3 * (if color == Black then r else 7 - r);
      var value := base + (if 2 <= c <= 5 && 2 <= r <= 5 then 5 else 0);
      if color == Black then value else -value
  }

  /** The largest contribution of one square: a man on its last row before crowning, in the centre or not. */
  const SquareBound: int := 56

  const EvalBound: int := 64 * SquareBound

  function RowValue(b: Board, r: int, n: nat): (v: int)
    requires 0 <= r < 8 && n <= 8
    ensures -(n as int) * SquareBound <= v <= n * SquareBound
  {
    if n == 0 then 0 else RowValue(b, r, n - 1) + SquareValue(b[r][n - 1], r, n - 1)
  }

  function RowsValue(b: Board, n: nat): (v: int)
    requires n <= 8
    ensures -(n as int) * 8 * SquareBound <= v <= n * 8 * SquareBound
  {
    if n == 0 then 0 else RowsValue(b, n - 1) + RowValue(b, n - 1, 8)
  }

  /** evaluateBoard times ten: the sum over all squares. */
  function Evaluate(b: Board): (v: int)
    ensures -EvalBound <= v <= EvalBound
  {
    RowsValue(b, 8)
  }

  // ---------------------------------------------------------------------------------------
  // checkersMinmax

  /** The side a search node moves for: Black when maximising. */
  function Mover(maximizing: bool): Side { if maximizing then Black else Red }

  /** The moves checkersMinmax loops over. */
  function NodeMoves(b: Board, maximizing: bool): seq<Ply>
  {
    AIMoves(Mover(maximizing), b)
  }

  /** simulateAIMove for a ply; any ply the loop cannot see leaves the board as it is. */
  function PlayPly(b: Board, maximizing: bool, p: Ply): Board
  {
    if Applicable(b, p.fromR, p.fromC, p.move) then SimulateAIMove(b, p.fromR, p.fromC, p.move) else b
  }

  /** A side with no move is scored like a depth-0 leaf: evaluateBoard. */
  function NoMoveScore(b: Board, depth: nat, maximizing: bool): int
  {
    Evaluate(b)
  }

  /** The checkers game tree: Black maximises, Red minimises. */
  function CheckersGame(): Game<Board, Ply>
  {
    Game(NodeMoves, PlayPly, Evaluate, NoMoveScore)
  }

  /** The value checkersMinmax computes when nothing is pruned. */
  function CheckersValue(b: Board, depth: nat, maximizing: bool): int
  {
    Value(CheckersGame(), b, depth, maximizing)
  }

  lemma CheckersBounded(depth: nat)
    ensures Bounded(CheckersGame(), EvalBound, depth)
  {
  }

  /** `if (depth === 0 || moves.length === 0) return evaluateBoard(brd)`. */
  lemma CheckersValueLeaf(b: Board, depth: nat, maximizing: bool)
    requires depth == 0 || |AIMoves(Mover(maximizing), b)| == 0
    ensures CheckersValue(b, depth, maximizing) == Evaluate(b)
  {
    assert depth > 0 ==> CheckersGame().moves(b, maximizing) == [];
  }

  /**
   * Otherwise the value is the best child's: no ply leads to a board whose value beats it,
   * and some ply leads to one whose value equals it.
   */
  lemma CheckersValueBestChild(b: Board, depth: nat, maximizing: bool)
    requires depth > 0 && |AIMoves(Mover(maximizing), b)| > 0
    ensures var plies, v := AIMoves(Mover(maximizing), b), CheckersValue(b, depth, maximizing);
      && (forall p :: p in plies ==>
            && Applicable(b, p.fromR, p.fromC, p.move)
            && var child := CheckersValue(SimulateAIMove(b, p.fromR, p.fromC, p.move), depth - 1, !maximizing);
               if maximizing then child <= v else v <= child)
      && (exists p :: p in plies && Applicable(b, p.fromR, p.fromC, p.move)
            && CheckersValue(SimulateAIMove(b, p.fromR, p.fromC, p.move), depth - 1, !maximizing) == v)
  {
    var g := CheckersGame();
    var plies := AIMoves(Mover(maximizing), b);
    assert g.moves(b, maximizing) == plies;
    assert Value(g, b, depth, maximizing) == Best(g, b, depth, maximizing, plies);
    BestIsBest(g, b, depth, maximizing, plies);
    CheckersBounded(depth);
    BestAttained(g, EvalBound, b, depth, maximizing, plies);
    forall p | p in plies
      ensures Applicable(b, p.fromR, p.fromC, p.move)
      ensures g.play(b, maximizing, p) == SimulateAIMove(b, p.fromR, p.fromC, p.move)
    {
      AIMovesApplicable(Mover(maximizing), b, p);
    }
  }

  /**
   * checkersMinmax: alpha-beta search with the cutoff `beta <= alpha`, fail-soft with
   * respect to the unpruned value.
   */
  method Minmax(b: Board, depth: nat, alpha: int, beta: int, maximizing: bool) returns (v: int)
    requires NegInf <= alpha < beta <= PosInf
    ensures FailSoft(alpha, beta, v, CheckersValue(b, depth, maximizing))
  {
    v := Search(CheckersGame(), b, depth, alpha, beta, maximizing);
  }

  // ---------------------------------------------------------------------------------------
  // aiMove

  function RootChildren(b: Board): Ply -> Board
  {
    p => PlayPly(b, true, p)
  }

  /** The score aiMove gives Black's ply p: checkersMinmax at depth 4 with Red to move. */
  function AIScore(b: Board, p: Ply): int
  {
    RootScore(CheckersGame(), RootChildren(b), 4, true, p)
  }

  /** The score of a ply of getAllAIMoves is the unpruned value of the board it leads to. */
  lemma AIScoreIs(b: Board, p: Ply)
    requires p in AIMoves(Black, b)
    ensures Applicable(b, p.fromR, p.fromC, p.move)
      && AIScore(b, p) == CheckersValue(SimulateAIMove(b, p.fromR, p.fromC, p.move), 4, false)
  {
    AIMovesApplicable(Black, b, p);
  }

  /** A ply aiMove may choose: one of Black's plies with no higher score among them. */
  lemma AIOptimalIff(b: Board, plies: seq<Ply>, p: Ply)
    ensures Optimal(CheckersGame(), RootChildren(b), 4, true, plies, p) <==>
      p in plies && forall q :: q in plies ==> AIScore(b, q) <= AIScore(b, p)
  {
  }

  /**
   * The selection loop of doAITurn: every ply of getAllAIMoves('black') searched with
   * checkersMinmax(sim, 4, -Infinity, +Infinity, false); a higher score restarts bestMoves,
   * an equal one joins it. The chosen plies are exactly Black's optimal plies, and there is
   * one whenever Black has a move.
   */
  method AIChoices(b: Board) returns (best: seq<Ply>)
    ensures forall p :: p in best <==> Optimal(CheckersGame(), RootChildren(b), 4, true, AIMoves(Black, b), p)
    ensures |best| > 0 <==> |AIMoves(Black, b)| > 0
  {
    var plies := AIMoves(Black, b);
    CheckersBounded(4);
    var bestScore;
    best, bestScore := SelectBest(CheckersGame(), EvalBound, RootChildren(b), 4, true, plies);
  }
}
