/**
 * evaluateBoard of js/chess.js: material plus piece-square bonuses, positive for White.
 * Each table is written row by row as in the source; a black piece on (r, c) reads the
 * table at (7 - r, c).
 */
module ChessEval {
  import opened ChessBoard

  /** PIECE_VALUES. */
  function PieceValue(k: Kind): int
  {
    match k
    case Pawn => 100
    case Knight => 320
    case Bishop => 330
    case Rook => 500
    case Queen => 900
    case King => 20000
  }

  function PawnBonus(r: int, c: int): (v: int)
    requires InBounds(r, c)
    ensures -50 <= v <= 50
  {
    var row := match r
      case 0 => [0, 0, 0, 0, 0, 0, 0, 0]
      case 1 => [50, 50, 50, 50, 50, 50, 50, 50]
      case 2 => [10, 10, 20, 30, 30, 20, 10, 10]
      case 3 => [5, 5, 10, 25, 25, 10, 5, 5]
      case 4 => [0, 0, 0, 20, 20, 0, 0, 0]
      case 5 => [5, -5, -10, 0, 0, -10, -5, 5]
      case 6 => [5, 10, 10, -20, -20, 10, 10, 5]
      case _ => [0, 0, 0, 0, 0, 0, 0, 0];
    row[c]
  }

  function KnightBonus(r: int, c: int): (v: int)
    requires InBounds(r, c)
    ensures -50 <= v <= 50
  {
    var row := match r
      case 0 => [-50, -40, -30, -30, -30, -30, -40, -50]
      case 1 => [-40, -20, 0, 0, 0, 0, -20, -40]
      case 2 => [-30, 0, 10, 15, 15, 10, 0, -30]
      case 3 => [-30, 5, 15, 20, 20, 15, 5, -30]
      case 4 => [-30, 0, 15, 20, 20, 15, 0, -30]
      case 5 => [-30, 5, 10, 15, 15, 10, 5, -30]
      case 6 => [-40, -20, 0, 5, 5, 0, -20, -40]
      case _ => [-50, -40, -30, -30, -30, -30, -40, -50];
    row[c]
  }

  function BishopBonus(r: int, c: int): (v: int)
    requires InBounds(r, c)
    ensures -50 <= v <= 50
  {
    var row := match r
      case 0 => [-20, -10, -10, -10, -10, -10, -10, -20]
      case 1 => [-10, 0, 0, 0, 0, 0, 0, -10]
      case 2 => [-10, 0, 10, 10, 10, 10, 0, -10]
      case 3 => [-10, 5, 5, 10, 10, 5, 5, -10]
      case 4 => [-10, 0, 10, 10, 10, 10, 0, -10]
      case 5 => [-10, 10, 10, 10, 10, 10, 10, -10]
      case 6 => [-10, 5, 0, 0, 0, 0, 5, -10]
      case _ => [-20, -10, -10, -10, -10, -10, -10, -20];
    row[c]
  }

  function RookBonus(r: int, c: int): (v: int)
    requires InBounds(r, c)
    ensures -50 <= v <= 50
  {
    var row := match r
      case 0 => [0, 0, 0, 0, 0, 0, 0, 0]
      case 1 => [5, 10, 10, 10, 10, 10, 10, 5]
      case 2 => [-5, 0, 0, 0, 0, 0, 0, -5]
      case 3 => [-5, 0, 0, 0, 0, 0, 0, -5]
      case 4 => [-5, 0, 0, 0, 0, 0, 0, -5]
      case 5 => [-5, 0, 0, 0, 0, 0, 0, -5]
      case 6 => [-5, 0, 0, 0, 0, 0, 0, -5]
      case _ => [0, 0, 0, 5, 5, 0, 0, 0];
    row[c]
  }

  function QueenBonus(r: int, c: int): (v: int)
    requires InBounds(r, c)
    ensures -50 <= v <= 50
  {
    var row := match r
      case 0 => [-20, -10, -10, -5, -5, -10, -10, -20]
      case 1 => [-10, 0, 0, 0, 0, 0, 0, -10]
      case 2 => [-10, 0, 5, 5, 5, 5, 0, -10]
      case 3 => [-5, 0, 5, 5, 5, 5, 0, -5]
      case 4 => [0, 0, 5, 5, 5, 5, 0, -5]
      case 5 => [-10, 5, 5, 5, 5, 5, 0, -10]
      case 6 => [-10, 0, 5, 0, 0, 0, 0, -10]
      case _ => [-20, -10, -10, -5, -5, -10, -10, -20];
    row[c]
  }

  function KingBonus(r: int, c: int): (v: int)
    requires InBounds(r, c)
    ensures -50 <= v <= 50
  {
    var row := match r
      case 0 => [-30, -40, -40, -50, -50, -40, -40, -30]
      case 1 => [-30, -40, -40, -50, -50, -40, -40, -30]
      case 2 => [-30, -40, -40, -50, -50, -40, -40, -30]
      case 3 => [-30, -40, -40, -50, -50, -40, -40, -30]
      case 4 => [-20, -30, -30, -40, -40, -30, -30, -20]
      case 5 => [-10, -20, -20, -20, -20, -20, -20, -10]
      case 6 => [20, 20, 0, 0, 0, 0, 20, 20]
      case _ => [20, 30, 10, 0, 0, 10, 30, 20];
    row[c]
  }

  /** POSITION_BONUS[kind][r][c]. */
  function Bonus(k: Kind, r: int, c: int): (v: int)
    requires InBounds(r, c)
    ensures -50 <= v <= 50
  {
    match k
    case Pawn => PawnBonus(r, c)
    case Knight => KnightBonus(r, c)
    case Bishop => BishopBonus(r, c)
    case Rook => RookBonus(r, c)
    case Queen => QueenBonus(r, c)
    case King => KingBonus(r, c)
  }

  /** The largest contribution one square can make: a king (20000) on its best square. */
  const SquareBound: int := 20050

  /** The largest absolute evaluation of any board. */
  const EvalBound: int := 64 * SquareBound

  /**
   * One square's term of evaluateBoard: value plus bonus, counted for White and against
   * Black, with Black's table mirrored vertically.
   */
  function SquareScore(b: Board, r: int, c: int): (v: int)
    requires InBounds(r, c)
    ensures -SquareBound <= v <= SquareBound
    ensures b[r][c] == Empty ==> v == 0
    ensures b[r][c].Has? && b[r][c].color == White ==> v > 0
    ensures b[r][c].Has? && b[r][c].color == Black ==> v < 0
  {
    match b[r][c]
    case Empty => 0
    case Has(color, k) =>
      if color == White then PieceValue(k) + Bonus(k, r, c)
      else -(PieceValue(k) + Bonus(k, 7 - r, c))
  }

  /** The sum of SquareScore over the first n squares of row r. */
  function RowScore(b: Board, r: int, n: nat): (v: int)
    requires 0 <= r < 8 && n <= 8
    ensures -(n as int) * SquareBound <= v <= n * SquareBound
  {
    if n == 0 then 0 else RowScore(b, r, n - 1) + SquareScore(b, r, n - 1)
  }

  /** The sum of SquareScore over the first n rows. */
  function RowsScore(b: Board, n: nat): (v: int)
    requires n <= 8
    ensures -(n as int) * 8 * SquareBound <= v <= n * 8 * SquareBound
  {
    if n == 0 then 0 else RowsScore(b, n - 1) + RowScore(b, n - 1, |b[n - 1]|)
  }

  /** evaluateBoard as a value: the sum over all 64 squares. */
  function Evaluation(b: Board): (v: int)
    ensures -EvalBound <= v <= EvalBound
  {
    RowsScore(b, |b|)
  }

  /** evaluateBoard: the double loop over rows and columns accumulating `score`. */
  method EvaluateBoard(b: Board) returns (score: int)
    ensures score == Evaluation(b)
  {
    score := 0;
    for r := 0 to 8
      invariant score == RowsScore(b, r)
    {
      var rowStart := score;
      for c := 0 to 8
        invariant score == rowStart + RowScore(b, r, c)
      {
        score := score + SquareScore(b, r, c);
      }
    }
  }

  /**
   * Swapping the colours of all pieces and mirroring the board top to bottom negates every
   * square's term: the evaluation treats both sides alike.
   */
  lemma SquareScoreMirror(b: Board, m: Board, r: int, c: int)
    requires InBounds(r, c)
    requires m[7 - r][c] == match b[r][c] case Empty => Empty case Has(color, k) => Has(Enemy(color), k)
    ensures SquareScore(m, 7 - r, c) == -SquareScore(b, r, c)
  {
  }
}
