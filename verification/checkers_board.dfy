/**
 * The checkers board of js/checkers.js and its move generator: the 8x8 grid of optional
 * `{ color, king }` pieces, the initial layout of init, getMovesForPiece, getAllJumps, the
 * legality rule of getLegalMoves (mandatory capture, the multi-jump lock) and
 * simulateAIMove, all as functions of a board value.
 */
module CheckersBoard {
  import opened Wrappers

  /** 'red' moves up the board (towards row 0), 'black' down. */
  datatype Side = Red | Black

  /** A square: empty (null) or a piece `{ color, king }`. */
  datatype Square = Vacant | Occupied(color: Side, king: bool)

  datatype Sq = Sq(r: int, c: int)

  function Opponent(s: Side): Side { if s == Red then Black else Red }

  predicate InBounds(r: int, c: int) { 0 <= r < 8 && 0 <= c < 8 }

  predicate IsGrid(g: seq<seq<Square>>)
  {
    |g| == 8 && forall r :: 0 <= r < 8 ==> |g[r]| == 8
  }

  type Board = g: seq<seq<Square>> | IsGrid(g) witness seq(8, _ => seq(8, _ => Vacant))

  /** `brd[r][c] = x`. */
  function Put(b: Board, r: int, c: int, x: Square): (s: Board)
    requires InBounds(r, c)
    ensures forall i, j :: InBounds(i, j) ==> s[i][j] == (if i == r && j == c then x else b[i][j])
  {
    b[r := b[r][c := x]]
  }

  predicate OwnedBy(b: Board, r: int, c: int, color: Side)
    requires InBounds(r, c)
  {
    b[r][c].Occupied? && b[r][c].color == color
  }

  // ---------------------------------------------------------------------------------------
  // init

  /** The dark squares ((r + c) odd) of rows 0-2 hold black men, those of rows 5-7 red men. */
  function InitialSquare(r: int, c: int): Square
  {
    if (r + c) % 2 == 1 then
      if r < 3 then Occupied(Black, false)
      else if r > 4 then Occupied(Red, false)
      else Vacant
    else Vacant
  }

  function InitialRow(r: int): (row: seq<Square>)
    ensures |row| == 8 && forall c :: 0 <= c < 8 ==> row[c] == InitialSquare(r, c)
  {
    seq(8, c => InitialSquare(r, c))
  }

  function InitialBoard(): (b: Board)
    ensures forall r, c :: InBounds(r, c) ==> b[r][c] == InitialSquare(r, c)
  {
    seq(8, r => InitialRow(r))
  }

  /** A board with no piece on it. */
  function EmptyBoard(): (b: Board)
    ensures forall r, c :: InBounds(r, c) ==> b[r][c] == Vacant
  {
    seq(8, _ => seq(8, _ => Vacant))
  }

  // ---------------------------------------------------------------------------------------
  // getMovesForPiece

  /** A move target: `{ r, c, type: 'move' }` or `{ r, c, type: 'jump', capturedR, capturedC }`. */
  datatype Move = Step(r: int, c: int) | Jump(r: int, c: int, capturedR: int, capturedC: int)

  /** `dirs`: -1 for red pieces and kings, then +1 for black pieces and kings. */
  function Dirs(color: Side, king: bool): seq<int>
  {
    (if color == Red || king then [-1] else []) + (if color == Black || king then [1] else [])
  }

  /** The row directions a piece may move in: men only towards the opponent, kings both ways. */
  predicate Advances(color: Side, king: bool, dr: int)
  {
    (dr == -1 && (color == Red || king)) || (dr == 1 && (color == Black || king))
  }

  lemma DirsAdvance(color: Side, king: bool)
    ensures forall dr :: dr in Dirs(color, king) <==> Advances(color, king, dr)
  {
  }

  /** The plain move in direction (dr, dc): onto the neighbour when it is on the board and empty. */
  function StepTo(b: Board, r: int, c: int, dr: int, dc: int): seq<Move>
  {
    var nr, nc := r + dr, c + dc;
    if InBounds(nr, nc) && b[nr][nc] == Vacant then [Step(nr, nc)] else []
  }

  /** The jump in direction (dr, dc): over an opposing neighbour onto the empty square beyond it. */
  function JumpOver(b: Board, r: int, c: int, color: Side, dr: int, dc: int): seq<Move>
  {
    var nr, nc := r + dr, c + dc;
    var jr, jc := nr + dr, nc + dc;
    if InBounds(nr, nc) && b[nr][nc].Occupied? && b[nr][nc].color != color && InBounds(jr, jc) && b[jr][jc] == Vacant
    then [Jump(jr, jc, nr, nc)]
    else []
  }

  /** The `moves` of getMovesForPiece over the directions dirs, each tried with dc = -1 then 1. */
  function StepsAlong(b: Board, r: int, c: int, dirs: seq<int>): seq<Move>
  {
    if |dirs| == 0 then [] else StepTo(b, r, c, dirs[0], -1) + StepTo(b, r, c, dirs[0], 1) + StepsAlong(b, r, c, dirs[1..])
  }

  /** The `jumps` of getMovesForPiece over the directions dirs. */
  function JumpsAlong(b: Board, r: int, c: int, color: Side, dirs: seq<int>): seq<Move>
  {
    if |dirs| == 0 then []
    else JumpOver(b, r, c, color, dirs[0], -1) + JumpOver(b, r, c, color, dirs[0], 1) + JumpsAlong(b, r, c, color, dirs[1..])
  }

  /** `{ moves, jumps }`. */
  datatype Options = Options(moves: seq<Move>, jumps: seq<Move>)

  /** getMovesForPiece: nothing for an empty square. */
  function MovesForPiece(b: Board, r: int, c: int): Options
    requires InBounds(r, c)
  {
    match b[r][c]
    case Vacant => Options([], [])
    case Occupied(color, king) => Options(StepsAlong(b, r, c, Dirs(color, king)), JumpsAlong(b, r, c, color, Dirs(color, king)))
  }

  /** A plain move of the piece on (r, c): one diagonal square in an allowed direction, on the board and empty. */
  predicate IsStep(b: Board, r: int, c: int, m: Move)
    requires InBounds(r, c) && b[r][c].Occupied?
  {
    && m.Step?
    && Advances(b[r][c].color, b[r][c].king, m.r - r)
    && (m.c == c - 1 || m.c == c + 1)
    && InBounds(m.r, m.c)
    && b[m.r][m.c] == Vacant
  }

  /**
   * A jump of the piece on (r, c): over the diagonal neighbour in an allowed direction,
   * which holds an opposing piece, onto the empty square beyond it; capturedR/capturedC
   * name the neighbour.
   */
  predicate IsJump(b: Board, r: int, c: int, m: Move)
    requires InBounds(r, c) && b[r][c].Occupied?
  {
    && m.Jump?
    && Advances(b[r][c].color, b[r][c].king, m.capturedR - r)
    && (m.capturedC == c - 1 || m.capturedC == c + 1)
    && m.r == 2 * m.capturedR - r && m.c == 2 * m.capturedC - c
    && InBounds(m.capturedR, m.capturedC) && InBounds(m.r, m.c)
    && b[m.capturedR][m.capturedC].Occupied? && b[m.capturedR][m.capturedC].color != b[r][c].color
    && b[m.r][m.c] == Vacant
  }

  lemma {:induction false} StepsAlongIff(b: Board, r: int, c: int, dirs: seq<int>)
    ensures forall m :: m in StepsAlong(b, r, c, dirs) <==>
      m.Step? && m.r - r in dirs && (m.c == c - 1 || m.c == c + 1) && InBounds(m.r, m.c) && b[m.r][m.c] == Vacant
  {
    if |dirs| > 0 {
      StepsAlongIff(b, r, c, dirs[1..]);
      assert forall d :: d in dirs <==> d == dirs[0] || d in dirs[1..];
    }
  }

  lemma {:induction false} JumpsAlongIff(b: Board, r: int, c: int, color: Side, dirs: seq<int>)
    ensures forall m :: m in JumpsAlong(b, r, c, color, dirs) <==>
      && m.Jump? && m.capturedR - r in dirs && (m.capturedC == c - 1 || m.capturedC == c + 1)
      && m.r == 2 * m.capturedR - r && m.c == 2 * m.capturedC - c
      && InBounds(m.capturedR, m.capturedC) && InBounds(m.r, m.c)
      && b[m.capturedR][m.capturedC].Occupied? && b[m.capturedR][m.capturedC].color != color
      && b[m.r][m.c] == Vacant
  {
    if |dirs| > 0 {
      JumpsAlongIff(b, r, c, color, dirs[1..]);
      assert forall d :: d in dirs <==> d == dirs[0] || d in dirs[1..];
    }
  }

  /** getMovesForPiece returns exactly the plain moves and exactly the jumps of the piece. */
  lemma MovesForPieceIff(b: Board, r: int, c: int)
    requires InBounds(r, c) && b[r][c].Occupied?
    ensures forall m :: m in MovesForPiece(b, r, c).moves <==> IsStep(b, r, c, m)
    ensures forall m :: m in MovesForPiece(b, r, c).jumps <==> IsJump(b, r, c, m)
  {
    var p := b[r][c];
    DirsAdvance(p.color, p.king);
    StepsAlongIff(b, r, c, Dirs(p.color, p.king));
    JumpsAlongIff(b, r, c, p.color, Dirs(p.color, p.king));
  }

  // ---------------------------------------------------------------------------------------
  // getAllJumps

  /** `{ r, c, jumps }`: a piece that can jump, with its jumps. */
  datatype PieceJumps = PieceJumps(r: int, c: int, jumps: seq<Move>)

  /** The entry getAllJumps pushes for square (r, c), if any. */
  function SquareJumps(b: Board, color: Side, r: int, c: int): seq<PieceJumps>
    requires InBounds(r, c)
  {
    if OwnedBy(b, r, c, color) && |MovesForPiece(b, r, c).jumps| > 0 then [PieceJumps(r, c, MovesForPiece(b, r, c).jumps)] else []
  }

  function RowJumps(b: Board, color: Side, r: int, n: nat): seq<PieceJumps>
    requires 0 <= r < 8 && n <= 8
  {
    if n == 0 then [] else RowJumps(b, color, r, n - 1) + SquareJumps(b, color, r, n - 1)
  }

  function RowsJumps(b: Board, color: Side, n: nat): seq<PieceJumps>
    requires n <= 8
  {
    if n == 0 then [] else RowsJumps(b, color, n - 1) + RowJumps(b, color, n - 1, 8)
  }

  /** getAllJumps: the pieces of `color` that can jump, in row-major order. */
  function AllJumps(color: Side, b: Board): seq<PieceJumps>
  {
    RowsJumps(b, color, 8)
  }

  /** A piece of `color` on (r, c) with at least one jump. */
  predicate CanJump(b: Board, color: Side, r: int, c: int)
    requires InBounds(r, c)
  {
    OwnedBy(b, r, c, color) && |MovesForPiece(b, r, c).jumps| > 0
  }

  /** Some piece of `color` can jump. */
  predicate AnyJump(b: Board, color: Side)
  {
    exists r, c :: 0 <= r < 8 && 0 <= c < 8 && CanJump(b, color, r, c)
  }

  /** An entry of getAllJumps is a jumping piece of `color` together with all its jumps. */
  predicate EntryOf(b: Board, color: Side, e: PieceJumps)
  {
    InBounds(e.r, e.c) && CanJump(b, color, e.r, e.c) && e.jumps == MovesForPiece(b, e.r, e.c).jumps
  }

  lemma {:induction false} RowJumpsIff(b: Board, color: Side, r: int, n: nat)
    requires 0 <= r < 8 && n <= 8
    ensures forall e :: e in RowJumps(b, color, r, n) <==> e.r == r && 0 <= e.c < n && EntryOf(b, color, e)
  {
    if n > 0 {
      RowJumpsIff(b, color, r, n - 1);
      var front, sq := RowJumps(b, color, r, n - 1), SquareJumps(b, color, r, n - 1);
      assert RowJumps(b, color, r, n) == front + sq;
      forall e: PieceJumps
        ensures e in front + sq <==> e.r == r && 0 <= e.c < n && EntryOf(b, color, e)
      {
        if e.r == r && e.c == n - 1 {
          assert e !in front;
        } else {
          assert e !in sq;
        }
      }
    }
  }

  lemma {:induction false} RowsJumpsIff(b: Board, color: Side, n: nat)
    requires n <= 8
    ensures forall e :: e in RowsJumps(b, color, n) <==> 0 <= e.r < n && EntryOf(b, color, e)
  {
    if n > 0 {
      RowsJumpsIff(b, color, n - 1);
      RowJumpsIff(b, color, n - 1, 8);
    }
  }

  /** getAllJumps lists exactly the pieces of `color` that can jump, each with all its jumps. */
  lemma AllJumpsIff(color: Side, b: Board)
    ensures forall e :: e in AllJumps(color, b) <==> EntryOf(b, color, e)
    ensures |AllJumps(color, b)| > 0 <==> AnyJump(b, color)
  {
    RowsJumpsIff(b, color, 8);
    if AnyJump(b, color) {
      var r, c :| 0 <= r < 8 && 0 <= c < 8 && CanJump(b, color, r, c);
      assert EntryOf(b, color, PieceJumps(r, c, MovesForPiece(b, r, c).jumps));
    }
    if |AllJumps(color, b)| > 0 {
      assert EntryOf(b, color, AllJumps(color, b)[0]);
    }
  }

  /** `allJumps.find(j => j.r === r && j.c === c)`. */
  function FindJumps(es: seq<PieceJumps>, r: int, c: int): (found: Option<PieceJumps>)
    ensures found.Some? ==> found.value in es && found.value.r == r && found.value.c == c
    ensures found.None? ==> forall e :: e in es ==> e.r != r || e.c != c
  {
    if |es| == 0 then None
    else if es[0].r == r && es[0].c == c then Some(es[0])
    else FindJumps(es[1..], r, c)
  }

  // ---------------------------------------------------------------------------------------
  // getLegalMoves

  /**
   * getLegalMoves for the side to move `turn`, with `multiJump` the piece in the middle of
   * a multi-jump, if any: nothing for a square not holding a piece of `turn`; during a
   * multi-jump nothing for any other piece and only jumps for that one; otherwise, when
   * some piece of `turn` can jump, only this piece's jumps, else its plain moves.
   */
  function LegalMoves(b: Board, turn: Side, multiJump: Option<Sq>, r: int, c: int): seq<Move>
    requires InBounds(r, c)
  {
    if !OwnedBy(b, r, c, turn) then []
    else if multiJump.Some? && (multiJump.value.r != r || multiJump.value.c != c) then []
    else
      var options := MovesForPiece(b, r, c);
      if multiJump.Some? then options.jumps
      else
        var allJumps := AllJumps(turn, b);
        if |allJumps| > 0 then
          match FindJumps(allJumps, r, c)
          case Some(mine) => mine.jumps
          case None => []
        else options.moves
  }

  /**
   * The rules getLegalMoves enforces: only the side to move moves; during a multi-jump only
   * the jumping piece moves, and only by jumping; otherwise capture is mandatory (jumps
   * when any piece of the side can jump, plain moves only when none can).
   */
  lemma LegalMovesRule(b: Board, turn: Side, multiJump: Option<Sq>, r: int, c: int)
    requires InBounds(r, c)
    ensures var legal, options := LegalMoves(b, turn, multiJump, r, c), MovesForPiece(b, r, c);
      && (!OwnedBy(b, r, c, turn) ==> legal == [])
      && (multiJump.Some? && multiJump.value != Sq(r, c) ==> legal == [])
      && (OwnedBy(b, r, c, turn) && multiJump == Some(Sq(r, c)) ==> legal == options.jumps)
      && (OwnedBy(b, r, c, turn) && multiJump.None? ==>
            legal == if AnyJump(b, turn) then options.jumps else options.moves)
  {
    AllJumpsIff(turn, b);
    if OwnedBy(b, r, c, turn) && multiJump.None? && AnyJump(b, turn) {
      var found := FindJumps(AllJumps(turn, b), r, c);
      if |MovesForPiece(b, r, c).jumps| > 0 {
        assert EntryOf(b, turn, PieceJumps(r, c, MovesForPiece(b, r, c).jumps));
      }
    }
  }

  /** Every legal move is a plain move or jump of the piece, and no plain move is legal while a jump is available. */
  lemma LegalMovesSound(b: Board, turn: Side, multiJump: Option<Sq>, r: int, c: int, m: Move)
    requires InBounds(r, c) && m in LegalMoves(b, turn, multiJump, r, c)
    ensures OwnedBy(b, r, c, turn)
    ensures IsStep(b, r, c, m) || IsJump(b, r, c, m)
    ensures m.Step? ==> multiJump.None? && !AnyJump(b, turn)
  {
    LegalMovesRule(b, turn, multiJump, r, c);
    MovesForPieceIff(b, r, c);
  }

  // ---------------------------------------------------------------------------------------
  // simulateAIMove and the board effect of makeMove

  /**
   * A move the board update can apply without touching a missing piece: origin and target
   * on the board, a piece on the origin, the target different from the origin and, for a
   * jump, the jumped square on the board and different from the target.
   */
  predicate Applicable(b: Board, fromR: int, fromC: int, m: Move)
  {
    && InBounds(fromR, fromC) && InBounds(m.r, m.c)
    && b[fromR][fromC].Occupied?
    && (m.r != fromR || m.c != fromC)
    && (m.Jump? ==> InBounds(m.capturedR, m.capturedC) && (m.capturedR != m.r || m.capturedC != m.c))
  }

  lemma LegalIsApplicable(b: Board, turn: Side, multiJump: Option<Sq>, r: int, c: int, m: Move)
    requires InBounds(r, c) && m in LegalMoves(b, turn, multiJump, r, c)
    ensures Applicable(b, r, c, m)
  {
    LegalMovesSound(b, turn, multiJump, r, c, m);
  }

  /** A red piece reaching row 0 or a black piece reaching row 7 is crowned. */
  predicate Crowns(color: Side, r: int)
  {
    (color == Red && r == 0) || (color == Black && r == 7)
  }

  /**
   * simulateAIMove: copy the piece to the target, empty the origin, empty the jumped
   * square of a jump, and crown a piece landing on the far row. makeMove writes the same
   * squares of the live board.
   */
  function SimulateAIMove(b: Board, fromR: int, fromC: int, m: Move): (s: Board)
    requires Applicable(b, fromR, fromC, m)
    ensures var piece := b[fromR][fromC];
      && s[m.r][m.c] == Occupied(piece.color, piece.king || Crowns(piece.color, m.r))
      && s[fromR][fromC] == Vacant
      && (m.Jump? ==> s[m.capturedR][m.capturedC] == Vacant)
      && (forall i, j ::
            (InBounds(i, j) && (i != m.r || j != m.c) && (i != fromR || j != fromC) && (m.Step? || i != m.capturedR || j != m.capturedC))
            ==> s[i][j] == b[i][j])
  {
    var s1 := Put(Put(b, m.r, m.c, b[fromR][fromC]), fromR, fromC, Vacant);
    var s2 := if m.Jump? then Put(s1, m.capturedR, m.capturedC, Vacant) else s1;
    var piece := s2[m.r][m.c];
    if Crowns(piece.color, m.r) then Put(s2, m.r, m.c, piece.(king := true)) else s2
  }

  // ---------------------------------------------------------------------------------------
  // countPieces as a value

  function IsOf(x: Square, color: Side): nat
  {
    if x.Occupied? && x.color == color then 1 else 0
  }

  /** The pieces of `color` among the first n squares of row r. */
  function RowCount(b: Board, color: Side, r: int, n: nat): nat
    requires 0 <= r < 8 && n <= 8
  {
    if n == 0 then 0 else RowCount(b, color, r, n - 1) + IsOf(b[r][n - 1], color)
  }

  /** The pieces of `color` in the first n rows. */
  function RowsCount(b: Board, color: Side, n: nat): nat
    requires n <= 8
  {
    if n == 0 then 0 else RowsCount(b, color, n - 1) + RowCount(b, color, n - 1, 8)
  }

  /** The number of pieces of `color` on the board. */
  function Count(b: Board, color: Side): nat
  {
    RowsCount(b, color, 8)
  }

  lemma {:induction false} RowCountPut(b: Board, color: Side, r: int, c: int, x: Square, i: int, n: nat)
    requires InBounds(r, c) && 0 <= i < 8 && n <= 8
    ensures RowCount(Put(b, r, c, x), color, i, n) ==
      if i == r && c < n then RowCount(b, color, i, n) - IsOf(b[r][c], color) + IsOf(x, color)
      else RowCount(b, color, i, n)
  {
    if n > 0 {
      RowCountPut(b, color, r, c, x, i, n - 1);
    }
  }

  lemma {:induction false} RowsCountPut(b: Board, color: Side, r: int, c: int, x: Square, n: nat)
    requires InBounds(r, c) && n <= 8
    ensures RowsCount(Put(b, r, c, x), color, n) ==
      if r < n then RowsCount(b, color, n) - IsOf(b[r][c], color) + IsOf(x, color) else RowsCount(b, color, n)
  {
    if n > 0 {
      RowsCountPut(b, color, r, c, x, n - 1);
      RowCountPut(b, color, r, c, x, n - 1, 8);
    }
  }

  /** Writing one square changes a side's count by what leaves and what arrives there. */
  lemma CountPut(b: Board, color: Side, r: int, c: int, x: Square)
    requires InBounds(r, c)
    ensures Count(Put(b, r, c, x), color) == Count(b, color) - IsOf(b[r][c], color) + IsOf(x, color)
  {
    RowsCountPut(b, color, r, c, x, 8);
  }

  /** A piece of `color` on the board makes its count positive. */
  lemma CountPositive(b: Board, color: Side, r: int, c: int)
    requires InBounds(r, c) && OwnedBy(b, r, c, color)
    ensures Count(b, color) >= 1
  {
    CountPut(b, color, r, c, Vacant);
  }

  /**
   * A plain move keeps both sides' piece counts; a jump over a piece of the opponent
   * removes exactly that piece and keeps the mover's count.
   */
  lemma SimulateAIMoveCounts(b: Board, fromR: int, fromC: int, m: Move)
    requires Applicable(b, fromR, fromC, m)
    requires m.Jump? ==>
      (b[m.r][m.c] == Vacant && b[m.capturedR][m.capturedC].Occupied? && b[m.capturedR][m.capturedC].color == Opponent(b[fromR][fromC].color))
    requires m.Step? ==> b[m.r][m.c] == Vacant
    ensures var mover := b[fromR][fromC].color;
      && Count(SimulateAIMove(b, fromR, fromC, m), mover) == Count(b, mover)
      && Count(SimulateAIMove(b, fromR, fromC, m), Opponent(mover)) ==
           if m.Jump? then Count(b, Opponent(mover)) - 1 else Count(b, Opponent(mover))
  {
    var piece := b[fromR][fromC];
    var s0 := Put(b, m.r, m.c, piece);
    var s1 := Put(s0, fromR, fromC, Vacant);
    var s2 := if m.Jump? then Put(s1, m.capturedR, m.capturedC, Vacant) else s1;
    var landed := Occupied(piece.color, piece.king || Crowns(piece.color, m.r));
    var s3 := Put(s2, m.r, m.c, landed);
    forall color: Side
      ensures Count(s3, color) == Count(b, color) - (if m.Jump? then IsOf(b[m.capturedR][m.capturedC], color) else 0)
    {
      CountPut(b, color, m.r, m.c, piece);
      CountPut(s0, color, fromR, fromC, Vacant);
      if m.Jump? {
        CountPut(s1, color, m.capturedR, m.capturedC, Vacant);
      }
      CountPut(s2, color, m.r, m.c, landed);
    }
    SimulateIsWrites(b, fromR, fromC, m, s3);
  }

  /** simulateAIMove equals writing origin, target, jumped square and target again in that order. */
  lemma SimulateIsWrites(b: Board, fromR: int, fromC: int, m: Move, s3: Board)
    requires Applicable(b, fromR, fromC, m)
    requires var piece := b[fromR][fromC];
      var s1 := Put(Put(b, m.r, m.c, piece), fromR, fromC, Vacant);
      var s2 := if m.Jump? then Put(s1, m.capturedR, m.capturedC, Vacant) else s1;
      s3 == Put(s2, m.r, m.c, Occupied(piece.color, piece.king || Crowns(piece.color, m.r)))
    ensures SimulateAIMove(b, fromR, fromC, m) == s3
  {
    BoardExt(SimulateAIMove(b, fromR, fromC, m), s3);
  }

  lemma BoardExt(a: Board, b: Board)
    requires forall i, j :: InBounds(i, j) ==> a[i][j] == b[i][j]
    ensures a == b
  {
    forall i | 0 <= i < 8
      ensures a[i] == b[i]
    {
      assert forall j :: 0 <= j < 8 ==> a[i][j] == b[i][j];
    }
  }
}
