/**
 * The chess computer player of js/chess.js: getAllMovesForColor (every legal move of one
 * side, captures first), hasAnyLegalMoves, minimax with alpha-beta pruning, and the
 * selection loop of aiMove. The search is specified by ChessValue, plain minimax without
 * pruning; the pruned method is proved fail-soft against it.
 */
module ChessSearch {
  import opened Wrappers
  import opened AlphaBeta
  import opened ChessBoard
  import opened ChessMoves
  import opened ChessEval

  /** `{ fromR, fromC, move }`: a move together with its origin. */
  datatype Ply = Ply(fromR: int, fromC: int, move: Move)

  /** The side a search node moves for: White when maximising. */
  function Mover(maximizing: bool): Color { if maximizing then White else Black }

  predicate PlyApplicable(b: Board, p: Ply)
  {
    Applicable(b, p.fromR, p.fromC, p.move)
  }

  /** A ply of `color` that getLegalMoves produced for its origin square. */
  predicate LegalPly(b: Board, color: Color, ep: Option<Sq>, castle: Rights, p: Ply)
  {
    && InBounds(p.fromR, p.fromC)
    && b[p.fromR][p.fromC].Has?
    && b[p.fromR][p.fromC].color == color
    && p.move in LegalMoves(b, p.fromR, p.fromC, ep, castle)
  }

  // ---------------------------------------------------------------------------------------
  // getAllMovesForColor

  lemma AppendAssoc<T>(a: seq<T>, b: seq<T>, c: seq<T>)
    ensures (a + b) + c == a + (b + c)
  {
  }

  /** `{ fromR: r, fromC: c, move: m }` for each m of ms, in order. */
  function PliesFrom(r: int, c: int, ms: seq<Move>): (ps: seq<Ply>)
    ensures |ps| == |ms|
    ensures forall p :: p in ps ==> p.fromR == r && p.fromC == c && p.move in ms
  {
    if |ms| == 0 then [] else PliesFrom(r, c, ms[..|ms| - 1]) + [Ply(r, c, ms[|ms| - 1])]
  }

  /** The plies the collection loop adds for square (r, c). */
  function SquarePlies(b: Board, color: Color, ep: Option<Sq>, castle: Rights, r: int, c: int): (ps: seq<Ply>)
    requires InBounds(r, c)
    ensures forall p :: p in ps ==> PlyApplicable(b, p)
    ensures |ps| == 0 <==> !(b[r][c].Has? && b[r][c].color == color && |LegalMoves(b, r, c, ep, castle)| > 0)
  {
    if b[r][c].Has? && b[r][c].color == color then PliesFrom(r, c, LegalMoves(b, r, c, ep, castle)) else []
  }

  /** The plies of the first n squares of row r. */
  function RowPlies(b: Board, color: Color, ep: Option<Sq>, castle: Rights, r: int, n: nat): (ps: seq<Ply>)
    requires 0 <= r < 8 && n <= 8
    ensures forall p :: p in ps ==> PlyApplicable(b, p)
  {
    if n == 0 then [] else RowPlies(b, color, ep, castle, r, n - 1) + SquarePlies(b, color, ep, castle, r, n - 1)
  }

  /** The plies of the first n rows, in the order the double loop pushes them. */
  function Collected(b: Board, color: Color, ep: Option<Sq>, castle: Rights, n: nat): (ps: seq<Ply>)
    requires n <= 8
    ensures forall p :: p in ps ==> PlyApplicable(b, p)
  {
    if n == 0 then [] else Collected(b, color, ep, castle, n - 1) + RowPlies(b, color, ep, castle, n - 1, |b[n - 1]|)
  }

  /** The sort key of getAllMovesForColor: 'capture' and 'enpassant' moves come first. */
  predicate IsCapturePly(p: Ply)
  {
    p.move.kind == Capture || p.move.kind == EnPassant
  }

  function Captures(ps: seq<Ply>): (qs: seq<Ply>)
    ensures forall p :: p in qs ==> p in ps
  {
    if |ps| == 0 then []
    else if IsCapturePly(ps[0]) then [ps[0]] + Captures(ps[1..])
    else Captures(ps[1..])
  }

  function Quiet(ps: seq<Ply>): (qs: seq<Ply>)
    ensures forall p :: p in qs ==> p in ps
  {
    if |ps| == 0 then []
    else if IsCapturePly(ps[0]) then Quiet(ps[1..])
    else [ps[0]] + Quiet(ps[1..])
  }

  /** The captures kept are exactly the capturing plies of the input. */
  lemma {:induction false} CapturesIff(ps: seq<Ply>)
    ensures forall p :: p in Captures(ps) <==> p in ps && IsCapturePly(p)
  {
    if |ps| > 0 {
      CapturesIff(ps[1..]);
      assert forall p :: p in ps <==> p == ps[0] || p in ps[1..];
    }
  }

  /** The quiet plies kept are exactly the non-capturing plies of the input. */
  lemma {:induction false} QuietIff(ps: seq<Ply>)
    ensures forall p :: p in Quiet(ps) <==> p in ps && !IsCapturePly(p)
  {
    if |ps| > 0 {
      QuietIff(ps[1..]);
      assert forall p :: p in ps <==> p == ps[0] || p in ps[1..];
    }
  }

  /**
   * The stable sort by the 0/1 capture key: the captures in their original order, then the
   * other moves in their original order.
   */
  function CaptureFirst(ps: seq<Ply>): seq<Ply>
  {
    Captures(ps) + Quiet(ps)
  }

  /** The sort only reorders: the result is a permutation of its input. */
  lemma {:induction false} CaptureFirstPermutes(ps: seq<Ply>)
    ensures multiset(CaptureFirst(ps)) == multiset(ps)
  {
    if |ps| > 0 {
      CaptureFirstPermutes(ps[1..]);
      assert ps == [ps[0]] + ps[1..];
    }
  }

  /**
   * After the sort the captures form a prefix: a position holds a capture exactly when it
   * lies before the first non-capture, so no capture follows a non-capture.
   */
  lemma CaptureFirstOrdered(ps: seq<Ply>)
    ensures forall i :: 0 <= i < |CaptureFirst(ps)| ==>
              (IsCapturePly(CaptureFirst(ps)[i]) <==> i < |Captures(ps)|)
  {
    var cs := Captures(ps);
    var qs := Quiet(ps);
    CapturesIff(ps);
    QuietIff(ps);
    forall i | 0 <= i < |CaptureFirst(ps)|
      ensures IsCapturePly(CaptureFirst(ps)[i]) <==> i < |cs|
    {
      if i < |cs| {
        assert CaptureFirst(ps)[i] == cs[i];
        assert cs[i] in cs;
      } else {
        assert CaptureFirst(ps)[i] == qs[i - |cs|];
        assert qs[i - |cs|] in qs;
      }
    }
  }

  /** getAllMovesForColor as a value. */
  function OrderedPlies(b: Board, color: Color, ep: Option<Sq>, castle: Rights): (ps: seq<Ply>)
    ensures forall p :: p in ps ==> PlyApplicable(b, p)
  {
    CaptureFirst(Collected(b, color, ep, castle, |b|))
  }

  /** Sorting keeps exactly the collected plies. */
  lemma OrderedPliesIff(b: Board, color: Color, ep: Option<Sq>, castle: Rights)
    ensures forall p :: p in OrderedPlies(b, color, ep, castle) <==> p in Collected(b, color, ep, castle, |b|)
  {
    var ps := Collected(b, color, ep, castle, |b|);
    CapturesIff(ps);
    QuietIff(ps);
  }

  /** PliesFrom keeps the origin and exactly the moves given. */
  lemma {:induction false} PliesFromIff(r: int, c: int, ms: seq<Move>)
    ensures forall p :: p in PliesFrom(r, c, ms) <==> p.fromR == r && p.fromC == c && p.move in ms
  {
    if |ms| > 0 {
      PliesFromIff(r, c, ms[..|ms| - 1]);
      assert ms == ms[..|ms| - 1] + [ms[|ms| - 1]];
    }
  }

  /** The plies of the first n squares of row r are the legal plies of `color` starting there. */
  lemma {:induction false} RowPliesIff(b: Board, color: Color, ep: Option<Sq>, castle: Rights, r: int, n: nat)
    requires 0 <= r < 8 && n <= 8
    ensures forall p :: p in RowPlies(b, color, ep, castle, r, n) <==>
              p.fromR == r && 0 <= p.fromC < n && LegalPly(b, color, ep, castle, p)
  {
    if n > 0 {
      RowPliesIff(b, color, ep, castle, r, n - 1);
      var front, sq := RowPlies(b, color, ep, castle, r, n - 1), SquarePlies(b, color, ep, castle, r, n - 1);
      assert RowPlies(b, color, ep, castle, r, n) == front + sq;
      var own := b[r][n - 1].Has? && b[r][n - 1].color == color;
      if own {
        PliesFromIff(r, n - 1, LegalMoves(b, r, n - 1, ep, castle));
      }
      forall p: Ply
        ensures p in front + sq <==> p.fromR == r && 0 <= p.fromC < n && LegalPly(b, color, ep, castle, p)
      {
        if p.fromR == r && p.fromC == n - 1 {
          assert p !in front;
          assert p in sq <==> own && p.move in LegalMoves(b, r, n - 1, ep, castle);
        } else {
          assert p !in sq;
        }
      }
    }
  }

  /** The plies of the first n rows are the legal plies of `color` starting in them. */
  lemma {:induction false} CollectedIff(b: Board, color: Color, ep: Option<Sq>, castle: Rights, n: nat)
    requires n <= 8
    ensures forall p :: p in Collected(b, color, ep, castle, n) <==>
              0 <= p.fromR < n && LegalPly(b, color, ep, castle, p)
  {
    if n > 0 {
      CollectedIff(b, color, ep, castle, n - 1);
      RowPliesIff(b, color, ep, castle, n - 1, |b[n - 1]|);
    }
  }

  /** getAllMovesForColor returns exactly the legal plies of `color`. */
  lemma OrderedPliesLegal(b: Board, color: Color, ep: Option<Sq>, castle: Rights)
    ensures forall p :: p in OrderedPlies(b, color, ep, castle) <==> LegalPly(b, color, ep, castle, p)
  {
    OrderedPliesIff(b, color, ep, castle);
    CollectedIff(b, color, ep, castle, |b|);
  }

  /** The innermost loop of getAllMovesForColor: push `{ fromR: r, fromC: c, move: m }` for each legal m. */
  method PushPlies(plies: seq<Ply>, r: int, c: int, legal: seq<Move>) returns (out: seq<Ply>)
    ensures out == plies + PliesFrom(r, c, legal)
  {
    out := plies;
    for k := 0 to |legal|
      invariant out == plies + PliesFrom(r, c, legal[..k])
    {
      assert legal[..k + 1][..k] == legal[..k];
      AppendAssoc(plies, PliesFrom(r, c, legal[..k]), [Ply(r, c, legal[k])]);
      out := out + [Ply(r, c, legal[k])];
    }
    assert legal[..|legal|] == legal;
  }

  /**
   * getAllMovesForColor: the double loop pushing `{ fromR, fromC, move }` for every legal
   * move of every piece of `color`, then the sort putting captures first.
   */
  method AllMovesForColor(color: Color, b: Board, ep: Option<Sq>, castle: Rights) returns (plies: seq<Ply>)
    ensures plies == OrderedPlies(b, color, ep, castle)
  {
    plies := [];
    for r := 0 to 8
      invariant plies == Collected(b, color, ep, castle, r)
    {
      var rowStart := plies;
      for c := 0 to 8
        invariant plies == rowStart + RowPlies(b, color, ep, castle, r, c)
      {
        ghost var sq := SquarePlies(b, color, ep, castle, r, c);
        assert RowPlies(b, color, ep, castle, r, c + 1) == RowPlies(b, color, ep, castle, r, c) + sq;
        if b[r][c].Has? && b[r][c].color == color {
          var legal := LegalMoves(b, r, c, ep, castle);
          plies := PushPlies(plies, r, c, legal);
          assert sq == PliesFrom(r, c, legal);
          AppendAssoc(rowStart, RowPlies(b, color, ep, castle, r, c), sq);
        } else {
          assert sq == [];
          assert RowPlies(b, color, ep, castle, r, c + 1) == RowPlies(b, color, ep, castle, r, c);
        }
      }
      assert Collected(b, color, ep, castle, r + 1) == Collected(b, color, ep, castle, r) + RowPlies(b, color, ep, castle, r, |b[r]|);
    }
    plies := CaptureFirst(plies);
  }

  // ---------------------------------------------------------------------------------------
  // hasAnyLegalMoves

  /** Square (r, c) holds a piece of `color` that has a legal move. */
  predicate MovableAt(b: Board, color: Color, ep: Option<Sq>, castle: Rights, r: int, c: int)
    requires InBounds(r, c)
  {
    b[r][c].Has? && b[r][c].color == color && |LegalMoves(b, r, c, ep, castle)| > 0
  }

  /** Some piece of `color` has a legal move. */
  predicate AnyLegal(b: Board, color: Color, ep: Option<Sq>, castle: Rights)
  {
    exists r, c :: 0 <= r < 8 && 0 <= c < 8 && MovableAt(b, color, ep, castle, r, c)
  }

  /**
   * hasAnyLegalMoves: scan the squares in row-major order and stop at the first piece of
   * `color` with a legal move. The outer loop keeps that the rows scanned so far hold no
   * such piece, i.e. contribute no plies to getAllMovesForColor.
   */
  method HasAnyLegalMoves(color: Color, b: Board, ep: Option<Sq>, castle: Rights) returns (any: bool)
    ensures any <==> AnyLegal(b, color, ep, castle)
  {
    for r := 0 to 8
      invariant |Collected(b, color, ep, castle, r)| == 0
    {
      any := ScanRow(color, b, ep, castle, r);
      if any {
        return;
      }
    }
    any := false;
    CollectedEmpty(b, color, ep, castle, 8);
  }

  /** The inner loop of hasAnyLegalMoves over the squares of row r. */
  method ScanRow(color: Color, b: Board, ep: Option<Sq>, castle: Rights, r: int) returns (any: bool)
    requires 0 <= r < 8
    ensures any ==> AnyLegal(b, color, ep, castle)
    ensures !any ==> |RowPlies(b, color, ep, castle, r, 8)| == 0
  {
    for c := 0 to 8
      invariant |RowPlies(b, color, ep, castle, r, c)| == 0
    {
      if b[r][c].Has? && b[r][c].color == color {
        if |LegalMoves(b, r, c, ep, castle)| > 0 {
          assert MovableAt(b, color, ep, castle, r, c);
          return true;
        }
      }
    }
    return false;
  }

  /** A row contributes no plies exactly when none of its first n squares is movable. */
  lemma {:induction false} RowPliesEmpty(b: Board, color: Color, ep: Option<Sq>, castle: Rights, r: int, n: nat)
    requires 0 <= r < 8 && n <= 8
    ensures |RowPlies(b, color, ep, castle, r, n)| == 0 <==>
              forall j :: 0 <= j < n ==> !MovableAt(b, color, ep, castle, r, j)
  {
    if n > 0 {
      RowPliesEmpty(b, color, ep, castle, r, n - 1);
      var front := RowPlies(b, color, ep, castle, r, n - 1);
      var sq := SquarePlies(b, color, ep, castle, r, n - 1);
      assert RowPlies(b, color, ep, castle, r, n) == front + sq;
      if |front| == 0 && |sq| == 0 {
        assert forall j :: 0 <= j < n - 1 ==> !MovableAt(b, color, ep, castle, r, j);
      } else if |front| > 0 {
        var j :| 0 <= j < n - 1 && MovableAt(b, color, ep, castle, r, j);
        assert 0 <= j < n;
      } else {
        assert MovableAt(b, color, ep, castle, r, n - 1);
      }
    }
  }

  lemma {:induction false} CollectedEmpty(b: Board, color: Color, ep: Option<Sq>, castle: Rights, n: nat)
    requires n <= 8
    ensures |Collected(b, color, ep, castle, n)| == 0 <==>
              forall i, j :: 0 <= i < n && 0 <= j < 8 ==> !MovableAt(b, color, ep, castle, i, j)
  {
    if n > 0 {
      CollectedEmpty(b, color, ep, castle, n - 1);
      RowPliesEmpty(b, color, ep, castle, n - 1, |b[n - 1]|);
      var front := Collected(b, color, ep, castle, n - 1);
      var row := RowPlies(b, color, ep, castle, n - 1, |b[n - 1]|);
      assert Collected(b, color, ep, castle, n) == front + row;
      if |front| == 0 && |row| == 0 {
        assert forall i, j :: 0 <= i < n - 1 && 0 <= j < 8 ==> !MovableAt(b, color, ep, castle, i, j);
      } else if |front| > 0 {
        var i, j :| 0 <= i < n - 1 && 0 <= j < 8 && MovableAt(b, color, ep, castle, i, j);
        assert 0 <= i < n && MovableAt(b, color, ep, castle, i, j);
      } else {
        var j :| 0 <= j < |b[n - 1]| && MovableAt(b, color, ep, castle, n - 1, j);
        assert MovableAt(b, color, ep, castle, n - 1, j);
      }
    }
  }

  /**
   * getAllMovesForColor returns nothing exactly when hasAnyLegalMoves is false, so the
   * search's "no moves" leaf and checkGameEnd agree.
   */
  lemma NoPliesIffNoLegalMoves(b: Board, color: Color, ep: Option<Sq>, castle: Rights)
    ensures |OrderedPlies(b, color, ep, castle)| == 0 <==> !AnyLegal(b, color, ep, castle)
  {
    var ps := Collected(b, color, ep, castle, |b|);
    CaptureFirstPermutes(ps);
    assert |CaptureFirst(ps)| == |multiset(CaptureFirst(ps))| == |multiset(ps)| == |ps|;
    CollectedEmpty(b, color, ep, castle, |b|);
    if !AnyLegal(b, color, ep, castle) {
      assert forall i, j :: 0 <= i < 8 && 0 <= j < 8 ==> !MovableAt(b, color, ep, castle, i, j);
    }
  }

  // ---------------------------------------------------------------------------------------
  // minimax

  /** newCastle in minimax: a king move of the mover clears both its rights, a rook leaving column 0 or 7 one. */
  function SearchRights(castle: Rights, color: Color, piece: Cell, fromC: int): (n: Rights)
    ensures piece.Has? && piece.kind == King ==> !KingSideRight(n, color) && !QueenSideRight(n, color)
    ensures piece.Has? && piece.kind == Rook && fromC == 0 ==> !QueenSideRight(n, color)
    ensures piece.Has? && piece.kind == Rook && fromC == 7 ==> !KingSideRight(n, color)
    ensures KingSideRight(n, Enemy(color)) == KingSideRight(castle, Enemy(color))
    ensures QueenSideRight(n, Enemy(color)) == QueenSideRight(castle, Enemy(color))
    ensures !(piece.Has? && (piece.kind == King || piece.kind == Rook)) ==> n == castle
  {
    if piece.Has? && piece.kind == King then DropQueenSide(DropKingSide(castle, color), color)
    else if piece.Has? && piece.kind == Rook then
      var n0 := if fromC == 0 then DropQueenSide(castle, color) else castle;
      if fromC == 7 then DropKingSide(n0, color) else n0
    else castle
  }

  /** The score of a side with no legal move that is in check: -99999 + (3 - depth) when maximising. */
  function MateScore(maximizing: bool, depth: int): (s: int)
    ensures 0 <= depth <= 3 ==> 99996 <= (if maximizing then -s else s) <= 99999
  {
    if maximizing then -99999 + (3 - depth) else 99999 - (3 - depth)
  }

  /** A search node: the board with the en-passant target and the castling rights minimax passes down. */
  datatype Position = Position(board: Board, ep: Option<Sq>, castle: Rights)

  /** The moves minimax loops over: getAllMovesForColor for the side to move. */
  function PositionPlies(pos: Position, maximizing: bool): seq<Ply>
  {
    OrderedPlies(pos.board, Mover(maximizing), pos.ep, pos.castle)
  }

  /**
   * sim, newEp and newCastle of the minimax loop. Every ply the loop sees is applicable;
   * any other ply leaves the position as it is.
   */
  function PlayPly(pos: Position, maximizing: bool, p: Ply): Position
  {
    if PlyApplicable(pos.board, p) then
      Position(SimulateMove(pos.board, p.fromR, p.fromC, p.move), EpAfter(p.fromR, p.fromC, p.move),
               SearchRights(pos.castle, Mover(maximizing), pos.board[p.fromR][p.fromC], p.fromC))
    else pos
  }

  /** The depth-0 leaf of minimax: evaluateBoard. */
  function Leaf(pos: Position): int
  {
    Evaluation(pos.board)
  }

  /** A side with no legal move: the mate score when it is in check, 0 (stalemate) otherwise. */
  function NoMoveScore(pos: Position, depth: nat, maximizing: bool): int
  {
    if InCheck(Mover(maximizing), pos.board) then MateScore(maximizing, depth) else 0
  }

  /** The chess game tree minimax searches: White maximises, Black minimises. */
  function ChessGame(): Game<Position, Ply>
  {
    Game(PositionPlies, PlayPly, Leaf, NoMoveScore)
  }

  /** The value minimax computes when nothing is pruned. */
  function ChessValue(b: Board, depth: nat, maximizing: bool, ep: Option<Sq>, castle: Rights): int
  {
    Value(ChessGame(), Position(b, ep, castle), depth, maximizing)
  }

  /** Evaluations and mate scores of searches up to depth 3 stay within EvalBound. */
  lemma ChessBounded(depth: nat)
    requires depth <= 3
    ensures Bounded(ChessGame(), EvalBound, depth)
  {
  }

  /** With no legal move, the value is the mate score when the side to move is in check, else 0. */
  lemma ChessValueNoMoves(b: Board, depth: nat, maximizing: bool, ep: Option<Sq>, castle: Rights)
    requires depth > 0 && |OrderedPlies(b, Mover(maximizing), ep, castle)| == 0
    ensures ChessValue(b, depth, maximizing, ep, castle) ==
      if InCheck(Mover(maximizing), b) then MateScore(maximizing, depth) else 0
  {
    assert ChessGame().moves(Position(b, ep, castle), maximizing) == [];
  }

  /**
   * With a legal move, the value is the best child's: no ply leads to a position whose
   * value beats it, and some ply leads to one whose value equals it.
   */
  lemma ChessValueBestChild(b: Board, depth: nat, maximizing: bool, ep: Option<Sq>, castle: Rights)
    requires 0 < depth <= 3 && |OrderedPlies(b, Mover(maximizing), ep, castle)| > 0
    ensures var plies, v := OrderedPlies(b, Mover(maximizing), ep, castle), ChessValue(b, depth, maximizing, ep, castle);
      && (forall p :: p in plies ==>
            var child := ChessValue(SimulateMove(b, p.fromR, p.fromC, p.move), depth - 1, !maximizing, EpAfter(p.fromR, p.fromC, p.move),
                                    SearchRights(castle, Mover(maximizing), b[p.fromR][p.fromC], p.fromC));
            if maximizing then child <= v else v <= child)
      && (exists p :: p in plies &&
            ChessValue(SimulateMove(b, p.fromR, p.fromC, p.move), depth - 1, !maximizing, EpAfter(p.fromR, p.fromC, p.move),
                       SearchRights(castle, Mover(maximizing), b[p.fromR][p.fromC], p.fromC)) == v)
  {
    var g, pos := ChessGame(), Position(b, ep, castle);
    var plies := OrderedPlies(b, Mover(maximizing), ep, castle);
    assert g.moves(pos, maximizing) == plies;
    assert Value(g, pos, depth, maximizing) == Best(g, pos, depth, maximizing, plies);
    BestIsBest(g, pos, depth, maximizing, plies);
    ChessBounded(depth);
    BestAttained(g, EvalBound, pos, depth, maximizing, plies);
    forall p | p in plies
      ensures g.play(pos, maximizing, p) == Position(SimulateMove(b, p.fromR, p.fromC, p.move), EpAfter(p.fromR, p.fromC, p.move),
                                                     SearchRights(castle, Mover(maximizing), b[p.fromR][p.fromC], p.fromC))
    {
      assert PlyApplicable(b, p);
    }
  }

  /**
   * minimax: alpha-beta search with the cutoff `beta <= alpha`. Its result is fail-soft with
   * respect to the unpruned value: exact inside the window, a bound on the correct side of
   * it outside.
   */
  method Minimax(b: Board, depth: nat, alpha: int, beta: int, maximizing: bool, ep: Option<Sq>, castle: Rights)
    returns (v: int)
    requires NegInf <= alpha < beta <= PosInf
    ensures FailSoft(alpha, beta, v, ChessValue(b, depth, maximizing, ep, castle))
  {
    v := Search(ChessGame(), Position(b, ep, castle), depth, alpha, beta, maximizing);
  }

  // ---------------------------------------------------------------------------------------
  // aiMove

  /**
   * The position aiMove searches after Black's ply: the en-passant target follows the ply,
   * the castling rights are passed on unchanged.
   */
  function RootChild(b: Board, castle: Rights, p: Ply): Position
  {
    if PlyApplicable(b, p) then
      Position(SimulateMove(b, p.fromR, p.fromC, p.move), EpAfter(p.fromR, p.fromC, p.move), castle)
    else Position(b, None, castle)
  }

  function RootChildren(b: Board, castle: Rights): Ply -> Position
  {
    p => RootChild(b, castle, p)
  }

  /** The score aiMove gives Black's ply p: minimax at depth 2 with White to move. */
  function AIScore(b: Board, castle: Rights, p: Ply): int
  {
    RootScore(ChessGame(), RootChildren(b, castle), 2, false, p)
  }

  /** The score of an applicable ply is the unpruned value of the position it leads to. */
  lemma AIScoreIs(b: Board, castle: Rights, p: Ply)
    requires PlyApplicable(b, p)
    ensures AIScore(b, castle, p) ==
      ChessValue(SimulateMove(b, p.fromR, p.fromC, p.move), 2, true, EpAfter(p.fromR, p.fromC, p.move), castle)
  {
  }

  /** A ply aiMove may choose: one of Black's plies with no lower score among them. */
  lemma AIOptimalIff(b: Board, castle: Rights, plies: seq<Ply>, p: Ply)
    ensures Optimal(ChessGame(), RootChildren(b, castle), 2, false, plies, p) <==>
      p in plies && forall q :: q in plies ==> AIScore(b, castle, p) <= AIScore(b, castle, q)
  {
  }

  /**
   * The selection loop of aiMove: every legal ply of Black searched with minimax(sim, 2,
   * -Infinity, +Infinity, true); a lower score restarts bestMoves, an equal one joins it.
   * The chosen plies are exactly Black's optimal plies (AIOptimalIff: those with the lowest
   * score), in move order, and there is one whenever Black has a legal ply.
   */
  method AIChoices(b: Board, ep: Option<Sq>, castle: Rights) returns (best: seq<Ply>)
    ensures forall p :: p in best <==> Optimal(ChessGame(), RootChildren(b, castle), 2, false, OrderedPlies(b, Black, ep, castle), p)
    ensures |best| > 0 <==> |OrderedPlies(b, Black, ep, castle)| > 0
  {
    var plies := AllMovesForColor(Black, b, ep, castle);
    ChessBounded(2);
    var bestScore;
    best, bestScore := SelectBest(ChessGame(), EvalBound, RootChildren(b, castle), 2, false, plies);
  }
}
