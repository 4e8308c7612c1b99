/**
 * The starting position of js/chess.js seen through the move generator: from INITIAL_BOARD
 * White has exactly twenty legal moves, a single and a double push for each pawn and two
 * jumps for each knight. The count goes through getLegalMoves, so it also shows that none of
 * these moves exposes the king and that castling is blocked by the pieces between king and rook.
 */
module ChessOpening {
  import opened Wrappers
  import opened ChessBoard
  import opened ChessMoves
  import opened ChessSearch

  /** Both armies on their home rows as in INITIAL_BOARD, rows 2-5 empty. */
  predicate OpeningLayout(b: Board)
  {
    && (forall c :: 0 <= c < 8 ==> b[0][c].Has? && b[0][c].color == Black && b[1][c] == Has(Black, Pawn))
    && (forall r, c :: 2 <= r < 6 && 0 <= c < 8 ==> b[r][c] == Empty)
    && (forall c :: 0 <= c < 8 ==> b[6][c] == Has(White, Pawn))
    && b[7][0] == Has(White, Rook) && b[7][1] == Has(White, Knight) && b[7][2] == Has(White, Bishop)
    && b[7][3] == Has(White, Queen) && b[7][4] == Has(White, King)
    && b[7][5] == Has(White, Bishop) && b[7][6] == Has(White, Knight) && b[7][7] == Has(White, Rook)
  }

  lemma InitialLayout()
    ensures OpeningLayout(InitialBoard())
  {
  }

  // ---------------------------------------------------------------------------------------
  // Black cannot reach White's half while it stays at home

  /** Black's pieces all on rows 0 and 1, with only pawns on row 1. */
  ghost predicate BlackAtHome(s: Board)
  {
    && (forall c :: 0 <= c < 8 ==> s[0][c].Has? && s[0][c].color == Black && s[1][c] == Has(Black, Pawn))
    && (forall r, c :: InBounds(r, c) && 2 <= r && s[r][c].Has? ==> s[r][c].color == White)
  }

  /** A slider whose first square in every direction is blocked has no move. */
  lemma {:induction false} RaysBlocked(b: Board, r: int, c: int, dirs: seq<(int, int)>, enemy: Color)
    requires forall k :: 0 <= k < |dirs| ==> Blocked(b, r + dirs[k].0, c + dirs[k].1, enemy)
    ensures Rays(b, r, c, dirs, enemy) == []
  {
    if |dirs| > 0 {
      assert forall k :: 0 <= k < |dirs| - 1 ==> dirs[1..][k] == dirs[k + 1];
      RaysBlocked(b, r, c, dirs[1..], enemy);
    }
  }

  /** A knight or king whose every step is blocked has no move. */
  lemma {:induction false} LeapsBlocked(b: Board, r: int, c: int, offsets: seq<(int, int)>, enemy: Color)
    requires forall k :: 0 <= k < |offsets| ==> Blocked(b, r + offsets[k].0, c + offsets[k].1, enemy)
    ensures Leaps(b, r, c, offsets, enemy) == []
  {
    if |offsets| > 0 {
      assert forall k :: 0 <= k < |offsets| - 1 ==> offsets[1..][k] == offsets[k + 1];
      LeapsBlocked(b, r, c, offsets[1..], enemy);
    }
  }

  /** Black's pawns on row 1 push or capture onto rows 2 and 3 only. */
  lemma BlackPawnNear(s: Board, rr: int, cc: int)
    requires InBounds(rr, cc) && rr < 2 && s[rr][cc] == Has(Black, Pawn)
    ensures forall m :: m in PawnMoves(s, rr, cc, None) ==> m.r <= 3
  {
    assert forall m :: m in PawnForward(s, rr, cc, None) ==> m.r <= rr + 2;
    assert forall m :: m in PawnDiagonal(s, rr, cc, cc - 1, None) ==> m.r == rr + 1;
    assert forall m :: m in PawnDiagonal(s, rr, cc, cc + 1, None) ==> m.r == rr + 1;
  }

  /** A knight or king on rows 0-1 steps at most two rows down. */
  lemma LeaperNear(s: Board, rr: int, cc: int, offsets: seq<(int, int)>)
    requires rr < 2 && forall k :: 0 <= k < |offsets| ==> offsets[k].0 <= 2
    ensures forall m :: m in Leaps(s, rr, cc, offsets, White) ==> m.r <= 3
  {
    forall m | m in Leaps(s, rr, cc, offsets, White)
      ensures m.r <= 3
    {
      LeapsSound(s, rr, cc, offsets, White, m);
    }
  }

  /** A black rook, bishop or queen on row 0 is boxed in by its own pieces. */
  lemma BlackSliderStuck(s: Board, cc: int)
    requires BlackAtHome(s) && 0 <= cc < 8
    ensures Rays(s, 0, cc, Orthogonal(), White) == [] && Rays(s, 0, cc, Diagonal(), White) == []
  {
    assert Blocked(s, 0, cc + 1, White) && Blocked(s, 0, cc - 1, White);
    assert Blocked(s, 1, cc, White) && Blocked(s, -1, cc, White);
    assert Blocked(s, 1, cc + 1, White) && Blocked(s, 1, cc - 1, White);
    assert Blocked(s, -1, cc + 1, White) && Blocked(s, -1, cc - 1, White);
    RaysBlocked(s, 0, cc, Orthogonal(), White);
    RaysBlocked(s, 0, cc, Diagonal(), White);
  }

  /** Without castling, getPseudoMoves is the pawn moves of a pawn and the slides or steps of any other piece. */
  lemma PseudoMovesOf(b: Board, r: int, c: int)
    requires InBounds(r, c) && b[r][c].Has?
    ensures b[r][c].kind == Pawn ==> PseudoMoves(b, r, c, None, None) == PawnMoves(b, r, c, None)
    ensures b[r][c].kind != Pawn ==>
              PseudoMoves(b, r, c, None, None) == PieceMoves(b, r, c, b[r][c].kind, Enemy(b[r][c].color))
  {
    assert PseudoMoves(b, r, c, None, None) == BasicMoves(b, r, c, None) + [];
  }

  /** At home, every pseudo-move of a black piece lands on rows 0-3. */
  lemma BlackStaysNear(s: Board, rr: int, cc: int)
    requires BlackAtHome(s) && InBounds(rr, cc) && s[rr][cc].Has? && s[rr][cc].color == Black
    ensures forall m :: m in PseudoMoves(s, rr, cc, None, None) ==> m.r <= 3
  {
    assert rr < 2;
    PseudoMovesOf(s, rr, cc);
    var kind := s[rr][cc].kind;
    if kind == Pawn {
      BlackPawnNear(s, rr, cc);
    } else if kind == Knight {
      LeaperNear(s, rr, cc, KnightJumps());
    } else if kind == King {
      LeaperNear(s, rr, cc, KingSteps());
    } else {
      assert rr == 0;
      BlackSliderStuck(s, cc);
      assert PieceMoves(s, rr, cc, kind, White) == [];
    }
  }

  /** While Black stays at home, a white king on rows 4-7 is not in check. */
  lemma BlackAtHomeNoCheck(s: Board)
    requires BlackAtHome(s)
    requires forall r, c :: InBounds(r, c) && s[r][c] == Has(White, King) ==> r >= 4
    ensures !InCheck(White, s)
  {
    FindKingSpec(White, s);
    var k := FindKing(White, s);
    if k.Some? {
      var kr, kc := k.value.r, k.value.c;
      forall rr, cc | InBounds(rr, cc) && s[rr][cc].Has? && s[rr][cc].color == Black
        ensures !LandsOn(PseudoMoves(s, rr, cc, None, None), kr, kc)
      {
        BlackStaysNear(s, rr, cc);
      }
      IsSquareAttackedIff(s, kr, kc, Black);
    }
  }

  // ---------------------------------------------------------------------------------------
  // White's moves from the opening layout

  /** A pawn on its start row: the single push, then the double push. */
  lemma OpeningPawn(b: Board, c: int, castle: Rights)
    requires OpeningLayout(b) && 0 <= c < 8
    ensures PseudoMoves(b, 6, c, None, Some(castle)) == [Move(5, c, Plain), Move(4, c, Double)]
  {
    assert PawnForward(b, 6, c, None) == [Move(5, c, Plain), Move(4, c, Double)];
    assert PawnDiagonal(b, 6, c, c - 1, None) == [];
    assert PawnDiagonal(b, 6, c, c + 1, None) == [];
  }

  /** A knight on b1 or g1: the two jumps onto row 5, every other step blocked or off the board. */
  lemma OpeningKnight(b: Board, c: int, castle: Rights)
    requires OpeningLayout(b) && (c == 1 || c == 6)
    ensures PseudoMoves(b, 7, c, None, Some(castle)) == [Move(5, c - 1, Plain), Move(5, c + 1, Plain)]
  {
    KnightLeaps(b, c);
    assert PseudoMoves(b, 7, c, None, Some(castle)) == PieceMoves(b, 7, c, Knight, Black) + [];
  }

  lemma KnightLeaps(b: Board, c: int)
    requires OpeningLayout(b) && (c == 1 || c == 6)
    ensures Leaps(b, 7, c, KnightJumps(), Black) == [Move(5, c - 1, Plain), Move(5, c + 1, Plain)]
  {
    var offs := KnightJumps();
    HemmedIn(b, c);
    LeapsBlocked(b, 7, c, offs[2..], Black);
    assert offs[1..][1..] == offs[2..];
    var rest := Leaps(b, 7, c, offs[1..], Black);
    assert rest == Leap(b, 5, c + 1, Black) + Leaps(b, 7, c, offs[2..], Black);
    assert Leaps(b, 7, c, offs, Black) == Leap(b, 5, c - 1, Black) + rest;
  }

  /** Every square next to (7, c) is off the board or held by White. */
  lemma HemmedIn(b: Board, c: int)
    requires OpeningLayout(b) && 0 <= c < 8
    ensures && Blocked(b, 7, c + 1, Black) && Blocked(b, 7, c - 1, Black)
            && Blocked(b, 6, c, Black) && Blocked(b, 8, c, Black)
            && Blocked(b, 6, c + 1, Black) && Blocked(b, 6, c - 1, Black)
            && Blocked(b, 8, c + 1, Black) && Blocked(b, 8, c - 1, Black)
  {
  }

  /** The rooks, bishops and queen of row 7 have no move. */
  lemma OpeningSliderStuck(b: Board, c: int, castle: Rights)
    requires OpeningLayout(b) && 0 <= c < 8 && c != 1 && c != 4 && c != 6
    ensures PseudoMoves(b, 7, c, None, Some(castle)) == []
  {
    WhiteSliderStuck(b, c);
    var kind := b[7][c].kind;
    assert kind == Rook || kind == Bishop || kind == Queen;
    assert PseudoMoves(b, 7, c, None, Some(castle)) == PieceMoves(b, 7, c, kind, Black) + [];
  }

  lemma WhiteSliderStuck(b: Board, c: int)
    requires OpeningLayout(b) && 0 <= c < 8
    ensures Rays(b, 7, c, Orthogonal(), Black) == [] && Rays(b, 7, c, Diagonal(), Black) == []
  {
    HemmedIn(b, c);
    RaysBlocked(b, 7, c, Orthogonal(), Black);
    RaysBlocked(b, 7, c, Diagonal(), Black);
  }

  /** The king has no step, and castling is blocked by the bishops, knights and queen. */
  lemma OpeningKingStuck(b: Board, castle: Rights)
    requires OpeningLayout(b)
    ensures PseudoMoves(b, 7, 4, None, Some(castle)) == []
  {
    HemmedIn(b, 4);
    LeapsBlocked(b, 7, 4, KingSteps(), Black);
    assert CastleMoves(b, White, castle) == [];
  }

  /** Moving a white pawn or knight onto rows 4-5 leaves White's king safe. */
  lemma OpeningMoveSafe(b: Board, r: int, c: int, m: Move)
    requires OpeningLayout(b) && 6 <= r < 8 && 0 <= c < 8 && b[r][c].kind != King
    requires 0 <= m.c < 8 && 4 <= m.r < 6 && (m.kind == Plain || m.kind == Double)
    ensures !InCheck(White, SimulateMove(b, r, c, m))
  {
    var s := SimulateMove(b, r, c, m);
    SimulateMoveEffect(b, r, c, m);
    assert BlackAtHome(s);
    BlackAtHomeNoCheck(s);
  }

  /** When no move exposes the king, the getLegalMoves filter keeps the whole list. */
  lemma {:induction false} KingSafeKeepsAll(b: Board, r: int, c: int, color: Color, ms: seq<Move>)
    requires forall m :: m in ms ==> Applicable(b, r, c, m) && !InCheck(color, SimulateMove(b, r, c, m))
    ensures KingSafe(b, r, c, color, ms) == ms
  {
    if |ms| > 0 {
      assert forall m :: m in ms[1..] ==> m in ms;
      KingSafeKeepsAll(b, r, c, color, ms[1..]);
      assert ms == [ms[0]] + ms[1..];
    }
  }

  /** How many legal moves White's piece on (r, c) has in the opening layout. */
  function OpeningCount(r: int, c: int): nat
  {
    if r == 6 || (r == 7 && (c == 1 || c == 6)) then 2 else 0
  }

  /** A pawn's two pushes are both legal. */
  lemma OpeningPawnLegal(b: Board, c: int, castle: Rights)
    requires OpeningLayout(b) && 0 <= c < 8
    ensures LegalMoves(b, 6, c, None, castle) == [Move(5, c, Plain), Move(4, c, Double)]
  {
    OpeningPawn(b, c, castle);
    OpeningMoveSafe(b, 6, c, Move(5, c, Plain));
    OpeningMoveSafe(b, 6, c, Move(4, c, Double));
    KingSafeKeepsAll(b, 6, c, White, [Move(5, c, Plain), Move(4, c, Double)]);
  }

  /** A knight's two jumps are both legal. */
  lemma OpeningKnightLegal(b: Board, c: int, castle: Rights)
    requires OpeningLayout(b) && (c == 1 || c == 6)
    ensures LegalMoves(b, 7, c, None, castle) == [Move(5, c - 1, Plain), Move(5, c + 1, Plain)]
  {
    OpeningKnight(b, c, castle);
    OpeningMoveSafe(b, 7, c, Move(5, c - 1, Plain));
    OpeningMoveSafe(b, 7, c, Move(5, c + 1, Plain));
    KingSafeKeepsAll(b, 7, c, White, [Move(5, c - 1, Plain), Move(5, c + 1, Plain)]);
  }

  /** How many legal moves each white piece of rows 6 and 7 has. */
  lemma OpeningLegalCount(b: Board, r: int, c: int, castle: Rights)
    requires OpeningLayout(b) && 6 <= r < 8 && 0 <= c < 8
    ensures |LegalMoves(b, r, c, None, castle)| == OpeningCount(r, c)
  {
    if r == 6 {
      OpeningPawnLegal(b, c, castle);
    } else if c == 1 || c == 6 {
      OpeningKnightLegal(b, c, castle);
    } else if c == 4 {
      OpeningKingStuck(b, castle);
    } else {
      OpeningSliderStuck(b, c, castle);
    }
  }

  /** The plies getAllMovesForColor collects for one square of the opening layout. */
  lemma OpeningSquare(b: Board, r: int, c: int, castle: Rights)
    requires OpeningLayout(b) && InBounds(r, c)
    ensures |SquarePlies(b, White, None, castle, r, c)| == OpeningCount(r, c)
  {
    if r >= 6 {
      assert b[r][c].Has? && b[r][c].color == White;
      OpeningLegalCount(b, r, c, castle);
    } else {
      assert !b[r][c].Has? || b[r][c].color == Black;
    }
  }

  lemma {:induction false} OpeningRow(b: Board, castle: Rights, r: int, n: nat)
    requires OpeningLayout(b) && 0 <= r < 8 && n <= 8
    ensures |RowPlies(b, White, None, castle, r, n)| ==
      if r == 6 then 2 * n else if r == 7 then (if n > 1 then 2 else 0) + (if n > 6 then 2 else 0) else 0
  {
    if n > 0 {
      OpeningRow(b, castle, r, n - 1);
      OpeningSquare(b, r, n - 1, castle);
    }
  }

  lemma {:induction false} OpeningRows(b: Board, castle: Rights, n: nat)
    requires OpeningLayout(b) && n <= 8
    ensures |Collected(b, White, None, castle, n)| == if n == 8 then 20 else if n == 7 then 16 else 0
  {
    if n > 0 {
      OpeningRows(b, castle, n - 1);
      OpeningRow(b, castle, n - 1, 8);
    }
  }

  /**
   * getAllMovesForColor from the opening layout returns twenty plies for White, whatever the
   * castling rights: sixteen pawn pushes and four knight jumps.
   */
  lemma OpeningTwentyMoves(b: Board, castle: Rights)
    requires OpeningLayout(b)
    ensures |OrderedPlies(b, White, None, castle)| == 20
  {
    var ps := Collected(b, White, None, castle, 8);
    OpeningRows(b, castle, 8);
    CaptureFirstPermutes(ps);
    assert |multiset(CaptureFirst(ps))| == |multiset(ps)|;
  }

  /** The game's first position: White to move with all castling rights and no en-passant target. */
  lemma InitialTwentyMoves()
    ensures |OrderedPlies(InitialBoard(), White, None, Rights(true, true, true, true))| == 20
  {
    InitialLayout();
    OpeningTwentyMoves(InitialBoard(), Rights(true, true, true, true));
  }
}
