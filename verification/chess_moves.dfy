/**
 * Move generation and legality filtering of js/chess.js: getPseudoMoves, isSquareAttacked,
 * findKing, isInCheck, simulateMove and getLegalMoves, all as functions of a board value.
 */
module ChessMoves {
  import opened Wrappers
  import opened ChessBoard

  /** The `type` field of a move: 'move', 'capture', 'double', 'enpassant', 'castle-k', 'castle-q', 'promotion'. */
  datatype MoveKind = Plain | Capture | Double | EnPassant | CastleK | CastleQ | Promotion

  /** A move target `{ r, c, type }` as the generator returns it (the origin is implicit). */
  datatype Move = Move(r: int, c: int, kind: MoveKind)

  /** `castlingRights`: { wK, wQ, bK, bQ }. */
  datatype Rights = Rights(wK: bool, wQ: bool, bK: bool, bQ: bool)

  function KingSideRight(rights: Rights, color: Color): bool
  {
    if color == White then rights.wK else rights.bK
  }

  function QueenSideRight(rights: Rights, color: Color): bool
  {
    if color == White then rights.wQ else rights.bQ
  }

  /** `rights` with `color`'s kingside right cleared. */
  function DropKingSide(rights: Rights, color: Color): Rights
  {
    if color == White then rights.(wK := false) else rights.(bK := false)
  }

  /** `rights` with `color`'s queenside right cleared. */
  function DropQueenSide(rights: Rights, color: Color): Rights
  {
    if color == White then rights.(wQ := false) else rights.(bQ := false)
  }

  /** The row of a side's back rank: 7 for White, 0 for Black. */
  function HomeRow(color: Color): int { if color == White then 7 else 0 }

  /** Pawn direction: White moves up the board (row - 1), Black down. */
  function PawnDir(color: Color): int { if color == White then -1 else 1 }

  function PawnStartRow(color: Color): int { if color == White then 6 else 1 }

  /** Row of the pawn taken en passant: one row behind the destination, as seen by the mover. */
  function EpVictimRow(color: Color, r: int): int { if color == White then r + 1 else r - 1 }

  predicate OwnAt(b: Board, r: int, c: int, color: Color)
    requires InBounds(r, c)
  {
    b[r][c].Has? && b[r][c].color == color
  }

  /** A square that stops a slide or leap without being a target: off the board or held by a non-enemy. */
  predicate Blocked(b: Board, r: int, c: int, enemy: Color)
  {
    !InBounds(r, c) || (b[r][c].Has? && b[r][c].color != enemy)
  }

  /** A target of a slide or leap: an empty square as 'move', an enemy-held square as 'capture'. */
  predicate Reachable(b: Board, m: Move, enemy: Color)
  {
    && InBounds(m.r, m.c)
    && ((m.kind == Plain && b[m.r][m.c] == Empty)
        || (m.kind == Capture && b[m.r][m.c].Has? && b[m.r][m.c].color == enemy))
  }

  /** A move the board update functions can apply: both squares on the board and a piece on the origin. */
  predicate Applicable(b: Board, fromR: int, fromC: int, m: Move)
  {
    && InBounds(fromR, fromC)
    && InBounds(m.r, m.c)
    && b[fromR][fromC].Has?
    && (m.kind == EnPassant ==> InBounds(EpVictimRow(b[fromR][fromC].color, m.r), m.c))
  }

  /** Some move of `ms` lands on (r, c). */
  predicate LandsOn(ms: seq<Move>, r: int, c: int)
  {
    exists i :: 0 <= i < |ms| && ms[i].r == r && ms[i].c == c
  }

  // ---------------------------------------------------------------------------------------
  // Sliding pieces

  function NextR(ms: seq<Move>, r: int, dr: int): int
  {
    if |ms| == 0 then r else ms[|ms| - 1].r + dr
  }

  function NextC(ms: seq<Move>, c: int, dc: int): int
  {
    if |ms| == 0 then c else ms[|ms| - 1].c + dc
  }

  /** The targets of `ms` are the squares (r, c), (r + dr, c + dc), ... in that order. */
  predicate Contiguous(ms: seq<Move>, r: int, c: int, dr: int, dc: int)
  {
    |ms| == 0 || (ms[0].r == r && ms[0].c == c && Contiguous(ms[1..], r + dr, c + dc, dr, dc))
  }

  /**
   * One ray of a rook, bishop or queen, starting at (r, c) and stepping by (dr, dc) at most n
   * times: consecutive squares, all empty except possibly the last, which is then an enemy
   * capture.
   */
  function Ray(b: Board, r: int, c: int, dr: int, dc: int, enemy: Color, n: nat): (ms: seq<Move>)
    ensures forall m :: m in ms ==> Reachable(b, m, enemy)
    decreases n
  {
    if n == 0 || !InBounds(r, c) then []
    else if b[r][c] == Empty then [Move(r, c, Plain)] + Ray(b, r + dr, c + dc, dr, dc, enemy, n - 1)
    else if b[r][c].color == enemy then [Move(r, c, Capture)]
    else []
  }

  /**
   * The shape of a ray: at most n squares, consecutive from (r, c) in steps of (dr, dc), every
   * one but the last a plain move.
   */
  lemma {:induction false} RayShape(b: Board, r: int, c: int, dr: int, dc: int, enemy: Color, n: nat)
    ensures var ms := Ray(b, r, c, dr, dc, enemy, n);
      && |ms| <= n
      && Contiguous(ms, r, c, dr, dc)
      && forall i :: 0 <= i < |ms| - 1 ==> ms[i].kind == Plain
    decreases n
  {
    if n > 0 && InBounds(r, c) && b[r][c] == Empty {
      var rest := Ray(b, r + dr, c + dc, dr, dc, enemy, n - 1);
      RayShape(b, r + dr, c + dc, dr, dc, enemy, n - 1);
      var ms := [Move(r, c, Plain)] + rest;
      assert ms[1..] == rest;
      assert forall i :: 0 < i < |ms| ==> ms[i] == rest[i - 1];
    }
  }

  /**
   * A ray that ends before its step budget, without a capture, ends because the next
   * square is off the board or holds a piece of the mover's own colour: a slide is never cut
   * short while the way ahead is free.
   */
  lemma {:induction false} RayStopsAtBlocker(b: Board, r: int, c: int, dr: int, dc: int, enemy: Color, n: nat)
    ensures var ms := Ray(b, r, c, dr, dc, enemy, n);
            |ms| < n && (|ms| == 0 || ms[|ms| - 1].kind == Plain) ==>
              Blocked(b, NextR(ms, r, dr), NextC(ms, c, dc), enemy)
    decreases n
  {
    var ms := Ray(b, r, c, dr, dc, enemy, n);
    if n == 0 || !InBounds(r, c) {
      assert ms == [];
    } else if b[r][c] == Empty {
      var rest := Ray(b, r + dr, c + dc, dr, dc, enemy, n - 1);
      RayStopsAtBlocker(b, r + dr, c + dc, dr, dc, enemy, n - 1);
      assert ms == [Move(r, c, Plain)] + rest;
      if |ms| < n && (|ms| == 0 || ms[|ms| - 1].kind == Plain) {
        if |rest| == 0 {
          assert NextR(ms, r, dr) == r + dr && NextC(ms, c, dc) == c + dc;
        } else {
          assert ms[|ms| - 1] == rest[|rest| - 1];
          assert NextR(ms, r, dr) == NextR(rest, r + dr, dr) && NextC(ms, c, dc) == NextC(rest, c + dc, dc);
        }
      }
    } else if b[r][c].color == enemy {
      assert ms == [Move(r, c, Capture)];
    } else {
      assert ms == [];
    }
  }

  /** The rays in `dirs`, in order, each up to seven squares long. */
  function Rays(b: Board, r: int, c: int, dirs: seq<(int, int)>, enemy: Color): (ms: seq<Move>)
    ensures forall m :: m in ms ==> Reachable(b, m, enemy)
  {
    if |dirs| == 0 then []
    else Ray(b, r + dirs[0].0, c + dirs[0].1, dirs[0].0, dirs[0].1, enemy, 7) + Rays(b, r, c, dirs[1..], enemy)
  }

  function Orthogonal(): seq<(int, int)> { [(0, 1), (0, -1), (1, 0), (-1, 0)] }
  function Diagonal(): seq<(int, int)> { [(1, 1), (1, -1), (-1, 1), (-1, -1)] }
  function KnightJumps(): seq<(int, int)> { [(-2, -1), (-2, 1), (-1, -2), (-1, 2), (1, -2), (1, 2), (2, -1), (2, 1)] }
  function KingSteps(): seq<(int, int)> { [(-1, -1), (-1, 0), (-1, 1), (0, -1), (0, 1), (1, -1), (1, 0), (1, 1)] }

  // ---------------------------------------------------------------------------------------
  // Knight and king steps

  /** One knight or king step onto (nr, nc): a 'move' if empty, a 'capture' if enemy-held, else nothing. */
  function Leap(b: Board, nr: int, nc: int, enemy: Color): (ms: seq<Move>)
    ensures |ms| <= 1
    ensures forall m :: m in ms ==> Reachable(b, m, enemy) && m.r == nr && m.c == nc
    ensures !Blocked(b, nr, nc, enemy) ==> |ms| == 1
  {
    if !InBounds(nr, nc) then []
    else if b[nr][nc] == Empty then [Move(nr, nc, Plain)]
    else if b[nr][nc].color == enemy then [Move(nr, nc, Capture)]
    else []
  }

  /** Fixed-offset moves of a knight or king, one Leap per offset, in the order of `offsets`. */
  function Leaps(b: Board, r: int, c: int, offsets: seq<(int, int)>, enemy: Color): (ms: seq<Move>)
    ensures |ms| <= |offsets|
    ensures forall m :: m in ms ==> Reachable(b, m, enemy)
  {
    if |offsets| == 0 then []
    else Leap(b, r + offsets[0].0, c + offsets[0].1, enemy) + Leaps(b, r, c, offsets[1..], enemy)
  }

  /** Every target of Leaps lies at one of the offsets from (r, c). */
  lemma {:induction false} LeapsSound(b: Board, r: int, c: int, offsets: seq<(int, int)>, enemy: Color, m: Move)
    requires m in Leaps(b, r, c, offsets, enemy)
    ensures exists k :: 0 <= k < |offsets| && m.r == r + offsets[k].0 && m.c == c + offsets[k].1
    decreases |offsets|
  {
    var here := Leap(b, r + offsets[0].0, c + offsets[0].1, enemy);
    if m !in here {
      LeapsSound(b, r, c, offsets[1..], enemy, m);
      var k :| 0 <= k < |offsets[1..]| && m.r == r + offsets[1..][k].0 && m.c == c + offsets[1..][k].1;
      assert offsets[k + 1] == offsets[1..][k];
    }
  }

  /** Every offset whose square is on the board and not held by the mover's colour is a target of Leaps. */
  lemma {:induction false} LeapsComplete(b: Board, r: int, c: int, offsets: seq<(int, int)>, enemy: Color, k: nat)
    requires k < |offsets| && !Blocked(b, r + offsets[k].0, c + offsets[k].1, enemy)
    ensures LandsOn(Leaps(b, r, c, offsets, enemy), r + offsets[k].0, c + offsets[k].1)
    decreases k
  {
    var here := Leap(b, r + offsets[0].0, c + offsets[0].1, enemy);
    var rest := Leaps(b, r, c, offsets[1..], enemy);
    assert Leaps(b, r, c, offsets, enemy) == here + rest;
    if k == 0 {
      assert (here + rest)[0] == here[0];
    } else {
      assert offsets[1..][k - 1] == offsets[k];
      LeapsComplete(b, r, c, offsets[1..], enemy, k - 1);
      var i :| 0 <= i < |rest| && rest[i].r == r + offsets[k].0 && rest[i].c == c + offsets[k].1;
      assert (here + rest)[|here| + i] == rest[i];
    }
  }

  // ---------------------------------------------------------------------------------------
  // Pawns

  function PromotesOn(nr: int, k: MoveKind): MoveKind
  {
    if nr == 0 || nr == 7 then Promotion else k
  }

  /**
   * What getPseudoMoves guarantees of each move of the piece on (r, c): the target is on the
   * board and is not the origin; only en passant may land on a piece of the mover's colour,
   * and it lands on the en-passant target one pawn step ahead; plain moves, double steps and
   * castling land on empty squares; captures on enemy pieces.
   */
  predicate GoodTarget(b: Board, r: int, c: int, ep: Option<Sq>, m: Move)
    requires InBounds(r, c) && b[r][c].Has?
  {
    var color := b[r][c].color;
    && InBounds(m.r, m.c)
    && (m.r != r || m.c != c)
    && (m.kind != EnPassant ==> !OwnAt(b, m.r, m.c, color))
    && (m.kind == EnPassant ==> ep == Some(Sq(m.r, m.c)) && m.r == r + PawnDir(color))
    && (m.kind == Plain || m.kind == Double || m.kind == CastleK || m.kind == CastleQ ==> b[m.r][m.c] == Empty)
    && (m.kind == Capture ==> OwnAt(b, m.r, m.c, Enemy(color)))
  }

  /** The single push (a promotion on row 0 or 7) and, from the start row, the double push. */
  function PawnForward(b: Board, r: int, c: int, ep: Option<Sq>): (ms: seq<Move>)
    requires InBounds(r, c) && b[r][c].Has?
    ensures forall m :: m in ms ==> GoodTarget(b, r, c, ep, m) && m.kind != Capture && m.kind != CastleK && m.kind != CastleQ
  {
    var color := b[r][c].color;
    var nr := r + PawnDir(color);
    if InBounds(nr, c) && b[nr][c] == Empty then
      [Move(nr, c, PromotesOn(nr, Plain))]
      + (if r == PawnStartRow(color) && b[r + 2 * PawnDir(color)][c] == Empty
         then [Move(r + 2 * PawnDir(color), c, Double)] else [])
    else []
  }

  /** A diagonal capture onto (r + dir, nc) if an enemy is there, then en passant if that square is the target. */
  function PawnDiagonal(b: Board, r: int, c: int, nc: int, ep: Option<Sq>): (ms: seq<Move>)
    requires InBounds(r, c) && b[r][c].Has?
    requires nc == c - 1 || nc == c + 1
    ensures forall m :: m in ms ==> GoodTarget(b, r, c, ep, m) && m.kind != CastleK && m.kind != CastleQ
  {
    var color := b[r][c].color;
    var nr := r + PawnDir(color);
    if !InBounds(nr, nc) then []
    else
      (if b[nr][nc].Has? && b[nr][nc].color == Enemy(color) then [Move(nr, nc, PromotesOn(nr, Capture))] else [])
      + (if ep == Some(Sq(nr, nc)) then [Move(nr, nc, EnPassant)] else [])
  }

  function PawnMoves(b: Board, r: int, c: int, ep: Option<Sq>): (ms: seq<Move>)
    requires InBounds(r, c) && b[r][c].Has?
    ensures forall m :: m in ms ==> GoodTarget(b, r, c, ep, m) && m.kind != CastleK && m.kind != CastleQ
  {
    PawnForward(b, r, c, ep) + PawnDiagonal(b, r, c, c - 1, ep) + PawnDiagonal(b, r, c, c + 1, ep)
  }

  // ---------------------------------------------------------------------------------------
  // getPseudoMoves

  lemma ReachableIsGood(b: Board, r: int, c: int, ep: Option<Sq>, ms: seq<Move>)
    requires InBounds(r, c) && b[r][c].Has?
    requires forall m :: m in ms ==> Reachable(b, m, Enemy(b[r][c].color))
    ensures forall m :: m in ms ==> GoodTarget(b, r, c, ep, m) && m.kind != EnPassant
  {
  }

  /** The slides and steps of a non-pawn piece, in the order getPseudoMoves produces them. */
  function PieceMoves(b: Board, r: int, c: int, kind: Kind, enemy: Color): (ms: seq<Move>)
    requires kind != Pawn
    ensures forall m :: m in ms ==> Reachable(b, m, enemy)
  {
    match kind
    case Rook => Rays(b, r, c, Orthogonal(), enemy)
    case Bishop => Rays(b, r, c, Diagonal(), enemy)
    case Queen => Rays(b, r, c, Orthogonal(), enemy) + Rays(b, r, c, Diagonal(), enemy)
    case Knight => Leaps(b, r, c, KnightJumps(), enemy)
    case King => Leaps(b, r, c, KingSteps(), enemy)
  }

  /** getPseudoMoves without its castling part (what isSquareAttacked asks for: no ep, no castle). */
  function BasicMoves(b: Board, r: int, c: int, ep: Option<Sq>): (ms: seq<Move>)
    requires InBounds(r, c)
    ensures b[r][c] == Empty ==> ms == []
    ensures forall m :: m in ms ==> m.kind != CastleK && m.kind != CastleQ
    ensures b[r][c].Has? ==> forall m :: m in ms ==> GoodTarget(b, r, c, ep, m)
  {
    match b[r][c]
    case Empty => []
    case Has(color, kind) =>
      if kind == Pawn then PawnMoves(b, r, c, ep)
      else
        var ms := PieceMoves(b, r, c, kind, Enemy(color));
        ReachableIsGood(b, r, c, ep, ms);
        ms
  }


  /**
   * A piece of `attacker` on (rr, cc) has a pseudo-move landing on (r, c), asked for as
   * isSquareAttacked does: getPseudoMoves with no en-passant target and no castling rights.
   */
  predicate AttacksFrom(b: Board, rr: int, cc: int, r: int, c: int, attacker: Color)
    requires InBounds(rr, cc)
    decreases 0, 1, 0
  {
    b[rr][cc].Has? && b[rr][cc].color == attacker && LandsOn(PseudoMoves(b, rr, cc, None, None), r, c)
  }

  /** Some of the first n squares of row rr attacks (r, c). */
  predicate AttackedFromRow(b: Board, r: int, c: int, attacker: Color, rr: int, n: nat)
    requires 0 <= rr < 8 && n <= 8
    decreases 1, 0, n
  {
    n > 0 && (AttackedFromRow(b, r, c, attacker, rr, n - 1) || AttacksFrom(b, rr, n - 1, r, c, attacker))
  }

  /** Some square of the first n rows attacks (r, c). */
  predicate AttackedFromRows(b: Board, r: int, c: int, attacker: Color, n: nat)
    requires n <= 8
    decreases 1, 1, n
  {
    n > 0 && (AttackedFromRows(b, r, c, attacker, n - 1) || AttackedFromRow(b, r, c, attacker, n - 1, |b[n - 1]|))
  }

  /**
   * isSquareAttacked: the scan over all squares for a piece of colour `attacker` with a
   * pseudo-move (no en passant, no castling) landing on (r, c). Pawn pushes count, as in the source.
   */
  predicate IsSquareAttacked(b: Board, r: int, c: int, attacker: Color)
    decreases 1, 2, 0
  {
    AttackedFromRows(b, r, c, attacker, |b|)
  }

  /** An attacker among the first n squares of row rr makes the row scan succeed. */
  lemma {:induction false} AttackedFromRowIntro(b: Board, r: int, c: int, attacker: Color, rr: int, n: nat, cc: int)
    requires 0 <= rr < 8 && 0 <= cc < n <= 8
    requires AttacksFrom(b, rr, cc, r, c, attacker)
    ensures AttackedFromRow(b, r, c, attacker, rr, n)
  {
    if cc < n - 1 {
      AttackedFromRowIntro(b, r, c, attacker, rr, n - 1, cc);
    }
  }

  /** A row scan succeeds only on a square that attacks. */
  lemma {:induction false} AttackedFromRowElim(b: Board, r: int, c: int, attacker: Color, rr: int, n: nat)
    requires 0 <= rr < 8 && n <= 8
    requires AttackedFromRow(b, r, c, attacker, rr, n)
    ensures exists cc :: 0 <= cc < n && AttacksFrom(b, rr, cc, r, c, attacker)
  {
    if !AttacksFrom(b, rr, n - 1, r, c, attacker) {
      AttackedFromRowElim(b, r, c, attacker, rr, n - 1);
      var cc :| 0 <= cc < n - 1 && AttacksFrom(b, rr, cc, r, c, attacker);
      assert 0 <= cc < n;
    }
  }

  /** An attacker in the first n rows makes the board scan succeed. */
  lemma {:induction false} AttackedFromRowsIntro(b: Board, r: int, c: int, attacker: Color, n: nat, rr: int, cc: int)
    requires 0 <= rr < n <= 8 && 0 <= cc < 8
    requires AttacksFrom(b, rr, cc, r, c, attacker)
    ensures AttackedFromRows(b, r, c, attacker, n)
  {
    if rr < n - 1 {
      AttackedFromRowsIntro(b, r, c, attacker, n - 1, rr, cc);
    } else {
      AttackedFromRowIntro(b, r, c, attacker, rr, |b[rr]|, cc);
    }
  }

  /** A board scan succeeds only on a square that attacks. */
  lemma {:induction false} AttackedFromRowsElim(b: Board, r: int, c: int, attacker: Color, n: nat)
    requires n <= 8
    requires AttackedFromRows(b, r, c, attacker, n)
    ensures exists rr, cc :: 0 <= rr < n && 0 <= cc < 8 && AttacksFrom(b, rr, cc, r, c, attacker)
  {
    if AttackedFromRows(b, r, c, attacker, n - 1) {
      AttackedFromRowsElim(b, r, c, attacker, n - 1);
      var rr, cc :| 0 <= rr < n - 1 && 0 <= cc < 8 && AttacksFrom(b, rr, cc, r, c, attacker);
      assert 0 <= rr < n;
    } else {
      AttackedFromRowElim(b, r, c, attacker, n - 1, |b[n - 1]|);
      var cc :| 0 <= cc < |b[n - 1]| && AttacksFrom(b, n - 1, cc, r, c, attacker);
      assert 0 <= n - 1 < n;
    }
  }

  /** A square is attacked exactly when some piece of the attacker lands on it. */
  lemma IsSquareAttackedIff(b: Board, r: int, c: int, attacker: Color)
    ensures IsSquareAttacked(b, r, c, attacker) <==>
              exists rr, cc :: InBounds(rr, cc) && b[rr][cc].Has? && b[rr][cc].color == attacker
                               && LandsOn(PseudoMoves(b, rr, cc, None, None), r, c)
  {
    if IsSquareAttacked(b, r, c, attacker) {
      AttackedFromRowsElim(b, r, c, attacker, |b|);
      var rr, cc :| 0 <= rr < 8 && 0 <= cc < 8 && AttacksFrom(b, rr, cc, r, c, attacker);
      assert InBounds(rr, cc) && b[rr][cc].Has? && b[rr][cc].color == attacker
             && LandsOn(PseudoMoves(b, rr, cc, None, None), r, c);
    }
    if exists rr, cc :: InBounds(rr, cc) && b[rr][cc].Has? && b[rr][cc].color == attacker
                        && LandsOn(PseudoMoves(b, rr, cc, None, None), r, c) {
      var rr, cc :| InBounds(rr, cc) && b[rr][cc].Has? && b[rr][cc].color == attacker
                    && LandsOn(PseudoMoves(b, rr, cc, None, None), r, c);
      AttackedFromRowsIntro(b, r, c, attacker, |b|, rr, cc);
    }
  }

  /** The castling part of getPseudoMoves for a king standing on its home square e1/e8. */
  function CastleMoves(b: Board, color: Color, rights: Rights): seq<Move>
    decreases 1, 3, 0
  {
    var row := HomeRow(color);
    var enemy := Enemy(color);
    (if && KingSideRight(rights, color)
        && b[row][5] == Empty && b[row][6] == Empty && b[row][7] == Has(color, Rook)
        && !IsSquareAttacked(b, row, 4, enemy) && !IsSquareAttacked(b, row, 5, enemy)
        && !IsSquareAttacked(b, row, 6, enemy)
     then [Move(row, 6, CastleK)] else [])
    + (if && QueenSideRight(rights, color)
          && b[row][3] == Empty && b[row][2] == Empty && b[row][1] == Empty && b[row][0] == Has(color, Rook)
          && !IsSquareAttacked(b, row, 4, enemy) && !IsSquareAttacked(b, row, 3, enemy)
          && !IsSquareAttacked(b, row, 2, enemy)
       then [Move(row, 2, CastleQ)] else [])
  }

  predicate OnCastlingSquare(b: Board, r: int, c: int)
    requires InBounds(r, c)
  {
    b[r][c].Has? && b[r][c].kind == King && r == HomeRow(b[r][c].color) && c == 4
  }

  /**
   * getPseudoMoves: nothing from an empty square; every move of a piece satisfies GoodTarget
   * and can be applied by simulateMove and makeMove.
   */
  function PseudoMoves(b: Board, r: int, c: int, ep: Option<Sq>, castle: Option<Rights>): (ms: seq<Move>)
    requires InBounds(r, c)
    ensures b[r][c] == Empty ==> ms == []
    ensures b[r][c].Has? ==> forall m :: m in ms ==> GoodTarget(b, r, c, ep, m)
    ensures forall m :: m in ms ==> Applicable(b, r, c, m)
    decreases if castle.Some? then 2 else 0, 0, 0
  {
    BasicMoves(b, r, c, ep)
    + (if castle.Some? && OnCastlingSquare(b, r, c) then CastleMoves(b, b[r][c].color, castle.value) else [])
  }

  /**
   * Kingside castling is generated exactly when the piece is a king on e1/e8, the right is
   * held, f and g are empty, the own rook stands on h, and none of e, f, g is attacked.
   */
  lemma CastleKingsideIff(b: Board, r: int, c: int, ep: Option<Sq>, rights: Rights)
    requires InBounds(r, c)
    ensures (exists m :: m in PseudoMoves(b, r, c, ep, Some(rights)) && m.kind == CastleK) <==>
              && OnCastlingSquare(b, r, c)
              && var color := b[r][c].color;
                 && KingSideRight(rights, color)
                 && b[r][5] == Empty && b[r][6] == Empty && b[r][7] == Has(color, Rook)
                 && !IsSquareAttacked(b, r, 4, Enemy(color)) && !IsSquareAttacked(b, r, 5, Enemy(color))
                 && !IsSquareAttacked(b, r, 6, Enemy(color))
  {
    var basic := BasicMoves(b, r, c, ep);
    var ms := PseudoMoves(b, r, c, ep, Some(rights));
    if OnCastlingSquare(b, r, c) {
      var cm := CastleMoves(b, b[r][c].color, rights);
      assert ms == basic + cm;
      if |cm| > 0 && cm[0].kind == CastleK {
        assert ms[|basic|] == cm[0];
      }
    }
  }

  /**
   * Queenside castling is generated exactly when the piece is a king on e1/e8, the right is
   * held, b, c and d are empty, the own rook stands on a, and none of e, d, c is attacked.
   */
  lemma CastleQueensideIff(b: Board, r: int, c: int, ep: Option<Sq>, rights: Rights)
    requires InBounds(r, c)
    ensures (exists m :: m in PseudoMoves(b, r, c, ep, Some(rights)) && m.kind == CastleQ) <==>
              && OnCastlingSquare(b, r, c)
              && var color := b[r][c].color;
                 && QueenSideRight(rights, color)
                 && b[r][3] == Empty && b[r][2] == Empty && b[r][1] == Empty && b[r][0] == Has(color, Rook)
                 && !IsSquareAttacked(b, r, 4, Enemy(color)) && !IsSquareAttacked(b, r, 3, Enemy(color))
                 && !IsSquareAttacked(b, r, 2, Enemy(color))
  {
    var basic := BasicMoves(b, r, c, ep);
    var ms := PseudoMoves(b, r, c, ep, Some(rights));
    if OnCastlingSquare(b, r, c) {
      var cm := CastleMoves(b, b[r][c].color, rights);
      assert ms == basic + cm;
      if |cm| > 0 && cm[|cm| - 1].kind == CastleQ {
        assert ms[|basic| + |cm| - 1] == cm[|cm| - 1];
      }
    }
  }

  // ---------------------------------------------------------------------------------------
  // findKing / isInCheck

  /** The first of the first n squares of row r holding `color`'s king, if any. */
  function KingInRow(b: Board, color: Color, r: int, n: nat): Option<Sq>
    requires 0 <= r < 8 && n <= 8
  {
    if n == 0 then None
    else
      var k := KingInRow(b, color, r, n - 1);
      if k.Some? then k
      else if b[r][n - 1] == Has(color, King) then Some(Sq(r, n - 1))
      else None
  }

  /** The first square in row-major order among the first n rows holding `color`'s king, if any. */
  function KingInRows(b: Board, color: Color, n: nat): Option<Sq>
    requires n <= 8
  {
    if n == 0 then None
    else
      var k := KingInRows(b, color, n - 1);
      if k.Some? then k else KingInRow(b, color, n - 1, |b[n - 1]|)
  }

  /** findKing: the row-major scan for `color`'s king. */
  function FindKing(color: Color, b: Board): Option<Sq>
  {
    KingInRows(b, color, |b|)
  }

  lemma {:induction false} KingInRowSpec(b: Board, color: Color, r: int, n: nat)
    requires 0 <= r < 8 && n <= 8
    ensures var k := KingInRow(b, color, r, n);
      && (k.None? ==> forall c :: 0 <= c < n ==> b[r][c] != Has(color, King))
      && (k.Some? ==> k.value.r == r && 0 <= k.value.c < n && b[r][k.value.c] == Has(color, King))
      && (k.Some? ==> forall c :: 0 <= c < k.value.c ==> b[r][c] != Has(color, King))
  {
    if n > 0 {
      KingInRowSpec(b, color, r, n - 1);
    }
  }

  lemma {:induction false} KingInRowsSpec(b: Board, color: Color, n: nat)
    requires n <= 8
    ensures var k := KingInRows(b, color, n);
      && (k.None? ==> forall r, c :: 0 <= r < n && 0 <= c < 8 ==> b[r][c] != Has(color, King))
      && (k.Some? ==> 0 <= k.value.r < n && 0 <= k.value.c < 8 && b[k.value.r][k.value.c] == Has(color, King))
      && (k.Some? ==> forall r, c :: InBounds(r, c) && 8 * r + c < 8 * k.value.r + k.value.c ==>
                        b[r][c] != Has(color, King))
  {
    if n > 0 {
      KingInRowsSpec(b, color, n - 1);
      KingInRowSpec(b, color, n - 1, 8);
    }
  }

  /**
   * findKing returns the first square in row-major order that holds `color`'s king, and
   * nothing exactly when that king is not on the board.
   */
  lemma FindKingSpec(color: Color, b: Board)
    ensures var k := FindKing(color, b);
      && (k.None? ==> forall r, c :: InBounds(r, c) ==> b[r][c] != Has(color, King))
      && (k.Some? ==> InBounds(k.value.r, k.value.c) && b[k.value.r][k.value.c] == Has(color, King))
      && (k.Some? ==> forall r, c :: InBounds(r, c) && 8 * r + c < 8 * k.value.r + k.value.c ==>
                        b[r][c] != Has(color, King))
  {
    KingInRowsSpec(b, color, |b|);
  }

  predicate InCheck(color: Color, b: Board)
  {
    match FindKing(color, b)
    case None => false
    case Some(k) => IsSquareAttacked(b, k.r, k.c, Enemy(color))
  }

  // ---------------------------------------------------------------------------------------
  // What isSquareAttacked and findKing look at

  /** Two boards with the same empty squares and the same colour on every occupied square. */
  ghost predicate SameShape(a: Board, b: Board)
  {
    forall i, j :: InBounds(i, j) ==> a[i][j].Has? == b[i][j].Has? && (a[i][j].Has? ==> a[i][j].color == b[i][j].color)
  }

  /** Two boards with `color`'s king on the same squares. */
  ghost predicate SameKings(a: Board, b: Board, color: Color)
  {
    forall i, j :: InBounds(i, j) ==> (a[i][j] == Has(color, King) <==> b[i][j] == Has(color, King))
  }

  /** Two boards with the same pieces of `color`. */
  ghost predicate SamePieces(a: Board, b: Board, color: Color)
  {
    forall i, j :: InBounds(i, j) && a[i][j].Has? && a[i][j].color == color ==> a[i][j] == b[i][j]
  }

  /** A slide sees only which squares are empty and whose pieces stand on the others. */
  lemma {:induction false} RaySame(a: Board, b: Board, r: int, c: int, dr: int, dc: int, enemy: Color, n: nat)
    requires SameShape(a, b)
    ensures Ray(a, r, c, dr, dc, enemy, n) == Ray(b, r, c, dr, dc, enemy, n)
    decreases n
  {
    if n > 0 && InBounds(r, c) {
      RaySame(a, b, r + dr, c + dc, dr, dc, enemy, n - 1);
    }
  }

  lemma {:induction false} RaysSame(a: Board, b: Board, r: int, c: int, dirs: seq<(int, int)>, enemy: Color)
    requires SameShape(a, b)
    ensures Rays(a, r, c, dirs, enemy) == Rays(b, r, c, dirs, enemy)
    decreases |dirs|
  {
    if |dirs| > 0 {
      RaySame(a, b, r + dirs[0].0, c + dirs[0].1, dirs[0].0, dirs[0].1, enemy, 7);
      RaysSame(a, b, r, c, dirs[1..], enemy);
    }
  }

  lemma {:induction false} LeapsSame(a: Board, b: Board, r: int, c: int, offsets: seq<(int, int)>, enemy: Color)
    requires SameShape(a, b)
    ensures Leaps(a, r, c, offsets, enemy) == Leaps(b, r, c, offsets, enemy)
    decreases |offsets|
  {
    if |offsets| > 0 {
      LeapsSame(a, b, r, c, offsets[1..], enemy);
    }
  }

  lemma PawnMovesSame(a: Board, b: Board, r: int, c: int)
    requires SameShape(a, b) && InBounds(r, c) && a[r][c] == b[r][c] && a[r][c].Has?
    ensures PawnMoves(a, r, c, None) == PawnMoves(b, r, c, None)
  {
    var color := a[r][c].color;
    var nr := r + PawnDir(color);
    assert PawnForward(a, r, c, None) == PawnForward(b, r, c, None) by {
      if InBounds(nr, c) && r == PawnStartRow(color) {
        assert InBounds(r + 2 * PawnDir(color), c);
      }
    }
    assert PawnDiagonal(a, r, c, c - 1, None) == PawnDiagonal(b, r, c, c - 1, None);
    assert PawnDiagonal(a, r, c, c + 1, None) == PawnDiagonal(b, r, c, c + 1, None);
  }

  lemma PieceMovesSame(a: Board, b: Board, r: int, c: int, kind: Kind, enemy: Color)
    requires SameShape(a, b) && kind != Pawn
    ensures PieceMoves(a, r, c, kind, enemy) == PieceMoves(b, r, c, kind, enemy)
  {
    match kind
    case Rook => RaysSame(a, b, r, c, Orthogonal(), enemy);
    case Bishop => RaysSame(a, b, r, c, Diagonal(), enemy);
    case Queen => RaysSame(a, b, r, c, Orthogonal(), enemy); RaysSame(a, b, r, c, Diagonal(), enemy);
    case Knight => LeapsSame(a, b, r, c, KnightJumps(), enemy);
    case King => LeapsSame(a, b, r, c, KingSteps(), enemy);
  }

  /**
   * The moves isSquareAttacked asks for depend on the piece itself and on the shape of the
   * board only, not on the kinds of the other pieces.
   */
  lemma PseudoMovesSame(a: Board, b: Board, r: int, c: int)
    requires SameShape(a, b) && InBounds(r, c) && a[r][c] == b[r][c]
    ensures PseudoMoves(a, r, c, None, None) == PseudoMoves(b, r, c, None, None)
  {
    if a[r][c].Has? {
      if a[r][c].kind == Pawn {
        PawnMovesSame(a, b, r, c);
      } else {
        PieceMovesSame(a, b, r, c, a[r][c].kind, Enemy(a[r][c].color));
      }
    }
    assert BasicMoves(a, r, c, None) == BasicMoves(b, r, c, None);
  }

  /** Whether a square is attacked depends on the attacker's pieces and the shape of the board only. */
  lemma AttackedSame(a: Board, b: Board, r: int, c: int, attacker: Color)
    requires SameShape(a, b) && SamePieces(a, b, attacker)
    ensures IsSquareAttacked(a, r, c, attacker) <==> IsSquareAttacked(b, r, c, attacker)
  {
    IsSquareAttackedIff(a, r, c, attacker);
    IsSquareAttackedIff(b, r, c, attacker);
    forall rr, cc | InBounds(rr, cc) && a[rr][cc].Has? && a[rr][cc].color == attacker
      ensures PseudoMoves(a, rr, cc, None, None) == PseudoMoves(b, rr, cc, None, None)
    {
      PseudoMovesSame(a, b, rr, cc);
    }
  }

  lemma {:induction false} KingInRowSame(a: Board, b: Board, color: Color, r: int, n: nat)
    requires SameKings(a, b, color) && 0 <= r < 8 && n <= 8
    ensures KingInRow(a, color, r, n) == KingInRow(b, color, r, n)
  {
    if n > 0 {
      KingInRowSame(a, b, color, r, n - 1);
    }
  }

  lemma {:induction false} KingInRowsSame(a: Board, b: Board, color: Color, n: nat)
    requires SameKings(a, b, color) && n <= 8
    ensures KingInRows(a, color, n) == KingInRows(b, color, n)
  {
    if n > 0 {
      KingInRowsSame(a, b, color, n - 1);
      KingInRowSame(a, b, color, n - 1, 8);
    }
  }

  /**
   * isInCheck depends only on where `color`'s king stands, on the enemy's pieces and on the
   * shape of the board.
   */
  lemma InCheckSame(a: Board, b: Board, color: Color)
    requires SameShape(a, b) && SameKings(a, b, color) && SamePieces(a, b, Enemy(color))
    ensures InCheck(color, a) <==> InCheck(color, b)
  {
    KingInRowsSame(a, b, color, 8);
    var k := FindKing(color, a);
    if k.Some? {
      AttackedSame(a, b, k.value.r, k.value.c, Enemy(color));
    }
  }

  // ---------------------------------------------------------------------------------------
  // simulateMove

  /** Squares simulateMove may write: origin, destination, the en-passant victim and the castling rook's squares. */
  predicate Touched(fromR: int, fromC: int, m: Move, color: Color, i: int, j: int)
  {
    || (i == fromR && j == fromC)
    || (i == m.r && j == m.c)
    || (m.kind == EnPassant && i == EpVictimRow(color, m.r) && j == m.c)
    || (m.kind == CastleK && i == m.r && (j == 5 || j == 7))
    || (m.kind == CastleQ && i == m.r && (j == 3 || j == 0))
  }

  /**
   * simulateMove on a copy of the board. Every square it does not touch keeps its piece; a
   * plain move, capture or double step leaves the piece on the destination and the origin
   * empty; en passant also empties the square behind the destination; castling moves the
   * rook from column 7 to 5 (kingside) or 0 to 3 (queenside); a promotion always makes a queen.
   */
  function SimulateMove(b: Board, fromR: int, fromC: int, m: Move): Board
    requires Applicable(b, fromR, fromC, m)
  {
    var piece := b[fromR][fromC];
    var s1 := Put(Put(b, m.r, m.c, piece), fromR, fromC, Empty);
    var s2 := if m.kind == EnPassant then Put(s1, EpVictimRow(piece.color, m.r), m.c, Empty) else s1;
    var s3 := if m.kind == CastleK then Put(Put(s2, m.r, 5, s2[m.r][7]), m.r, 7, Empty) else s2;
    var s4 := if m.kind == CastleQ then Put(Put(s3, m.r, 3, s3[m.r][0]), m.r, 0, Empty) else s3;
    if m.kind == Promotion then Put(s4, m.r, m.c, Has(piece.color, Queen)) else s4
  }

  /**
   * What simulateMove changes: the piece moves (a promotion becomes a queen), the en-passant
   * victim disappears, the castling rook jumps over the king, and every other square is kept.
   */
  lemma SimulateMoveEffect(b: Board, fromR: int, fromC: int, m: Move)
    requires Applicable(b, fromR, fromC, m)
    ensures var s, piece := SimulateMove(b, fromR, fromC, m), b[fromR][fromC];
      && (forall i, j :: InBounds(i, j) && !Touched(fromR, fromC, m, piece.color, i, j) ==> s[i][j] == b[i][j])
      && ((m.r != fromR || m.c != fromC) && (m.kind == Plain || m.kind == Capture || m.kind == Double) ==>
            s[m.r][m.c] == piece && s[fromR][fromC] == Empty)
      && ((m.r != fromR || m.c != fromC) && m.kind == Promotion ==>
            s[m.r][m.c] == Has(piece.color, Queen) && s[fromR][fromC] == Empty)
      && (m.kind == EnPassant && (m.r != fromR || m.c != fromC) ==>
            s[m.r][m.c] == piece && s[fromR][fromC] == Empty && s[EpVictimRow(piece.color, m.r)][m.c] == Empty)
      && (m.kind == CastleK && fromR == m.r && fromC == 4 && m.c == 6 ==>
            s[m.r][6] == piece && s[m.r][5] == b[m.r][7] && s[m.r][4] == Empty && s[m.r][7] == Empty)
      && (m.kind == CastleQ && fromR == m.r && fromC == 4 && m.c == 2 ==>
            s[m.r][2] == piece && s[m.r][3] == b[m.r][0] && s[m.r][4] == Empty && s[m.r][0] == Empty)
  {
  }

  /** The en-passant target after a move: the square a double step skipped, else none. */
  function EpAfter(fromR: int, fromC: int, m: Move): Option<Sq>
  {
    if m.kind == Double then Some(Sq((fromR + m.r) / 2, fromC)) else None
  }

  // ---------------------------------------------------------------------------------------
  // getLegalMoves

  /** The filter of getLegalMoves: keep the moves after which `color`'s king is not attacked. */
  function KingSafe(b: Board, r: int, c: int, color: Color, ms: seq<Move>): (safe: seq<Move>)
    requires forall m :: m in ms ==> Applicable(b, r, c, m)
    ensures |safe| <= |ms|
    ensures forall m :: m in safe ==> m in ms
  {
    if |ms| == 0 then []
    else
      var rest := KingSafe(b, r, c, color, ms[1..]);
      if InCheck(color, SimulateMove(b, r, c, ms[0])) then rest else [ms[0]] + rest
  }

  /** The filter keeps a move exactly when the mover's king is not attacked after it. */
  lemma {:induction false} KingSafeIff(b: Board, r: int, c: int, color: Color, ms: seq<Move>)
    requires forall m :: m in ms ==> Applicable(b, r, c, m)
    ensures forall m :: m in KingSafe(b, r, c, color, ms) <==> m in ms && !InCheck(color, SimulateMove(b, r, c, m))
  {
    if |ms| > 0 {
      assert forall m :: m in ms[1..] ==> m in ms;
      KingSafeIff(b, r, c, color, ms[1..]);
      assert forall m :: m in ms <==> m == ms[0] || m in ms[1..];
    }
  }

  /**
   * getLegalMoves: the pseudo-moves (castling included) of the piece on (r, c) that the
   * king-safety filter keeps.
   */
  function LegalMoves(b: Board, r: int, c: int, ep: Option<Sq>, castle: Rights): (ms: seq<Move>)
    requires InBounds(r, c)
    ensures forall m :: m in ms ==> Applicable(b, r, c, m)
  {
    if b[r][c] == Empty then []
    else KingSafe(b, r, c, b[r][c].color, PseudoMoves(b, r, c, ep, Some(castle)))
  }

  /**
   * A move is legal exactly when the origin holds a piece, the move is one of its
   * pseudo-moves, and the mover's king is not attacked once it is played.
   */
  lemma LegalMovesIff(b: Board, r: int, c: int, ep: Option<Sq>, castle: Rights)
    requires InBounds(r, c)
    ensures forall m :: m in LegalMoves(b, r, c, ep, castle) <==>
              && b[r][c].Has?
              && m in PseudoMoves(b, r, c, ep, Some(castle))
              && !InCheck(b[r][c].color, SimulateMove(b, r, c, m))
  {
    if b[r][c].Has? {
      KingSafeIff(b, r, c, b[r][c].color, PseudoMoves(b, r, c, ep, Some(castle)));
    }
  }
}
