/**
 * The chess session state of js/chess.js and the operations that change it: init,
 * makeMove, switchTurn, the decision of checkGameEnd, a move committed from a click or
 * received from the peer, and aiMove.
 */
module ChessPlay {
  import opened Wrappers
  import opened ChessBoard
  import opened ChessMoves
  import opened ChessSearch
  import opened AlphaBeta

  /** A `moveHistory` entry: `{ from: { r, c }, to: move, piece, captured }`. */
  datatype HistoryEntry = HistoryEntry(from: Sq, to: Move, piece: Cell, captured: Cell)

  /** A move descriptor as the peer sends it: `{ fromR, fromC, move, promoType }`. */
  datatype Descriptor = Descriptor(fromR: int, fromC: int, move: Move, promoType: Option<Kind>)

  /** What checkGameEnd decides: play goes on, checkmate (with the winner), or stalemate. */
  datatype Outcome = Ongoing | Checkmate(winner: Color) | Stalemate

  /** `promoType || 'Q'`. */
  function PromoKind(promo: Option<Kind>): Kind
  {
    if promo.Some? then promo.value else Queen
  }

  /**
   * The board after makeMove: the board simulateMove computes, except that a promotion
   * leaves the chosen piece rather than always a queen.
   */
  function AfterMove(b: Board, fromR: int, fromC: int, m: Move, promo: Option<Kind>): Board
    requires Applicable(b, fromR, fromC, m)
  {
    var s := SimulateMove(b, fromR, fromC, m);
    if m.kind == Promotion then Put(s, m.r, m.c, Has(b[fromR][fromC].color, PromoKind(promo))) else s
  }

  /** The pieces makeMove adds to the mover's captured list: the destination's piece, then the en-passant victim's square. */
  function Taken(b: Board, fromR: int, fromC: int, m: Move): (t: seq<Cell>)
    requires Applicable(b, fromR, fromC, m)
    ensures |t| <= (if m.kind == EnPassant then 2 else 1)
    ensures t == [] <==> b[m.r][m.c] == Empty && m.kind != EnPassant
    ensures b[m.r][m.c].Has? ==> t[0] == b[m.r][m.c]
  {
    (if b[m.r][m.c].Has? then [b[m.r][m.c]] else [])
      + (if m.kind == EnPassant then [b[EpVictimRow(b[fromR][fromC].color, m.r)][m.c]] else [])
  }

  /**
   * The castling rights after makeMove. A right only goes from held to lost; it is lost when
   * its king moves, when its rook leaves its corner column, or when any move lands on its
   * corner square.
   */
  function RightsAfterMove(rights: Rights, piece: Cell, fromC: int, m: Move): (n: Rights)
    requires piece.Has?
    ensures n.wK == (rights.wK && !(piece == Has(White, King)) && !(piece == Has(White, Rook) && fromC == 7) && !(m.r == 7 && m.c == 7))
    ensures n.wQ == (rights.wQ && !(piece == Has(White, King)) && !(piece == Has(White, Rook) && fromC == 0) && !(m.r == 7 && m.c == 0))
    ensures n.bK == (rights.bK && !(piece == Has(Black, King)) && !(piece == Has(Black, Rook) && fromC == 7) && !(m.r == 0 && m.c == 7))
    ensures n.bQ == (rights.bQ && !(piece == Has(Black, King)) && !(piece == Has(Black, Rook) && fromC == 0) && !(m.r == 0 && m.c == 0))
  {
    var color := piece.color;
    var n1 := if piece.kind == King then DropQueenSide(DropKingSide(rights, color), color) else rights;
    var n2 := if piece.kind == Rook && fromC == 0 then DropQueenSide(n1, color) else n1;
    var n3 := if piece.kind == Rook && fromC == 7 then DropKingSide(n2, color) else n2;
    var n4 := if m.r == 0 && m.c == 0 then n3.(bQ := false) else n3;
    var n5 := if m.r == 0 && m.c == 7 then n4.(bK := false) else n4;
    var n6 := if m.r == 7 && m.c == 0 then n5.(wQ := false) else n5;
    if m.r == 7 && m.c == 7 then n6.(wK := false) else n6
  }

  /** Rights held after a move were held before it: makeMove never restores a right. */
  lemma RightsOnlyDrop(rights: Rights, piece: Cell, fromC: int, m: Move)
    requires piece.Has?
    ensures var n := RightsAfterMove(rights, piece, fromC, m);
      && (n.wK ==> rights.wK) && (n.wQ ==> rights.wQ) && (n.bK ==> rights.bK) && (n.bQ ==> rights.bQ)
  {
  }

  /**
   * The rights minimax passes down differ from makeMove's only on landings: whatever
   * minimax drops, makeMove drops too, and a right makeMove keeps while minimax drops
   * none does not exist. Conversely, a capture landing on a rook's corner clears the right
   * in makeMove but not in minimax.
   */
  lemma SearchRightsKeepMore(rights: Rights, piece: Cell, fromC: int, m: Move)
    requires piece.Has?
    ensures var n, s := RightsAfterMove(rights, piece, fromC, m), SearchRights(rights, piece.color, piece, fromC);
      && (n.wK ==> s.wK) && (n.wQ ==> s.wQ) && (n.bK ==> s.bK) && (n.bQ ==> s.bQ)
      && (!InBounds(m.r, m.c) || (m.r != 0 && m.r != 7) || (m.c != 0 && m.c != 7) ==> n == s)
  {
  }

  /** A concrete case where the two disagree: a white knight taking the rook on h8 keeps bK in the search. */
  lemma SearchRightsMissesCornerCapture()
    ensures var before := Rights(true, true, true, true);
      && RightsAfterMove(before, Has(White, Knight), 6, Move(0, 7, Capture)).bK == false
      && SearchRights(before, White, Has(White, Knight), 6).bK == true
  {
  }

  /**
   * The board update of makeMove agrees with simulateMove whenever the promotion, if any,
   * is to a queen: the search plays the same moves as the game.
   */
  lemma AfterMoveIsSimulate(b: Board, fromR: int, fromC: int, m: Move, promo: Option<Kind>)
    requires Applicable(b, fromR, fromC, m)
    requires m.kind != Promotion || PromoKind(promo) == Queen
    ensures AfterMove(b, fromR, fromC, m, promo) == SimulateMove(b, fromR, fromC, m)
  {
    if m.kind == Promotion {
      var s := SimulateMove(b, fromR, fromC, m);
      SimulateMoveEffect(b, fromR, fromC, m);
      BoardExt(AfterMove(b, fromR, fromC, m, promo), s);
    }
  }

  /**
   * A promotion to a rook, bishop or knight leaves the mover's king exactly as attacked as
   * the queen simulateMove places: isInCheck sees the promoted piece only as a piece of the
   * mover's colour.
   */
  lemma AfterMoveKeepsCheck(b: Board, fromR: int, fromC: int, m: Move, promo: Option<Kind>)
    requires Applicable(b, fromR, fromC, m) && PromoKind(promo) != King
    ensures InCheck(b[fromR][fromC].color, AfterMove(b, fromR, fromC, m, promo))
        <==> InCheck(b[fromR][fromC].color, SimulateMove(b, fromR, fromC, m))
  {
    if m.kind == Promotion {
      var color := b[fromR][fromC].color;
      var s := SimulateMove(b, fromR, fromC, m);
      var after := AfterMove(b, fromR, fromC, m, promo);
      assert s[m.r][m.c] == Has(color, Queen);
      assert after == Put(s, m.r, m.c, Has(color, PromoKind(promo)));
      InCheckSame(s, after, color);
    }
  }

  /** A side with no legal move ends the game: checkmate when it is in check, stalemate otherwise. */
  function Verdict(b: Board, color: Color, ep: Option<Sq>, rights: Rights): (o: Outcome)
    ensures o == Ongoing <==> AnyLegal(b, color, ep, rights)
    ensures o.Checkmate? ==> o.winner == Enemy(color) && InCheck(color, b)
    ensures o == Stalemate ==> !InCheck(color, b)
  {
    if AnyLegal(b, color, ep, rights) then Ongoing
    else if InCheck(color, b) then Checkmate(Enemy(color))
    else Stalemate
  }

  /**
   * checkGameEnd and minimax agree on a finished game: the side to move has no ply in
   * getAllMovesForColor exactly when the game is over, and then minimax scores the position
   * with the mate score on checkmate and 0 on stalemate.
   */
  lemma VerdictMatchesSearch(b: Board, color: Color, ep: Option<Sq>, rights: Rights, depth: nat)
    requires depth > 0
    ensures Verdict(b, color, ep, rights) != Ongoing <==> |OrderedPlies(b, color, ep, rights)| == 0
    ensures Verdict(b, color, ep, rights).Checkmate? ==>
      ChessValue(b, depth, color == White, ep, rights) == MateScore(color == White, depth)
    ensures Verdict(b, color, ep, rights) == Stalemate ==> ChessValue(b, depth, color == White, ep, rights) == 0
  {
    NoPliesIffNoLegalMoves(b, color, ep, rights);
    assert Mover(color == White) == color;
    if !AnyLegal(b, color, ep, rights) {
      ChessValueNoMoves(b, depth, color == White, ep, rights);
    }
  }

  /** The module state of the chess engine. */
  class Session {
    var board: Board
    var turn: Color
    var gameOver: bool
    var history: seq<HistoryEntry>
    /** capturedPieces.w and capturedPieces.b: the pieces each side has taken. */
    var capturedByWhite: seq<Cell>
    var capturedByBlack: seq<Cell>
    var rights: Rights
    var ep: Option<Sq>
    /** selectedCell and validMoves: the piece picked by a click and the moves it offers. */
    var selected: Option<Sq>
    var validMoves: seq<Move>

    /** init: the initial position with White to move, all castling rights and no en-passant target. */
    constructor Init()
      ensures board == InitialBoard() && turn == White && !gameOver
      ensures history == [] && capturedByWhite == [] && capturedByBlack == []
      ensures rights == Rights(true, true, true, true) && ep == None
      ensures selected == None && validMoves == []
    {
      board := InitialBoard();
      turn := White;
      gameOver := false;
      history := [];
      capturedByWhite := [];
      capturedByBlack := [];
      rights := Rights(true, true, true, true);
      ep := None;
      selected := None;
      validMoves := [];
    }

    /** capturedPieces[color].push(x). */
    method PushCaptured(color: Color, x: Cell)
      modifies this
      ensures color == White ==> capturedByWhite == old(capturedByWhite) + [x] && capturedByBlack == old(capturedByBlack)
      ensures color == Black ==> capturedByBlack == old(capturedByBlack) + [x] && capturedByWhite == old(capturedByWhite)
      ensures board == old(board) && turn == old(turn) && gameOver == old(gameOver) && history == old(history)
      ensures rights == old(rights) && ep == old(ep)
      ensures selected == old(selected) && validMoves == old(validMoves)
    {
      if color == White {
        capturedByWhite := capturedByWhite + [x];
      } else {
        capturedByBlack := capturedByBlack + [x];
      }
    }

    /**
     * makeMove: record the captured pieces, clear the en-passant victim, move the piece,
     * move the castling rook, place the promoted piece, set the en-passant target, drop
     * castling rights, and append to the history.
     */
    method MakeMove(fromR: int, fromC: int, m: Move, promo: Option<Kind>)
      requires Applicable(board, fromR, fromC, m)
      modifies this
      ensures board == AfterMove(old(board), fromR, fromC, m, promo)
      ensures ep == EpAfter(fromR, fromC, m)
      ensures rights == RightsAfterMove(old(rights), old(board)[fromR][fromC], fromC, m)
      ensures var color, taken := old(board)[fromR][fromC].color, Taken(old(board), fromR, fromC, m);
        && (color == White ==> capturedByWhite == old(capturedByWhite) + taken && capturedByBlack == old(capturedByBlack))
        && (color == Black ==> capturedByBlack == old(capturedByBlack) + taken && capturedByWhite == old(capturedByWhite))
      ensures history == old(history) + [HistoryEntry(Sq(fromR, fromC), m, old(board)[fromR][fromC], old(board)[m.r][m.c])]
      ensures turn == old(turn) && gameOver == old(gameOver)
      ensures selected == old(selected) && validMoves == old(validMoves)
    {
      var piece := board[fromR][fromC];
      var captured := board[m.r][m.c];
      RecordCaptures(fromR, fromC, m);
      MovePieces(fromR, fromC, m, promo);
      Record(piece, captured, fromR, fromC, m);
    }

    /** The bookkeeping at the end of makeMove: the en-passant target, the castling rights and the history entry. */
    method Record(piece: Cell, captured: Cell, fromR: int, fromC: int, m: Move)
      requires piece.Has?
      modifies this
      ensures ep == EpAfter(fromR, fromC, m)
      ensures rights == RightsAfterMove(old(rights), piece, fromC, m)
      ensures history == old(history) + [HistoryEntry(Sq(fromR, fromC), m, piece, captured)]
      ensures board == old(board) && turn == old(turn) && gameOver == old(gameOver)
      ensures capturedByWhite == old(capturedByWhite) && capturedByBlack == old(capturedByBlack)
      ensures selected == old(selected) && validMoves == old(validMoves)
    {
      if m.kind == Double {
        ep := Some(Sq((fromR + m.r) / 2, fromC));
      } else {
        ep := None;
      }
      DropRights(piece, fromC, m);
      history := history + [HistoryEntry(Sq(fromR, fromC), m, piece, captured)];
    }

    /** The capturedPieces pushes of makeMove: the destination's piece if any, then the en-passant victim's square. */
    method RecordCaptures(fromR: int, fromC: int, m: Move)
      requires Applicable(board, fromR, fromC, m)
      modifies this
      ensures var color, taken := old(board)[fromR][fromC].color, Taken(old(board), fromR, fromC, m);
        && (color == White ==> capturedByWhite == old(capturedByWhite) + taken && capturedByBlack == old(capturedByBlack))
        && (color == Black ==> capturedByBlack == old(capturedByBlack) + taken && capturedByWhite == old(capturedByWhite))
      ensures board == old(board) && turn == old(turn) && gameOver == old(gameOver) && history == old(history)
      ensures rights == old(rights) && ep == old(ep)
      ensures selected == old(selected) && validMoves == old(validMoves)
    {
      var color := board[fromR][fromC].color;
      var captured := board[m.r][m.c];
      if captured.Has? {
        PushCaptured(color, captured);
      }
      if m.kind == EnPassant {
        PushCaptured(color, board[EpVictimRow(color, m.r)][m.c]);
      }
    }

    /**
     * The board writes of makeMove: clear the en-passant victim, move the piece, move the
     * castling rook, and place the promoted piece.
     */
    method MovePieces(fromR: int, fromC: int, m: Move, promo: Option<Kind>)
      requires Applicable(board, fromR, fromC, m)
      modifies this
      ensures board == AfterMove(old(board), fromR, fromC, m, promo)
      ensures turn == old(turn) && gameOver == old(gameOver) && history == old(history)
      ensures capturedByWhite == old(capturedByWhite) && capturedByBlack == old(capturedByBlack)
      ensures rights == old(rights) && ep == old(ep)
      ensures selected == old(selected) && validMoves == old(validMoves)
    {
      ghost var b0 := board;
      var piece := board[fromR][fromC];
      var color := piece.color;
      if m.kind == EnPassant {
        board := Put(board, EpVictimRow(color, m.r), m.c, Empty);
      }
      board := Put(board, m.r, m.c, piece);
      board := Put(board, fromR, fromC, Empty);
      if m.kind == CastleK {
        board := Put(board, m.r, 5, board[m.r][7]);
        board := Put(board, m.r, 7, Empty);
      }
      if m.kind == CastleQ {
        board := Put(board, m.r, 3, board[m.r][0]);
        board := Put(board, m.r, 0, Empty);
      }
      if m.kind == Promotion {
        board := Put(board, m.r, m.c, Has(color, PromoKind(promo)));
      }
      BoardUpdateMatches(b0, fromR, fromC, m, promo, board);
    }

    /** The castlingRights writes of makeMove. */
    method DropRights(piece: Cell, fromC: int, m: Move)
      requires piece.Has?
      modifies this
      ensures rights == RightsAfterMove(old(rights), piece, fromC, m)
      ensures board == old(board) && turn == old(turn) && gameOver == old(gameOver) && history == old(history)
      ensures capturedByWhite == old(capturedByWhite) && capturedByBlack == old(capturedByBlack)
      ensures ep == old(ep)
      ensures selected == old(selected) && validMoves == old(validMoves)
    {
      var color := piece.color;
      if piece.kind == King {
        rights := DropQueenSide(DropKingSide(rights, color), color);
      }
      if piece.kind == Rook {
        if fromC == 0 {
          rights := DropQueenSide(rights, color);
        }
        if fromC == 7 {
          rights := DropKingSide(rights, color);
        }
      }
      if m.r == 0 && m.c == 0 {
        rights := rights.(bQ := false);
      }
      if m.r == 0 && m.c == 7 {
        rights := rights.(bK := false);
      }
      if m.r == 7 && m.c == 0 {
        rights := rights.(wQ := false);
      }
      if m.r == 7 && m.c == 7 {
        rights := rights.(wK := false);
      }
    }

    /** switchTurn. */
    method SwitchTurn()
      modifies this
      ensures turn == Enemy(old(turn))
      ensures board == old(board) && gameOver == old(gameOver) && history == old(history)
      ensures capturedByWhite == old(capturedByWhite) && capturedByBlack == old(capturedByBlack)
      ensures rights == old(rights) && ep == old(ep)
      ensures selected == old(selected) && validMoves == old(validMoves)
    {
      turn := if turn == White then Black else White;
    }

    /**
     * checkGameEnd: when the side to move has no legal move the game is over, as checkmate
     * if that side is in check and as stalemate otherwise.
     */
    method CheckGameEnd() returns (ended: bool, outcome: Outcome)
      modifies this
      ensures outcome == Verdict(board, turn, ep, rights)
      ensures ended <==> outcome != Ongoing
      ensures gameOver == (old(gameOver) || ended)
      ensures board == old(board) && turn == old(turn) && history == old(history)
      ensures capturedByWhite == old(capturedByWhite) && capturedByBlack == old(capturedByBlack)
      ensures rights == old(rights) && ep == old(ep)
      ensures selected == old(selected) && validMoves == old(validMoves)
    {
      var color := turn;
      var inCheck := InCheck(color, board);
      var hasMoves := HasAnyLegalMoves(color, board, ep, rights);
      if !hasMoves {
        gameOver := true;
        if inCheck {
          return true, Checkmate(Enemy(color));
        }
        return true, Stalemate;
      }
      return false, Ongoing;
    }

    /**
     * The path every move takes, whether clicked, chosen in the promotion dialog, received
     * from the peer or played by the computer: makeMove, switchTurn, then checkGameEnd.
     */
    method Commit(fromR: int, fromC: int, m: Move, promo: Option<Kind>) returns (ended: bool, outcome: Outcome)
      requires Applicable(board, fromR, fromC, m)
      modifies this
      ensures board == AfterMove(old(board), fromR, fromC, m, promo)
      ensures ep == EpAfter(fromR, fromC, m)
      ensures rights == RightsAfterMove(old(rights), old(board)[fromR][fromC], fromC, m)
      ensures turn == Enemy(old(turn))
      ensures var color, taken := old(board)[fromR][fromC].color, Taken(old(board), fromR, fromC, m);
        && (color == White ==> capturedByWhite == old(capturedByWhite) + taken && capturedByBlack == old(capturedByBlack))
        && (color == Black ==> capturedByBlack == old(capturedByBlack) + taken && capturedByWhite == old(capturedByWhite))
      ensures history == old(history) + [HistoryEntry(Sq(fromR, fromC), m, old(board)[fromR][fromC], old(board)[m.r][m.c])]
      ensures outcome == Verdict(board, turn, ep, rights) && (ended <==> outcome != Ongoing)
      ensures gameOver == (old(gameOver) || ended)
      ensures selected == old(selected) && validMoves == old(validMoves)
    {
      MakeMove(fromR, fromC, m, promo);
      SwitchTurn();
      ended, outcome := CheckGameEnd();
    }

    /**
     * onCellClick on a square that is not a target of the selection: a piece of the side to
     * move becomes the selection with its legal moves, any other square clears the selection.
     */
    method Select(r: int, c: int)
      requires InBounds(r, c) && !gameOver
      modifies this
      ensures board[r][c].Has? && board[r][c].color == turn ==>
        selected == Some(Sq(r, c)) && validMoves == LegalMoves(board, r, c, ep, rights)
      ensures !(board[r][c].Has? && board[r][c].color == turn) ==> selected == None && validMoves == []
      ensures forall m :: m in validMoves ==> !InCheck(turn, SimulateMove(board, r, c, m))
      ensures board == old(board) && turn == old(turn) && gameOver == old(gameOver) && history == old(history)
      ensures capturedByWhite == old(capturedByWhite) && capturedByBlack == old(capturedByBlack)
      ensures rights == old(rights) && ep == old(ep)
    {
      if board[r][c].Has? && board[r][c].color == turn {
        selected := Some(Sq(r, c));
        validMoves := LegalMoves(board, r, c, ep, rights);
        LegalMovesIff(board, r, c, ep, rights);
      } else {
        selected := None;
        validMoves := [];
      }
    }

    /**
     * A move chosen on the board: the clicked target is one of getLegalMoves for the
     * selected piece of the side to move. Afterwards the mover's king is not attacked, for a
     * promotion to any of the pieces the promotion dialog offers (queen, rook, bishop, knight).
     */
    method PlayLegal(fromR: int, fromC: int, m: Move, promo: Option<Kind>) returns (ended: bool, outcome: Outcome)
      requires !gameOver && InBounds(fromR, fromC)
      requires board[fromR][fromC].Has? && board[fromR][fromC].color == turn
      requires m in LegalMoves(board, fromR, fromC, ep, rights)
      modifies this
      ensures board == AfterMove(old(board), fromR, fromC, m, promo) && turn == Enemy(old(turn))
      ensures PromoKind(promo) != King ==> !InCheck(old(turn), board)
      ensures ep == EpAfter(fromR, fromC, m)
      ensures rights == RightsAfterMove(old(rights), old(board)[fromR][fromC], fromC, m)
      ensures var color, taken := old(board)[fromR][fromC].color, Taken(old(board), fromR, fromC, m);
        && (color == White ==> capturedByWhite == old(capturedByWhite) + taken && capturedByBlack == old(capturedByBlack))
        && (color == Black ==> capturedByBlack == old(capturedByBlack) + taken && capturedByWhite == old(capturedByWhite))
      ensures history == old(history) + [HistoryEntry(Sq(fromR, fromC), m, old(board)[fromR][fromC], old(board)[m.r][m.c])]
      ensures outcome == Verdict(board, turn, ep, rights) && (ended <==> outcome != Ongoing)
      ensures gameOver == ended
      ensures selected == None && validMoves == []
    {
      ghost var b0, mover := board, turn;
      LegalMovesIff(board, fromR, fromC, ep, rights);
      ended, outcome := Commit(fromR, fromC, m, promo);
      if PromoKind(promo) != King {
        AfterMoveKeepsCheck(b0, fromR, fromC, m, promo);
      }
      Deselect();
    }

    /** selectedCell = null; validMoves = []. */
    method Deselect()
      modifies this
      ensures selected == None && validMoves == []
      ensures board == old(board) && turn == old(turn) && gameOver == old(gameOver) && history == old(history)
      ensures capturedByWhite == old(capturedByWhite) && capturedByBlack == old(capturedByBlack)
      ensures rights == old(rights) && ep == old(ep)
    {
      selected := None;
      validMoves := [];
    }

    /** A move received from the peer: applied as it stands, without re-checking legality. */
    method ApplyDescriptor(d: Descriptor) returns (ended: bool, outcome: Outcome)
      requires Applicable(board, d.fromR, d.fromC, d.move)
      modifies this
      ensures board == AfterMove(old(board), d.fromR, d.fromC, d.move, d.promoType)
      ensures ep == EpAfter(d.fromR, d.fromC, d.move)
      ensures rights == RightsAfterMove(old(rights), old(board)[d.fromR][d.fromC], d.fromC, d.move)
      ensures turn == Enemy(old(turn))
      ensures var color, taken := old(board)[d.fromR][d.fromC].color, Taken(old(board), d.fromR, d.fromC, d.move);
        && (color == White ==> capturedByWhite == old(capturedByWhite) + taken && capturedByBlack == old(capturedByBlack))
        && (color == Black ==> capturedByBlack == old(capturedByBlack) + taken && capturedByWhite == old(capturedByWhite))
      ensures history == old(history) + [HistoryEntry(Sq(d.fromR, d.fromC), d.move, old(board)[d.fromR][d.fromC], old(board)[d.move.r][d.move.c])]
      ensures outcome == Verdict(board, turn, ep, rights) && (ended <==> outcome != Ongoing)
      ensures gameOver == (old(gameOver) || ended)
      ensures selected == old(selected) && validMoves == old(validMoves)
    {
      ended, outcome := Commit(d.fromR, d.fromC, d.move, d.promoType);
    }

    /**
     * aiMove: nothing happens when the game is over or Black has no legal ply. Otherwise
     * one of Black's optimal plies (lowest minimax score at depth 2, AIOptimalIff) is
     * played, promoting to a queen; `pick` stands for the random index into bestMoves.
     */
    method AIMove(pick: nat) returns (chosen: Option<Ply>)
      modifies this
      ensures old(gameOver) || |OrderedPlies(old(board), Black, old(ep), old(rights))| == 0 ==>
        && chosen == None && board == old(board) && turn == old(turn) && gameOver == old(gameOver)
        && history == old(history) && capturedByWhite == old(capturedByWhite) && capturedByBlack == old(capturedByBlack)
        && rights == old(rights) && ep == old(ep) && selected == old(selected) && validMoves == old(validMoves)
      ensures !old(gameOver) && |OrderedPlies(old(board), Black, old(ep), old(rights))| > 0 ==> chosen.Some?
      ensures chosen.Some? ==>
        && Optimal(ChessGame(), RootChildren(old(board), old(rights)), 2, false,
                   OrderedPlies(old(board), Black, old(ep), old(rights)), chosen.value)
        && LegalPly(old(board), Black, old(ep), old(rights), chosen.value)
        && board == SimulateMove(old(board), chosen.value.fromR, chosen.value.fromC, chosen.value.move)
        && turn == Enemy(old(turn))
        && ep == EpAfter(chosen.value.fromR, chosen.value.fromC, chosen.value.move)
        && rights == RightsAfterMove(old(rights), old(board)[chosen.value.fromR][chosen.value.fromC], chosen.value.fromC, chosen.value.move)
        && capturedByBlack == old(capturedByBlack) + Taken(old(board), chosen.value.fromR, chosen.value.fromC, chosen.value.move)
        && capturedByWhite == old(capturedByWhite)
        && history == old(history) + [HistoryEntry(Sq(chosen.value.fromR, chosen.value.fromC), chosen.value.move,
                                                   old(board)[chosen.value.fromR][chosen.value.fromC],
                                                   old(board)[chosen.value.move.r][chosen.value.move.c])]
        && gameOver == (Verdict(board, turn, ep, rights) != Ongoing)
        && selected == old(selected) && validMoves == old(validMoves)
    {
      if gameOver {
        return None;
      }
      var best := AIChoices(board, ep, rights);
      if |best| == 0 {
        return None;
      }
      var p := best[pick % |best|];
      ghost var b0, e0, r0 := board, ep, rights;
      assert p in best;
      OrderedPliesLegal(b0, Black, e0, r0);
      var promo := if p.move.kind == Promotion then Some(Queen) else None;
      AfterMoveIsSimulate(board, p.fromR, p.fromC, p.move, promo);
      var ended, outcome := Commit(p.fromR, p.fromC, p.move, promo);
      chosen := Some(p);
    }
  }

  /** The board the statement sequence of makeMove builds is AfterMove's. */
  lemma BoardUpdateMatches(b: Board, fromR: int, fromC: int, m: Move, promo: Option<Kind>, out: Board)
    requires Applicable(b, fromR, fromC, m)
    requires var piece := b[fromR][fromC];
      var s0 := if m.kind == EnPassant then Put(b, EpVictimRow(piece.color, m.r), m.c, Empty) else b;
      var s1 := Put(Put(s0, m.r, m.c, piece), fromR, fromC, Empty);
      var s2 := if m.kind == CastleK then Put(Put(s1, m.r, 5, s1[m.r][7]), m.r, 7, Empty) else s1;
      var s3 := if m.kind == CastleQ then Put(Put(s2, m.r, 3, s2[m.r][0]), m.r, 0, Empty) else s2;
      out == if m.kind == Promotion then Put(s3, m.r, m.c, Has(piece.color, PromoKind(promo))) else s3
    ensures out == AfterMove(b, fromR, fromC, m, promo)
  {
    BoardExt(out, AfterMove(b, fromR, fromC, m, promo));
  }
}
