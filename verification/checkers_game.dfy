/**
 * The state of a checkers game in js/checkers.js and the operations that change it:
 * makeMove with its multi-jump continuation, switchTurn, countPieces, hasLegalMoves,
 * checkGameEnd, and the three paths a move arrives by (a click, the peer, the computer).
 */
module CheckersPlay {
  import opened Wrappers
  import opened AlphaBeta
  import opened CheckersBoard
  import opened CheckersSearch

  /** The move descriptor the peer sends: `{ fromR, fromC, move }`. */
  datatype Descriptor = Descriptor(fromR: int, fromC: int, move: Move)

  /** What checkGameEnd decides: play goes on, a side has lost all its pieces, or the side to move cannot move. */
  datatype Outcome = Ongoing | AllCaptured(winner: Side) | NoMoves(winner: Side)

  /** A piece of `color` on (r, c) with a plain move or a jump. */
  predicate Movable(b: Board, color: Side, r: int, c: int)
    requires InBounds(r, c)
  {
    OwnedBy(b, r, c, color) && (|MovesForPiece(b, r, c).moves| > 0 || |MovesForPiece(b, r, c).jumps| > 0)
  }

  /** What hasLegalMoves reports: some piece of `color` has a plain move or a jump. */
  predicate HasMoves(b: Board, color: Side)
  {
    exists r, c :: 0 <= r < 8 && 0 <= c < 8 && Movable(b, color, r, c)
  }

  /**
   * hasLegalMoves, which ignores mandatory capture, agrees with the computer's move list:
   * a side can move exactly when getAllAIMoves offers it a ply.
   */
  lemma HasMovesIffAIMoves(b: Board, color: Side)
    ensures HasMoves(b, color) <==> |AIMoves(color, b)| > 0
  {
    CollectIff(b, color, true);
    CollectIff(b, color, false);
    CollectJumpsEmpty(b, color);
    if HasMoves(b, color) {
      var r, c :| 0 <= r < 8 && 0 <= c < 8 && Movable(b, color, r, c);
      if !AnyJump(b, color) {
        assert !CanJump(b, color, r, c);
        assert PieceOffers(b, color, false, Ply(r, c, MovesForPiece(b, r, c).moves[0]));
      }
    }
    if |AIMoves(color, b)| > 0 {
      var p := AIMoves(color, b)[0];
      assert PieceOffers(b, color, |Collect(b, color, true)| > 0, p);
      assert Movable(b, color, p.fromR, p.fromC);
    }
  }

  /**
   * checkGameEnd's decision for the side to move `turn`: Black wins when Red has no piece
   * left, else Red wins when Black has none, else the opponent wins when `turn` cannot move.
   */
  function Verdict(b: Board, turn: Side): (o: Outcome)
    ensures o == Ongoing <==> Count(b, Red) > 0 && Count(b, Black) > 0 && |AIMoves(turn, b)| > 0
    ensures o.AllCaptured? ==> Count(b, Opponent(o.winner)) == 0
    ensures o.AllCaptured? && o.winner == Red ==> Count(b, Red) > 0
    ensures o.NoMoves? ==> o.winner == Opponent(turn) && |AIMoves(turn, b)| == 0
  {
    HasMovesIffAIMoves(b, turn);
    if Count(b, Red) == 0 then AllCaptured(Black)
    else if Count(b, Black) == 0 then AllCaptured(Red)
    else if !HasMoves(b, turn) then NoMoves(Opponent(turn))
    else Ongoing
  }

  /** While the game goes on, the side to move has a move getLegalMoves allows outside a multi-jump. */
  lemma OngoingHasLegalMove(b: Board, turn: Side)
    requires Verdict(b, turn) == Ongoing
    ensures exists p :: p in AIMoves(turn, b) && InBounds(p.fromR, p.fromC) && p.move in LegalMoves(b, turn, None, p.fromR, p.fromC)
  {
    AIMovesAreLegal(turn, b);
    assert AIMoves(turn, b)[0] in AIMoves(turn, b);
  }

  /**
   * The quirk of the computer's multi-jump continuation: doAITurn asks getAllAIMoves for
   * every black jump, so a jump of another black piece is on offer although getLegalMoves,
   * locked to the multi-jump piece, allows that piece nothing.
   */
  lemma AIContinuationIgnoresLock(b: Board, lock: Sq, r: int, c: int, m: Move)
    requires InBounds(r, c) && OwnedBy(b, r, c, Black) && m in MovesForPiece(b, r, c).jumps
    requires lock != Sq(r, c)
    ensures Ply(r, c, m) in AIMoves(Black, b)
    ensures LegalMoves(b, Black, Some(lock), r, c) == []
  {
    CollectIff(b, Black, true);
    assert CanJump(b, Black, r, c);
    CollectJumpsEmpty(b, Black);
    LegalMovesRule(b, Black, Some(lock), r, c);
  }

  /** The number of jumps among the plies. */
  function JumpCount(ps: seq<Ply>): (n: nat)
    ensures n <= |ps|
  {
    if |ps| == 0 then 0 else (if ps[0].move.Jump? then 1 else 0) + JumpCount(ps[1..])
  }

  /** A ply played on a board; a ply the board update cannot apply leaves the board as it is. */
  function Apply(b: Board, p: Ply): Board
  {
    if Applicable(b, p.fromR, p.fromC, p.move) then SimulateAIMove(b, p.fromR, p.fromC, p.move) else b
  }

  /** The board the computer's plies leave, each played on the board the previous ones left. */
  function Replay(b: Board, plies: seq<Ply>): Board
    decreases |plies|
  {
    if |plies| == 0 then b else Replay(Apply(b, plies[0]), plies[1..])
  }

  /**
   * A turn of the computer as doAITurn plays it: every ply applies to the board the
   * previous ones left and is one of the optimal choices (depth 4) for that board.
   */
  predicate OptimalRun(b: Board, plies: seq<Ply>)
    decreases |plies|
  {
    |plies| == 0 ||
    (&& Applicable(b, plies[0].fromR, plies[0].fromC, plies[0].move)
     && Optimal(CheckersGame(), RootChildren(b), 4, true, AIMoves(Black, b), plies[0])
     && OptimalRun(SimulateAIMove(b, plies[0].fromR, plies[0].fromC, plies[0].move), plies[1..]))
  }

  /** A run extended at the front by a ply that is applicable and optimal for the board it starts from. */
  lemma RunCons(b: Board, p: Ply, rest: seq<Ply>)
    requires Applicable(b, p.fromR, p.fromC, p.move)
    requires Optimal(CheckersGame(), RootChildren(b), 4, true, AIMoves(Black, b), p)
    requires OptimalRun(SimulateAIMove(b, p.fromR, p.fromC, p.move), rest)
    ensures OptimalRun(b, [p] + rest)
    ensures Replay(b, [p] + rest) == Replay(SimulateAIMove(b, p.fromR, p.fromC, p.move), rest)
    ensures JumpCount([p] + rest) == (if p.move.Jump? then 1 else 0) + JumpCount(rest)
    ensures (|rest| > 0 ==> p.move.Jump?) && (forall i :: 0 <= i < |rest| - 1 ==> rest[i].move.Jump?) ==>
      forall i :: 0 <= i < |[p] + rest| - 1 ==> ([p] + rest)[i].move.Jump?
  {
    assert ([p] + rest)[1..] == rest;
    assert forall i :: 1 <= i < |[p] + rest| ==> ([p] + rest)[i] == rest[i - 1];
  }

  /** OptimalRun ply by ply: the i-th ply is applicable to and optimal for the board the first i plies leave. */
  lemma {:induction false} OptimalRunEach(b: Board, plies: seq<Ply>, i: int)
    requires OptimalRun(b, plies) && 0 <= i < |plies|
    ensures Applicable(Replay(b, plies[..i]), plies[i].fromR, plies[i].fromC, plies[i].move)
    ensures Optimal(CheckersGame(), RootChildren(Replay(b, plies[..i])), 4, true, AIMoves(Black, Replay(b, plies[..i])), plies[i])
    decreases i
  {
    if i > 0 {
      var b1 := Apply(b, plies[0]);
      OptimalRunEach(b1, plies[1..], i - 1);
      assert plies[..i][1..] == plies[1..][..i - 1];
      assert Replay(b, plies[..i]) == Replay(b1, plies[1..][..i - 1]);
      assert plies[1..][i - 1] == plies[i];
    }
  }

  /** `validMoves.find(m => m.r === r && m.c === c)`: the first offered move landing on (r, c). */
  function FindTarget(ms: seq<Move>, r: int, c: int): (t: Option<Move>)
    ensures t.None? <==> forall m :: m in ms ==> m.r != r || m.c != c
    ensures t.Some? ==>
      && t.value.r == r && t.value.c == c
      && exists i :: 0 <= i < |ms| && ms[i] == t.value && forall j :: 0 <= j < i ==> ms[j].r != r || ms[j].c != c
  {
    if |ms| == 0 then None
    else if ms[0].r == r && ms[0].c == c then Some(ms[0])
    else
      var t := FindTarget(ms[1..], r, c);
      if t.Some? then
        ghost var i :| 0 <= i < |ms[1..]| && ms[1..][i] == t.value && forall j :: 0 <= j < i ==> ms[1..][j].r != r || ms[1..][j].c != c;
        assert ms[i + 1] == t.value;
        t
      else t
  }

  class Session {
    var board: Board
    var turn: Side
    /** selectedCell */
    var selected: Option<Sq>
    var validMoves: seq<Move>
    var gameOver: bool
    /** multiJumpPiece: the piece that must go on jumping, if any. */
    var multiJump: Option<Sq>

    /**
     * What onCellClick relies on when it plays a highlighted target: with nothing selected
     * nothing is offered, a selected square is offered exactly what getLegalMoves gives it,
     * and during a multi-jump the jumping piece is the selection.
     */
    predicate SelectionConsistent()
      reads this
    {
      && (selected.None? ==> validMoves == [])
      && (selected.Some? ==>
            && InBounds(selected.value.r, selected.value.c)
            && validMoves == LegalMoves(board, turn, multiJump, selected.value.r, selected.value.c))
      && (multiJump.Some? ==> selected == multiJump)
    }

    /** init: the initial layout, Red to move, nothing selected. */
    constructor Init()
      ensures board == InitialBoard() && turn == Red
      ensures selected == None && validMoves == [] && !gameOver && multiJump == None
      ensures SelectionConsistent()
    {
      board := InitialBoard();
      turn := Red;
      selected := None;
      validMoves := [];
      gameOver := false;
      multiJump := None;
    }

    /**
     * makeMove: move the piece, empty the jumped square, crown it on the far row. After a
     * jump from whose landing square the piece can jump again, the piece is locked in
     * (multiJumpPiece, selected, its jumps offered) and the turn is not over; otherwise
     * multiJumpPiece is cleared and the turn is over.
     */
    method MakeMove(fromR: int, fromC: int, m: Move) returns (turnOver: bool)
      requires Applicable(board, fromR, fromC, m)
      modifies this
      ensures board == SimulateAIMove(old(board), fromR, fromC, m)
      ensures turnOver <==> m.Step? || |MovesForPiece(board, m.r, m.c).jumps| == 0
      ensures !turnOver ==>
        multiJump == Some(Sq(m.r, m.c)) && selected == Some(Sq(m.r, m.c)) && validMoves == MovesForPiece(board, m.r, m.c).jumps
      ensures turnOver ==> multiJump == None && selected == old(selected) && validMoves == old(validMoves)
      ensures turn == old(turn) && gameOver == old(gameOver)
    {
      var piece := board[fromR][fromC];
      board := Put(board, m.r, m.c, piece);
      board := Put(board, fromR, fromC, Vacant);
      if m.Jump? {
        board := Put(board, m.capturedR, m.capturedC, Vacant);
      }
      if Crowns(piece.color, m.r) {
        board := Put(board, m.r, m.c, board[m.r][m.c].(king := true));
      }
      BoardExt(board, SimulateAIMove(old(board), fromR, fromC, m));
      if m.Jump? {
        var jumps := MovesForPiece(board, m.r, m.c).jumps;
        if |jumps| > 0 {
          multiJump := Some(Sq(m.r, m.c));
          selected := Some(Sq(m.r, m.c));
          validMoves := jumps;
          return false;
        }
      }
      multiJump := None;
      return true;
    }

    /** switchTurn. */
    method SwitchTurn()
      modifies this
      ensures turn == Opponent(old(turn))
      ensures board == old(board) && selected == old(selected) && validMoves == old(validMoves)
      ensures gameOver == old(gameOver) && multiJump == old(multiJump)
    {
      turn := if turn == Red then Black else Red;
    }

    /** countPieces: the pieces of `color` on the board. */
    method CountPieces(color: Side) returns (count: nat)
      ensures count == Count(board, color)
    {
      count := 0;
      for r := 0 to 8
        invariant count == RowsCount(board, color, r)
      {
        for c := 0 to 8
          invariant count == RowsCount(board, color, r) + RowCount(board, color, r, c)
        {
          if board[r][c].Occupied? && board[r][c].color == color {
            count := count + 1;
          }
        }
      }
    }

    /** hasLegalMoves: whether some piece of `color` has a plain move or a jump. */
    method HasLegalMoves(color: Side) returns (has: bool)
      ensures has <==> HasMoves(board, color)
    {
      for r := 0 to 8
        invariant forall i, j :: 0 <= i < r && 0 <= j < 8 ==> !Movable(board, color, i, j)
      {
        var found := RowHasMover(color, r);
        if found {
          return true;
        }
      }
      return false;
    }

    /** The inner loop of hasLegalMoves: whether some piece of `color` in row r has a plain move or a jump. */
    method RowHasMover(color: Side, r: int) returns (found: bool)
      requires 0 <= r < 8
      ensures found ==> HasMoves(board, color)
      ensures !found ==> forall j :: 0 <= j < 8 ==> !Movable(board, color, r, j)
    {
      for c := 0 to 8
        invariant forall j :: 0 <= j < c ==> !Movable(board, color, r, j)
      {
        if board[r][c].Occupied? && board[r][c].color == color {
          var options := MovesForPiece(board, r, c);
          if |options.moves| > 0 || |options.jumps| > 0 {
            assert Movable(board, color, r, c);
            return true;
          }
        }
      }
      return false;
    }

    /** checkGameEnd: decide the outcome for the side to move and end the game when it is decided. */
    method CheckGameEnd() returns (ended: bool, outcome: Outcome)
      modifies this
      ensures outcome == Verdict(board, turn) && (ended <==> outcome != Ongoing)
      ensures gameOver == (old(gameOver) || ended)
      ensures board == old(board) && turn == old(turn) && selected == old(selected)
      ensures validMoves == old(validMoves) && multiJump == old(multiJump)
    {
      var redCount := CountPieces(Red);
      var blackCount := CountPieces(Black);
      if redCount == 0 {
        gameOver := true;
        return true, AllCaptured(Black);
      }
      if blackCount == 0 {
        gameOver := true;
        return true, AllCaptured(Red);
      }
      var has := HasLegalMoves(turn);
      if !has {
        gameOver := true;
        return true, NoMoves(Opponent(turn));
      }
      return false, Ongoing;
    }

    /**
     * onCellClick on a piece: with no multi-jump in progress, a piece of the side to move
     * is selected and offered getLegalMoves; any other square clears the selection. During
     * a multi-jump the click changes nothing.
     */
    method Select(r: int, c: int)
      requires InBounds(r, c) && !gameOver
      modifies this
      ensures multiJump.None? && OwnedBy(board, r, c, turn) ==>
        selected == Some(Sq(r, c)) && validMoves == LegalMoves(board, turn, multiJump, r, c)
      ensures multiJump.None? && !OwnedBy(board, r, c, turn) ==> selected == None && validMoves == []
      ensures multiJump.Some? ==> selected == old(selected) && validMoves == old(validMoves)
      ensures board == old(board) && turn == old(turn) && gameOver == old(gameOver) && multiJump == old(multiJump)
      ensures multiJump.None? || old(SelectionConsistent()) ==> SelectionConsistent()
    {
      if multiJump.None? && board[r][c].Occupied? && board[r][c].color == turn {
        selected := Some(Sq(r, c));
        validMoves := LegalMoves(board, turn, multiJump, r, c);
      } else if multiJump.None? {
        selected := None;
        validMoves := [];
      }
    }

    /**
     * onCellClick on a highlighted target: a move getLegalMoves offered the selected piece.
     * The mover keeps all its pieces and a jump removes exactly one of the opponent's. When
     * the turn is over the selection is cleared, the turn passes and the game end is
     * checked; otherwise only the jumping piece may move, and only by jumping again.
     */
    method PlayLegal(fromR: int, fromC: int, m: Move) returns (turnOver: bool)
      requires !gameOver && InBounds(fromR, fromC)
      requires m in LegalMoves(board, turn, multiJump, fromR, fromC)
      modifies this
      ensures Applicable(old(board), fromR, fromC, m)
      ensures board == SimulateAIMove(old(board), fromR, fromC, m)
      ensures Count(board, old(turn)) == Count(old(board), old(turn))
      ensures Count(board, Opponent(old(turn))) == Count(old(board), Opponent(old(turn))) - if m.Jump? then 1 else 0
      ensures turnOver <==> m.Step? || |MovesForPiece(board, m.r, m.c).jumps| == 0
      ensures turnOver ==>
        && turn == Opponent(old(turn)) && multiJump == None && selected == None && validMoves == []
        && gameOver == (Verdict(board, turn) != Ongoing)
      ensures !turnOver ==>
        && turn == old(turn) && !gameOver && multiJump == Some(Sq(m.r, m.c))
        && validMoves == LegalMoves(board, turn, multiJump, m.r, m.c) && |validMoves| > 0
        && forall r, c :: InBounds(r, c) && (r != m.r || c != m.c) ==> LegalMoves(board, turn, multiJump, r, c) == []
      ensures SelectionConsistent()
    {
      LegalMovesSound(board, turn, multiJump, fromR, fromC, m);
      LegalIsApplicable(board, turn, multiJump, fromR, fromC, m);
      SimulateAIMoveCounts(board, fromR, fromC, m);
      turnOver := MakeMove(fromR, fromC, m);
      if turnOver {
        selected := None;
        validMoves := [];
        SwitchTurn();
        var ended, outcome := CheckGameEnd();
      } else {
        LegalMovesRule(board, turn, multiJump, m.r, m.c);
        forall r, c | InBounds(r, c) && (r != m.r || c != m.c)
          ensures LegalMoves(board, turn, multiJump, r, c) == []
        {
          LegalMovesRule(board, turn, multiJump, r, c);
        }
      }
    }

    /**
     * onCellClick: a click on a square the selected piece is offered plays the first offered
     * move landing there (PlayLegal); any other click selects or deselects (Select). The
     * selection stays consistent.
     */
    method Click(r: int, c: int) returns (moved: bool, turnOver: bool)
      requires InBounds(r, c) && !gameOver && SelectionConsistent()
      modifies this
      ensures moved <==> old(selected).Some? && FindTarget(old(validMoves), r, c).Some?
      ensures moved ==>
        var from, m := old(selected).value, FindTarget(old(validMoves), r, c).value;
        && InBounds(from.r, from.c) && m in LegalMoves(old(board), old(turn), old(multiJump), from.r, from.c)
        && Applicable(old(board), from.r, from.c, m)
        && board == SimulateAIMove(old(board), from.r, from.c, m)
        && (turnOver <==> m.Step? || |MovesForPiece(board, m.r, m.c).jumps| == 0)
        && (turnOver ==> turn == Opponent(old(turn)) && multiJump == None && selected == None && gameOver == (Verdict(board, turn) != Ongoing))
        && (!turnOver ==> turn == old(turn) && multiJump == Some(Sq(m.r, m.c)) && selected == multiJump && !gameOver)
      ensures !moved ==>
        && board == old(board) && turn == old(turn) && gameOver == old(gameOver) && multiJump == old(multiJump)
        && (multiJump.None? ==> (selected == Some(Sq(r, c)) <==> OwnedBy(board, r, c, turn)))
      ensures SelectionConsistent()
    {
      var target := FindTarget(validMoves, r, c);
      if target.Some? && selected.Some? {
        moved := true;
        var from := selected.value;
        turnOver := PlayLegal(from.r, from.c, target.value);
      } else {
        moved, turnOver := false, false;
        Select(r, c);
      }
    }

    /**
     * A move received from the peer, as the remote handler writes it: makeMove without a
     * legality check, switchTurn when the turn is over, then checkGameEnd in either case.
     * The selection is left as makeMove leaves it: when the turn is over, the one from
     * before the move (see StaleSelectionAfterRemoteJump).
     */
    method ApplyDescriptorAsWritten(d: Descriptor) returns (turnOver: bool, outcome: Outcome)
      requires Applicable(board, d.fromR, d.fromC, d.move)
      modifies this
      ensures board == SimulateAIMove(old(board), d.fromR, d.fromC, d.move)
      ensures turnOver <==> d.move.Step? || |MovesForPiece(board, d.move.r, d.move.c).jumps| == 0
      ensures turn == if turnOver then Opponent(old(turn)) else old(turn)
      ensures !turnOver ==>
        && multiJump == Some(Sq(d.move.r, d.move.c)) && selected == multiJump
        && validMoves == MovesForPiece(board, d.move.r, d.move.c).jumps
      ensures turnOver ==> multiJump == None && selected == old(selected) && validMoves == old(validMoves)
      ensures outcome == Verdict(board, turn) && gameOver == (old(gameOver) || outcome != Ongoing)
    {
      turnOver := MakeMove(d.fromR, d.fromC, d.move);
      if turnOver {
        SwitchTurn();
      }
      var ended;
      ended, outcome := CheckGameEnd();
    }

    /**
     * The remote handler with the selection cleared when the turn is over, as the click
     * and computer paths do. After a move by a piece of the side to move the selection is
     * consistent again.
     */
    method ApplyDescriptor(d: Descriptor) returns (turnOver: bool, outcome: Outcome)
      requires Applicable(board, d.fromR, d.fromC, d.move)
      modifies this
      ensures board == SimulateAIMove(old(board), d.fromR, d.fromC, d.move)
      ensures turnOver <==> d.move.Step? || |MovesForPiece(board, d.move.r, d.move.c).jumps| == 0
      ensures turn == if turnOver then Opponent(old(turn)) else old(turn)
      ensures !turnOver ==>
        && multiJump == Some(Sq(d.move.r, d.move.c)) && selected == multiJump
        && validMoves == MovesForPiece(board, d.move.r, d.move.c).jumps
      ensures turnOver ==> multiJump == None && selected == None && validMoves == []
      ensures outcome == Verdict(board, turn) && gameOver == (old(gameOver) || outcome != Ongoing)
      ensures turnOver || old(board)[d.fromR][d.fromC].color == old(turn) ==> SelectionConsistent()
    {
      turnOver, outcome := ApplyDescriptorAsWritten(d);
      if turnOver {
        selected := None;
        validMoves := [];
      } else {
        LegalMovesRule(board, turn, multiJump, d.move.r, d.move.c);
      }
    }

    /**
     * One round of doAITurn: nothing but checkGameEnd when Black has no ply; otherwise one
     * of Black's optimal plies (chosen by `pick`, the random index) is played. A jump that
     * can go on keeps the turn, and Black then still has a ply; otherwise the selection is
     * cleared, the turn passes and the game end is checked.
     */
    method AIStep(pick: nat) returns (played: Option<Ply>, turnOver: bool)
      requires !gameOver
      modifies this
      ensures played.None? <==> |AIMoves(Black, old(board))| == 0
      ensures played.None? ==>
        && turnOver && board == old(board) && turn == old(turn)
        && gameOver == (Verdict(board, turn) != Ongoing)
        && selected == old(selected) && validMoves == old(validMoves) && multiJump == old(multiJump)
      ensures played.Some? ==>
        var p := played.value;
        && Optimal(CheckersGame(), RootChildren(old(board)), 4, true, AIMoves(Black, old(board)), p)
        && Applicable(old(board), p.fromR, p.fromC, p.move)
        && board == SimulateAIMove(old(board), p.fromR, p.fromC, p.move)
        && Count(board, Black) == Count(old(board), Black)
        && Count(board, Red) == Count(old(board), Red) - (if p.move.Jump? then 1 else 0)
        && (!turnOver ==>
              && p.move.Jump? && turn == old(turn) && !gameOver && |AIMoves(Black, board)| > 0
              && multiJump == Some(Sq(p.move.r, p.move.c)) && selected == multiJump
              && validMoves == MovesForPiece(board, p.move.r, p.move.c).jumps)
        && (turnOver ==>
              && turn == Opponent(old(turn)) && multiJump == None && selected == None && validMoves == []
              && gameOver == (Verdict(board, turn) != Ongoing))
    {
      var moves := AIMoves(Black, board);
      if |moves| == 0 {
        var ended, outcome := CheckGameEnd();
        return None, true;
      }
      var best := AIChoices(board);
      var p := best[pick % |best|];
      assert p in best;
      played := Some(p);
      turnOver := PlayAIPly(p);
    }

    /**
     * The rest of a round of doAITurn once the ply is chosen: makeMove; when the turn is
     * over, clear the selection, switchTurn and checkGameEnd.
     */
    method PlayAIPly(p: Ply) returns (turnOver: bool)
      requires !gameOver && p in AIMoves(Black, board)
      modifies this
      ensures Applicable(old(board), p.fromR, p.fromC, p.move)
      ensures board == SimulateAIMove(old(board), p.fromR, p.fromC, p.move)
      ensures Count(board, Black) == Count(old(board), Black)
      ensures Count(board, Red) == Count(old(board), Red) - (if p.move.Jump? then 1 else 0)
      ensures !turnOver ==>
        && p.move.Jump? && turn == old(turn) && !gameOver && |AIMoves(Black, board)| > 0
        && multiJump == Some(Sq(p.move.r, p.move.c)) && selected == multiJump
        && validMoves == MovesForPiece(board, p.move.r, p.move.c).jumps
      ensures turnOver ==>
        && turn == Opponent(old(turn)) && multiJump == None && selected == None && validMoves == []
        && gameOver == (Verdict(board, turn) != Ongoing)
    {
      AIMovesApplicable(Black, board, p);
      SimulateAIMoveCounts(board, p.fromR, p.fromC, p.move);
      turnOver := MakeMove(p.fromR, p.fromC, p.move);
      if !turnOver {
        assert CanJump(board, Black, p.move.r, p.move.c);
        CollectJumpsEmpty(board, Black);
        return;
      }
      selected := None;
      validMoves := [];
      SwitchTurn();
      var ended, outcome := CheckGameEnd();
    }

    /**
     * doAITurn: one round (AIStep), then, while the jump can go on, doAITurn again with
     * round + 1, `picks(round)` standing for the random index of each round. Every round
     * but the last is a jump, so Red loses one piece per jump and Black none; the first ply
     * is optimal for the starting board.
     */
    method DoAITurn(picks: nat -> nat, round: nat) returns (played: seq<Ply>)
      requires !gameOver
      modifies this
      ensures |played| > 0 <==> |AIMoves(Black, old(board))| > 0
      ensures board == Replay(old(board), played) && OptimalRun(old(board), played)
      ensures forall i :: 0 <= i < |played| - 1 ==> played[i].move.Jump?
      ensures Count(board, Black) == Count(old(board), Black)
      ensures Count(board, Red) == Count(old(board), Red) - JumpCount(played)
      ensures |played| > 0 ==> turn == Opponent(old(turn)) && multiJump == None && selected == None && validMoves == []
      ensures |played| == 0 ==>
        turn == old(turn) && multiJump == old(multiJump) && selected == old(selected) && validMoves == old(validMoves)
      ensures gameOver == (Verdict(board, turn) != Ongoing)
      decreases Count(board, Red)
    {
      ghost var b0 := board;
      var step, turnOver := AIStep(picks(round));
      if step.None? {
        return [];
      }
      if turnOver {
        RunCons(b0, step.value, []);
        assert [step.value] + [] == [step.value];
        return [step.value];
      }
      ghost var b1 := board;
      var rest := DoAITurn(picks, round + 1);
      assert board == Replay(b1, rest);
      played := [step.value] + rest;
      RunCons(b0, step.value, rest);
    }

    /** aiMove: nothing when the game is over, otherwise doAITurn from round 0. */
    method AIMove(picks: nat -> nat) returns (played: seq<Ply>)
      modifies this
      ensures old(gameOver) ==> played == [] && gameOver
      ensures !old(gameOver) ==> (|played| > 0 <==> |AIMoves(Black, old(board))| > 0)
      ensures board == Replay(old(board), played) && OptimalRun(old(board), played)
      ensures forall i :: 0 <= i < |played| - 1 ==> played[i].move.Jump?
      ensures Count(board, Black) == Count(old(board), Black)
      ensures Count(board, Red) == Count(old(board), Red) - JumpCount(played)
      ensures |played| > 0 ==> turn == Opponent(old(turn)) && multiJump == None && selected == None && validMoves == []
      ensures |played| == 0 ==>
        turn == old(turn) && multiJump == old(multiJump) && selected == old(selected) && validMoves == old(validMoves)
      ensures !old(gameOver) ==> gameOver == (Verdict(board, turn) != Ongoing)
    {
      if gameOver {
        return [];
      }
      played := DoAITurn(picks, 0);
    }
  }

  /**
   * The positions of StaleSelectionAfterRemoteJump: k = 0 before the peer's jumps, 1 after
   * the first, 2 after the second.
   */
  function ScenarioSquare(k: int, r: int, c: int): Square
  {
    if r == 0 && c == 1 then Occupied(Black, false)
    else if r == 3 && c == 4 then (if k < 2 then Occupied(Black, false) else Vacant)
    else if r == 5 && c == 2 then (if k < 1 then Occupied(Black, false) else Vacant)
    else if r == 6 && c == 1 then (if k < 1 then Occupied(Red, false) else Vacant)
    else if r == 4 && c == 3 then (if k == 1 then Occupied(Red, false) else Vacant)
    else if r == 2 && c == 5 then (if k == 2 then Occupied(Red, false) else Vacant)
    else Vacant
  }

  function ScenarioBoard(k: int): (b: Board)
    ensures forall r, c :: InBounds(r, c) ==> b[r][c] == ScenarioSquare(k, r, c)
  {
    seq(8, r => seq(8, c => ScenarioSquare(k, r, c)))
  }

  /** The peer's two jumps lead from position 0 to 1 and from 1 to 2. */
  lemma ScenarioJumps()
    ensures Applicable(ScenarioBoard(0), 6, 1, Jump(4, 3, 5, 2))
    ensures SimulateAIMove(ScenarioBoard(0), 6, 1, Jump(4, 3, 5, 2)) == ScenarioBoard(1)
    ensures Applicable(ScenarioBoard(1), 4, 3, Jump(2, 5, 3, 4))
    ensures SimulateAIMove(ScenarioBoard(1), 4, 3, Jump(2, 5, 3, 4)) == ScenarioBoard(2)
  {
    BoardExt(SimulateAIMove(ScenarioBoard(0), 6, 1, Jump(4, 3, 5, 2)), ScenarioBoard(1));
    BoardExt(SimulateAIMove(ScenarioBoard(1), 4, 3, Jump(2, 5, 3, 4)), ScenarioBoard(2));
  }

  /** After the first jump the man on (4,3) can jump again, and the game goes on. */
  lemma ScenarioContinues()
    ensures Jump(2, 5, 3, 4) in MovesForPiece(ScenarioBoard(1), 4, 3).jumps
    ensures Verdict(ScenarioBoard(1), Red) == Ongoing
  {
    var b := ScenarioBoard(1);
    MovesForPieceIff(b, 4, 3);
    assert IsJump(b, 4, 3, Jump(2, 5, 3, 4));
    CountPositive(b, Red, 4, 3);
    CountPositive(b, Black, 3, 4);
    assert Movable(b, Red, 4, 3);
    HasMovesIffAIMoves(b, Red);
  }

  /** After the second jump the man on (2,5) cannot jump again, and (4,3) holds nothing to move. */
  lemma ScenarioEnds()
    ensures |MovesForPiece(ScenarioBoard(2), 2, 5).jumps| == 0
    ensures ScenarioBoard(2)[4][3] == Vacant && ScenarioBoard(2)[2][5] == Occupied(Red, false)
    ensures LegalMoves(ScenarioBoard(2), Black, None, 4, 3) == []
  {
    var b := ScenarioBoard(2);
    assert Dirs(Red, false) == [-1];
    assert JumpOver(b, 2, 5, Red, -1, -1) == [] && JumpOver(b, 2, 5, Red, -1, 1) == [];
    assert JumpsAlong(b, 2, 5, Red, [-1][1..]) == [];
  }

  /** After the second jump Black, to move, can move, and both sides have pieces. */
  lemma ScenarioGoesOn()
    ensures Verdict(ScenarioBoard(2), Black) == Ongoing
  {
    ScenarioBlackMoves();
    ScenarioCounts();
  }

  /** After the second jump both sides have a piece. */
  lemma ScenarioCounts()
    ensures Count(ScenarioBoard(2), Red) >= 1 && Count(ScenarioBoard(2), Black) >= 1
  {
    CountPositive(ScenarioBoard(2), Red, 2, 5);
    CountPositive(ScenarioBoard(2), Black, 0, 1);
  }

  /** After the second jump the black man on (0,1) can step to (1,0). */
  lemma ScenarioBlackMoves()
    ensures |AIMoves(Black, ScenarioBoard(2))| > 0
  {
    var b := ScenarioBoard(2);
    MovesForPieceIff(b, 0, 1);
    assert IsStep(b, 0, 1, Step(1, 0));
    assert Movable(b, Black, 0, 1);
    HasMovesIffAIMoves(b, Black);
  }

  /**
   * The selection the remote handler as written leaves behind after the peer's multi-jump.
   * Red man on (6,1), black men on (5,2), (3,4) and (0,1), Red (the peer) to move; the peer's
   * man jumps (6,1)-(4,3)-(2,5). Black is then to move and the game goes on, but the
   * selection still names the emptied square (4,3) and offers the jump to (2,5), so a click
   * on (2,5) hands makeMove an empty origin while the red man stands on the target.
   */
  method StaleSelectionAfterRemoteJump() returns (s: Session)
    ensures s.turn == Black && !s.gameOver && s.multiJump == None
    ensures s.selected == Some(Sq(4, 3)) && s.board[4][3] == Vacant && s.board[2][5] == Occupied(Red, false)
    ensures Jump(2, 5, 3, 4) in s.validMoves
    ensures FindTarget(s.validMoves, 2, 5).Some? && !Applicable(s.board, 4, 3, FindTarget(s.validMoves, 2, 5).value)
    ensures !s.SelectionConsistent()
  {
    s := new Session.Init();
    s.board := ScenarioBoard(0);
    RemoteFirstJump(s);
    RemoteSecondJump(s);
  }

  /** The peer's first jump, (6,1)-(4,3): the man is locked in and selected with its jump to (2,5) offered. */
  method RemoteFirstJump(s: Session)
    requires s.board == ScenarioBoard(0) && s.turn == Red && !s.gameOver
    modifies s
    ensures s.board == ScenarioBoard(1) && s.turn == Red && !s.gameOver
    ensures s.selected == Some(Sq(4, 3)) && s.multiJump == Some(Sq(4, 3)) && Jump(2, 5, 3, 4) in s.validMoves
  {
    ScenarioJumps();
    ScenarioContinues();
    var turnOver, outcome := s.ApplyDescriptorAsWritten(Descriptor(6, 1, Jump(4, 3, 5, 2)));
  }

  /** The peer's second jump, (4,3)-(2,5): the turn passes to Black and the selection stays on (4,3). */
  method RemoteSecondJump(s: Session)
    requires s.board == ScenarioBoard(1) && s.turn == Red && !s.gameOver
    requires s.selected == Some(Sq(4, 3)) && s.multiJump == Some(Sq(4, 3)) && Jump(2, 5, 3, 4) in s.validMoves
    modifies s
    ensures s.board == ScenarioBoard(2) && s.turn == Black && !s.gameOver && s.multiJump == None
    ensures s.selected == Some(Sq(4, 3)) && Jump(2, 5, 3, 4) in s.validMoves
  {
    ScenarioJumps();
    ScenarioEnds();
    ScenarioGoesOn();
    var turnOver, outcome := s.ApplyDescriptorAsWritten(Descriptor(4, 3, Jump(2, 5, 3, 4)));
  }
}
