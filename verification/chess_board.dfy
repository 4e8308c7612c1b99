/**
 * The chess board of js/chess.js: an 8x8 grid of optional pieces, row 0 at Black's side.
 * A piece is a colour ('w'/'b') and a kind ('P','N','B','R','Q','K').
 */
module ChessBoard {

  datatype Color = White | Black
  datatype Kind = Pawn | Knight | Bishop | Rook | Queen | King
  datatype Cell = Empty | Has(color: Color, kind: Kind)

  /** A square on the board. */
  datatype Sq = Sq(r: int, c: int)

  function Enemy(c: Color): Color { if c == White then Black else White }

  predicate InBounds(r: int, c: int) { 0 <= r < 8 && 0 <= c < 8 }

  predicate IsGrid(g: seq<seq<Cell>>)
  {
    |g| == 8 && forall r :: 0 <= r < 8 ==> |g[r]| == 8
  }

  function EmptyGrid(): seq<seq<Cell>> { seq(8, _ => seq(8, _ => Empty)) }

  type Board = g: seq<seq<Cell>> | IsGrid(g) witness EmptyGrid()

  /** `brd[r][c] = x`: the board with one square replaced. */
  function Put(b: Board, r: int, c: int, x: Cell): (s: Board)
    requires InBounds(r, c)
    ensures forall i, j :: InBounds(i, j) ==> s[i][j] == (if i == r && j == c then x else b[i][j])
  {
    b[r := b[r][c := x]]
  }

  /** Two boards that agree on every square are the same board. */
  lemma BoardExt(a: Board, b: Board)
    requires forall i, j :: InBounds(i, j) ==> a[i][j] == b[i][j]
    ensures a == b
  {
    forall i | 0 <= i < 8
      ensures a[i] == b[i]
    {
      assert forall j :: 0 <= j < 8 ==> a[i][j] == b[i][j];
    }
  }

  /** INITIAL_BOARD: Black's back rank on row 0, White's on row 7, pawns on rows 1 and 6. */
  function BackRank(color: Color): seq<Cell>
  {
    [Has(color, Rook), Has(color, Knight), Has(color, Bishop), Has(color, Queen),
     Has(color, King), Has(color, Bishop), Has(color, Knight), Has(color, Rook)]
  }

  function InitialBoard(): (b: Board)
    ensures forall c :: 0 <= c < 8 ==> b[1][c] == Has(Black, Pawn) && b[6][c] == Has(White, Pawn)
    ensures forall r, c :: 2 <= r < 6 && 0 <= c < 8 ==> b[r][c] == Empty
    ensures && b[7][0] == Has(White, Rook) && b[7][1] == Has(White, Knight) && b[7][2] == Has(White, Bishop)
            && b[7][3] == Has(White, Queen) && b[7][4] == Has(White, King)
            && b[7][5] == Has(White, Bishop) && b[7][6] == Has(White, Knight) && b[7][7] == Has(White, Rook)
    ensures forall c :: 0 <= c < 8 ==> b[0][c] == Has(Black, b[7][c].kind)
  {
    var empty := seq(8, _ => Empty);
    [BackRank(Black), seq(8, _ => Has(Black, Pawn)), empty, empty,
     empty, empty, seq(8, _ => Has(White, Pawn)), BackRank(White)]
  }
}
