/** The board state model of the checkers engine: cell codes, the 8x8 grid,
    the move record and the application of one move to a grid (`make_turn`). */
module Board {

  /** Cell codes. A king is its man's code plus 2, so a cell's parity
      (`code % 2`) tells its colour: odd is white, even and non-zero is black. */
  const Empty: int := 0
  const WhiteMan: int := 1
  const BlackMan: int := 2
  const WhiteKing: int := 3
  const BlackKing: int := 4

  /** A board: eight rows of eight cell codes, indexed [row][column]. */
  type Grid = seq<seq<int>>

  predicate OnBoard(i: int, j: int) {
    0 <= i < 8 && 0 <= j < 8
  }

  predicate ValidBoard(b: Grid) {
    && |b| == 8
    && (forall i :: 0 <= i < 8 ==> |b[i]| == 8)
    && (forall i, j :: 0 <= i < 8 && 0 <= j < 8 ==> 0 <= b[i][j] <= 4)
  }

  /** The colour flag as the integer the source compares parities with
      (false is white, true is black). */
  function Bit(color: bool): int {
    if color then 1 else 0
  }

  /** True when cell code `c` is a piece of side `color`
      (the test `mtx[i][j] && mtx[i][j] % 2 != color`). */
  predicate Owns(color: bool, c: int) {
    c != 0 && c % 2 != Bit(color)
  }

  /** A move from (x,y) to (x2,y2); (xb,yb) is the captured piece, or xb == -1
      for a simple move. */
  datatype Move = Move(x: int, y: int, x2: int, y2: int, xb: int, yb: int)
  {
    predicate IsCapture() { xb != -1 }
  }

  /** The placeholder the search stores before it knows a best move. */
  const Sentinel: Move := Move(-1, -1, -1, -1, -1, -1)

  function SimpleMove(x: int, y: int, x2: int, y2: int): Move {
    Move(x, y, x2, y2, -1, -1)
  }

  /** Every cell the move touches lies on the board. */
  predicate Fits(m: Move) {
    OnBoard(m.x, m.y) && OnBoard(m.x2, m.y2) && (m.xb != -1 ==> OnBoard(m.xb, m.yb))
  }

  /** The grid with cell (i,j) replaced by v. */
  function Set(b: Grid, i: int, j: int, v: int): (r: Grid)
    requires ValidBoard(b) && OnBoard(i, j) && 0 <= v <= 4
    ensures ValidBoard(r)
    ensures r[i][j] == v
    ensures forall p, q :: OnBoard(p, q) && (p != i || q != j) ==> r[p][q] == b[p][q]
  {
    b[i := b[i][j := v]]
  }

  /** The code a piece has once it stands on row `row`: a white man on row 0
      and a black man on row 7 become kings. */
  function Promoted(p: int, row: int): (r: int)
    ensures r % 2 == p % 2
    ensures 0 <= p <= 4 ==> 0 <= r <= 4
    ensures p != WhiteMan && p != BlackMan ==> r == p
  {
    if (p == WhiteMan && row == 0) || (p == BlackMan && row == 7) then p + 2 else p
  }

  /** The code that travels with a move: the origin's code, read after the
      captured cell has been cleared. */
  function Mover(b: Grid, m: Move): int
    requires ValidBoard(b) && Fits(m)
  {
    if m.IsCapture() && m.xb == m.x && m.yb == m.y then Empty else b[m.x][m.y]
  }

  /** make_turn: clear the captured cell, promote the moving piece if it
      reaches its last row, put it on the destination and clear the origin. */
  function MakeTurn(b: Grid, m: Move): (r: Grid)
    requires ValidBoard(b) && Fits(m)
    ensures ValidBoard(r)
    ensures r[m.x][m.y] == Empty
    ensures (m.x2 != m.x || m.y2 != m.y) ==> r[m.x2][m.y2] == Promoted(Mover(b, m), m.x2)
    ensures forall i, j :: OnBoard(i, j) && (i != m.x || j != m.y) && (i != m.x2 || j != m.y2) ==>
              r[i][j] == (if m.IsCapture() && i == m.xb && j == m.yb then Empty else b[i][j])
  {
    var cleared := if m.IsCapture() then Set(b, m.xb, m.yb, Empty) else b;
    var piece := Promoted(cleared[m.x][m.y], m.x2);
    Set(Set(cleared, m.x2, m.y2, piece), m.x, m.y, Empty)
  }

  /** Promotion is atomic: a man that lands on its last row is a king on the
      result board, and a piece that lands anywhere else keeps its code. */
  lemma PromotionOnLanding(b: Grid, m: Move)
    requires ValidBoard(b) && Fits(m)
    requires m.x2 != m.x || m.y2 != m.y
    requires !m.IsCapture() || m.xb != m.x || m.yb != m.y
    ensures b[m.x][m.y] == WhiteMan ==> MakeTurn(b, m)[m.x2][m.y2] == (if m.x2 == 0 then WhiteKing else WhiteMan)
    ensures b[m.x][m.y] == BlackMan ==> MakeTurn(b, m)[m.x2][m.y2] == (if m.x2 == 7 then BlackKing else BlackMan)
    ensures b[m.x][m.y] == WhiteKing || b[m.x][m.y] == BlackKing ==> MakeTurn(b, m)[m.x2][m.y2] == b[m.x][m.y]
  {
  }

  // ---- piece count (the measure that makes capture chains finite) ----

  function RowPieces(row: seq<int>, n: nat): nat
    requires n <= |row|
  {
    if n == 0 then 0 else RowPieces(row, n - 1) + (if row[n - 1] != 0 then 1 else 0)
  }

  function GridPieces(b: Grid, n: nat): nat
    requires n <= |b| && forall i :: 0 <= i < |b| ==> |b[i]| == 8
  {
    if n == 0 then 0 else GridPieces(b, n - 1) + RowPieces(b[n - 1], 8)
  }

  /** The number of occupied cells of a board. */
  function Pieces(b: Grid): nat
    requires ValidBoard(b)
  {
    GridPieces(b, 8)
  }

  lemma {:induction false} RowPiecesUpdate(row: seq<int>, j: int, v: int, n: nat)
    requires 0 <= j < |row| && n <= |row|
    ensures RowPieces(row[j := v], n) ==
            RowPieces(row, n) + (if j < n then (if v != 0 then 1 else 0) - (if row[j] != 0 then 1 else 0) else 0)
  {
    if n > 0 {
      RowPiecesUpdate(row, j, v, n - 1);
    }
  }

  lemma {:induction false} GridPiecesUpdate(b: Grid, i: int, j: int, v: int, n: nat)
    requires ValidBoard(b) && OnBoard(i, j) && 0 <= v <= 4 && n <= 8
    ensures GridPieces(Set(b, i, j, v), n) ==
            GridPieces(b, n) + (if i < n then (if v != 0 then 1 else 0) - (if b[i][j] != 0 then 1 else 0) else 0)
  {
    if n > 0 {
      GridPiecesUpdate(b, i, j, v, n - 1);
      var r := Set(b, i, j, v);
      if n - 1 == i {
        RowPiecesUpdate(b[i], j, v, 8);
      } else {
        assert r[n - 1] == b[n - 1];
      }
    }
  }

  /** Writing v at (i,j) changes the piece count by the change in occupancy of that one cell. */
  lemma PiecesAfterSet(b: Grid, i: int, j: int, v: int)
    requires ValidBoard(b) && OnBoard(i, j) && 0 <= v <= 4
    ensures Pieces(Set(b, i, j, v)) == Pieces(b) + (if v != 0 then 1 else 0) - (if b[i][j] != 0 then 1 else 0)
  {
    GridPiecesUpdate(b, i, j, v, 8);
  }

  /** The rule-conforming capture: three distinct cells on the board, a piece
      at the origin and at the captured cell, and an empty destination. */
  predicate CaptureShape(b: Grid, m: Move)
    requires ValidBoard(b)
  {
    && Fits(m) && m.IsCapture()
    && (m.x, m.y) != (m.x2, m.y2) && (m.xb, m.yb) != (m.x, m.y) && (m.xb, m.yb) != (m.x2, m.y2)
    && b[m.x][m.y] != Empty && b[m.xb][m.yb] != Empty && b[m.x2][m.y2] == Empty
  }

  /** A capture removes exactly one piece, and the moved piece (of the
      mover's colour) stands on the destination. */
  lemma CaptureEffects(b: Grid, m: Move)
    requires ValidBoard(b) && CaptureShape(b, m)
    ensures Pieces(MakeTurn(b, m)) == Pieces(b) - 1
    ensures MakeTurn(b, m)[m.x2][m.y2] != Empty
    ensures MakeTurn(b, m)[m.x2][m.y2] % 2 == b[m.x][m.y] % 2
  {
    var c := Set(b, m.xb, m.yb, Empty);
    PiecesAfterSet(b, m.xb, m.yb, Empty);
    var p := Promoted(c[m.x][m.y], m.x2);
    var d := Set(c, m.x2, m.y2, p);
    PiecesAfterSet(c, m.x2, m.y2, p);
    PiecesAfterSet(d, m.x, m.y, Empty);
  }

  /** A simple move onto an empty cell keeps the number of pieces. */
  lemma SimpleMoveEffects(b: Grid, m: Move)
    requires ValidBoard(b) && Fits(m) && !m.IsCapture()
    requires (m.x, m.y) != (m.x2, m.y2) && b[m.x][m.y] != Empty && b[m.x2][m.y2] == Empty
    ensures Pieces(MakeTurn(b, m)) == Pieces(b)
    ensures MakeTurn(b, m)[m.x2][m.y2] != Empty
  {
    var p := Promoted(b[m.x][m.y], m.x2);
    var d := Set(b, m.x2, m.y2, p);
    PiecesAfterSet(b, m.x2, m.y2, p);
    PiecesAfterSet(d, m.x, m.y, Empty);
  }
}
