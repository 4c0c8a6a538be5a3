/** The board the player engine reads and writes: an N x N grid of optional
    pieces, addressed by (row, column). */
module Boards {
  import opened Wrappers
  import opened Pieces

  datatype Pos = Pos(row: int, col: int)

  /** A square grid: every row is as long as there are rows. */
  type Grid = g: seq<seq<Option<Piece>>> | forall r :: 0 <= r < |g| ==> |g[r]| == |g|

  predicate Inside(g: Grid, p: Pos)
  {
    0 <= p.row < |g| && 0 <= p.col < |g|
  }

  function At(g: Grid, p: Pos): (x: Option<Piece>)
    requires Inside(g, p)
  {
    g[p.row][p.col]
  }

  /** `board[p] = x` on a grid value: only square p changes. */
  function Place(g: Grid, p: Pos, x: Option<Piece>): (r: Grid)
    requires Inside(g, p)
    ensures |r| == |g| && At(r, p) == x
    ensures forall q :: Inside(g, q) && q != p ==> At(r, q) == At(g, q)
  {
    g[p.row := g[p.row][p.col := x]]
  }

  /** `piece.move`, reduced to relocation: the destination receives the
      source's contents, then the source is emptied. */
  function Relocate(g: Grid, src: Pos, dst: Pos): (r: Grid)
    requires Inside(g, src) && Inside(g, dst)
    ensures |r| == |g| && At(r, src) == None
    ensures src != dst ==> At(r, dst) == At(g, src)
    ensures forall q :: Inside(g, q) && q != src && q != dst ==> At(r, q) == At(g, q)
  {
    Place(Place(g, dst, At(g, src)), src, None)
  }

  /** The movement geometry of the piece classes (`possibleMoves`), given
      the variant, the board and the square: it is not modelled and enters
      every operation as a parameter. Its only known property is that its
      squares are on the board. */
  type Geometry = geom: (Kind, Grid, Pos) -> set<Pos>
    | forall k, g, p, q :: q in geom(k, g, p) ==> Inside(g, q)
    witness (k: Kind, g: Grid, p: Pos) => {}

  /** Row-major order, the order of the engine's board scans. */
  predicate Before(a: Pos, b: Pos)
  {
    a.row < b.row || (a.row == b.row && a.col < b.col)
  }

  /** A board object; the engine writes into it in place and simulates
      moves on fresh copies (`deepcopy`), which are `new Board(g)`. */
  class Board {
    var grid: Grid

    constructor (g: Grid)
      ensures grid == g
    {
      grid := g;
    }

    /** `board[p] = x`. */
    method Set(p: Pos, x: Option<Piece>)
      requires Inside(grid, p)
      modifies this
      ensures grid == Place(old(grid), p, x)
    {
      grid := Place(grid, p, x);
    }

    /** `piece.move(src, dst, board, ...)`, as relocation. */
    method MovePiece(src: Pos, dst: Pos)
      requires Inside(grid, src) && Inside(grid, dst)
      modifies this
      ensures grid == Relocate(old(grid), src, dst)
    {
      grid := Relocate(grid, src, dst);
    }
  }
}
