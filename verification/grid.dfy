/** The playing field: a fixed 10 by 10 grid of cells. */
module Grid {
  import opened Components

  const GridWidth: U16 := 10
  const GridHeight: U16 := 10

  /** The cell (x, y) lies in [0, GridWidth) x [0, GridHeight). */
  predicate InBounds(x: int, y: int) {
    0 <= x < GridWidth as int && 0 <= y < GridHeight as int
  }

  predicate InGrid(p: Position) {
    InBounds(p.x as int, p.y as int)
  }
}
