/** Grid coordinates and board cells (src/cell.rs). */
module Cells {
  import opened Wrappers

  /** Rust's `u8`. */
  newtype u8 = x: int | 0 <= x < 256

  /** An account address; the host's `Addr` is an opaque string. */
  type Addr = string

  /** `Coordinates::new(x, y)` is this constructor: it stores exactly `x` and `y`. */
  datatype Coordinates = Coordinates(x: u8, y: u8)

  /** Coordinates that name one of the nine squares of the 3x3 grid. */
  predicate InRange(c: Coordinates)
  {
    c.x < 3 && c.y < 3
  }

  /**
   * `Coordinates::index`: the row-major position `x*3 + y`. The source has no
   * bounds check, so this is defined for every pair; the properties below need
   * `InRange`.
   */
  function Index(c: Coordinates): (i: nat)
    ensures InRange(c) ==> i < 9 && i / 3 == c.x as int && i % 3 == c.y as int
  {
    c.x as nat * 3 + c.y as nat
  }

  /** The coordinates of row-major position `i`: row `i / 3`, column `i % 3`. */
  function CoordinatesAt(i: nat): (c: Coordinates)
    requires i < 9
    ensures InRange(c) && Index(c) == i
  {
    Coordinates((i / 3) as u8, (i % 3) as u8)
  }

  /** Distinct squares of the grid have distinct indices. */
  lemma IndexInjective(a: Coordinates, b: Coordinates)
    requires InRange(a) && InRange(b)
    ensures Index(a) == Index(b) <==> a == b
  {
  }

  /** Position and coordinates are inverse to each other on the grid. */
  lemma IndexRoundTrip(c: Coordinates)
    requires InRange(c)
    ensures CoordinatesAt(Index(c)) == c
  {
  }

  /**
   * Without a bounds check, an out-of-range pair can name a square of the grid:
   * `(0, 5)` addresses the same cell as `(1, 2)`.
   */
  lemma IndexAliases()
    ensures !InRange(Coordinates(0, 5)) && Index(Coordinates(0, 5)) == Index(Coordinates(1, 2))
  {
  }

  /** A square of the board: where it is, who occupies it, and that player's mark. */
  datatype Cell = Cell(coordinates: Coordinates, player: Option<Addr>, sign: string)

  /** An unoccupied cell carries no player and the empty sign. */
  predicate IsEmpty(cell: Cell)
  {
    cell.player == None && cell.sign == ""
  }

  /** `Cell::new`: an unoccupied cell at the given coordinates. */
  function NewCell(c: Coordinates): (cell: Cell)
    ensures IsEmpty(cell) && cell.coordinates == c
  {
    Cell(c, None, "")
  }

  /** `Cell::restart`: the same square, cleared. */
  function RestartCell(cell: Cell): (r: Cell)
    ensures IsEmpty(r) && r.coordinates == cell.coordinates
  {
    Cell(cell.coordinates, None, "")
  }

  /** Restarting a cell gives the fresh cell at its coordinates. */
  lemma RestartIsNew(cell: Cell)
    ensures RestartCell(cell) == NewCell(cell.coordinates)
  {
  }

  /** Restarting twice is restarting once. */
  lemma RestartIdempotent(cell: Cell)
    ensures RestartCell(RestartCell(cell)) == RestartCell(cell)
  {
  }

  /**
   * The effect of `Cell::occupy(player, sign)`, which the board calls; it is not
   * defined in the cell module, so this follows the assignments the board spells
   * out beside the call: record the player and the sign, keep the coordinates.
   */
  function OccupyCell(cell: Cell, player: Addr, sign: string): (r: Cell)
    ensures r.coordinates == cell.coordinates
    ensures r.player == Some(player) && r.sign == sign
  {
    Cell(cell.coordinates, Some(player), sign)
  }
}
