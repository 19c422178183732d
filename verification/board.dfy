/** The 3x3 board: creation, occupying a cell, the win check and restart (src/board.rs). */
module Boards {
  import opened Wrappers
  import opened Cells

  /** A blank cell, used only as the witness that nine-cell sequences exist. */
  const Blank: Cell := Cell(Coordinates(0, 0), None, "")

  /** The board always holds exactly nine cells. */
  type NineCells = s: seq<Cell> | |s| == 9
    witness [Blank, Blank, Blank, Blank, Blank, Blank, Blank, Blank, Blank]

  /** `Board`: the nine cells in row-major order. */
  datatype Board = Board(cells: NineCells)

  /** Every cell sits at the position its coordinates name. */
  predicate WellFormed(b: Board)
  {
    forall i :: 0 <= i < 9 ==> b.cells[i].coordinates == CoordinatesAt(i)
  }

  /** No cell of the board is occupied. */
  predicate AllEmpty(b: Board)
  {
    forall i :: 0 <= i < 9 ==> IsEmpty(b.cells[i])
  }

  /** The number of occupied cells among the first `n` of `cells`. */
  function OccupiedPrefix(cells: seq<Cell>, n: nat): (k: nat)
    requires n <= |cells|
    ensures k <= n
  {
    if n == 0 then 0
    else OccupiedPrefix(cells, n - 1) + (if cells[n - 1].player.Some? then 1 else 0)
  }

  /** The number of occupied cells of the board. */
  function OccupiedCount(b: Board): nat
  {
    OccupiedPrefix(b.cells, 9)
  }

  /** A prefix with no occupied cell counts zero. */
  lemma {:induction false} OccupiedPrefixEmpty(cells: seq<Cell>, n: nat)
    requires n <= |cells|
    requires forall i :: 0 <= i < n ==> cells[i].player.None?
    ensures OccupiedPrefix(cells, n) == 0
  {
    if n > 0 {
      OccupiedPrefixEmpty(cells, n - 1);
    }
  }

  /** Occupying one empty cell raises the count of every prefix that contains it by one. */
  lemma {:induction false} OccupiedPrefixStep(cells: seq<Cell>, i: nat, c: Cell, n: nat)
    requires i < |cells| && n <= |cells| && cells[i].player.None? && c.player.Some?
    ensures OccupiedPrefix(cells[i := c], n) == OccupiedPrefix(cells, n) + (if i < n then 1 else 0)
  {
    if n > 0 {
      OccupiedPrefixStep(cells, i, c, n - 1);
    }
  }

  /** Occupying one empty cell raises the board's count by exactly one. */
  lemma OccupiedCountStep(b: Board, i: nat, c: Cell)
    requires i < 9 && b.cells[i].player.None? && c.player.Some?
    ensures OccupiedCount(Board(b.cells[i := c])) == OccupiedCount(b) + 1
  {
    OccupiedPrefixStep(b.cells, i, c, 9);
  }

  /** A board with every cell empty counts no occupied cell. */
  lemma AllEmptyUnoccupied(b: Board)
    requires AllEmpty(b)
    ensures OccupiedCount(b) == 0
  {
    assert forall i :: 0 <= i < 9 ==> b.cells[i].player.None? by {
      forall i | 0 <= i < 9 ensures b.cells[i].player.None? {
        assert IsEmpty(b.cells[i]);
      }
    }
    OccupiedPrefixEmpty(b.cells, 9);
  }

  /** `Board::new`: nine empty cells, cell `i` at row `i / 3`, column `i % 3`. */
  function NewBoard(): (b: Board)
    ensures WellFormed(b) && AllEmpty(b)
  {
    Board(seq(9, i requires 0 <= i < 9 => NewCell(CoordinatesAt(i))))
  }

  /**
   * `Board::occupy_cell`: when the addressed cell is free, mark it with the
   * player and sign and report true; otherwise report false and change nothing.
   * The source indexes the cell vector with `coordinates.index()`, so the
   * position must lie on the board.
   */
  function OccupyCellAt(b: Board, player: Addr, c: Coordinates, sign: string): (r: (Board, bool))
    requires Index(c) < 9
    ensures r.1 <==> b.cells[Index(c)].player.None?
    ensures r.1 ==> r.0.cells[Index(c)] == Cell(b.cells[Index(c)].coordinates, Some(player), sign)
    ensures r.1 ==> forall j :: 0 <= j < 9 && j != Index(c) ==> r.0.cells[j] == b.cells[j]
    ensures !r.1 ==> r.0 == b
  {
    var i := Index(c);
    if b.cells[i].player == None then
      (Board(b.cells[i := OccupyCell(b.cells[i], player, sign)]), true)
    else
      (b, false)
  }

  /**
   * The line-partner table of `check_for_win`: for each position, the pairs of
   * other positions that complete a row, column or diagonal through it.
   */
  const WinLines: seq<seq<(nat, nat)>> := [
    [(1, 2), (4, 8), (3, 6)],
    [(0, 2), (4, 7)],
    [(0, 1), (4, 6), (5, 8)],
    [(4, 5), (0, 6)],
    [(3, 5), (0, 8), (2, 6), (1, 7)],
    [(3, 4), (2, 8)],
    [(7, 8), (2, 4), (0, 3)],
    [(6, 8), (1, 4)],
    [(6, 7), (0, 4), (2, 5)]
  ]

  /** Row and column of position `i`. */
  function Row(i: nat): nat { i / 3 }
  function Col(i: nat): nat { i % 3 }

  /**
   * Geometric reference: `a`, `b`, `c` are three distinct squares lying on one
   * row, one column, the main diagonal or the anti-diagonal of the grid.
   */
  predicate IsLine(a: nat, b: nat, c: nat)
  {
    && a < 9 && b < 9 && c < 9
    && a != b && b != c && a != c
    && (|| (Row(a) == Row(b) && Row(b) == Row(c))
        || (Col(a) == Col(b) && Col(b) == Col(c))
        || (Row(a) == Col(a) && Row(b) == Col(b) && Row(c) == Col(c))
        || (Row(a) + Col(a) == 2 && Row(b) + Col(b) == 2 && Row(c) + Col(c) == 2))
  }

  /** The table lists `{q, r}` (in either order) as line partners of `p`. */
  predicate Listed(p: nat, q: nat, r: nat)
    requires p < 9
  {
    (q, r) in WinLines[p] || (r, q) in WinLines[p]
  }

  /** Every position takes part in two to four lines. */
  lemma WinLinesShape()
    ensures |WinLines| == 9
    ensures forall p :: 0 <= p < 9 ==> 2 <= |WinLines[p]| <= 4
    ensures forall p, k :: 0 <= p < 9 && 0 <= k < |WinLines[p]| ==> WinLines[p][k].0 < 9 && WinLines[p][k].1 < 9
  {
  }

  /**
   * The table is exact: it lists `{q, r}` for `p` precisely when `p`, `q`, `r`
   * form a row, column or diagonal of the grid.
   */
  lemma WinLinesExact(p: nat, q: nat, r: nat)
    requires p < 9
    ensures Listed(p, q, r) <==> IsLine(p, q, r)
  {
    if q < 9 {
      if p == 0 { } else if p == 1 { } else if p == 2 { }
      else if p == 3 { } else if p == 4 { } else if p == 5 { }
      else if p == 6 { } else if p == 7 { } else { }
    }

  }

  /** All three squares `p`, `q`, `r` of a line are held by the same occupant of `p` (possibly none). */
  predicate SameOccupant(b: Board, p: nat, q: nat, r: nat)
    requires p < 9 && q < 9 && r < 9
  {
    b.cells[q].player == b.cells[p].player && b.cells[r].player == b.cells[p].player
  }

  /**
   * The loop of `check_for_win` over the partner pairs of one position: true as
   * soon as both partners of some pair hold `player`.
   */
  function ScanLines(cells: NineCells, player: Option<Addr>, lines: seq<(nat, nat)>): (found: bool)
    requires forall k :: 0 <= k < |lines| ==> lines[k].0 < 9 && lines[k].1 < 9
    ensures found <==> (exists k :: 0 <= k < |lines| &&
                          cells[lines[k].0].player == player && cells[lines[k].1].player == player)
  {
    if |lines| == 0 then false
    else if player == cells[lines[0].0].player && player == cells[lines[0].1].player then true
    else
      assert forall k :: 1 <= k < |lines| ==> lines[1..][k - 1] == lines[k];
      ScanLines(cells, player, lines[1..])
  }

  /**
   * `Board::check_for_win`: looks only at the lines through the last move `c`,
   * and is true exactly when some row, column or diagonal through `c` has all
   * three cells held by the occupant of `c`. The comparison is on the optional
   * player, as written, so an empty `c` on an empty line also reports true; the
   * contract only ever calls it on the cell just occupied.
   */
  function CheckForWin(b: Board, c: Coordinates): (won: bool)
    requires Index(c) < 9
    ensures won <==> exists q: nat, r: nat :: IsLine(Index(c), q, r) && SameOccupant(b, Index(c), q, r)
  {
    var p := Index(c);
    WinLinesShape();
    var found := ScanLines(b.cells, b.cells[p].player, WinLines[p]);
    assert found ==> exists q: nat, r: nat :: IsLine(p, q, r) && SameOccupant(b, p, q, r) by {
      if found {
        var k :| 0 <= k < |WinLines[p]| &&
          b.cells[WinLines[p][k].0].player == b.cells[p].player && b.cells[WinLines[p][k].1].player == b.cells[p].player;
        var (q, r) := WinLines[p][k];
        assert Listed(p, q, r);
        WinLinesExact(p, q, r);
        assert IsLine(p, q, r) && SameOccupant(b, p, q, r);
      }
    }
    assert (exists q: nat, r: nat :: IsLine(p, q, r) && SameOccupant(b, p, q, r)) ==> found by {
      if exists q: nat, r: nat :: IsLine(p, q, r) && SameOccupant(b, p, q, r) {
        var q: nat, r: nat :| IsLine(p, q, r) && SameOccupant(b, p, q, r);
        WinLinesExact(p, q, r);
        assert (q, r) in WinLines[p] || (r, q) in WinLines[p];
      }
    }
    found
  }

  /** Player `who` holds all three squares of the line `a`, `b`, `c`. */
  predicate HoldsLine(bd: Board, who: Addr, a: nat, b: nat, c: nat)
  {
    IsLine(a, b, c) && bd.cells[a].player == Some(who) && bd.cells[b].player == Some(who) && bd.cells[c].player == Some(who)
  }

  /** Some player holds a complete row, column or diagonal anywhere on the board. */
  ghost predicate HasWinner(bd: Board)
  {
    exists a: nat, b: nat, c: nat, who: Addr :: HoldsLine(bd, who, a, b, c)
  }

  /**
   * On an occupied cell the win check is the rule of the game: true exactly when
   * the occupant holds some complete line through that cell.
   */
  lemma CheckForWinOccupied(b: Board, c: Coordinates, who: Addr)
    requires Index(c) < 9 && b.cells[Index(c)].player == Some(who)
    ensures CheckForWin(b, c) <==> exists q: nat, r: nat :: HoldsLine(b, who, Index(c), q, r)
  {
    var p := Index(c);
    if CheckForWin(b, c) {
      var q: nat, r: nat :| IsLine(p, q, r) && SameOccupant(b, p, q, r);
      assert HoldsLine(b, who, p, q, r);
    }
  }

  /**
   * The restart the source evidently means: every cell cleared in place, the
   * coordinates kept.
   */
  function RestartBoard(b: Board): (r: Board)
    ensures AllEmpty(r)
    ensures forall i :: 0 <= i < 9 ==> r.cells[i].coordinates == b.cells[i].coordinates
  {
    Board(seq(9, i requires 0 <= i < 9 => RestartCell(b.cells[i])))
  }

  /** Restarting a well-formed board gives a fresh board. */
  lemma RestartBoardIsNew(b: Board)
    requires WellFormed(b)
    ensures RestartBoard(b) == NewBoard()
  {
    assert RestartBoard(b).cells == NewBoard().cells;
  }

  /** Restarting is idempotent. */
  lemma RestartBoardIdempotent(b: Board)
    ensures RestartBoard(RestartBoard(b)) == RestartBoard(b)
  {
    assert RestartBoard(RestartBoard(b)).cells == RestartBoard(b).cells;
  }

  /**
   * `restart_board` as written: it starts from an empty vector and assigns
   * `cells[index]` for each index of the old board. Assigning past the end of a
   * vector panics, so the result is `None` when that happens.
   */
  function RestartCellsAsWritten(prior: seq<Cell>, acc: seq<Cell>, index: nat): (r: Option<seq<Cell>>)
    requires index <= |prior|
    ensures r.None? <==> index < |prior| && |acc| < |prior|
    ensures r.Some? ==> |r.value| == |acc|
    decreases |prior| - index
  {
    if index == |prior| then Some(acc)
    else if index >= |acc| then None
    else RestartCellsAsWritten(prior, acc[index := RestartCell(prior[index])], index + 1)
  }

  /** As written, restarting any board panics: the vector never grows, so the first assignment is past its end. */
  lemma RestartBoardAsWrittenPanics(b: Board)
    ensures RestartCellsAsWritten(b.cells, [], 0) == None
  {
  }

  /**
   * A move at `i` that completes no line through `i` cannot create a winner
   * anywhere: every line away from `i` is as it was.
   */
  lemma NoWinnerAfterMove(b: Board, i: nat, who: Addr, after: Board)
    requires i < 9 && !HasWinner(b) && after.cells == b.cells[i := after.cells[i]]
    requires after.cells[i].player == Some(who)
    requires !exists q: nat, r: nat :: HoldsLine(after, who, i, q, r)
    ensures !HasWinner(after)
  {
    forall a: nat, x: nat, y: nat, w: Addr
      ensures !HoldsLine(after, w, a, x, y)
    {
      if a == i {
        assert HoldsLine(after, w, a, x, y) ==> HoldsLine(after, who, i, x, y);
      } else if x == i {
        assert HoldsLine(after, w, a, x, y) ==> HoldsLine(after, who, i, a, y);
      } else if y == i {
        assert HoldsLine(after, w, a, x, y) ==> HoldsLine(after, who, i, a, x);
      } else {
        assert HoldsLine(after, w, a, x, y) ==> HoldsLine(b, w, a, x, y);
      }
    }
  }
}
