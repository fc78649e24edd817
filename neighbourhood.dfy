/**
 * The contact window of a cell: its 3x3 neighbourhood clamped at the edges of an
 * n x n grid (no wrap-around), without the cell itself, in row-major order.
 */
module Neighbourhood {

  /** A grid position (line, column). */
  type Cell = (nat, nat)

  function Max(a: int, b: int): int { if a >= b then a else b }

  function Min(a: int, b: int): int { if a <= b then a else b }

  /** Two distinct cells that touch horizontally, vertically or diagonally. */
  predicate Adjacent(a: Cell, b: Cell)
  {
    a != b && -1 <= a.0 - b.0 <= 1 && -1 <= a.1 - b.1 <= 1
  }

  /** The cells (i, j0), ..., (i, j1 - 1) in order, leaving `centre` out. */
  function RowCells(i: nat, j0: nat, j1: nat, centre: Cell): seq<Cell>
    decreases j1
  {
    if j1 <= j0 then []
    else RowCells(i, j0, j1 - 1, centre) + (if (i, j1 - 1) == centre then [] else [(i, j1 - 1)])
  }

  /** The rows i0, ..., i1 - 1 of the window of columns j0, ..., j1 - 1, leaving `centre` out. */
  function WindowCells(i0: nat, i1: nat, j0: nat, j1: nat, centre: Cell): seq<Cell>
    decreases i1
  {
    if i1 <= i0 then []
    else WindowCells(i0, i1 - 1, j0, j1, centre) + RowCells(i1 - 1, j0, j1, centre)
  }

  /** First line of the window around `line` (`max(0, line - 1)`). */
  function FirstIndex(line: nat): nat { Max(0, line - 1) }

  /** One past the last line of the window, clamped at `n` (`min(line + 2, n)`). */
  function EndIndex(line: nat, n: nat): nat { Min(line + 2, n) }

  /** The neighbours that a sick individual at (line, column) is in contact with, in visiting order. */
  function Neighbours(n: nat, line: nat, column: nat): seq<Cell>
  {
    WindowCells(FirstIndex(line), EndIndex(line, n), FirstIndex(column), EndIndex(column, n), (line, column))
  }

  lemma {:induction false} RowCellsExact(i: nat, j0: nat, j1: nat, centre: Cell, c: Cell)
    ensures c in RowCells(i, j0, j1, centre) <==> c.0 == i && j0 <= c.1 < j1 && c != centre
    decreases j1
  {
    if j1 > j0 {
      RowCellsExact(i, j0, j1 - 1, centre, c);
    }
  }

  lemma {:induction false} WindowCellsExact(i0: nat, i1: nat, j0: nat, j1: nat, centre: Cell, c: Cell)
    ensures c in WindowCells(i0, i1, j0, j1, centre) <==> i0 <= c.0 < i1 && j0 <= c.1 < j1 && c != centre
    decreases i1
  {
    if i1 > i0 {
      WindowCellsExact(i0, i1 - 1, j0, j1, centre, c);
      RowCellsExact(i1 - 1, j0, j1, centre, c);
    }
  }

  /**
   * The sweep visits exactly the in-bounds cells adjacent to (line, column):
   * every visited index is inside the grid and the centre itself is skipped.
   */
  lemma NeighboursExact(n: nat, line: nat, column: nat, c: Cell)
    requires line < n && column < n
    ensures c in Neighbours(n, line, column) <==> c.0 < n && c.1 < n && Adjacent(c, (line, column))
  {
    WindowCellsExact(FirstIndex(line), EndIndex(line, n), FirstIndex(column), EndIndex(column, n), (line, column), c);
  }

  /** Being a neighbour is symmetric. */
  lemma NeighbourSymmetric(n: nat, a: Cell, b: Cell)
    requires a.0 < n && a.1 < n && b.0 < n && b.1 < n
    ensures a in Neighbours(n, b.0, b.1) <==> b in Neighbours(n, a.0, a.1)
  {
    NeighboursExact(n, b.0, b.1, a);
    NeighboursExact(n, a.0, a.1, b);
  }

  lemma {:induction false} RowCellsLength(i: nat, j0: nat, j1: nat, centre: Cell)
    requires j0 <= j1
    ensures |RowCells(i, j0, j1, centre)| ==
              (j1 - j0) - (if centre.0 == i && j0 <= centre.1 < j1 then 1 else 0)
    decreases j1
  {
    if j1 > j0 {
      RowCellsLength(i, j0, j1 - 1, centre);
    }
  }

  lemma {:induction false} WindowCellsLength(i0: nat, i1: nat, j0: nat, j1: nat, centre: Cell)
    requires i0 <= i1 && j0 <= j1
    ensures |WindowCells(i0, i1, j0, j1, centre)| ==
              (i1 - i0) * (j1 - j0) - (if i0 <= centre.0 < i1 && j0 <= centre.1 < j1 then 1 else 0)
    decreases i1
  {
    if i1 > i0 {
      WindowCellsLength(i0, i1 - 1, j0, j1, centre);
      RowCellsLength(i1 - 1, j0, j1, centre);
      assert (i1 - i0) * (j1 - j0) == (i1 - 1 - i0) * (j1 - j0) + (j1 - j0);
    }
  }

  /** The number of contacts of (line, column) is the clamped window's area minus the centre. */
  lemma NeighbourCount(n: nat, line: nat, column: nat)
    requires line < n && column < n
    ensures |Neighbours(n, line, column)| ==
              (EndIndex(line, n) - FirstIndex(line)) * (EndIndex(column, n) - FirstIndex(column)) - 1
  {
    WindowCellsLength(FirstIndex(line), EndIndex(line, n), FirstIndex(column), EndIndex(column, n), (line, column));
  }

  /** A corner cell of a grid of side at least 2 has exactly 3 neighbours. */
  lemma CornerHasThreeNeighbours(n: nat)
    requires n >= 2
    ensures |Neighbours(n, 0, 0)| == 3
    ensures |Neighbours(n, n - 1, n - 1)| == 3
  {
    NeighbourCount(n, 0, 0);
    assert FirstIndex(0) == 0 && EndIndex(0, n) == 2;
    NeighbourCount(n, n - 1, n - 1);
    assert FirstIndex(n - 1) == n - 2 && EndIndex(n - 1, n) == n;
  }

  /** A cell away from every edge has exactly 8 neighbours. */
  lemma InteriorHasEightNeighbours(n: nat, line: nat, column: nat)
    requires 1 <= line < n - 1 && 1 <= column < n - 1
    ensures |Neighbours(n, line, column)| == 8
  {
    NeighbourCount(n, line, column);
    assert EndIndex(line, n) - FirstIndex(line) == 3;
    assert EndIndex(column, n) - FirstIndex(column) == 3;
  }

  /** On a 1 x 1 grid the only individual has no one to meet. */
  lemma SingleCellHasNoNeighbours()
    ensures Neighbours(1, 0, 0) == []
  {
    NeighbourCount(1, 0, 0);
  }
}
