/**
 * The character grid: how many 10 x 20 pixel cells cover the canvas (`calculateGrid`) and where
 * `drawLetters` puts the letter at each index.
 */
module GlitchGrid {
  import opened JsMath

  const CharWidth := 10
  const CharHeight := 20

  datatype Grid = Grid(columns: int, rows: int)

  /** `calculateGrid`: the fewest whole cells that cover the width and the height. */
  function CalculateGrid(width: real, height: real): (g: Grid)
    ensures (g.columns * CharWidth) as real >= width > ((g.columns - 1) * CharWidth) as real
    ensures (g.rows * CharHeight) as real >= height > ((g.rows - 1) * CharHeight) as real
    ensures width >= 0.0 && height >= 0.0 ==> g.columns >= 0 && g.rows >= 0
    ensures width > 0.0 && height > 0.0 ==> g.columns >= 1 && g.rows >= 1
  {
    Grid(Ceil(width / CharWidth as real), Ceil(height / CharHeight as real))
  }

  /** The top-left corner `drawLetters` gives the letter at index `i`: column `i mod columns`, row `i div columns`. */
  function CellOf(i: nat, columns: int): (xy: (int, int))
    requires columns > 0
    ensures xy.0 % CharWidth == 0 && xy.1 % CharHeight == 0
    ensures 0 <= xy.0 < columns * CharWidth && xy.1 >= 0
  {
    ((i % columns) * CharWidth, (i / columns) * CharHeight)
  }

  /** The index a cell's letter has: row by row, left to right. */
  function IndexOf(column: nat, row: nat, columns: int): (i: nat)
    requires column < columns
    ensures i < (row + 1) * columns
  {
    row * columns + column
  }

  /** Division by `columns` recovers the row and the column of an index. */
  lemma {:induction false} DivModUnique(row: nat, column: nat, columns: int)
    requires 0 <= column < columns
    ensures (row * columns + column) / columns == row
    ensures (row * columns + column) % columns == column
  {
    if row > 0 {
      DivModUnique(row - 1, column, columns);
      var x := (row - 1) * columns + column;
      assert row * columns + column == x + columns;
      AddDivisor(x, columns);
    }
  }

  /** Adding the divisor adds one to the quotient and keeps the remainder. */
  lemma AddDivisor(x: int, c: int)
    requires c > 0
    ensures (x + c) / c == x / c + 1 && (x + c) % c == x % c
  {
    var q, m := x / c, x % c;
    var q2, m2 := (x + c) / c, (x + c) % c;
    assert (q2 - q - 1) * c == m - m2;
    SmallMultipleIsZero(q2 - q - 1, c);
  }

  lemma SmallMultipleIsZero(d: int, c: int)
    requires c > 0 && -c < d * c < c
    ensures d == 0
  {
  }

  /** Every cell of the grid is drawn at the index `IndexOf` gives, and that index is in range. */
  lemma CellsAreCovered(column: nat, row: nat, columns: int, rows: int)
    requires column < columns && row < rows
    ensures IndexOf(column, row, columns) < columns * rows
    ensures CellOf(IndexOf(column, row, columns), columns) == (column * CharWidth, row * CharHeight)
  {
    DivModUnique(row, column, columns);
    MulGrows(row + 1, rows, columns);
  }

  lemma {:induction false} MulGrows(a: nat, b: nat, c: nat)
    requires a <= b
    ensures a * c <= b * c
    decreases b - a
  {
    if a < b {
      MulGrows(a + 1, b, c);
      assert (a + 1) * c == a * c + c;
    }
  }

  /** Distinct indices are drawn in distinct cells, and each index below `columns * rows` inside the grid. */
  lemma CellsAreDistinct(i: nat, j: nat, columns: int, rows: int)
    requires columns > 0 && i < columns * rows && j < columns * rows
    ensures CellOf(i, columns).1 < rows * CharHeight
    ensures CellOf(i, columns) == CellOf(j, columns) ==> i == j
    ensures IndexOf(i % columns, i / columns, columns) == i
  {
    var qi, mi := i / columns, i % columns;
    var qj, mj := j / columns, j % columns;
    assert i == qi * columns + mi;
    assert j == qj * columns + mj;
    if qi >= rows {
      assert qi * columns >= rows * columns;
    }
    if CellOf(i, columns) == CellOf(j, columns) {
      assert mi == mj && qi == qj;
    }
  }
}
