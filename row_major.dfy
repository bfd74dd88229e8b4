/** Row-major addressing of a two-dimensional grid stored in a flat buffer:
    element (i, j) of a grid with `cols` columns lives at `i * cols + j`.
    `analyzeImage` uses it twice: pixel (x, y) of the 640 x 640 input is float
    group `y * 640 + x`, and score (i, j) of the 67 x 8400 output is element
    `i * 8400 + j`. */
module RowMajor {

  /** Cell (i, j) lies in the stretch of row `i`, which starts at `i * cols`
      and ends before `(i + 1) * cols`. */
  function FlatIndex(i: nat, j: nat, cols: nat): (k: nat)
    ensures i * cols <= k
    ensures j < cols ==> k < (i + 1) * cols
  {
    i * cols + j
  }

  /** An index of a cell inside the grid lies inside the buffer. */
  lemma FlatIndexInBounds(i: nat, j: nat, rows: nat, cols: nat)
    requires i < rows && j < cols
    ensures FlatIndex(i, j, cols) < rows * cols
  {
    calc {
      FlatIndex(i, j, cols);
      i * cols + j;
    <  i * cols + cols;
    == (i + 1) * cols;
    <= { MulMonotone(i + 1, rows, cols); }
      rows * cols;
    }
  }

  /** Distinct cells have distinct indices. */
  lemma FlatIndexInjective(i: nat, j: nat, i': nat, j': nat, cols: nat)
    requires j < cols && j' < cols
    requires FlatIndex(i, j, cols) == FlatIndex(i', j', cols)
    ensures i == i' && j == j'
  {
    if i < i' {
      MulMonotone(i + 1, i', cols);
      assert false;
    } else if i' < i {
      MulMonotone(i' + 1, i, cols);
      assert false;
    }
  }

  /** Every buffer index is the index of some cell, so a scan over all cells
      reads every element of the buffer. */
  lemma FlatIndexOnto(k: nat, rows: nat, cols: nat)
    requires k < rows * cols
    ensures cols > 0 && k / cols < rows && k % cols < cols
    ensures FlatIndex(k / cols, k % cols, cols) == k
  {
    assert cols > 0;
    if k / cols >= rows {
      MulMonotone(rows, k / cols, cols);
      assert false;
    }
  }

  /** The cell after the last one of row `i` is the first one of row `i + 1`. */
  lemma FlatIndexNextRow(i: nat, cols: nat)
    ensures FlatIndex(i, cols, cols) == FlatIndex(i + 1, 0, cols)
  {
    assert (i + 1) * cols == i * cols + cols;
  }

  /** Multiplying by a natural number preserves the order of factors. */
  lemma MulMonotone(a: nat, b: nat, c: nat)
    requires a <= b
    ensures a * c <= b * c
  {
    if a < b {
      MulMonotone(a, b - 1, c);
    }
  }
}
