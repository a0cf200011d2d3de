/** Integer facts about cells of a fixed size, shared by the chunk and scene models. */
module GridMath {

  lemma MulMonotone(a: int, b: int, s: int)
    requires a <= b && s >= 0
    ensures a * s <= b * s
  {
    assert b * s - a * s == (b - a) * s;
  }

  /**
   * Floor division picks out the one cell holding a coordinate:
   * `a * s <= p < (a + 1) * s` exactly when `a == p / s`.
   */
  lemma FloorDivCell(p: int, s: int, a: int)
    requires s > 0
    ensures a * s <= p < (a + 1) * s <==> a == p / s
  {
    var q := p / s;
    assert p == q * s + p % s;
    assert (q + 1) * s == q * s + s;
    if a < q {
      MulMonotone(a + 1, q, s);
      assert (a + 1) * s <= p;
    } else if a > q {
      MulMonotone(q + 1, a, s);
      assert (q + 1) * s > p;
    }
  }

  /**
   * Row-major index arithmetic: an index below `rows * cols` splits into the
   * column `i % cols` and the row `i / cols`, both in range.
   */
  lemma RowMajorSplit(i: int, cols: int, rows: int)
    requires cols > 0 && 0 <= i < rows * cols
    ensures i == (i / cols) * cols + i % cols
    ensures 0 <= i % cols < cols && 0 <= i / cols < rows
  {
    var y := i / cols;
    FloorDivCell(i, cols, y);
    if y >= rows {
      MulMonotone(rows, y, cols);
    }
  }
}
