/**
 * The cell logic of `GridCanvas`: the conversions between pixels and
 * row/column indices, the clamped setters, the press/drag/release state
 * machine that previews a cell and adds it, and the click that removes
 * every cell at an index. Painting is not modelled.
 */
module Grid {
  import opened Outcomes
  import opened JavaInt
  import opened DynamicArray

  /** A drawn cell: its bottom-left index and its spans in rows and columns. */
  datatype Cell = Cell(row: int, col: int, rowSpan: int, colSpan: int)

  /** A call of one of the four abstract hooks a subclass implements. */
  datatype Hook =
    | CellPressed(row: int, col: int, rowSpan: int, colSpan: int)
    | CellDragged(row: int, col: int, rowSpan: int, colSpan: int)
    | CellReleased(row: int, col: int, rowSpan: int, colSpan: int)
    | CellRemoved(row: int, col: int)

  /** The cell being drawn: whether a drag is under way, its anchor and its spans. */
  datatype Preview = Preview(drawing: bool, row: int, col: int, rowSpan: int, colSpan: int)

  /** No cell is being drawn. */
  const Idle := Preview(false, -1, -1, -1, -1)

  /** The grid's size in pixels and in cells, its tick spacings and the span restrictions. */
  datatype Layout = Layout(width: int, height: int, rows: int, columns: int, rowTicks: int, columnTicks: int,
                           rowRestriction: int, colRestriction: int)

  // ---------------------------------------------------------------------
  // Pixels and indices
  // ---------------------------------------------------------------------

  /** `colToPixel`: the x of the left edge of column `col`. */
  function ColToPixel(width: int, columns: int, col: int): Result<int> {
    Divide(Wrap(col * width), columns)
  }

  /** `rowToPixel`: the y of the line under row `row`; row 0 is at the bottom. */
  function RowToPixel(height: int, rows: int, row: int): Result<int> {
    var q :- Divide(Wrap(row * height), rows);
    Ok(Wrap(height - q))
  }

  /** `pixelToCol`: the column holding pixel x `px`. */
  function PixelToCol(width: int, columns: int, px: int): Result<int> {
    Divide(Wrap(columns * px), width)
  }

  /**
   * `pixelToRow`: the row holding pixel y `py`, counted from the bottom.
   * Wrapping once after both subtractions is the same as wrapping each.
   */
  function PixelToRow(height: int, rows: int, py: int): Result<int> {
    Divide(Wrap(rows * Wrap(height - 1 - py)), height)
  }

  lemma MulMonotone(x: int, y: int, c: int)
    requires x <= y && c >= 0
    ensures x * c <= y * c
  {
    assert y * c - x * c == (y - x) * c;
  }

  /** `p <= a / b` as soon as `p * b <= a`. */
  lemma DivAtLeast(a: int, b: int, p: int)
    requires b > 0 && p * b <= a
    ensures p <= a / b
  {
    var q := a / b;
    if q < p {
      MulMonotone(q + 1, p, b);
    }
  }

  /** `a / b <= p` as soon as `a < (p + 1) * b`. */
  lemma DivAtMost(a: int, b: int, p: int)
    requires b > 0 && a < (p + 1) * b
    ensures a / b <= p
  {
    var q := a / b;
    if q > p {
      MulMonotone(p + 1, q, b);
    }
  }

  /** The quotient by a positive divisor fits wherever the dividend does. */
  lemma DivFits(a: int, b: int)
    requires IsInt32(a) && b > 0
    ensures IsInt32(Div(a, b)) && Divide(a, b) == Ok(Div(a, b))
  {
    var m := Abs(a) / b;
    MulMonotone(1, b, m);
    assert Abs(a) == m * b + Abs(a) % b;
  }

  /** A product of factors in `[0, x]` and `[0, y]` fits when `x * y` does. */
  lemma ProductFits(a: int, b: int, x: int, y: int)
    requires 0 <= a <= x && 0 <= b <= y && IsInt32(x * y)
    ensures 0 <= a * b <= x * y && IsInt32(a * b)
  {
    MulMonotone(a, x, b);
    MulMonotone(b, y, x);
    assert a * b <= x * b && b * x <= y * x;
  }

  /** The columns divide the width: every pixel of the grid lies in one of them. */
  lemma PixelToColInGrid(width: int, columns: int, px: int)
    requires 0 < width && 0 < columns && IsInt32(columns * width) && 0 <= px < width
    ensures PixelToCol(width, columns, px).Ok?
    ensures PixelToCol(width, columns, px).value == (columns * px) / width
    ensures 0 <= PixelToCol(width, columns, px).value < columns
  {
    ProductFits(columns, px, columns, width);
    DivOfNonNegative(columns * px, width);
    DivFits(columns * px, width);
    MulMonotone(px + 1, width, columns);
    assert columns * px < columns * width by {
      assert (px + 1) * columns == px * columns + columns;
    }
    DivAtMost(columns * px, width, columns - 1);
    DivAtLeast(columns * px, width, 0);
  }

  /** The rows divide the height: every pixel of the grid lies in one of them. */
  lemma PixelToRowInGrid(height: int, rows: int, py: int)
    requires 0 < height && 0 < rows && IsInt32(rows * height) && 0 <= py < height
    ensures PixelToRow(height, rows, py).Ok?
    ensures PixelToRow(height, rows, py).value == (rows * (height - 1 - py)) / height
    ensures 0 <= PixelToRow(height, rows, py).value < rows
  {
    var u := height - 1 - py;
    ProductFits(rows, u, rows, height);
    DivOfNonNegative(rows * u, height);
    DivFits(rows * u, height);
    MulMonotone(u + 1, height, rows);
    assert rows * u < rows * height by {
      assert (u + 1) * rows == u * rows + rows;
    }
    DivAtMost(rows * u, height, rows - 1);
    DivAtLeast(rows * u, height, 0);
  }

  /** The left edge of column `col` for `0 <= col <= columns`, in Euclidean terms. */
  lemma ColToPixelInGrid(width: int, columns: int, col: int)
    requires 0 <= width && 0 < columns && IsInt32(columns * width) && 0 <= col <= columns
    ensures ColToPixel(width, columns, col) == Ok((col * width) / columns)
  {
    ProductFits(col, width, columns, width);
    DivOfNonNegative(col * width, columns);
    DivFits(col * width, columns);
  }

  /** The line under row `row` for `0 <= row <= rows`, in Euclidean terms. */
  lemma RowToPixelInGrid(height: int, rows: int, row: int)
    requires 0 <= height && 0 < rows && IsInt32(rows * height) && 0 <= row <= rows
    ensures RowToPixel(height, rows, row) == Ok(height - (row * height) / rows)
    ensures 0 <= (row * height) / rows <= height
  {
    ProductFits(row, height, rows, height);
    DivOfNonNegative(row * height, rows);
    DivFits(row * height, rows);
    MulMonotone(row, rows, height);
    DivAtMost(row * height, rows, height);
    DivAtLeast(row * height, rows, 0);
  }

  /** `(b * x) / b == x`. */
  lemma MulDivCancel(x: int, b: int)
    requires b > 0
    ensures (b * x) / b == x
  {
    DivAtLeast(b * x, b, x);
    DivAtMost(b * x, b, x);
  }

  /** Euclidean division by a positive divisor is monotone on non-negative dividends. */
  lemma DivMonotoneNat(a1: int, a2: int, b: int)
    requires 0 <= a1 <= a2 && b > 0
    ensures a1 / b <= a2 / b
  {
    DivAtLeast(a2, b, a1 / b);
  }

  /** The first column starts at pixel 0 and the last one ends at the width. */
  lemma ColToPixelEnds(width: int, columns: int)
    requires 0 <= width && 0 < columns && IsInt32(columns * width)
    ensures ColToPixel(width, columns, 0) == Ok(0)
    ensures ColToPixel(width, columns, columns) == Ok(width)
  {
    ColToPixelInGrid(width, columns, 0);
    assert 0 * width == 0;
    ColToPixelInGrid(width, columns, columns);
    MulDivCancel(width, columns);
  }

  /** Row 0 sits on the bottom edge and the top row under the top edge. */
  lemma RowToPixelEnds(height: int, rows: int)
    requires 0 <= height && 0 < rows && IsInt32(rows * height)
    ensures RowToPixel(height, rows, 0) == Ok(height)
    ensures RowToPixel(height, rows, rows) == Ok(0)
  {
    assert RowToPixel(height, rows, 0) == Ok(height) by {
      RowToPixelInGrid(height, rows, 0);
      assert 0 * height == 0;
    }
    assert RowToPixel(height, rows, rows) == Ok(0) by {
      RowToPixelInGrid(height, rows, rows);
      MulDivCancel(height, rows);
    }
  }

  /** Column edges move right as the column grows, for any columns that fit. */
  lemma ColToPixelMonotone(width: int, columns: int, c1: int, c2: int)
    requires 0 <= width && 0 < columns && c1 <= c2 && IsInt32(c1 * width) && IsInt32(c2 * width)
    ensures ColToPixel(width, columns, c1).Ok? && ColToPixel(width, columns, c2).Ok?
    ensures ColToPixel(width, columns, c1).value <= ColToPixel(width, columns, c2).value
  {
    var a1, a2 := c1 * width, c2 * width;
    MulMonotone(c1, c2, width);
    DivMonotone(a1, a2, columns);
    DivFits(a1, columns);
    DivFits(a2, columns);
  }

  /** Row lines move up (to smaller y) as the row grows, inside the grid. */
  lemma RowToPixelAntitone(height: int, rows: int, r1: int, r2: int)
    requires 0 <= height && 0 < rows && IsInt32(rows * height) && 0 <= r1 <= r2 <= rows
    ensures RowToPixel(height, rows, r1).Ok? && RowToPixel(height, rows, r2).Ok?
    ensures RowToPixel(height, rows, r2).value <= RowToPixel(height, rows, r1).value
  {
    RowToPixelInGrid(height, rows, r1);
    RowToPixelInGrid(height, rows, r2);
    LinesAntitone(height, rows, r1, r2);
  }

  lemma LinesAntitone(height: int, rows: int, r1: int, r2: int)
    requires 0 <= height && 0 < rows && 0 <= r1 <= r2
    ensures (r1 * height) / rows <= (r2 * height) / rows
  {
    MulMonotone(r1, r2, height);
    MulMonotone(0, r1, height);
    DivMonotoneNat(r1 * height, r2 * height, rows);
  }

  /** A pixel of the grid lies between the left edges of its column and of the next. */
  lemma PixelToColBetweenEdges(width: int, columns: int, px: int)
    requires 0 < width && 0 < columns && IsInt32(columns * width) && 0 <= px < width
    ensures PixelToCol(width, columns, px).Ok?
    ensures
      var k := PixelToCol(width, columns, px).value;
      && ColToPixel(width, columns, k).Ok? && ColToPixel(width, columns, k + 1).Ok?
      && ColToPixel(width, columns, k).value <= px <= ColToPixel(width, columns, k + 1).value
  {
    PixelToColInGrid(width, columns, px);
    var k := (columns * px) / width;
    ColToPixelInGrid(width, columns, k);
    ColToPixelInGrid(width, columns, k + 1);
    Bracket(columns * px, width, columns, px);
  }

  /**
   * A pixel of the grid lies between the lines of its row: its lower edge
   * `py + 1` is no lower than row `k`'s line and no higher than row `k + 1`'s.
   */
  lemma PixelToRowBetweenLines(height: int, rows: int, py: int)
    requires 0 < height && 0 < rows && IsInt32(rows * height) && 0 <= py < height
    ensures PixelToRow(height, rows, py).Ok?
    ensures
      var k := PixelToRow(height, rows, py).value;
      && RowToPixel(height, rows, k).Ok? && RowToPixel(height, rows, k + 1).Ok?
      && RowToPixel(height, rows, k + 1).value <= py + 1 <= RowToPixel(height, rows, k).value
  {
    PixelToRowInGrid(height, rows, py);
    var u := height - 1 - py;
    var k := (rows * u) / height;
    RowToPixelInGrid(height, rows, k);
    RowToPixelInGrid(height, rows, k + 1);
    Bracket(rows * u, height, rows, u);
  }

  /**
   * With `k` the quotient of `a == n * p` by `b`, `p` lies between the
   * quotients of `k * b` and `(k + 1) * b` by `n`: the conversions there and
   * back bracket the starting value.
   */
  lemma Bracket(a: int, b: int, n: int, p: int)
    requires b > 0 && n > 0 && a == n * p
    ensures (a / b) * b / n <= p <= (a / b + 1) * b / n
  {
    var k := a / b;
    assert k * b <= a;
    DivAtMost(k * b, n, p);
    assert (k + 1) * b == k * b + b;
    DivAtLeast((k + 1) * b, n, p);
  }

  /**
   * Java's division truncates toward zero, so a pointer just left of the
   * grid, less than a column away, still reads as column 0.
   */
  lemma PixelToColLeftOfGrid(width: int, columns: int, px: int)
    requires 0 < width && IsInt32(width) && -width < columns * px <= 0
    ensures PixelToCol(width, columns, px) == Ok(0)
  {
    var a := columns * px;
    assert IsInt32(a);
    DivFits(a, width);
    DivOfSmall(a, width);
  }

  /** A dividend smaller in magnitude than the divisor gives a quotient of 0. */
  lemma DivOfSmall(a: int, b: int)
    requires b > 0 && -b < a < b
    ensures Div(a, b) == 0
  {
    assert Abs(a) / Abs(b) == 0 by {
      DivAtMost(Abs(a), b, 0);
    }
  }

  // ---------------------------------------------------------------------
  // Dragging one axis
  // ---------------------------------------------------------------------

  /** An anchor and a span along one axis of the preview. */
  datatype Axis = Axis(anchor: int, span: int)

  /**
   * `mouseDragged` along one axis, with the pointer at index `index`: a
   * restricted axis (restriction > 0) moves its anchor to the pointer and
   * keeps the restricted span; an unrestricted one keeps its anchor and
   * stretches its span to reach the pointer, so a pointer before the anchor
   * gives a span of zero or less.
   */
  function DragAxis(restriction: int, anchor: int, index: int): (r: Axis)
    ensures restriction > 0 ==> r == Axis(index, restriction)
    ensures restriction <= 0 ==> r.anchor == anchor
    ensures restriction <= 0 && IsInt32(index - anchor + 1) ==> r.anchor + r.span - 1 == index
    ensures restriction <= 0 && IsInt32(index - anchor + 1) ==> (r.span > 0 <==> index >= anchor)
  {
    if restriction > 0 then Axis(index, Max(1, restriction)) else Axis(anchor, Wrap(index - anchor + 1))
  }

  // ---------------------------------------------------------------------
  // Removing the cells at an index
  // ---------------------------------------------------------------------

  predicate IsAt(c: Cell, row: int, col: int) {
    c.row == row && c.col == col
  }

  /** `cs` without its cells at `(row, col)`, the others in their order. */
  function Without(cs: seq<Cell>, row: int, col: int): (r: seq<Cell>)
    ensures |r| <= |cs|
    ensures forall i :: 0 <= i < |r| ==> !IsAt(r[i], row, col)
  {
    if |cs| == 0 then []
    else
      var last := cs[|cs| - 1];
      Without(cs[..|cs| - 1], row, col) + (if IsAt(last, row, col) then [] else [last])
  }

  lemma WithoutSnoc(cs: seq<Cell>, j: nat, row: int, col: int)
    requires j < |cs|
    ensures Without(cs[..j + 1], row, col)
      == Without(cs[..j], row, col) + (if IsAt(cs[j], row, col) then [] else [cs[j]])
  {
    assert cs[..j + 1][..j] == cs[..j];
  }

  /** Every cell at `(row, col)` goes; every other cell stays as often as it was there. */
  lemma {:induction false} WithoutCounts(cs: seq<Cell>, row: int, col: int, c: Cell)
    ensures multiset(Without(cs, row, col))[c] == if IsAt(c, row, col) then 0 else multiset(cs)[c]
  {
    if |cs| > 0 {
      var init, last := cs[..|cs| - 1], cs[|cs| - 1];
      assert cs == init + [last];
      WithoutCounts(init, row, col, c);
    }
  }

  /** `xs` can be had from `ys` by deleting elements, the rest kept in order. */
  predicate IsSubsequence<T(==)>(xs: seq<T>, ys: seq<T>)
    decreases |ys|
  {
    if |xs| == 0 then true
    else if |ys| == 0 then false
    else if xs[|xs| - 1] == ys[|ys| - 1] then IsSubsequence(xs[..|xs| - 1], ys[..|ys| - 1])
    else IsSubsequence(xs, ys[..|ys| - 1])
  }

  /** The cells that stay keep their relative order. */
  lemma {:induction false} WithoutIsSubsequence(cs: seq<Cell>, row: int, col: int)
    ensures IsSubsequence(Without(cs, row, col), cs)
  {
    if |cs| > 0 {
      var init, last := cs[..|cs| - 1], cs[|cs| - 1];
      WithoutIsSubsequence(init, row, col);
      var w := Without(init, row, col);
      assert cs == init + [last];
      if !IsAt(last, row, col) {
        assert (w + [last])[..|w|] == w;
      } else {
        assert Without(cs, row, col) == w + [] == w;
        SubsequenceOfLonger(w, init, last);
      }
    }
  }

  /** A subsequence of `ys` is one of `ys + [y]` too. */
  lemma {:induction false} SubsequenceOfLonger<T>(xs: seq<T>, ys: seq<T>, y: T)
    requires IsSubsequence(xs, ys)
    ensures IsSubsequence(xs, ys + [y])
    decreases |ys|, 1
  {
    var zs := ys + [y];
    assert zs[..|zs| - 1] == ys;
    if |xs| > 0 && xs[|xs| - 1] == y {
      SubsequenceDropLast(xs, ys);
    }
  }

  /** Without its last element, a subsequence of `ys` is still one. */
  lemma {:induction false} SubsequenceDropLast<T>(xs: seq<T>, ys: seq<T>)
    requires |xs| > 0 && IsSubsequence(xs, ys)
    ensures IsSubsequence(xs[..|xs| - 1], ys)
    decreases |ys|, 0
  {
    var init, rest := xs[..|xs| - 1], ys[..|ys| - 1];
    if xs[|xs| - 1] != ys[|ys| - 1] {
      SubsequenceDropLast(xs, rest);
    }
    SubsequenceOfLonger(init, rest, ys[|ys| - 1]);
    assert rest + [ys[|ys| - 1]] == ys;
  }

  lemma RemovedAfter<T>(a: seq<T>, x: T, b: seq<T>)
    ensures Removed(a + ([x] + b), |a|) == a + b
  {
    var s := a + ([x] + b);
    assert s[..|a|] == a && s[|a| + 1..] == b;
  }

  /**
   * One iteration of the loop of `mouseClicked`: the `j`-th of the original
   * cells, now at `i`, is removed if it is at `(row, col)`, and the index
   * that the loop goes on with is returned.
   */
  method RemoveStep(cells: BetterDynamicArray<Cell>, row: int, col: int, ghost all: seq<Cell>, ghost j: nat, i: int)
    returns (next: int)
    requires cells.Valid() && j < |all|
    requires cells.Contents == Without(all[..j], row, col) + all[j..]
    requires i == |Without(all[..j], row, col)|
    modifies cells, cells.elements
    ensures cells.Valid() && cells.elements == old(cells.elements)
    ensures cells.Contents == Without(all[..j + 1], row, col) + all[j + 1..]
    ensures next == |Without(all[..j + 1], row, col)|
  {
    ghost var w := Without(all[..j], row, col);
    ghost var rest := all[j + 1..];
    WithoutSnoc(all, j, row, col);
    assert all[j..] == [all[j]] + rest;
    var cell := cells.Get(i);
    next := i;
    if cell.value.row == row && cell.value.col == col {
      var _ := cells.RemoveAt(i);
      RemovedAfter(w, all[j], rest);
      next := next - 1;
    } else {
      assert w + [all[j]] + rest == w + ([all[j]] + rest);
    }
    next := next + 1;
  }

  /**
   * The loop of `mouseClicked`: a cell at `(row, col)` is removed and the
   * index stepped back, so that the cell shifted into its place is looked at next.
   */
  method RemoveCellsAt(cells: BetterDynamicArray<Cell>, row: int, col: int)
    requires cells.Valid()
    modifies cells, cells.elements
    ensures cells.Valid() && cells.Contents == Without(old(cells.Contents), row, col)
    ensures cells.elements == old(cells.elements)
  {
    ghost var all := cells.Contents;
    ghost var j := 0;
    var i := 0;
    var size := cells.Size();
    while i < size
      invariant cells.Valid() && cells.elements == old(cells.elements)
      invariant 0 <= j <= |all| && size == |cells.Contents|
      invariant cells.Contents == Without(all[..j], row, col) + all[j..]
      invariant i == |Without(all[..j], row, col)|
      decreases |all| - j
    {
      i := RemoveStep(cells, row, col, all, j, i);
      j := j + 1;
      size := cells.Size();
    }
    assert all[..j] == all;
  }

  // ---------------------------------------------------------------------
  // The canvas
  // ---------------------------------------------------------------------

  /**
   * A grid of `rows` by `columns` cells drawn over `width` by `height`
   * pixels; the cells are kept in a `BetterDynamicArray`, and `hooks`
   * records the calls of the abstract hooks, in order.
   */
  class GridCanvas {
    var width: int
    var height: int
    var columns: int
    var rows: int
    var columnMajorTickSpacing: int
    var rowMajorTickSpacing: int
    var rowRestriction: int
    var colRestriction: int
    var cells: BetterDynamicArray<Cell>
    var drawing: bool
    var currentRow: int
    var currentColumn: int
    var currentWidth: int
    var currentHeight: int
    var hooks: seq<Hook>

    /** The cell collection is well formed, and no preview is left over once a drawing ends. */
    ghost predicate Valid()
      reads this, cells, cells.elements
    {
      cells.Valid() && (!drawing ==> Pen() == Idle)
    }

    function Pen(): Preview
      reads this
    {
      Preview(drawing, currentRow, currentColumn, currentHeight, currentWidth)
    }

    function Shape(): Layout
      reads this
    {
      Layout(width, height, rows, columns, rowMajorTickSpacing, columnMajorTickSpacing, rowRestriction, colRestriction)
    }

    /** The cells, in the order they were added. */
    ghost function Cells(): seq<Cell>
      reads this, cells
    {
      cells.Contents
    }

    /** A grid of the given layout, with no restrictions, no cells and no cell being drawn. */
    constructor (width: int, height: int, rows: int, columns: int, rowMajorTickSpacing: int,
                 columnMajorTickSpacing: int)
      ensures Valid() && fresh(cells) && fresh(cells.elements)
      ensures Shape() == Layout(width, height, rows, columns, rowMajorTickSpacing, columnMajorTickSpacing, -1, -1)
      ensures Pen() == Idle && Cells() == [] && hooks == []
    {
      this.width := width;
      this.height := height;
      this.rows := rows;
      this.columns := columns;
      this.rowMajorTickSpacing := rowMajorTickSpacing;
      this.columnMajorTickSpacing := columnMajorTickSpacing;
      drawing := false;
      currentRow := -1;
      currentColumn := -1;
      currentWidth := -1;
      currentHeight := -1;
      rowRestriction := -1;
      colRestriction := -1;
      cells := new BetterDynamicArray<Cell>();
      hooks := [];
    }

    /** `setColumns`: at least one column; a positive count is taken as given. */
    method SetColumns(newColumns: int)
      requires Valid()
      modifies this
      ensures Valid() && columns >= 1 && (newColumns >= 1 ==> columns == newColumns)
      ensures newColumns < 1 ==> columns == 1
      ensures Shape() == old(Shape()).(columns := columns)
      ensures Pen() == old(Pen()) && cells == old(cells) && hooks == old(hooks)
    {
      var n := newColumns;
      if n < 1 {
        n := 1;
      }
      columns := n;
    }

    /** `setRows`: at least one row; a positive count is taken as given. */
    method SetRows(newRows: int)
      requires Valid()
      modifies this
      ensures Valid() && rows >= 1 && (newRows >= 1 ==> rows == newRows)
      ensures newRows < 1 ==> rows == 1
      ensures Shape() == old(Shape()).(rows := rows)
      ensures Pen() == old(Pen()) && cells == old(cells) && hooks == old(hooks)
    {
      var n := newRows;
      if n < 1 {
        n := 1;
      }
      rows := n;
    }

    /** `setRestrictions`: the spans later presses and drags use; non-positive means free. */
    method SetRestrictions(rowRestriction: int, colRestriction: int)
      requires Valid()
      modifies this
      ensures Valid()
      ensures Shape() == old(Shape()).(rowRestriction := rowRestriction, colRestriction := colRestriction)
      ensures Pen() == old(Pen()) && cells == old(cells) && hooks == old(hooks)
    {
      this.rowRestriction := rowRestriction;
      this.colRestriction := colRestriction;
    }

    /** The size update `paintComponent` makes before drawing: the component's current size. */
    method Resize(newWidth: int, newHeight: int)
      requires Valid()
      modifies this
      ensures Valid() && Shape() == old(Shape()).(width := newWidth, height := newHeight)
      ensures Pen() == old(Pen()) && cells == old(cells) && hooks == old(hooks)
    {
      width := newWidth;
      height := newHeight;
    }

    /** `addCell(row, column, height, width)`: the cell joins the end of the collection. */
    method AddCell(row: int, column: int, height: int, width: int)
      requires Valid()
      modifies cells, cells.elements
      ensures Valid() && Cells() == old(Cells()) + [Cell(row, column, height, width)]
      ensures cells.elements == old(cells.elements) || fresh(cells.elements)
    {
      cells.Add(Cell(row, column, height, width));
    }

    /** `clear`: no cells are left. */
    method Clear()
      requires Valid()
      modifies cells
      ensures Valid() && Cells() == [] && cells.elements == old(cells.elements)
    {
      cells.Clear();
    }

    /**
     * `mousePressed`: the left button starts a preview at the pressed
     * index, spanning the restrictions (at least 1), and calls
     * `onCellPressed` once; other buttons do nothing. A division by zero
     * in a conversion ends the call after the steps before it.
     */
    method MousePressed(x: int, y: int, button: int) returns (r: Outcome)
      requires Valid()
      modifies this
      ensures Valid() && Shape() == old(Shape()) && cells == old(cells)
      ensures button != 1 ==> r == Pass && Pen() == old(Pen()) && hooks == old(hooks)
      ensures button == 1 && PixelToRow(height, rows, y).Err? ==>
        r == Fail(Arithmetic) && Pen() == old(Pen()).(drawing := true) && hooks == old(hooks)
      ensures button == 1 && PixelToRow(height, rows, y).Ok? && PixelToCol(width, columns, x).Err? ==>
        && r == Fail(Arithmetic) && hooks == old(hooks)
        && Pen() == old(Pen()).(drawing := true, row := PixelToRow(height, rows, y).value)
      ensures button == 1 && PixelToRow(height, rows, y).Ok? && PixelToCol(width, columns, x).Ok? ==>
        var p := Preview(true, PixelToRow(height, rows, y).value, PixelToCol(width, columns, x).value,
                         Max(1, rowRestriction), Max(1, colRestriction));
        && r == Pass && Pen() == p && p.rowSpan >= 1 && p.colSpan >= 1
        && hooks == old(hooks) + [CellPressed(p.row, p.col, p.rowSpan, p.colSpan)]
    {
      if button == 1 {
        drawing := true;
        var row := PixelToRow(height, rows, y);
        if row.Err? {
          return Fail(row.error);
        }
        currentRow := row.value;
        var col := PixelToCol(width, columns, x);
        if col.Err? {
          return Fail(col.error);
        }
        currentColumn := col.value;
        currentHeight := Max(1, rowRestriction);
        currentWidth := Max(1, colRestriction);
        hooks := hooks + [CellPressed(currentRow, currentColumn, currentHeight, currentWidth)];
      }
      r := Pass;
    }

    /**
     * `mouseDragged`: while drawing, each axis follows the pointer as
     * `DragAxis` says, rows first, then `onCellDragged` is called once;
     * otherwise nothing changes.
     */
    method MouseDragged(x: int, y: int) returns (r: Outcome)
      requires Valid()
      modifies this
      ensures Valid() && Shape() == old(Shape()) && cells == old(cells) && drawing == old(drawing)
      ensures !old(drawing) ==> r == Pass && Pen() == old(Pen()) && hooks == old(hooks)
      ensures old(drawing) && PixelToRow(height, rows, y).Err? ==>
        r == Fail(Arithmetic) && Pen() == old(Pen()) && hooks == old(hooks)
      ensures old(drawing) && PixelToRow(height, rows, y).Ok? ==>
        var v := DragAxis(rowRestriction, old(currentRow), PixelToRow(height, rows, y).value);
        && currentRow == v.anchor && currentHeight == v.span
        && (PixelToCol(width, columns, x).Err? ==>
              r == Fail(Arithmetic) && currentColumn == old(currentColumn) && currentWidth == old(currentWidth)
              && hooks == old(hooks))
        && (PixelToCol(width, columns, x).Ok? ==>
              var h := DragAxis(colRestriction, old(currentColumn), PixelToCol(width, columns, x).value);
              && r == Pass && currentColumn == h.anchor && currentWidth == h.span
              && hooks == old(hooks) + [CellDragged(v.anchor, h.anchor, v.span, h.span)])
    {
      if drawing {
        var row := PixelToRow(height, rows, y);
        if row.Err? {
          return Fail(row.error);
        }
        var v := DragAxis(rowRestriction, currentRow, row.value);
        currentRow, currentHeight := v.anchor, v.span;
        var col := PixelToCol(width, columns, x);
        if col.Err? {
          return Fail(col.error);
        }
        var h := DragAxis(colRestriction, currentColumn, col.value);
        currentColumn, currentWidth := h.anchor, h.span;
        hooks := hooks + [CellDragged(currentRow, currentColumn, currentHeight, currentWidth)];
      }
      r := Pass;
    }

    /**
     * `mouseReleased`: while drawing, the preview becomes a cell if both
     * its spans are positive, `onCellReleased` is called with it either
     * way, and the drawing ends; otherwise nothing changes.
     */
    method MouseReleased()
      requires Valid()
      modifies this, cells, cells.elements
      ensures Valid() && Shape() == old(Shape()) && cells == old(cells)
      ensures !old(drawing) ==> Pen() == old(Pen()) && Cells() == old(Cells()) && hooks == old(hooks)
      ensures old(drawing) ==>
        var p := old(Pen());
        && Pen() == Idle
        && hooks == old(hooks) + [CellReleased(p.row, p.col, p.rowSpan, p.colSpan)]
        && Cells() == old(Cells()) + (if p.rowSpan > 0 && p.colSpan > 0 then [Cell(p.row, p.col, p.rowSpan, p.colSpan)] else [])
    {
      if drawing {
        if currentHeight > 0 && currentWidth > 0 {
          AddCell(currentRow, currentColumn, currentHeight, currentWidth);
        }
        hooks := hooks + [CellReleased(currentRow, currentColumn, currentHeight, currentWidth)];
        EndPreview();
      }
    }

    /** The end of `mouseReleased`: the preview is reset to -1 everywhere and drawing stops. */
    method EndPreview()
      requires cells.Valid()
      modifies this
      ensures Valid() && Shape() == old(Shape()) && cells == old(cells) && hooks == old(hooks)
      ensures Pen() == Idle
    {
      currentRow := -1;
      currentColumn := -1;
      currentWidth := -1;
      currentHeight := -1;
      drawing := false;
    }

    /**
     * `mouseClicked`: a button other than the left one removes every cell
     * at the clicked index, keeping the others in order, and calls
     * `onCellRemoved` once; the left button does nothing.
     */
    method MouseClicked(x: int, y: int, button: int) returns (r: Outcome)
      requires Valid()
      modifies this, cells, cells.elements
      ensures Valid() && Shape() == old(Shape()) && Pen() == old(Pen()) && cells == old(cells)
      ensures cells.elements == old(cells.elements)
      ensures button <= 1 ==> r == Pass && Cells() == old(Cells()) && hooks == old(hooks)
      ensures button > 1 ==>
        var row, col := PixelToRow(height, rows, y), PixelToCol(width, columns, x);
        if row.Ok? && col.Ok? then
          && r == Pass && Cells() == Without(old(Cells()), row.value, col.value)
          && hooks == old(hooks) + [CellRemoved(row.value, col.value)]
        else
          r == Fail(Arithmetic) && Cells() == old(Cells()) && hooks == old(hooks)
    {
      if button > 1 {
        var row := PixelToRow(height, rows, y);
        if row.Err? {
          return Fail(row.error);
        }
        var col := PixelToCol(width, columns, x);
        if col.Err? {
          return Fail(col.error);
        }
        RemoveCellsAt(cells, row.value, col.value);
        hooks := hooks + [CellRemoved(row.value, col.value)];
      }
      r := Pass;
    }
  }
}
