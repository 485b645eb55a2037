/**
 * The sub-block indexing that eigen_densebase_plugin.hpp injects into
 * Eigen's DenseBase: turning an index argument into a span, the
 * compile-time extent and contiguity of the resulting view, the conditions
 * that enable the two `operator()` forms, and the spans they compute.
 *
 * The object being indexed is given by its compile-time constants
 * (`static_rows`, `static_cols`, `is_row_major`, ...) and its run-time
 * `rows()` and `cols()`. The view that `operator()` returns is described by
 * the arguments of the Block / VectorBlock constructor it calls.
 */
module DenseBasePlugin {
  import opened Eig

  /** The compile-time constants of an Eigen dense type. */
  datatype StaticShape = StaticShape(rows: int, cols: int, rowMajor: bool) {
    /** Each compile-time extent is Dynamic or a length. */
    predicate Valid() {
      (rows == Dynamic || rows >= 0) && (cols == Dynamic || cols >= 0)
    }

    /** `static_size` (Eigen's SizeAtCompileTime). */
    function Size(): int {
      if rows == Dynamic || cols == Dynamic then Dynamic else rows * cols
    }

    /** `is_static_1d` (Eigen's IsVectorAtCompileTime). */
    predicate IsStatic1D() {
      rows == 1 || cols == 1
    }
  }

  /** A dense object: its compile-time constants and its run-time `rows()` and `cols()`. */
  datatype Dims = Dims(shape: StaticShape, rows: nat, cols: nat) {
    /** Run-time extents agree with the compile-time ones that are fixed. */
    predicate Valid() {
      shape.Valid() &&
      (shape.rows != Dynamic ==> rows == shape.rows) &&
      (shape.cols != Dynamic ==> cols == shape.cols)
    }

    /** `size()` */
    function Size(): nat {
      rows * cols
    }
  }

  /** `is_range_or_int` */
  predicate IsRangeOrInt(a: Arg) {
    IsRange(a) || a.Integral?
  }

  /** `is_all_range`: the actual type is `all_range`. */
  predicate IsAllRange(a: Arg) {
    Actual(a) == Ranged(AllRange)
  }

  /**
   * `to_index_span`: an integer `i` selects the single index `i`; a range is
   * resolved by `index_span` against the axis extent.
   */
  function ToIndexSpan(a: Arg, size: int): (s: IndexSpan)
    requires IsRangeOrInt(a)
    ensures a.Integral? ==> s.n == 1 && forall k :: s.Covers(k) <==> k == a.value
  {
    match a
    case Ranged(r) => Resolve(r, size)
    case Integral(i) => IndexSpan(i, 1)
  }

  /**
   * `block_static_size<R, Extent>`: 1 for an integer, the container's own
   * compile-time extent for `all`, otherwise the static size or Dynamic.
   * When it is not Dynamic it is the length the argument resolves to on any
   * axis whose run-time extent agrees with `extent`.
   */
  function BlockStaticSize(a: Arg, extent: int): (e: int)
    ensures IsRangeOrInt(a) && e != Dynamic ==>
      forall size | extent == Dynamic || size == extent :: ToIndexSpan(a, size).n == e
    ensures IsRange(a) && !IsAllRange(a) && !HasStaticSize(a) ==> e == Dynamic
  {
    if a.Integral? then 1
    else if IsAllRange(a) then extent
    else StaticSizeOr(a, Dynamic)
  }

  /**
   * `is_block_inner_panel`: the block spans the whole inner (storage
   * contiguous) axis.
   */
  predicate IsBlockInnerPanel(rowArg: Arg, colArg: Arg, rowMajor: bool) {
    (IsAllRange(rowArg) && !rowMajor) || (IsAllRange(colArg) && rowMajor)
  }

  /** The enable condition of the two-argument `operator()`. */
  predicate SubMatrixEnabled(rowArg: Arg, colArg: Arg) {
    IsRangeOrInt(rowArg) && IsRangeOrInt(colArg) && !(rowArg.Integral? && colArg.Integral?)
  }

  /** The enable condition of the one-argument `operator()`. */
  predicate SubVectorEnabled(shape: StaticShape, a: Arg) {
    IsRange(a) && shape.IsStatic1D()
  }

  /**
   * A `Block` view: its origin and run-time size, its compile-time extents,
   * the inner-panel flag, and whether it is the view of a const object.
   */
  datatype RangeBlock = RangeBlock(
    startRow: int, startCol: int, blockRows: int, blockCols: int,
    staticRows: int, staticCols: int, innerPanel: bool, readOnly: bool)
  {
    predicate Contains(r: int, c: int) {
      startRow <= r < startRow + blockRows && startCol <= c < startCol + blockCols
    }

    predicate InBounds(rows: int, cols: int) {
      IndexSpan(startRow, blockRows).InBounds(rows) && IndexSpan(startCol, blockCols).InBounds(cols)
    }
  }

  /** A `VectorBlock` view: its start and run-time length, its compile-time length, constness. */
  datatype VectorRangeBlock = VectorRangeBlock(start: int, n: int, staticSize: int, readOnly: bool)

  /**
   * The two-argument `operator()`: rows are resolved against `rows()`,
   * columns against `cols()`. `readOnly` selects the const overload. The
   * compile-time extents it advertises agree with the run-time size of the
   * view whenever they are not Dynamic.
   */
  function SubMatrix(obj: Dims, rowArg: Arg, colArg: Arg, readOnly: bool): (b: RangeBlock)
    requires SubMatrixEnabled(rowArg, colArg)
    ensures obj.Valid() && b.staticRows != Dynamic ==> b.staticRows == b.blockRows
    ensures obj.Valid() && b.staticCols != Dynamic ==> b.staticCols == b.blockCols
    ensures b.readOnly == readOnly
  {
    var r := ToIndexSpan(rowArg, obj.rows);
    var c := ToIndexSpan(colArg, obj.cols);
    RangeBlock(r.start, c.start, r.n, c.n,
               BlockStaticSize(rowArg, obj.shape.rows),
               BlockStaticSize(colArg, obj.shape.cols),
               IsBlockInnerPanel(rowArg, colArg, obj.shape.rowMajor),
               readOnly)
  }

  /**
   * The one-argument `operator()` of a compile-time vector: the range is
   * resolved against `size()` and the view's compile-time length derives
   * from `static_size`; when not Dynamic it is the run-time length.
   */
  function SubVector(obj: Dims, a: Arg, readOnly: bool): (b: VectorRangeBlock)
    requires SubVectorEnabled(obj.shape, a)
    ensures obj.Valid() && b.staticSize != Dynamic ==> b.staticSize == b.n
    ensures b.readOnly == readOnly
  {
    var s := ToIndexSpan(a, obj.Size());
    VectorRangeBlock(s.start, s.n, BlockStaticSize(a, obj.shape.Size()), readOnly)
  }

  // ---------------------------------------------------------------------------
  // Lemmas
  // ---------------------------------------------------------------------------

  /** A range argument is handed to `index_span` unchanged; an integer becomes a span of length 1. */
  lemma ToIndexSpanDelegates(r: RangeLiteral, i: int, size: int)
    ensures ToIndexSpan(Ranged(r), size) == Resolve(r, size)
    ensures ToIndexSpan(Integral(i), size) == IndexSpan(i, 1)
  {
  }

  /** The three branches of `block_static_size`. */
  lemma BlockStaticSizeCases(a: Arg, extent: int)
    ensures a.Integral? ==> BlockStaticSize(a, extent) == 1
    ensures IsAllRange(a) ==> BlockStaticSize(a, extent) == extent
    ensures !a.Integral? && !IsAllRange(a) ==> BlockStaticSize(a, extent) == StaticSizeOr(a, Dynamic)
  {
  }

  /**
   * Whether a block is an inner panel depends only on the argument for the
   * inner axis: the rows in column-major storage, the columns in row-major
   * storage.
   */
  lemma InnerPanelFollowsInnerAxis(rowArg: Arg, colArg: Arg, rowMajor: bool)
    ensures IsBlockInnerPanel(rowArg, colArg, rowMajor) <==>
      if rowMajor then IsAllRange(colArg) else IsAllRange(rowArg)
  {
  }

  /**
   * The two-argument form exists for a range with a range, a range with an
   * integer, and an integer with a range; never for two integers, and never
   * for an argument that is neither.
   */
  lemma SubMatrixEnabledCases(rowArg: Arg, colArg: Arg)
    ensures SubMatrixEnabled(rowArg, colArg) <==>
      (rowArg.Ranged? && (colArg.Ranged? || colArg.Integral?)) ||
      (rowArg.Integral? && colArg.Ranged?)
  {
  }

  /** The one-argument form takes a range, never an integer, and only on a compile-time vector. */
  lemma SubVectorEnabledCases(shape: StaticShape, a: Arg)
    ensures SubVectorEnabled(shape, a) <==> a.Ranged? && (shape.rows == 1 || shape.cols == 1)
  {
  }

  /** The block's row span is the row argument resolved against `rows()`; likewise for columns. */
  lemma SubMatrixSpans(obj: Dims, rowArg: Arg, colArg: Arg, readOnly: bool)
    requires SubMatrixEnabled(rowArg, colArg)
    ensures var b := SubMatrix(obj, rowArg, colArg, readOnly);
      IndexSpan(b.startRow, b.blockRows) == ToIndexSpan(rowArg, obj.rows) &&
      IndexSpan(b.startCol, b.blockCols) == ToIndexSpan(colArg, obj.cols) &&
      b.staticRows == BlockStaticSize(rowArg, obj.shape.rows) &&
      b.staticCols == BlockStaticSize(colArg, obj.shape.cols) &&
      b.innerPanel == IsBlockInnerPanel(rowArg, colArg, obj.shape.rowMajor)
  {
  }

  /**
   * The two axes are resolved independently: the row part of the block does
   * not depend on the column argument or the column count, and the column
   * part not on the row argument or the row count.
   */
  lemma SubMatrixAxesIndependent(obj: Dims, obj': Dims, rowArg: Arg, colArg: Arg, rowArg': Arg, colArg': Arg)
    requires SubMatrixEnabled(rowArg, colArg) && SubMatrixEnabled(rowArg, colArg') && SubMatrixEnabled(rowArg', colArg)
    ensures obj'.rows == obj.rows && obj'.shape.rows == obj.shape.rows ==>
      var b, b' := SubMatrix(obj, rowArg, colArg, false), SubMatrix(obj', rowArg, colArg', false);
      b.startRow == b'.startRow && b.blockRows == b'.blockRows && b.staticRows == b'.staticRows
    ensures obj'.cols == obj.cols && obj'.shape.cols == obj.shape.cols ==>
      var b, b' := SubMatrix(obj, rowArg, colArg, false), SubMatrix(obj', rowArg', colArg, false);
      b.startCol == b'.startCol && b.blockCols == b'.blockCols && b.staticCols == b'.staticCols
  {
  }

  /** The const and non-const overloads compute the same spans and extents. */
  lemma ConstOverloadsAgree(obj: Dims, rowArg: Arg, colArg: Arg, a: Arg)
    ensures SubMatrixEnabled(rowArg, colArg) ==>
      SubMatrix(obj, rowArg, colArg, true) == SubMatrix(obj, rowArg, colArg, false).(readOnly := true)
    ensures SubVectorEnabled(obj.shape, a) ==>
      SubVector(obj, a, true) == SubVector(obj, a, false).(readOnly := true)
  {
  }

  /** The vector view resolves against `size()` and takes its compile-time length from `static_size`. */
  lemma SubVectorSpan(obj: Dims, a: Arg, readOnly: bool)
    requires SubVectorEnabled(obj.shape, a)
    ensures var b := SubVector(obj, a, readOnly);
      IndexSpan(b.start, b.n) == Resolve(a.range, obj.rows * obj.cols) &&
      b.staticSize == BlockStaticSize(a, obj.shape.Size())
  {
  }

  // ---------------------------------------------------------------------------
  // Storage order and inner panels
  // ---------------------------------------------------------------------------

  /** Position of coefficient (r, c) in the storage of a rows x cols object. */
  function Offset(rowMajor: bool, rows: nat, cols: nat, r: int, c: int): int {
    if rowMajor then r * cols + c else c * rows + r
  }

  lemma MulMonotone(a: int, b: int, n: nat)
    requires a <= b
    ensures a * n <= b * n
  {
    assert b * n - a * n == (b - a) * n;
  }

  /**
   * Coefficient (o, i) of a stripe of `count` outer lines of `inner`
   * coefficients each, starting at outer line `first`, lies at
   * `o * inner + i`, within one interval of storage.
   */
  lemma StripeBounds(inner: nat, first: int, count: int, o: int, i: int)
    requires first <= o < first + count && 0 <= i < inner
    ensures first * inner <= o * inner + i < first * inner + count * inner
  {
    MulMonotone(first, o, inner);
    MulMonotone(o + 1, first + count, inner);
    assert (o + 1) * inner == o * inner + inner;
    assert (first + count) * inner == first * inner + count * inner;
  }

  /** Every position of that interval holds a coefficient of the stripe. */
  lemma StripeCover(inner: nat, first: int, count: int, k: int) returns (o: int, i: int)
    requires first * inner <= k < first * inner + count * inner
    ensures first <= o < first + count && 0 <= i < inner && k == o * inner + i
  {
    var d := k - first * inner;
    assert 0 <= d < count * inner;
    assert inner != 0;
    var q, m := d / inner, d % inner;
    assert d == q * inner + m && 0 <= m < inner;
    assert 0 <= q by {
      if q < 0 {
        MulMonotone(q, -1, inner);
      }
    }
    assert q < count by {
      if q >= count {
        MulMonotone(count, q, inner);
      }
    }
    o, i := first + q, m;
    assert o * inner == first * inner + q * inner;
  }

  /** Storage position `k` holds a coefficient of block `b`. */
  ghost predicate HoldsBlockCoefficient(obj: Dims, b: RangeBlock, k: int) {
    exists r, c :: b.Contains(r, c) && Offset(obj.shape.rowMajor, obj.rows, obj.cols, r, c) == k
  }

  /**
   * An inner-panel block that lies within the object occupies one interval
   * of storage: every coefficient of the block lies in it and every position
   * of it holds a coefficient of the block.
   */
  lemma InnerPanelIsContiguous(obj: Dims, rowArg: Arg, colArg: Arg, readOnly: bool)
    requires obj.Valid() && SubMatrixEnabled(rowArg, colArg)
    requires SubMatrix(obj, rowArg, colArg, readOnly).innerPanel
    requires SubMatrix(obj, rowArg, colArg, readOnly).InBounds(obj.rows, obj.cols)
    ensures var b := SubMatrix(obj, rowArg, colArg, readOnly);
      var lo := Offset(obj.shape.rowMajor, obj.rows, obj.cols, b.startRow, b.startCol);
      (forall r, c | b.Contains(r, c) ::
         lo <= Offset(obj.shape.rowMajor, obj.rows, obj.cols, r, c) < lo + b.blockRows * b.blockCols) &&
      (forall k | lo <= k < lo + b.blockRows * b.blockCols :: HoldsBlockCoefficient(obj, b, k))
  {
    var b := SubMatrix(obj, rowArg, colArg, readOnly);
    var rm := obj.shape.rowMajor;
    var lo := Offset(rm, obj.rows, obj.cols, b.startRow, b.startCol);
    if rm {
      // the columns are the whole inner axis: rows are the outer lines
      assert b.startCol == 0 && b.blockCols == obj.cols;
      assert lo == b.startRow * obj.cols;
      assert b.blockRows * b.blockCols == b.blockRows * obj.cols;
      forall r, c | b.Contains(r, c)
        ensures lo <= Offset(rm, obj.rows, obj.cols, r, c) < lo + b.blockRows * b.blockCols
      {
        StripeBounds(obj.cols, b.startRow, b.blockRows, r, c);
      }
      forall k | lo <= k < lo + b.blockRows * b.blockCols
        ensures HoldsBlockCoefficient(obj, b, k)
      {
        var o, i := StripeCover(obj.cols, b.startRow, b.blockRows, k);
        assert b.Contains(o, i) && Offset(rm, obj.rows, obj.cols, o, i) == k;
      }
    } else {
      // the rows are the whole inner axis: columns are the outer lines
      assert b.startRow == 0 && b.blockRows == obj.rows;
      assert lo == b.startCol * obj.rows;
      assert b.blockRows * b.blockCols == b.blockCols * obj.rows;
      forall r, c | b.Contains(r, c)
        ensures lo <= Offset(rm, obj.rows, obj.cols, r, c) < lo + b.blockRows * b.blockCols
      {
        StripeBounds(obj.rows, b.startCol, b.blockCols, c, r);
      }
      forall k | lo <= k < lo + b.blockRows * b.blockCols
        ensures HoldsBlockCoefficient(obj, b, k)
      {
        var o, i := StripeCover(obj.rows, b.startCol, b.blockCols, k);
        assert b.Contains(i, o) && Offset(rm, obj.rows, obj.cols, i, o) == k;
      }
    }
  }

  /** A position `q * n + m` with `0 <= m < n` determines `q` and `m`. */
  lemma LineAndPositionUnique(n: nat, q: int, m: int, q': int, m': int)
    requires 0 <= m < n && 0 <= m' < n && q * n + m == q' * n + m'
    ensures q == q' && m == m'
  {
    if q < q' {
      assert (q + 1) * n == q * n + n;
      MulMonotone(q + 1, q', n);
    } else if q' < q {
      assert (q' + 1) * n == q' * n + n;
      MulMonotone(q' + 1, q, n);
    }
  }

  /** Distinct coefficients of an object occupy distinct storage positions within its storage. */
  lemma OffsetInjective(rowMajor: bool, rows: nat, cols: nat, r: int, c: int, r': int, c': int)
    requires 0 <= r < rows && 0 <= c < cols && 0 <= r' < rows && 0 <= c' < cols
    ensures 0 <= Offset(rowMajor, rows, cols, r, c) < rows * cols
    ensures Offset(rowMajor, rows, cols, r, c) == Offset(rowMajor, rows, cols, r', c') ==> r == r' && c == c'
  {
    if rowMajor {
      StripeBounds(cols, 0, rows, r, c);
      if r * cols + c == r' * cols + c' {
        LineAndPositionUnique(cols, r, c, r', c');
      }
    } else {
      StripeBounds(rows, 0, cols, c, r);
      if c * rows + r == c' * rows + r' {
        LineAndPositionUnique(rows, c, r, c', r');
      }
    }
  }
}
