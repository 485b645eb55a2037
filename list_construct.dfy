/**
 * The constructors that eigen_impl_list_construct.hpp adds to Eigen's
 * Matrix and Array: construction from a size, from a 1-D list of scalars
 * (an initializer list for dynamic-size vectors, separate arguments for
 * fixed-size ones), and from a list of rows.
 *
 * The object is a class holding its compile-time shape, its run-time rows
 * and cols, and its coefficients in one array in storage order. The
 * compile-time conditions (static_assert and enable_if) are predicates
 * over the shape that the constructors require.
 */
module ListConstruct {
  import opened Eig
  import opened DenseBasePlugin

  /** `(from_size, rows, cols)`: a dynamic-size object that is not a compile-time vector. */
  predicate SizeConstructible(shape: StaticShape) {
    !shape.IsStatic1D() && shape.Size() == Dynamic
  }

  /** `(from_size, length)`: a dynamic-size compile-time vector. */
  predicate LengthConstructible(shape: StaticShape) {
    shape.Size() == Dynamic && shape.IsStatic1D()
  }

  /** The enable condition of the initializer-list constructor. */
  predicate ListConstructible(shape: StaticShape) {
    shape.Size() == Dynamic
  }

  /** The enable condition of the constructor taking `count` separate scalars. */
  predicate ScalarsConstructible(shape: StaticShape, count: nat) {
    var size := shape.Size();
    size != Dynamic && count - 1 == size - 1 && (size == 1 || size > 4) && shape.IsStatic1D()
  }

  /** The enable condition of the row-list constructor. */
  predicate RowListConstructible(shape: StaticShape) {
    shape.rows != 1
  }

  /** The column count the row-list constructor takes: the first row's size, or 0. */
  function ListCols<T>(values: seq<seq<T>>): nat {
    if |values| > 0 then |values[0]| else 0
  }

  /**
   * `assign_1d_list(i, xs...)` on the coefficient sequence `s`: positions
   * `i` to `i + |xs| - 1` take `xs` in order, every other position keeps its
   * value.
   */
  function Assigned<T>(s: seq<T>, i: nat, xs: seq<T>): (r: seq<T>)
    requires i + |xs| <= |s|
    ensures |r| == |s|
    ensures forall k | 0 <= k < |s| :: r[k] == if i <= k < i + |xs| then xs[k - i] else s[k]
    decreases |xs|
  {
    if xs == [] then s else Assigned(s[i := xs[0]], i + 1, xs[1..])
  }

  /** Assigning a full-length list from position 0 yields exactly that list. */
  lemma AssignedFromStart<T>(s: seq<T>, xs: seq<T>)
    requires |xs| == |s|
    ensures Assigned(s, 0, xs) == xs
  {
    var r := Assigned(s, 0, xs);
    assert forall k | 0 <= k < |s| :: r[k] == xs[k];
  }

  /** The two size constructors never apply to the same shape. */
  lemma SizeConstructorsExclusive(shape: StaticShape)
    ensures !(SizeConstructible(shape) && LengthConstructible(shape))
  {
  }

  /**
   * A vector shape takes its 1-D list either as an initializer list (dynamic
   * size) or as separate scalars (fixed size), never both; the scalars form
   * never takes 2, 3 or 4 values, which Eigen's own constructors handle.
   */
  lemma VectorListConstructorsExclusive(shape: StaticShape, count: nat)
    requires shape.Valid()
    ensures !(ListConstructible(shape) && ScalarsConstructible(shape, count))
    ensures ScalarsConstructible(shape, count) ==>
      count == shape.rows * shape.cols && count != 2 && count != 3 && count != 4 && count >= 1
  {
  }

  /** The array index of coefficient `i` of a compile-time vector, whatever its storage order. */
  lemma VectorCoefficientIsLinear(shape: StaticShape, length: nat, i: nat)
    requires i < length
    ensures Offset(shape.rowMajor, 1, length, 0, i) == i
    ensures Offset(shape.rowMajor, length, 1, i, 0) == i
  {
  }

  class Dense<T(0)> {
    /** The compile-time constants of the type. */
    const shape: StaticShape
    var rows: nat
    var cols: nat
    /** The coefficients, in storage order. */
    var data: array<T>

    /** The object's shape as seen by the indexing operators. */
    function Extents(): Dims
      reads this
    {
      Dims(shape, rows, cols)
    }

    ghost predicate Valid()
      reads this
    {
      Extents().Valid() && data.Length == rows * cols
    }

    /** Coefficient (r, c). */
    ghost function Coeff(r: int, c: int): T
      reads this, data
      requires Valid() && 0 <= r < rows && 0 <= c < cols
    {
      OffsetInjective(shape.rowMajor, rows, cols, r, c, r, c);
      data[Offset(shape.rowMajor, rows, cols, r, c)]
    }

    /** Eigen's `resize(rows, cols)`; the new coefficients are unspecified. */
    method Resize(newRows: nat, newCols: nat)
      requires shape.Valid()
      requires shape.rows == Dynamic || newRows == shape.rows
      requires shape.cols == Dynamic || newCols == shape.cols
      modifies this
      ensures Valid() && fresh(data)
      ensures rows == newRows && cols == newCols
    {
      rows, cols := newRows, newCols;
      data := new T[newRows * newCols];
    }

    /**
     * Eigen's `resize(size)` of a compile-time vector: a row vector becomes
     * 1 x size, any other vector size x 1.
     */
    method ResizeVector(length: nat)
      requires shape.Valid() && shape.IsStatic1D()
      requires shape.Size() == Dynamic || length == shape.Size()
      modifies this
      ensures Valid() && fresh(data) && data.Length == length
      ensures if shape.rows == 1 then rows == 1 && cols == length else rows == length && cols == 1
    {
      if shape.rows == 1 {
        Resize(1, length);
      } else {
        Resize(length, 1);
      }
    }

    /** `(from_size, rows, cols)` */
    constructor FromSize(shape: StaticShape, rows: nat, cols: nat)
      requires shape.Valid() && SizeConstructible(shape)
      requires shape.rows == Dynamic || rows == shape.rows
      requires shape.cols == Dynamic || cols == shape.cols
      ensures Valid() && this.shape == shape
      ensures this.rows == rows && this.cols == cols
    {
      this.shape := shape;
      this.rows, this.cols := 0, 0;
      data := new T[0];
      new;
      Resize(rows, cols);
    }

    /** `(from_size, length)` */
    constructor FromLength(shape: StaticShape, length: nat)
      requires shape.Valid() && LengthConstructible(shape)
      ensures Valid() && this.shape == shape && rows * cols == length
      ensures if shape.rows == 1 then rows == 1 && cols == length else rows == length && cols == 1
    {
      this.shape := shape;
      this.rows, this.cols := 0, 0;
      data := new T[0];
      new;
      ResizeVector(length);
    }

    /**
     * The initializer-list constructor: resize to the list's length, then
     * copy the values one by one. Eigen's `resize(size)` accepts only
     * compile-time vectors.
     */
    constructor FromList(shape: StaticShape, values: seq<T>)
      requires shape.Valid() && ListConstructible(shape) && shape.IsStatic1D()
      ensures Valid() && this.shape == shape && rows * cols == |values|
      ensures if shape.rows == 1 then rows == 1 else cols == 1
      ensures data[..] == values
    {
      this.shape := shape;
      this.rows, this.cols := 0, 0;
      data := new T[0];
      new;
      ResizeVector(|values|);
      var i := 0;
      while i < |values|
        modifies data
        invariant 0 <= i <= |values| == data.Length
        invariant data[..i] == values[..i]
      {
        data[i] := values[i];
        i := i + 1;
      }
      assert data[..] == data[..i];
    }

    /** `assign_1d_list(i, xs...)`: writes `xs` from position `i` on, one at a time. */
    method AssignList(i: nat, xs: seq<T>)
      requires Valid() && i + |xs| <= data.Length
      modifies data
      ensures data[..] == Assigned(old(data[..]), i, xs)
      decreases |xs|
    {
      if xs != [] {
        data[i] := xs[0];
        AssignList(i + 1, xs[1..]);
      }
    }

    /**
     * The constructor taking `static_size` separate scalars: the storage has
     * its compile-time size and `assign_1d_list(0, ...)` fills it in order.
     */
    constructor FromScalars(shape: StaticShape, values: seq<T>)
      requires shape.Valid() && ScalarsConstructible(shape, |values|)
      ensures Valid() && this.shape == shape
      ensures rows == shape.rows && cols == shape.cols
      ensures data[..] == values
    {
      this.shape := shape;
      this.rows, this.cols := shape.rows, shape.cols;
      data := new T[shape.rows * shape.cols];
      new;
      ghost var before := data[..];
      AssignList(0, values);
      AssignedFromStart(before, values);
    }

    /** Eigen's `row(r) = src`: row `r` takes `src`, every other coefficient is kept. */
    method AssignRow(r: nat, src: seq<T>)
      requires Valid() && r < rows && |src| == cols
      modifies data
      ensures Valid()
      ensures forall i, j | 0 <= i < rows && 0 <= j < cols ::
        Coeff(i, j) == if i == r then src[j] else old(Coeff(i, j))
    {
      var c := 0;
      while c < cols
        invariant 0 <= c <= cols && Valid()
        invariant forall i, j | 0 <= i < rows && 0 <= j < cols ::
          Coeff(i, j) == if i == r && j < c then src[j] else old(Coeff(i, j))
      {
        var k := Offset(shape.rowMajor, rows, cols, r, c);
        forall i, j | 0 <= i < rows && 0 <= j < cols
          ensures Offset(shape.rowMajor, rows, cols, i, j) == k ==> i == r && j == c
        {
          OffsetInjective(shape.rowMajor, rows, cols, i, j, r, c);
        }
        OffsetInjective(shape.rowMajor, rows, cols, r, c, r, c);
        data[k] := src[c];
        c := c + 1;
      }
    }

    /**
     * The row-list constructor: `rows` is the number of rows, `cols` the size
     * of the first row (0 for an empty list), and row `r` is `values[r]`.
     * Eigen asserts that every row has `cols` entries and that fixed
     * compile-time extents match.
     */
    constructor FromRows(shape: StaticShape, values: seq<seq<T>>)
      requires shape.Valid() && RowListConstructible(shape)
      requires forall r | 0 <= r < |values| :: |values[r]| == ListCols(values)
      requires shape.rows == Dynamic || |values| == shape.rows
      requires shape.cols == Dynamic || ListCols(values) == shape.cols
      ensures Valid() && this.shape == shape
      ensures rows == |values| && cols == ListCols(values)
      ensures forall r, c | 0 <= r < rows && 0 <= c < cols :: Coeff(r, c) == values[r][c]
    {
      this.shape := shape;
      this.rows, this.cols := 0, 0;
      data := new T[0];
      new;
      Resize(|values|, ListCols(values));
      var r := 0;
      while r < rows
        modifies data
        invariant 0 <= r <= rows && Valid()
        invariant forall i, c | 0 <= i < r && 0 <= c < cols :: Coeff(i, c) == values[i][c]
      {
        AssignRow(r, values[r]);
        r := r + 1;
      }
    }
  }
}
