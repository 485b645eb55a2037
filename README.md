# Range indexing and list construction for Eigen types, in Dafny

The `eig` layer adds two features to the Eigen linear-algebra library's class bodies.

The first is a small language of range descriptors for taking sub-blocks. The descriptors are `all`, `first(n)`, `last(n)`, `range(s, f)` and `static_sized_range<N>(s)`, plus the compile-time forms `first<N>()`, `last<N>()` and `range<S, F>()`. Each descriptor resolves against an axis extent to an `index_span` `(start, n)`. Type traits report whether a descriptor has a compile-time length.

The second is a set of list-literal constructors for vectors and matrices.

This project models three files of that layer:

| file | module | what it covers |
|---|---|---|
| `include/eig/eigen.hpp` | `Eig` (`eig.dfy`) | The descriptor vocabulary as a datatype. A template parameter becomes a field, and a flag marks a factory passed uncalled as a function pointer. Also modelled: the traits `actual_range`, `is_range`, `has_static_size` and `range_static_size_or`; resolution to `index_span`; and the mapping of the storage, alignment and transform enumerations to Eigen's option constants. |
| `include/eig/plugins/eigen_densebase_plugin.hpp` | `DenseBasePlugin` (`densebase.dfy`) | Pure metadata: `to_index_span`, `is_all_range`, `block_static_size`, `is_block_inner_panel`, `is_range_or_int`, the enable conditions of both `operator()` forms, and the Block / VectorBlock arguments they compute. The object is its compile-time constants plus its run-time `rows()` and `cols()`. |
| `include/eig/plugins/eigen_impl_list_construct.hpp` | `ListConstruct` (`list_construct.dfy`) | A class `Dense<T>` whose fields are the compile-time shape, `rows`, `cols` and an array of coefficients in storage order. Its constructors and methods follow the source: the two size constructors, the 1-D initializer-list constructor (a loop), `assign_1d_list` (a recursive method), the constructor taking `static_size` scalars, and the row-list constructor (a loop over rows). The static_assert and enable_if conditions are predicates that the constructors require. |

Eigen's `Dynamic` is the integer -1, as `eig::dynamic` is. All arithmetic is on mathematical integers.

The model follows the code where its behaviour could be described otherwise:

- An integral index has no static size under `has_static_size`. Even so, `block_static_size` gives it extent 1 (`BlockStaticSize`).
- `range<S, F>()` with `F = S - 2` has static size -1. That value is `Dynamic`, so the view it produces is dynamically sized. Such a range has negative length and is invalid anyway.

## Model

| member | source | states |
|---|---|---|
| `Eig.ActualRange` | include/eig/eigen.hpp:139-167 | A function-pointer form stands for the result of calling it: the flag is cleared and every other field is kept. Any other literal passes through unchanged. The result is never a pointer form. |
| `Eig.StaticSizeOr` | include/eig/eigen.hpp:150-181 | For a descriptor with a static size, the value is the length it resolves to on every axis extent. Otherwise it is `Default`. |
| `Eig.Resolve` | include/eig/eigen.hpp:183-234 | A static variant resolves to a length equal to its static size. `all`, `first(n)` and `first<N>` start at 0. `all`, `last(n)` and `last<N>` end exactly at the axis extent. |
| `Eig.AllResolvesToAxis` | include/eig/eigen.hpp:188 | `all` resolves to `(0, size)` and covers exactly the indices `0..size-1`. |
| `Eig.HeadAndTailResolve` | include/eig/eigen.hpp:190-192 | `first(n)` resolves to `(0, n)`. `last(n)` resolves to `(size - n, n)` and covers exactly the last `n` indices, whatever the extent. |
| `Eig.RangeIsInclusive` | include/eig/eigen.hpp:111-114 | `range(s, f)` stores length `f - s + 1`, resolves to `(s, f - s + 1)` and covers exactly `s..f`. |
| `Eig.StaticFactoriesResolve` | include/eig/eigen.hpp:196-216 | `static_sized_range<N>(s)` resolves to `(s, N)`, `first<N>()` to `(0, N)`, `last<N>()` to `(size - N, N)`, and `range<S, F>()` to `(S, F - S + 1)`, which covers exactly `S..F`. |
| `Eig.PointerFormsResolveAlike` | include/eig/eigen.hpp:218-233 | `first<N>`, `last<N>` and `range<S, F>` passed as function pointers resolve to the same spans as the values they return. |
| `Eig.ResolveSeesThroughPointer` | include/eig/eigen.hpp:202-233 | For every literal, resolving its `actual_range` gives the same span as resolving the literal. |
| `Eig.TraitsSeeThroughPointer` | include/eig/eigen.hpp:163-181 | `is_range`, `has_static_size` and `range_static_size_or` agree between a function-pointer form and its result. |
| `Eig.StaticSizeExactlyForStaticVariants` | include/eig/eigen.hpp:173-175 | `has_static_size` holds iff the literal is one of the four static structs. It never holds for an integer or another type, and then `range_static_size_or` is `Default`. Integers and other types are not ranges. |
| `Eig.ExtentMattersOnlyForTail` | include/eig/eigen.hpp:188-216 | Every descriptor except `all`, `last(n)` and `last<N>` resolves to the same span against any two extents. |
| `Eig.FactoriesInBounds` | include/eig/eigen.hpp:183-234 | Under the caller's constraints, the resolved span lies within `[0, size)`. The constraints are `0 <= n <= size` for `first`/`last`, `0 <= s <= f < size` for `range`, and `s + N <= size` for `static_sized_range`. The resolver checks none of them. |
| `Eig.AxisOfTen` | include/eig/eigen.hpp:188-194 | On an axis of 10, `range(2,5)` gives `(2,4)`, `first(3)` gives `(0,3)` and `last(3)` gives `(7,3)`. `last(2)` gives `(8,2)` on 10 and `(3,2)` on 5. |
| `Eig.EigenOptionsRoundTrip` | include/eig/eigen.hpp:264-274 | column_major maps to ColMajor, row_major to RowMajor, auto_align to AutoAlign and dont_align to DontAlign. Combining the two options with `|` loses neither choice. |
| `Eig.EigenTransformTypeRoundTrip` | include/eig/eigen.hpp:276-283 | affine_full maps to Affine, affine_compact to AffineCompact and projective to Projective. The constant gives the type back. |
| `DenseBasePlugin.ToIndexSpan` | include/eig/plugins/eigen_densebase_plugin.hpp:19-25 | An integral index `i` becomes a span of length 1 that covers exactly `i`. |
| `DenseBasePlugin.ToIndexSpanDelegates` | include/eig/plugins/eigen_densebase_plugin.hpp:13-25 | A range descriptor is handed to `index_span` with the axis extent. An integer `i` gives `(i, 1)`. |
| `DenseBasePlugin.BlockStaticSize` | include/eig/plugins/eigen_densebase_plugin.hpp:31-36 | When the compile-time extent is not Dynamic, it equals the run-time length the argument resolves to on every axis that agrees with the container's extent. Without `all` and without a static size, the extent is Dynamic. |
| `DenseBasePlugin.BlockStaticSizeCases` | include/eig/plugins/eigen_densebase_plugin.hpp:31-36 | The extent is 1 for an integer, the container's extent for `all`, and otherwise `range_static_size_or<R, Dynamic>`. |
| `DenseBasePlugin.InnerPanelFollowsInnerAxis` | include/eig/plugins/eigen_densebase_plugin.hpp:38-41 | A block is an inner panel iff the argument for the storage-contiguous axis is `all`: the rows in column-major storage, the columns in row-major storage. This holds for all four combinations. |
| `DenseBasePlugin.InnerPanelIsContiguous` | include/eig/plugins/eigen_densebase_plugin.hpp:38-47 | An inner-panel block within the object occupies one interval of storage. Every coefficient of the block lies in it, and every position in it holds a coefficient of the block. |
| `DenseBasePlugin.SubMatrixEnabledCases` | include/eig/plugins/eigen_densebase_plugin.hpp:53-66 | The 2-argument `operator()` exists iff both arguments are ranges, or one is a range and the other an integer. It never exists for two integers or for a type that is neither. |
| `DenseBasePlugin.SubVectorEnabledCases` | include/eig/plugins/eigen_densebase_plugin.hpp:91-92 | The 1-argument `operator()` exists iff the argument is a range and the object is a compile-time vector. |
| `DenseBasePlugin.SubMatrix` | include/eig/plugins/eigen_densebase_plugin.hpp:62-86 | On a consistent object, each compile-time extent of the view that is not Dynamic equals the view's run-time size. The const overload yields a read-only view. |
| `DenseBasePlugin.SubMatrixSpans` | include/eig/plugins/eigen_densebase_plugin.hpp:69-72 | The block is `(r.start, c.start, r.n, c.n)`: the row argument is resolved against `rows()` and the column argument against `cols()`. Its compile-time extents and inner-panel flag come from `block_static_size` and `is_block_inner_panel`. |
| `DenseBasePlugin.SubMatrixAxesIndependent` | include/eig/plugins/eigen_densebase_plugin.hpp:82-85 | The row part of the block does not depend on the column argument or the column count, and the column part does not depend on the row side. |
| `DenseBasePlugin.SubVector` | include/eig/plugins/eigen_densebase_plugin.hpp:91-105 | On a consistent object, the view's compile-time length is Dynamic or equals its run-time length. |
| `DenseBasePlugin.SubVectorSpan` | include/eig/plugins/eigen_densebase_plugin.hpp:93-96 | The range is resolved against `size()`. The compile-time length is `block_static_size<Range, static_size>`. |
| `DenseBasePlugin.ConstOverloadsAgree` | include/eig/plugins/eigen_densebase_plugin.hpp:67-104 | The const and non-const overloads of both forms give identical spans and extents and differ only in constness. |
| `ListConstruct.Dense.Resize` | include/eig/plugins/eigen_impl_list_construct.hpp:30 | Afterwards the object has exactly the requested rows and columns and storage of that size. |
| `ListConstruct.Dense.ResizeVector` | include/eig/plugins/eigen_impl_list_construct.hpp:54 | A row vector becomes `1 x length` and any other vector `length x 1`. |
| `ListConstruct.Dense.FromSize` | include/eig/plugins/eigen_impl_list_construct.hpp:21-31 | Requires a dynamic-size object that is not a compile-time vector. Yields shape `rows x cols`. |
| `ListConstruct.Dense.FromLength` | include/eig/plugins/eigen_impl_list_construct.hpp:40-55 | Requires a dynamic-size compile-time vector. Yields `length` coefficients, oriented by the vector kind. |
| `ListConstruct.Dense.FromList` | include/eig/plugins/eigen_impl_list_construct.hpp:75-84 | Requires a dynamic-size object. Yields size `values.size()` with coefficient `i` equal to `values[i]` for every `i`. |
| `ListConstruct.Assigned` | include/eig/plugins/eigen_impl_list_construct.hpp:86-94 | Positions `i..i+k` take `x0..xk` and every other position keeps its value. With no values nothing changes. |
| `ListConstruct.Dense.AssignList` | include/eig/plugins/eigen_impl_list_construct.hpp:86-94 | The recursive writes leave the storage equal to `Assigned` of the old storage. |
| `ListConstruct.AssignedFromStart` | include/eig/plugins/eigen_impl_list_construct.hpp:105-108 | Assigning `static_size` values from position 0 fills the storage with exactly those values, in order. |
| `ListConstruct.Dense.FromScalars` | include/eig/plugins/eigen_impl_list_construct.hpp:101-108 | Requires the enable condition. The object has its compile-time shape, and positions `0..static_size-1` hold the arguments in order. |
| `ListConstruct.VectorListConstructorsExclusive` | include/eig/plugins/eigen_impl_list_construct.hpp:97-104 | The initializer-list and separate-scalars constructors never both apply. The scalars form takes exactly `static_size` values, never 2, 3 or 4. |
| `ListConstruct.SizeConstructorsExclusive` | include/eig/plugins/eigen_impl_list_construct.hpp:21-55 | The `(from_size, rows, cols)` and `(from_size, length)` conditions are never both met. |
| `ListConstruct.VectorCoefficientIsLinear` | include/eig/plugins/eigen_impl_list_construct.hpp:83 | Coefficient `i` of a vector sits at storage position `i` in either storage order. This is why `(*this)[i]` writes position `i`. |
| `ListConstruct.Dense.AssignRow` | include/eig/plugins/eigen_impl_list_construct.hpp:150 | Row `r` takes `src` and every other coefficient is kept. |
| `ListConstruct.Dense.FromRows` | include/eig/plugins/eigen_impl_list_construct.hpp:141-151 | `rows == values.size()`. `cols` is the size of the first row, or 0 for an empty list. Coefficient `(r, c)` is `values[r][c]`. |

## Left out

- The renaming macros `GRIT_ALIAS_EIGEN_*` and `GRIT_ALIAS_EIGEN_FN` (include/eig/plugins/eigen_plugin_common.hpp): they are one-to-one renames of Eigen members with no logic of their own.
- The free-standing function export and the `scalar +/- matrix` operators (include/eig/eigen.hpp:372-441): thin wrappers over Eigen arithmetic, most of it floating point.
- The type aliases `array2`, `array`, `mat`, `vec`, `row_vec`, `transform` and `quat`: they only instantiate Eigen templates. The option word they build with `|` is modelled by `EigenOptions`.
- The quaternion, transform, matrixbase, matrix and array plugins: alias lists and include glue. The array plugin includes `grit/adapt/internal/eigen_impl_list_construct.hpp`, which is not part of this model.
- The disabled `#if 0` block of eigen_impl_list_construct.hpp: it is not compiled.
- Machine integers: `std::ptrdiff_t`, and the `int` parameters of `range` and `static_sized_range`, are mathematical integers. Overflow and narrowing are not modelled.
- Bounds checking: the code performs none, so the resolver's results are not restricted. `FactoriesInBounds` states the in-bounds fact only under explicit preconditions.
- Eigen itself is not part of this model. Its storage is an array in storage order, and Block and VectorBlock views are the arguments passed to their constructors. No aliasing view is built.
- Eigen's constant values are taken from Eigen's own definitions: ColMajor 0, RowMajor 1, AutoAlign 0, DontAlign 2, Affine 2, AffineCompact 0x12, Projective 3. So are SizeAtCompileTime and IsVectorAtCompileTime.
- Eigen's rule that a compile-time row vector must be row-major, and a compile-time column vector column-major, is not modelled. The storage order is a free field of the shape.
- Compile-time rejection becomes `requires`: a static_assert, an enable_if, or an overload that does not exist for a type. Eigen's run-time assertions become `requires` too: fixed extents must match the requested size, and every row must have the first row's length.
- The `static_cast<scalar>` applied to each value of the 1-D initializer list: the values are given already as scalars.
- The 1-D initializer-list constructor's enable_if does not depend on a template parameter of the constructor. Whether C++ then removes the overload or reports a hard error is not modelled: both reject the call, and the model requires the condition.
- `ListConstruct.Dense.Resize`: this is weaker than Eigen, because it always allocates new storage. Eigen keeps the buffer when the total size is unchanged. In both cases the coefficients afterwards are unspecified, and every constructor here overwrites them.
- `ListConstruct.Dense.AssignRow`: Eigen's row assignment `row(r) = src` is written as a loop over columns. Eigen's own evaluation order is not modelled.
