/**
 * The range-descriptor vocabulary of namespace `eig` (include/eig/eigen.hpp):
 * the range literals `all`, `first`, `last`, `range` and `static_sized_range`,
 * the type traits `actual_range`, `is_range`, `has_static_size` and
 * `range_static_size_or`, the resolution of a range against an axis extent
 * into an `index_span`, and the translation of the layout enumerations into
 * Eigen's option constants.
 *
 * C++ types become values here: a range struct is a constructor of
 * `RangeLiteral`, and its template parameters (`N`, `Start`, `Finish`) are
 * fields. Integers are mathematical; `std::ptrdiff_t` and `int` overflow is
 * not modelled.
 */
module Eig {

  /** Eigen's sentinel for an extent that is not known at compile time (`eig::dynamic`). */
  const Dynamic: int := -1

  /**
   * One constructor per range struct. The compile-time factories
   * `first<N>`, `last<N>` and `range<S, F>` can also be passed without being
   * called, as a pointer to the nullary function; `uninvoked` records that form.
   */
  datatype RangeLiteral =
    | AllRange                                                // all_range
    | HeadRange(n: int)                                       // head_range
    | TailRange(n: int)                                       // tail_range
    | ContiguousRange(start: int, n: int)                     // contiguous_range
    | StaticSizedContiguousRange(len: int, start: int)        // static_sized_contiguous_range<N>
    | StaticHeadRange(len: int, uninvoked: bool)              // static_head_range<N>
    | StaticTailRange(len: int, uninvoked: bool)              // static_tail_range<N>
    | StaticRange(start: int, finish: int, uninvoked: bool)   // static_range<Start, Finish>

  /**
   * The type of an indexing argument, as far as the traits can tell it apart:
   * an integral scalar, a range literal (possibly an uninvoked factory), or
   * anything else.
   */
  datatype Arg = Integral(value: int) | Ranged(range: RangeLiteral) | Unsupported

  /** A resolved span: the first index and the number of indices. */
  datatype IndexSpan = IndexSpan(start: int, n: int) {
    /** Index `k` lies in the span. */
    predicate Covers(k: int) {
      start <= k < start + n
    }

    /** The span is a well-formed sub-range of an axis of extent `size`. */
    predicate InBounds(size: int) {
      0 <= start && 0 <= n && start + n <= size
    }
  }

  datatype Option<T> = None | Some(value: T)

  // ---------------------------------------------------------------------------
  // Factories
  // ---------------------------------------------------------------------------

  /** `eig::all` */
  const All: RangeLiteral := AllRange

  /** `first(n)` */
  function First(n: int): RangeLiteral {
    HeadRange(n)
  }

  /** `last(n)` */
  function Last(n: int): RangeLiteral {
    TailRange(n)
  }

  /** `range(start, finish)`: inclusive bounds, stored as a start and a length. */
  function Range(start: int, finish: int): RangeLiteral {
    ContiguousRange(start, finish - start + 1)
  }

  /** `static_sized_range<N>(start)` */
  function StaticSizedRange(len: int, start: int): RangeLiteral {
    StaticSizedContiguousRange(len, start)
  }

  /** `first<N>()` */
  function StaticFirst(len: int): RangeLiteral {
    StaticHeadRange(len, false)
  }

  /** `last<N>()` */
  function StaticLast(len: int): RangeLiteral {
    StaticTailRange(len, false)
  }

  /** `range<Start, Finish>()` */
  function StaticRangeOf(start: int, finish: int): RangeLiteral {
    StaticRange(start, finish, false)
  }

  /** `first<N>` named without a call: a pointer to the factory. */
  function StaticFirstPointer(len: int): RangeLiteral {
    StaticHeadRange(len, true)
  }

  /** `last<N>` named without a call. */
  function StaticLastPointer(len: int): RangeLiteral {
    StaticTailRange(len, true)
  }

  /** `range<Start, Finish>` named without a call. */
  function StaticRangePointer(start: int, finish: int): RangeLiteral {
    StaticRange(start, finish, true)
  }

  // ---------------------------------------------------------------------------
  // Type traits
  // ---------------------------------------------------------------------------

  /** The literal is an uninvoked factory, that is, a pointer to a function. */
  predicate IsUninvoked(r: RangeLiteral) {
    (r.StaticHeadRange? || r.StaticTailRange? || r.StaticRange?) && r.uninvoked
  }

  /** The struct derives from `has_static_size_tag`. */
  predicate IsStaticVariant(r: RangeLiteral) {
    r.StaticSizedContiguousRange? || r.StaticHeadRange? || r.StaticTailRange? || r.StaticRange?
  }

  /** `actual_range`: a pointer to a function stands for the function's result type. */
  function ActualRange(r: RangeLiteral): (a: RangeLiteral)
    ensures !IsUninvoked(a)
    ensures !IsUninvoked(r) ==> a == r
    ensures IsUninvoked(r) ==> a == r.(uninvoked := false)
  {
    match r
    case StaticHeadRange(len, _) => StaticHeadRange(len, false)
    case StaticTailRange(len, _) => StaticTailRange(len, false)
    case StaticRange(s, f, _) => StaticRange(s, f, false)
    case _ => r
  }

  /** `actual_range` on an argument type; integers and other types pass through. */
  function Actual(a: Arg): Arg {
    if a.Ranged? then Ranged(ActualRange(a.range)) else a
  }

  /** `is_range`: the actual type derives from `base_range`. */
  predicate IsRange(a: Arg) {
    Actual(a).Ranged?
  }

  /** `has_static_size`: the actual type derives from `has_static_size_tag`. */
  predicate HasStaticSize(a: Arg) {
    Actual(a).Ranged? && IsStaticVariant(Actual(a).range)
  }

  /** The member `static_size` of a static struct: `N`, or `Finish - Start + 1`. */
  function StaticSize(r: RangeLiteral): int
    requires IsStaticVariant(r)
  {
    if r.StaticRange? then r.finish - r.start + 1 else r.len
  }

  /**
   * `range_static_size_or<T, Default>`. The compile-time length, when there
   * is one, is the length the descriptor resolves to on every axis.
   */
  function StaticSizeOr(a: Arg, default: int): (s: int)
    ensures HasStaticSize(a) ==> forall size :: Resolve(a.range, size).n == s
    ensures !HasStaticSize(a) ==> s == default
  {
    if HasStaticSize(a) then StaticSize(Actual(a).range) else default
  }

  // ---------------------------------------------------------------------------
  // Resolution
  // ---------------------------------------------------------------------------

  /** Variants whose span begins at index 0. */
  predicate StartsAtZero(r: RangeLiteral) {
    r.AllRange? || r.HeadRange? || r.StaticHeadRange?
  }

  /** Variants whose span ends at the end of the axis. */
  predicate EndsAtExtent(r: RangeLiteral) {
    r.AllRange? || r.TailRange? || r.StaticTailRange?
  }

  /**
   * The `index_span` constructors: a descriptor and the extent of the axis
   * it indexes give a concrete span. Nothing is bounds-checked.
   */
  function Resolve(r: RangeLiteral, size: int): (s: IndexSpan)
    ensures IsStaticVariant(r) ==> s.n == StaticSize(r)
    ensures StartsAtZero(r) ==> s.start == 0
    ensures EndsAtExtent(r) ==> s.start + s.n == size
  {
    match r
    case AllRange => IndexSpan(0, size)
    case HeadRange(n) => IndexSpan(0, n)
    case TailRange(n) => IndexSpan(size - n, n)
    case ContiguousRange(start, n) => IndexSpan(start, n)
    case StaticSizedContiguousRange(len, start) => IndexSpan(start, len)
    case StaticHeadRange(len, false) => IndexSpan(0, len)
    case StaticTailRange(len, false) => IndexSpan(size - len, len)
    case StaticRange(start, finish, false) => IndexSpan(start, finish - start + 1)
    // the overloads taking a pointer to the factory
    case StaticHeadRange(len, true) => IndexSpan(0, len)
    case StaticTailRange(len, true) => IndexSpan(size - len, len)
    case StaticRange(start, finish, true) => IndexSpan(start, finish - start + 1)
  }

  /** `all` selects the whole axis. */
  lemma AllResolvesToAxis(size: int)
    ensures Resolve(All, size) == IndexSpan(0, size)
    ensures forall k :: Resolve(All, size).Covers(k) <==> 0 <= k < size
  {
  }

  /** `first(n)` starts at 0 and `last(n)` ends at the extent, whatever the extent. */
  lemma HeadAndTailResolve(n: int, size: int)
    ensures Resolve(First(n), size) == IndexSpan(0, n)
    ensures Resolve(Last(n), size) == IndexSpan(size - n, n)
    ensures forall k :: Resolve(Last(n), size).Covers(k) <==> size - n <= k < size
  {
  }

  /** `range(s, f)` stores length `f - s + 1` and selects exactly the indices `s..f`. */
  lemma RangeIsInclusive(start: int, finish: int, size: int)
    ensures Range(start, finish) == ContiguousRange(start, finish - start + 1)
    ensures Resolve(Range(start, finish), size) == IndexSpan(start, finish - start + 1)
    ensures forall k :: Resolve(Range(start, finish), size).Covers(k) <==> start <= k <= finish
  {
  }

  /** The compile-time factories resolve by their template parameters. */
  lemma StaticFactoriesResolve(len: int, start: int, finish: int, size: int)
    ensures Resolve(StaticSizedRange(len, start), size) == IndexSpan(start, len)
    ensures Resolve(StaticFirst(len), size) == IndexSpan(0, len)
    ensures Resolve(StaticLast(len), size) == IndexSpan(size - len, len)
    ensures Resolve(StaticRangeOf(start, finish), size) == IndexSpan(start, finish - start + 1)
    ensures forall k :: Resolve(StaticRangeOf(start, finish), size).Covers(k) <==> start <= k <= finish
  {
  }

  /** A factory passed as a function pointer resolves like the value it returns. */
  lemma PointerFormsResolveAlike(len: int, start: int, finish: int, size: int)
    ensures Resolve(StaticFirstPointer(len), size) == Resolve(StaticFirst(len), size)
    ensures Resolve(StaticLastPointer(len), size) == Resolve(StaticLast(len), size)
    ensures Resolve(StaticRangePointer(start, finish), size) == Resolve(StaticRangeOf(start, finish), size)
  {
  }

  /** Resolution sees through `actual_range` for every literal. */
  lemma ResolveSeesThroughPointer(r: RangeLiteral, size: int)
    ensures Resolve(ActualRange(r), size) == Resolve(r, size)
  {
  }

  /** The traits give the same answer for `first<N>` and `first<N>()` (and the other two). */
  lemma TraitsSeeThroughPointer(r: RangeLiteral, default: int)
    ensures IsRange(Ranged(r)) && IsRange(Ranged(ActualRange(r)))
    ensures HasStaticSize(Ranged(r)) == HasStaticSize(Ranged(ActualRange(r)))
    ensures StaticSizeOr(Ranged(r), default) == StaticSizeOr(Ranged(ActualRange(r)), default)
  {
  }

  /** `has_static_size` holds exactly for the static structs; never for integers or other types. */
  lemma StaticSizeExactlyForStaticVariants(r: RangeLiteral, i: int, default: int)
    ensures HasStaticSize(Ranged(r)) <==> IsStaticVariant(r)
    ensures !HasStaticSize(Integral(i)) && !HasStaticSize(Unsupported)
    ensures StaticSizeOr(Integral(i), default) == default
    ensures !IsRange(Integral(i)) && !IsRange(Unsupported)
  {
  }

  /** Only `all`, `last(n)` and `last<N>` look at the axis extent. */
  lemma ExtentMattersOnlyForTail(r: RangeLiteral, size: int, other: int)
    requires !EndsAtExtent(r)
    ensures Resolve(r, size) == Resolve(r, other)
  {
  }

  /**
   * Under the constraints a caller must respect (the resolver checks none of
   * them), the resolved span lies within the axis.
   */
  lemma FactoriesInBounds(n: int, start: int, finish: int, len: int, size: int)
    requires 0 <= size
    ensures Resolve(All, size).InBounds(size)
    ensures 0 <= n <= size ==> Resolve(First(n), size).InBounds(size) && Resolve(Last(n), size).InBounds(size)
    ensures 0 <= start <= finish < size ==> Resolve(Range(start, finish), size).InBounds(size)
    ensures 0 <= start <= finish < size ==> Resolve(StaticRangeOf(start, finish), size).InBounds(size)
    ensures 0 <= start && 0 <= len && start + len <= size ==> Resolve(StaticSizedRange(len, start), size).InBounds(size)
    ensures 0 <= len <= size ==> Resolve(StaticFirst(len), size).InBounds(size) && Resolve(StaticLast(len), size).InBounds(size)
  {
  }

  /** An axis of extent 10 (and one of extent 5 for `last(2)`). */
  lemma AxisOfTen()
    ensures Resolve(Range(2, 5), 10) == IndexSpan(2, 4)
    ensures Resolve(First(3), 10) == IndexSpan(0, 3)
    ensures Resolve(Last(3), 10) == IndexSpan(7, 3)
    ensures Resolve(Last(2), 10) == IndexSpan(8, 2) && Resolve(Last(2), 5) == IndexSpan(3, 2)
  {
  }

  // ---------------------------------------------------------------------------
  // Layout enumerations and Eigen's option constants
  // ---------------------------------------------------------------------------

  datatype Storage = ColumnMajor | RowMajor
  datatype Alignment = AutoAlign | DontAlign
  datatype TransformType = AffineFull | AffineCompact | Projective

  // Eigen's StorageOptions and TransformTraits values.
  const EigenColMajor: bv8 := 0
  const EigenRowMajor: bv8 := 0x1
  const EigenAutoAlign: bv8 := 0
  const EigenDontAlign: bv8 := 0x2
  const EigenAffine: int := 0x2
  const EigenAffineCompact: int := 0x12
  const EigenProjective: int := 0x3

  /** `to_eigen_option(storage)` */
  function ToEigenStorageOption(s: Storage): bv8 {
    if s == ColumnMajor then EigenColMajor else EigenRowMajor
  }

  /** `to_eigen_option(alignment)` */
  function ToEigenAlignmentOption(a: Alignment): bv8 {
    if a == AutoAlign then EigenAutoAlign else EigenDontAlign
  }

  /** `to_eigen_transform_type` */
  function ToEigenTransformType(t: TransformType): int {
    if t == AffineFull then EigenAffine
    else if t == AffineCompact then EigenAffineCompact
    else EigenProjective
  }

  /** The option word the type aliases pass to Eigen: both options combined with `|`. */
  function EigenOptions(s: Storage, a: Alignment): bv8 {
    ToEigenStorageOption(s) | ToEigenAlignmentOption(a)
  }

  /** Reads the storage order and the alignment back out of an option word. */
  function DecodeEigenOptions(o: bv8): (Storage, Alignment) {
    (if o & EigenRowMajor != 0 then RowMajor else ColumnMajor,
     if o & EigenDontAlign != 0 then DontAlign else AutoAlign)
  }

  /** Reads a transform type back from Eigen's constant. */
  function DecodeEigenTransformType(v: int): Option<TransformType> {
    if v == EigenAffine then Some(AffineFull)
    else if v == EigenAffineCompact then Some(AffineCompact)
    else if v == EigenProjective then Some(Projective)
    else None
  }

  /**
   * column_major goes to ColMajor, row_major to RowMajor, auto_align to
   * AutoAlign, dont_align to DontAlign, and the combined option word keeps
   * both choices.
   */
  lemma EigenOptionsRoundTrip(s: Storage, a: Alignment)
    ensures ToEigenStorageOption(s) == (if s == ColumnMajor then EigenColMajor else EigenRowMajor)
    ensures ToEigenAlignmentOption(a) == (if a == AutoAlign then EigenAutoAlign else EigenDontAlign)
    ensures DecodeEigenOptions(EigenOptions(s, a)) == (s, a)
  {
  }

  /** affine_full goes to Affine, affine_compact to AffineCompact, projective to Projective; no two collide. */
  lemma EigenTransformTypeRoundTrip(t: TransformType)
    ensures DecodeEigenTransformType(ToEigenTransformType(t)) == Some(t)
  {
  }
}
