/**
  `lite::Tensor` keeps a copy of the layout of its implementation object. Every call that
  returns leaves the two in agreement; the calls that throw half way are listed exactly,
  for one tensor and for any number of tensors that share implementations.
 */
module LiteTensor {
  import opened Arith
  import opened Layout
  import opened Reshape
  import opened TensorLayouts
  import opened LiteReshape
  import opened Overlap
  import OverlapCheck
  import opened SafeMultiply
  import opened SubTensor
  import opened Wrappers

  datatype DType = Float | Half | Int | Int16 | Int8 | Uint8 | Uint | Uint16 | Int64

  /** `lite::Layout`; the number of dimensions is the length of `shapes`. */
  datatype LiteLayout = LiteLayout(shapes: seq<nat>, dtype: DType)

  const EMPTY := LiteLayout([], Float)

  function ElemSize(d: DType): nat {
    match d
    case Int64 => 8
    case Float => 4
    case Int => 4
    case Uint => 4
    case Half => 2
    case Int16 => 2
    case Uint16 => 2
    case Int8 => 1
    case Uint8 => 1
  }

  /** Width in bits, as the name of the type says. */
  function Bits(d: DType): nat {
    if d == Int64 then 64
    else if d == Half || d == Int16 || d == Uint16 then 16
    else if d == Int8 || d == Uint8 then 8
    else 32
  }

  lemma ElemSizeIsWidth(d: DType)
    ensures 8 * ElemSize(d) == Bits(d)
  {
  }

  /** `get_tensor_total_size_in_byte`: zero without dimensions; `size_t` arithmetic. */
  function TotalBytes(l: LiteLayout): nat {
    (if l.shapes == [] then 0 else Prod(l.shapes)) * ElemSize(l.dtype) % SIZE_LIMIT
  }

  function TotalLength(l: LiteLayout): (n: nat)
    ensures n < SIZE_LIMIT
  {
    TotalBytes(l) / ElemSize(l.dtype)
  }

  /**
    The tensor object behind the implementation: its axes, its element type once it has one, the bytes
    its storage holds, where in its block of memory they start, and whether the block may be replaced.
   */
  datatype ImplState = ImplState(axes: seq<Axis>, dtype: Option<DType>, size: nat, start: nat, mayRealloc: bool)

  const NO_TENSOR := ImplState([], None, 0, 0, true)

  predicate MayGrow(st: ImplState) {
    st.mayRealloc && st.start == 0
  }

  /** Contiguous strides for the shape, and its element count, fit `size_t`. */
  predicate InSizeT(shapes: seq<nat>) {
    forall i :: 0 <= i <= |shapes| ==> SuffixProd(shapes, i) < SIZE_LIMIT
  }

  function SuffixProd(shapes: seq<nat>, i: nat): nat
    requires i <= |shapes|
  {
    Prod(shapes[i..])
  }

  /**
    Layouts `to_impl_layout` takes: fewer than seven dimensions, contiguous strides that fit, and not the
    two types without a counterpart.
   */
  predicate Convertible(l: LiteLayout) {
    |l.shapes| < MAX_NDIM && InSizeT(l.shapes) && l.dtype != Uint && l.dtype != Int64
  }

  /** `to_impl_layout`: the strides are multiplied up with an overflow check, before the type is looked at. */
  method ToImplLayout(l: LiteLayout) returns (axes: Option<seq<Axis>>)
    requires forall i :: 0 <= i < |l.shapes| ==> l.shapes[i] < SIZE_LIMIT
    ensures axes == if Convertible(l) then Some(ContiguousAxes(l.shapes)) else None
  {
    hide Prod;
    if |l.shapes| >= MAX_NDIM {
      return None;
    }
    var n := |l.shapes|;
    var accum := 1;
    var v: seq<Axis> := [];
    NothingBehind(l.shapes);
    for i := n downto 0
      invariant accum == SuffixProd(l.shapes, i) && |v| == n - i
      invariant forall j :: i <= j <= n ==> SuffixProd(l.shapes, j) < SIZE_LIMIT
      invariant forall j :: i <= j < n ==> v[j - i] == Axis(l.shapes[j], SuffixProd(l.shapes, j + 1))
    {
      v := [Axis(l.shapes[i], accum)] + v;
      assert forall j :: i < j < n ==> v[j - i] == Axis(l.shapes[j], SuffixProd(l.shapes, j + 1));
      OneMoreBehind(l.shapes, i);
      var next := Multiply(accum, l.shapes[i]);
      if next.None? {
        assert SuffixProd(l.shapes, i) >= SIZE_LIMIT;
        return None;
      }
      accum := next.value;
    }
    if l.dtype == Uint || l.dtype == Int64 {
      return None;
    }
    assert v == ContiguousAxes(l.shapes);
    return Some(v);
  }

  /** Dimensions of one index each: at most six, of one of the seven types that have a counterpart. */
  lemma UnitsConvertIff(shapes: seq<nat>, d: DType)
    requires forall i :: 0 <= i < |shapes| ==> shapes[i] == 1
    ensures Convertible(LiteLayout(shapes, d)) <==>
      |shapes| <= 6 && d in {Float, Half, Int, Int16, Int8, Uint8, Uint16}
  {
    forall i | 0 <= i <= |shapes| ensures SuffixProd(shapes, i) == 1 {
      ProdOfOnes(shapes[i..]);
    }
  }

  lemma {:induction false} ProdOfOnes(s: seq<nat>)
    requires forall i :: 0 <= i < |s| ==> s[i] == 1
    ensures Prod(s) == 1
  {
    if s != [] {
      ProdOfOnes(s[..|s| - 1]);
    }
  }

  lemma NothingBehind(shapes: seq<nat>)
    ensures SuffixProd(shapes, |shapes|) == 1
  {
    assert shapes[|shapes|..] == [];
  }

  lemma OneMoreBehind(shapes: seq<nat>, i: nat)
    requires i < |shapes|
    ensures SuffixProd(shapes, i) == SuffixProd(shapes, i + 1) * shapes[i]
  {
    ProdCons(shapes, i, |shapes|);
    assert shapes[i..] == shapes[i..|shapes|] && shapes[i + 1..] == shapes[i + 1..|shapes|];
  }

  predicate ImplOk(st: ImplState) {
    && |st.axes| < MAX_NDIM && InSizeT(Extents(st.axes))
    && (st.dtype.None? ==> st.axes == [])
    && st.dtype != Some(Uint) && st.dtype != Some(Int64)
  }

  /** `to_lite_layout`. */
  function ToLite(st: ImplState): LiteLayout {
    if st.dtype.None? then EMPTY else LiteLayout(Extents(st.axes), st.dtype.value)
  }

  /** Axes with contiguous strides. */
  function ContiguousAxes(shape: seq<nat>): (l: seq<Axis>)
    ensures |l| == |shape| && Extents(l) == shape
  {
    seq(|shape|, i requires 0 <= i < |shape| => Axis(shape[i], Prod(shape[i + 1..])))
  }

  /** They store element `k` at offset `k`. */
  lemma {:induction false} ContiguousIsIdentity(shape: seq<nat>, i: nat)
    requires i <= |shape|
    ensures Dense(ContiguousAxes(shape), i) && SuffixCount(ContiguousAxes(shape), i) == Prod(shape[i..])
    ensures i == 0 ==> IsIdentity(ContiguousAxes(shape))
    decreases |shape| - i
  {
    var l := ContiguousAxes(shape);
    if i < |shape| {
      ContiguousIsIdentity(shape, i + 1);
      ProdCons(shape, i, |shape|);
      assert shape[i..] == shape[i..|shape|] && shape[i + 1..] == shape[i + 1..|shape|];
    }
    if i == 0 {
      DenseIsIdentity(l);
    }
  }

  // ---- contiguous strides pass the overlap check -----------------------------------------

  /** In a contiguous layout an outer stride covers an inner axis, even a longer one than is left of it. */
  lemma ContiguousNested(shape: seq<nat>, i: nat, j: nat)
    requires i < j < |shape| && Prod(shape) > 0
    ensures var l := ContiguousAxes(shape); l[j].stride > 0 && l[j].stride * l[j].shape <= l[i].stride
  {
    hide *;
    AxisOf(shape, i);
    AxisOf(shape, j);
    OneMoreBehind(shape, j);
    ShorterSuffix(shape, i + 1, j);
  }

  lemma AxisOf(shape: seq<nat>, i: nat)
    requires i < |shape|
    ensures ContiguousAxes(shape)[i] == Axis(shape[i], SuffixProd(shape, i + 1))
    ensures Prod(shape) > 0 ==> SuffixProd(shape, i + 1) > 0
  {
    if Prod(shape) > 0 {
      SuffixPositive(shape, i + 1);
    }
  }

  lemma ShorterSuffix(shape: seq<nat>, i: nat, j: nat)
    requires i <= j <= |shape| && Prod(shape) > 0
    ensures SuffixProd(shape, j) <= SuffixProd(shape, i)
  {
    hide Prod;
    var m := shape[i..];
    SuffixPositive(shape, i);
    SuffixPositive(m, j - i);
    ProdSplit(m, j - i);
    assert m[j - i..] == shape[j..];
    AtLeastFactor(Prod(m[..j - i]), Prod(m[j - i..]));
  }

  lemma AtLeastFactor(a: int, b: int)
    requires a > 0 && b > 0
    ensures b <= a * b
  {
  }

  lemma SuffixPositive(shape: seq<nat>, x: nat)
    requires x <= |shape| && Prod(shape) > 0
    ensures Prod(shape[x..]) > 0 && Prod(shape[..x]) > 0
  {
    hide Prod;
    ProdSplit(shape, x);
  }

  lemma {:induction false} PairwiseNested(v: seq<Axis>)
    requires forall x, y :: 0 <= x < y < |v| ==> OverlapCheck.NestedPair(v[x], v[y])
    ensures OverlapCheck.Nested(v)
    decreases |v|
  {
    if v != [] {
      var t := v[1..];
      forall x, y | 0 <= x < y < |t| ensures OverlapCheck.NestedPair(t[x], t[y]) {
        assert OverlapCheck.NestedPair(v[x + 1], v[y + 1]);
      }
      PairwiseNested(t);
    }
  }

  /** So the copy that replaces the layout of contiguous memory never fails on the overlap check of its result. */
  lemma ContiguousAccepted(shape: seq<nat>)
    requires Prod(shape) > 0
    ensures OverlapCheck.Verify(ContiguousAxes(shape)) == OverlapCheck.Accepted
  {
    var l := ContiguousAxes(shape);
    ProdPositive(shape);
    forall x | 0 <= x < |l| ensures l[x].shape > 0 && l[x].stride > 0 {
      AxisOf(shape, x);
    }
    forall x, y | 0 <= x < y < |l| ensures OverlapCheck.NestedPair(l[x], l[y]) {
      ContiguousNested(shape, x, y);
    }
    PairwiseNested(l);
    OverlapCheck.NestedIsAccepted(l);
  }

  // ---- the implementation ----------------------------------------------------------------

  predicate IsContinueMemory(st: ImplState) {
    Count(st.axes) > 0 && IsIdentity(st.axes)
  }

  /** A call: the state afterwards, and whether it returned without throwing. */
  datatype Result<T> = Result(state: T, ok: bool)

  /** `resize` and `copy_from` set the layout first; `ensure_size` then throws where storage must grow but may not. */
  function Stored(st: ImplState): Result<ImplState> {
    var bytes := TotalBytes(ToLite(st));
    if bytes > st.size && !MayGrow(st) then Result(st, false) else Result(st.(size := bytes), true)
  }

  function ImplResize(st: ImplState, shapes: seq<nat>): Result<ImplState> {
    if st.dtype.None? then Result(st, false) else Stored(st.(axes := ContiguousAxes(shapes)))
  }

  function ImplSetLayout(st: ImplState, l: LiteLayout): Result<ImplState> {
    if !Convertible(l) then Result(st, false) else ImplResize(st.(dtype := Some(l.dtype)), l.shapes)
  }

  function ImplReshape(st: ImplState, l: LiteLayout): Result<ImplState> {
    if !Convertible(l) then Result(st, false) else ImplResize(st, l.shapes)
  }

  /** Bytes, from the first element on, to the lowest and behind the highest one. */
  function LowBytes(st: ImplState): int {
    if st.dtype.None? || !Positive(st.axes) then 0 else LowElem(st.axes) * ElemSize(st.dtype.value)
  }

  function HighBytes(st: ImplState): int {
    if st.dtype.None? || st.axes == [] || !Positive(st.axes) then 0
    else (HighElem(st.axes) + 1) * ElemSize(st.dtype.value) % SIZE_LIMIT
  }

  function SpanBytes(st: ImplState): nat {
    (HighBytes(st) - LowBytes(st)) % SIZE_LIMIT
  }

  /** The elements lie inside the storage; no storage at all is let pass. */
  predicate SpanFits(st: ImplState) {
    st.size == 0 || (st.start + LowBytes(st) >= 0 && HighBytes(st) <= st.size)
  }

  /** `reset` to the caller's memory: storage of just the size needed, which may grow again. */
  function ImplReset(st: ImplState): Result<ImplState> {
    var r := st.(size := SpanBytes(st), start := 0, mayRealloc := true);
    if SpanFits(r) then Result(r, true) else Result(st, false)
  }

  /**
    Whether the elements of `src` can be copied to contiguous memory: a contiguous source must hold them all,
    another one without storage is passed over. `copies` says that source and destination do not overlap
    and that memory is available.
   */
  predicate CanRead(src: ImplState, copies: bool) {
    if IsContinueMemory(src) then TotalBytes(ToLite(src)) <= src.size && copies else src.size == 0 || copies
  }

  /**
    Host-to-host `copy_from`: a contiguous destination takes over the layout, another one must already have
    it, and pass `is_non_overlapping_strong` unless the source has no storage.
   */
  function ImplCopyFrom(st: ImplState, src: ImplState, copies: bool): Result<ImplState> {
    if IsContinueMemory(st) then
      if st.dtype.Some? && st.dtype != src.dtype then Result(st, false)
      else
        var r := Stored(st.(axes := ContiguousAxes(Extents(src.axes)), dtype := src.dtype));
        Result(r.state, r.ok && (r.state.size == 0 || CanRead(src, copies)))
    else
      var same := st.dtype == src.dtype && Extents(st.axes) == Extents(src.axes);
      Result(st, same && (src.size == 0 || (OverlapCheck.Verify(st.axes) == OverlapCheck.Accepted && copies)))
  }

  /** A sub-tensor shares the storage from its first element on, and may not replace it. */
  function ImplSlice(st: ImplState, sub: Sub): ImplState {
    var at := if st.dtype.Some? then sub.offset * ElemSize(st.dtype.value) else 0;
    if at < st.size && st.start + at >= 0 then ImplState(sub.axes, st.dtype, st.size - at, st.start + at, false)
    else ImplState(sub.axes, st.dtype, 0, 0, false)
  }

  /** The sub-tensors `slice` makes without throwing: no longer along any axis, and inside the storage. */
  predicate CanSlice(st: ImplState, sub: Sub) {
    && st.dtype.Some? && |sub.axes| == |st.axes| > 0
    && (forall i :: 0 <= i < |st.axes| ==> sub.axes[i].shape <= st.axes[i].shape)
    && sub.offset * ElemSize(st.dtype.value) <= st.size
    && st.start + sub.offset * ElemSize(st.dtype.value) >= 0
    && SpanFits(ImplSlice(st, sub))
  }

  /** With elements and storage, and sizes that fit, every element lies in the storage exactly if the span does. */
  lemma SpanFitsMeans(st: ImplState)
    requires st.dtype.Some? && st.axes != [] && Positive(st.axes) && st.size > 0
    requires (HighElem(st.axes) + 1) * ElemSize(st.dtype.value) < SIZE_LIMIT
    ensures SpanFits(st) <==> forall k :: 0 <= k < Count(st.axes) ==> InStorage(st, At(st.axes, k))
  {
    hide *;
    var l := st.axes;
    ElemsAreSpan(l);
    SpanIsEnds(st, LowElem(l), HighElem(l));
    forall k | 0 <= k < Count(l) && InStorage(st, LowElem(l)) && InStorage(st, HighElem(l))
      ensures InStorage(st, At(l, k))
    {
      SpanMeans(l, LowElem(l), HighElem(l));
      Between(st, LowElem(l), At(l, k), HighElem(l));
    }
    SpanMeans(l, LowElem(l), HighElem(l));
  }

  lemma SpanIsEnds(st: ImplState, low: int, high: int)
    requires st.dtype.Some? && st.axes != [] && Positive(st.axes) && st.size > 0
    requires low == LowElem(st.axes) <= 0 <= high == HighElem(st.axes)
    requires (high + 1) * ElemSize(st.dtype.value) < SIZE_LIMIT
    ensures SpanFits(st) <==> InStorage(st, low) && InStorage(st, high)
  {
    hide LowElem, HighElem, Positive;
    var e := ElemSize(st.dtype.value);
    NonPositive(low, e);
    MulLe(0, high, e);
    assert (high + 1) * e == high * e + e && (low + 1) * e == low * e + e;
  }

  lemma Between(st: ImplState, low: int, at: int, high: int)
    requires low <= at <= high && InStorage(st, low) && InStorage(st, high)
    ensures InStorage(st, at)
  {
    MulLe(low, at, ElemSize(st.dtype.value));
    MulLe(at + 1, high + 1, ElemSize(st.dtype.value));
  }

  /** Where sizes fit, the bytes `reset` asks for are those from the lowest element to behind the highest one. */
  lemma SpanIsExtent(st: ImplState)
    requires st.dtype.Some? && st.axes != [] && Positive(st.axes)
    requires (HighElem(st.axes) - LowElem(st.axes) + 1) * ElemSize(st.dtype.value) < SIZE_LIMIT
    ensures SpanBytes(st) == (HighElem(st.axes) - LowElem(st.axes) + 1) * ElemSize(st.dtype.value)
  {
    hide LowElem, HighElem, Positive, ElemSize;
    ElemsAreSpan(st.axes);
    ExtentFits(LowElem(st.axes), HighElem(st.axes), ElemSize(st.dtype.value));
  }

  lemma ExtentFits(low: int, high: int, e: nat)
    requires low <= 0 <= high && (high - low + 1) * e < SIZE_LIMIT
    ensures ((high + 1) * e % SIZE_LIMIT - low * e) % SIZE_LIMIT == (high - low + 1) * e
  {
    MulLe(0, high + 1, e);
    MulLe(high + 1, high - low + 1, e);
    Distribute(high + 1, low, e);
  }

  lemma Distribute(a: int, b: int, e: int)
    ensures (a - b) * e == a * e - b * e
  {
  }

  /** Without a type nothing can be given a shape. */
  lemma UntypedKeepsShape(st: ImplState, shapes: seq<nat>)
    requires st.dtype.None?
    ensures ImplResize(st, shapes) == Result(st, false)
  {
  }

  /** The element at an offset lies in the storage, and that in its block of memory. */
  predicate InStorage(st: ImplState, at: int) {
    st.dtype.Some? && st.start + at * ElemSize(st.dtype.value) >= 0 && (at + 1) * ElemSize(st.dtype.value) <= st.size
  }

  /** A slice is over the storage behind its first element, to the same end, and cannot leave it. */
  lemma SliceSharesStorage(st: ImplState, sub: Sub)
    requires CanSlice(st, sub)
    ensures var s := ImplSlice(st, sub);
      && s.axes == sub.axes && s.dtype == st.dtype && !MayGrow(s)
      && (s.size > 0 ==>
            s.start + s.size == st.start + st.size && s.start - st.start == sub.offset * ElemSize(st.dtype.value))
      && (s.size == 0 <==> sub.offset * ElemSize(st.dtype.value) == st.size) && (s.size == 0 ==> s.start == 0)
  {
  }

  /** The checks on a slice apart from storage: as many axes, at least one, none of them longer. */
  predicate IsPart(st: ImplState, sub: Sub) {
    && |sub.axes| == |st.axes| && st.axes != []
    && forall i :: 0 <= i < |st.axes| ==> sub.axes[i].shape <= st.axes[i].shape
  }

  /**
    Where sizes fit, a slice with elements is made exactly if all of them lie in the storage; only one that starts
    right behind the storage is let pass. One without elements need only start in the storage, or right behind it.
   */
  lemma SliceMadeIff(st: ImplState, sub: Sub)
    requires st.dtype.Some?
    requires Positive(sub.axes) ==> (HighElem(sub.axes) + 1) * ElemSize(st.dtype.value) < SIZE_LIMIT
    ensures var at := sub.offset * ElemSize(st.dtype.value);
      CanSlice(st, sub) <==>
        && IsPart(st, sub)
        && if Positive(sub.axes) && at != st.size then
             forall k :: 0 <= k < Count(sub.axes) ==> InStorage(st, sub.offset + At(sub.axes, k))
           else at <= st.size && st.start + at >= 0
  {
    hide Count, At, Positive, InStorage, LowElem, HighElem, ElemSize, LowBytes, HighBytes;
    var v := ImplSlice(st, sub);
    if Positive(sub.axes) && sub.axes != [] {
      PartInStorage(st, sub);
      if v.size > 0 {
        SpanFitsMeans(v);
      }
    } else if sub.axes != [] {
      NothingFits(v);
    }
  }

  lemma NothingFits(st: ImplState)
    requires !Positive(st.axes)
    ensures LowBytes(st) == HighBytes(st) == 0
  {
  }

  /** An element of a slice lies in its storage exactly if it lies in that of the tensor. */
  lemma PartInStorage(st: ImplState, sub: Sub)
    requires st.dtype.Some? && Positive(sub.axes)
    ensures var at, v := sub.offset * ElemSize(st.dtype.value), ImplSlice(st, sub);
      if at < st.size && st.start + at >= 0 then
        && v.size > 0
        && forall k :: 0 <= k < Count(sub.axes) ==>
          (InStorage(v, At(sub.axes, k)) <==> InStorage(st, sub.offset + At(sub.axes, k)))
      else !InStorage(st, sub.offset + At(sub.axes, 0))
  {
    hide Count, At, Positive;
    forall k | 0 <= k < Count(sub.axes)
      ensures var a, e := At(sub.axes, k), ElemSize(st.dtype.value);
        (sub.offset + a) * e == sub.offset * e + a * e && (sub.offset + a + 1) * e == sub.offset * e + (a + 1) * e
    {
      Distribute(sub.offset, -At(sub.axes, k), ElemSize(st.dtype.value));
    }
    AtZero(sub.axes);
  }

  lemma SliceOk(st: ImplState, sub: Sub)
    requires ImplOk(st) && CanSlice(st, sub)
    ensures ImplOk(ImplSlice(st, sub))
  {
    var s, t := Extents(st.axes), Extents(sub.axes);
    forall i | 0 <= i <= |t| ensures SuffixProd(t, i) < SIZE_LIMIT {
      ProdMonotone(t[i..], s[i..]);
      assert SuffixProd(s, i) < SIZE_LIMIT;
    }
  }

  lemma {:induction false} ProdMonotone(s: seq<nat>, t: seq<nat>)
    requires |s| == |t| && forall i :: 0 <= i < |s| ==> s[i] <= t[i]
    ensures Prod(s) <= Prod(t)
    decreases |s|
  {
    if s != [] {
      var n := |s| - 1;
      ProdMonotone(s[..n], t[..n]);
      MulLe(Prod(s[..n]), Prod(t[..n]), s[n]);
      MulLe(s[n], t[n], Prod(t[..n]));
    }
  }

  // ---- the tensor --------------------------------------------------------------------------

  datatype TensorState = TensorState(layout: LiteLayout, impl: ImplState)

  predicate Mirrored(t: TensorState) {
    t.layout == ToLite(t.impl)
  }

  datatype Op =
    | SetLayout(l: LiteLayout)
    | ResetWithLayout(l: LiteLayout)
    | ResetData(length: nat)
    | DoReshape(req: seq<int>)
    | CopyFrom(src: TensorState, copies: bool)
    | ShareMemoryWith(src: TensorState)
    | FillZero
    | UpdateFromImplement

  /** What `InferShape` promises of an accepted request. */
  ghost predicate IsReshape(total: nat, req: seq<int>, shape: seq<nat>) {
    && Answers(req, shape)
    && Prod(shape) % SIZE_LIMIT == total
    && (Unfixed(req, |req|) == 1 ==> Prod(shape) == total)
  }

  /** Those promises leave one shape. */
  lemma IsReshapeUnique(total: nat, req: seq<int>, s: seq<nat>, s': seq<nat>)
    requires Accepted(total, req) && IsReshape(total, req, s) && IsReshape(total, req, s')
    ensures s == s'
  {
    var u := AnswerProduct(req, s);
    u := AnswerProduct(req, s');
    AnswerUnique(req, s, s');
  }

  /** The shape a reshape request gets, if the checks let it through. */
  ghost function ReshapeTo(l: LiteLayout, req: seq<int>): (r: Option<seq<nat>>)
    ensures r.Some? <==> l.shapes != [] && |req| < MAXDIM && Accepted(TotalLength(l), req)
    ensures r.Some? ==> IsReshape(TotalLength(l), req, r.value)
  {
    if l.shapes != [] && |req| < MAXDIM && Accepted(TotalLength(l), req) then
      ReshapeExists(TotalLength(l), req);
      var shape :| IsReshape(TotalLength(l), req, shape);
      Some(shape)
    else None
  }

  /**
    A reshape that passes its checks keeps the byte size the tensor reports, wrapping included.
    The one exception is the empty request, which one element accepts and which leaves none.
   */
  lemma ReshapeKeepsBytes(l: LiteLayout, req: seq<int>)
    requires ReshapeTo(l, req).Some?
    ensures TotalBytes(LiteLayout(ReshapeTo(l, req).value, l.dtype)) == if req == [] then 0 else TotalBytes(l)
    ensures req == [] ==> TotalLength(l) == 1
  {
    hide ElemSize, Accepted, ReshapeTo;
    WholeElements(Prod(l.shapes), l.dtype);
    SameBytes(Prod(ReshapeTo(l, req).value), Prod(l.shapes), ElemSize(l.dtype));
  }

  lemma SameBytes(p: nat, n: nat, e: nat)
    requires e > 0 && n * e % SIZE_LIMIT == n * e % SIZE_LIMIT / e * e && p % SIZE_LIMIT == n * e % SIZE_LIMIT / e
    ensures p * e % SIZE_LIMIT == n * e % SIZE_LIMIT
  {
    ModMul(p, e);
  }

  /** The wrapped byte size is still a whole number of elements. */
  lemma WholeElements(n: nat, d: DType)
    ensures ElemSize(d) > 0
    ensures n * ElemSize(d) % SIZE_LIMIT == n * ElemSize(d) % SIZE_LIMIT / ElemSize(d) * ElemSize(d)
  {
    var e := ElemSize(d);
    var c := SIZE_LIMIT / e;
    assert SIZE_LIMIT == c * e;
    var q, r := n * e / SIZE_LIMIT, n * e % SIZE_LIMIT;
    MulAssoc(q, c, e);
    assert r == (n - q * c) * e by {
      assert n * e == q * SIZE_LIMIT + r;
    }
    DivModUnique(r, e, n - q * c, 0);
  }

  lemma ReshapeExists(total: nat, req: seq<int>)
    requires total < SIZE_LIMIT && Accepted(total, req)
    ensures exists shape :: IsReshape(total, req, shape)
  {
    hide Prod, FixedProd, Unfixed;
    var u := FindUnfixed(req, |req|);
    var n := FixedProd(req, |req|);
    var left: nat := total / n;
    var shape: seq<nat> := seq(|req|, i requires 0 <= i < |req| => if req[i] == UNFIXED then left else req[i]);
    ProdOfAnswer(req, shape, Unfixed(req, |req|), u);
    if Unfixed(req, |req|) == 1 {
      assert shape[u] == left && left * n == total;
    }
    assert IsReshape(total, req, shape);
  }

  ghost function Apply(t: TensorState, op: Op): Result<TensorState> {
    match op
    case SetLayout(l) =>
      var r := ImplSetLayout(t.impl, l);
      Result(TensorState(l, r.state), r.ok)
    case ResetWithLayout(l) =>
      var r := ImplSetLayout(t.impl, l);
      var r' := if r.ok then ImplReset(r.state) else r;
      Result(TensorState(l, r'.state), r'.ok)
    case ResetData(length) =>
      if t.layout.shapes == [] || length < TotalBytes(t.layout) then Result(t, false)
      else
        var r := ImplReset(t.impl);
        Result(t.(impl := r.state), r.ok)
    case DoReshape(req) =>
      (match ReshapeTo(t.layout, req)
       case None => Result(t, false)
       case Some(shape) =>
         var l := LiteLayout(shape, t.layout.dtype);
         var r := ImplReshape(t.impl, l);
         Result(TensorState(l, r.state), r.ok))
    case CopyFrom(src, copies) =>
      if src.layout.shapes == [] then Result(t, false)
      else
        var r := ImplCopyFrom(t.impl, src.impl, copies);
        Result(TensorState(if r.ok then ToLite(r.state) else t.layout, r.state), r.ok)
    case ShareMemoryWith(src) =>
      if src.layout.shapes == [] then Result(t, false)
      else Result(TensorState(ToLite(src.impl), src.impl), true)
    case FillZero => Result(t, t.layout.shapes != [] && FillsZero(t.impl))
    case UpdateFromImplement => Result(t.(layout := ToLite(t.impl)), true)
  }

  /** What `fill_zero` copies from where memory is not contiguous: a contiguous tensor of the same layout. */
  function ZeroTemp(st: ImplState): ImplState {
    OfLayout(ToLite(st))
  }

  /** `fill_zero` returns; without elements it recurses into itself on the temporary, and does not. */
  predicate FillsZero(st: ImplState) {
    IsContinueMemory(st) || (Count(st.axes) > 0 && ImplCopyFrom(st, ZeroTemp(st), true).ok)
  }

  /** On a tensor with dimensions but no elements that one is no more contiguous, so `fill_zero` never returns. */
  lemma FillZeroRecursesOnEmpty(st: ImplState)
    requires ImplOk(st) && st.dtype.Some?
    ensures IsContinueMemory(ZeroTemp(st)) <==> Count(st.axes) > 0
  {
    ProdIsCount(st.axes);
    ProdIsCount(ContiguousAxes(Extents(st.axes)));
    ContiguousIsIdentity(Extents(st.axes), 0);
  }

  predicate OpOk(op: Op) {
    op.CopyFrom? || op.ShareMemoryWith? ==> ImplOk(op.src.impl)
  }

  // ---- which calls break the agreement ---------------------------------------------------

  /** A copy into contiguous memory of the same type, or none yet: it replaces the layout first. */
  predicate CopyReplaces(t: TensorState, src: TensorState) {
    && src.layout.shapes != [] && IsContinueMemory(t.impl)
    && (t.impl.dtype.None? || t.impl.dtype == src.impl.dtype)
  }

  /** The storage can hold the source, or be replaced by one that can. */
  predicate HasRoom(t: TensorState, src: TensorState) {
    TotalBytes(ToLite(src.impl)) <= t.impl.size || MayGrow(t.impl)
  }

  /**
    The calls that break the agreement: a layout the implementation cannot take, a reshape whose product
    wraps, and a copy of another layout into contiguous memory that has no room for it or cannot read it.
   */
  predicate Desyncs(t: TensorState, op: Op) {
    match op
    case SetLayout(l) => !Convertible(l)
    case ResetWithLayout(l) => !Convertible(l)
    case DoReshape(req) =>
      && t.layout.shapes != [] && |req| < MAXDIM && Accepted(TotalLength(t.layout), req)
      && Unfixed(req, |req|) == 0 && FixedProd(req, |req|) >= SIZE_LIMIT
    case CopyFrom(src, copies) =>
      && CopyReplaces(t, src) && ToLite(src.impl) != t.layout
      && (HasRoom(t, src) ==> TotalBytes(ToLite(src.impl)) > 0 && !CanRead(src.impl, copies))
    case _ => false
  }

  /** The calls after which the implementation has another layout. */
  ghost predicate Changes(t: TensorState, op: Op) {
    match op
    case SetLayout(l) => Convertible(l) && l != t.layout
    case ResetWithLayout(l) => Convertible(l) && l != t.layout
    case DoReshape(req) => !Desyncs(t, op) && ReshapeTo(t.layout, req) !in {None, Some(t.layout.shapes)}
    case CopyFrom(src, _) => CopyReplaces(t, src) && ToLite(src.impl) != t.layout
    case ShareMemoryWith(src) => src.layout.shapes != [] && ToLite(src.impl) != t.layout
    case _ => false
  }

  /** An accepted reshape can be converted exactly when it has a `-1` or its product does not wrap. */
  lemma ReshapeConverts(l: LiteLayout, req: seq<int>)
    requires ReshapeTo(l, req).Some?
    ensures EntriesOk(req) && Unfixed(req, |req|) <= 1 && |ReshapeTo(l, req).value| == |req|
    ensures InSizeT(ReshapeTo(l, req).value) <==> Unfixed(req, |req|) == 1 || FixedProd(req, |req|) < SIZE_LIMIT
  {
    var s := ReshapeTo(l, req).value;
    var u := AnswerProduct(req, s);
    hide Prod, FixedProd, Unfixed;
    assert Prod(s) > 0;
    SuffixesFit(s);
  }

  /** Without empty dimensions, the strides fit if the element count does. */
  lemma SuffixesFit(s: seq<nat>)
    requires Prod(s) > 0
    ensures InSizeT(s) <==> Prod(s) < SIZE_LIMIT
  {
    hide Prod;
    assert s[0..] == s && SuffixProd(s, 0) == Prod(s);
    forall i | 0 <= i <= |s| ensures SuffixProd(s, i) <= Prod(s) {
      ProdSplit(s, i);
      ProdPrefixLe(s, i, |s|);
      if Prod(s[i..]) > 0 {
        ProductGe(Prod(s[..i]), Prod(s[i..]));
      }
    }
  }

  /** In agreement or not, a call leaves the implementation with a layout it can have. */
  lemma ImplStaysOk(t: TensorState, op: Op)
    requires ImplOk(t.impl) && OpOk(op)
    ensures ImplOk(Apply(t, op).state.impl)
  {
    hide InSizeT, TotalBytes, SpanBytes, IsContinueMemory, SpanFits, CanRead, FillsZero, Accepted, IsReshape;
  }

  /**
    Starting in agreement, a call ends in agreement exactly when it is not one of those, and a call that
    returns never is. A reshape that its checks reject changes nothing.
   */
  lemma MirrorStep(t: TensorState, op: Op)
    requires Mirrored(t) && ImplOk(t.impl) && OpOk(op)
    ensures ImplOk(Apply(t, op).state.impl)
    ensures Mirrored(Apply(t, op).state) <==> !Desyncs(t, op)
    ensures Apply(t, op).ok ==> Mirrored(Apply(t, op).state)
    ensures ToLite(Apply(t, op).state.impl) != ToLite(t.impl) <==> Changes(t, op)
    ensures op.DoReshape? && ReshapeTo(t.layout, op.req).None? ==> Apply(t, op).state == t
  {
    hide InSizeT, TotalBytes, SpanBytes, IsContinueMemory, SpanFits, CanRead, FillsZero, Accepted, IsReshape;
    if op.DoReshape? && ReshapeTo(t.layout, op.req).Some? {
      ReshapeConverts(t.layout, op.req);
    }
  }

  // ---- which calls return, and what they leave -------------------------------------------------

  /** There is room for that many bytes. */
  predicate Room(st: ImplState, bytes: nat) {
    bytes <= st.size || MayGrow(st)
  }

  /** The calls that return, by what the caller gives and what the tensor is. */
  predicate Returns(t: TensorState, op: Op) {
    match op
    case SetLayout(l) => Convertible(l) && Room(t.impl, TotalBytes(l))
    case ResetWithLayout(l) => Convertible(l) && Room(t.impl, TotalBytes(l))
    case ResetData(length) =>
      && t.layout.shapes != [] && length >= TotalBytes(t.layout)
      && (LowBytes(t.impl) == 0 || SpanBytes(t.impl) == 0)
    case DoReshape(req) =>
      && t.layout.shapes != [] && |req| < MAXDIM && Accepted(TotalLength(t.layout), req)
      && (Unfixed(req, |req|) == 1 || FixedProd(req, |req|) < SIZE_LIMIT)
      && (req == [] || Room(t.impl, TotalBytes(t.layout)))
    case CopyFrom(src, copies) =>
      && src.layout.shapes != [] && (t.impl.dtype.None? || t.impl.dtype == src.impl.dtype)
      && var bytes := TotalBytes(ToLite(src.impl));
         if IsContinueMemory(t.impl) then
           Room(t.impl, bytes) && (bytes == 0 || (copies && (IsContinueMemory(src.impl) ==> bytes <= src.impl.size))
                                   || (!IsContinueMemory(src.impl) && src.impl.size == 0))
         else
           && t.layout.shapes == ToLite(src.impl).shapes
           && (src.impl.size == 0 || (copies && Positive(t.impl.axes) && OverlapCheck.Spaced(t.impl.axes)))
    case ShareMemoryWith(src) => src.layout.shapes != []
    case FillZero =>
      && t.layout.shapes != [] && Positive(t.impl.axes)
      && (IsContinueMemory(t.impl) || TotalBytes(t.layout) == 0 || OverlapCheck.Spaced(t.impl.axes))
    case UpdateFromImplement => true
  }

  /** What a call that returns leaves behind. */
  predicate Leaves(t: TensorState, op: Op, u: TensorState) {
    match op
    case SetLayout(l) =>
      && u.layout == ToLite(u.impl) == l && IsIdentity(u.impl.axes) && u.impl.size == TotalBytes(l)
      && u.impl.start == t.impl.start && u.impl.mayRealloc == t.impl.mayRealloc
    case ResetWithLayout(l) =>
      u.layout == ToLite(u.impl) == l && IsIdentity(u.impl.axes) && u.impl.size == SpanBytes(u.impl) && MayGrow(u.impl)
    case ResetData(_) =>
      && u.layout == t.layout && u.impl.axes == t.impl.axes && u.impl.dtype == t.impl.dtype
      && u.impl.size == SpanBytes(u.impl) && MayGrow(u.impl)
    case DoReshape(req) =>
      && u.layout == ToLite(u.impl) && u.layout.dtype == t.layout.dtype && IsIdentity(u.impl.axes)
      && Answers(req, u.layout.shapes) && Prod(u.layout.shapes) == TotalLength(t.layout)
      && u.impl.start == t.impl.start && u.impl.mayRealloc == t.impl.mayRealloc
    case CopyFrom(src, _) =>
      && u.layout == ToLite(u.impl) == ToLite(src.impl)
      && u.impl.start == t.impl.start && u.impl.mayRealloc == t.impl.mayRealloc
      && (if IsContinueMemory(t.impl) then IsIdentity(u.impl.axes) && u.impl.size == TotalBytes(u.layout)
          else u.impl == t.impl)
    case ShareMemoryWith(src) => u.layout == ToLite(src.impl) && u.impl == src.impl
    case FillZero => u == t
    case UpdateFromImplement => u.layout == ToLite(t.impl) && u.impl == t.impl
  }

  /** From agreement, a call returns exactly then, and leaves exactly that. */
  lemma ReturnsIff(t: TensorState, op: Op)
    requires Mirrored(t) && ImplOk(t.impl) && OpOk(op)
    ensures Apply(t, op).ok <==> Returns(t, op)
    ensures Apply(t, op).ok ==> Leaves(t, op, Apply(t, op).state)
  {
    match op
    case SetLayout(l) => SetLayoutReturns(t, l);
    case ResetWithLayout(l) => ResetWithLayoutReturns(t, l);
    case ResetData(length) => ResetDataReturns(t, length);
    case DoReshape(req) => ReshapeReturns(t, req);
    case CopyFrom(src, copies) => CopyReturns(t, src, copies);
    case ShareMemoryWith(src) =>
    case FillZero => FillZeroReturns(t);
    case UpdateFromImplement =>
  }

  lemma SetLayoutReturns(t: TensorState, l: LiteLayout)
    ensures var op := SetLayout(l);
      (Apply(t, op).ok <==> Returns(t, op)) && (Apply(t, op).ok ==> Leaves(t, op, Apply(t, op).state))
  {
    hide InSizeT, TotalBytes, IsIdentity, ContiguousAxes;
    ContiguousIsIdentity(l.shapes, 0);
  }

  /** A contiguous layout starts at its first element, and spans its bytes. */
  lemma ContiguousSpan(st: ImplState, l: LiteLayout)
    requires st.axes == ContiguousAxes(l.shapes) && st.dtype == Some(l.dtype)
    ensures LowBytes(st) == 0 && HighBytes(st) == TotalBytes(l) == SpanBytes(st)
  {
    ProdIsCount(st.axes);
    ContiguousIsIdentity(l.shapes, 0);
    SpanOfIdentity(st);
    assert ToLite(st) == l;
  }

  lemma SpanOfIdentity(st: ImplState)
    requires IsIdentity(st.axes) && st.dtype.Some?
    ensures LowBytes(st) == 0 && HighBytes(st) == TotalBytes(ToLite(st)) == SpanBytes(st)
  {
    hide Count, LowElem, HighElem, IsIdentity, Prod, ElemSize, Positive;
    ProdIsCount(st.axes);
    if Positive(st.axes) {
      IdentityElems(st.axes);
    }
    WrapsOnce(Count(st.axes), ElemSize(st.dtype.value));
  }

  lemma WrapsOnce(n: nat, e: nat)
    ensures n * e % SIZE_LIMIT % SIZE_LIMIT == n * e % SIZE_LIMIT && 0 * e == 0
  {
  }

  lemma ResetWithLayoutReturns(t: TensorState, l: LiteLayout)
    ensures var op := ResetWithLayout(l);
      (Apply(t, op).ok <==> Returns(t, op)) && (Apply(t, op).ok ==> Leaves(t, op, Apply(t, op).state))
  {
    SetLayoutReturns(t, l);
    if Returns(t, SetLayout(l)) {
      var st := ImplSetLayout(t.impl, l).state;
      ContiguousSpan(st, l);
      ContiguousSpan(ImplReset(st).state, l);
    }
    hide InSizeT, TotalBytes, LowBytes, HighBytes;
  }

  lemma ResetDataReturns(t: TensorState, length: nat)
    ensures var op := ResetData(length);
      (Apply(t, op).ok <==> Returns(t, op)) && (Apply(t, op).ok ==> Leaves(t, op, Apply(t, op).state))
  {
    hide TotalBytes, LowElem, HighElem, Positive, LowBytes, HighBytes;
    LowBytesNonPositive(t.impl);
    var r := t.impl.(size := SpanBytes(t.impl), start := 0, mayRealloc := true);
    SameSpan(t.impl, r);
    SpanInBytes(t.impl);
  }

  lemma LowBytesNonPositive(st: ImplState)
    ensures LowBytes(st) <= 0 <= HighBytes(st) < SIZE_LIMIT
  {
    hide LowElem, HighElem;
    if Positive(st.axes) && st.dtype.Some? {
      ElemsAreSpan(st.axes);
      NonPositive(LowElem(st.axes), ElemSize(st.dtype.value));
    }
  }

  lemma SameSpan(st: ImplState, r: ImplState)
    requires st.axes == r.axes && st.dtype == r.dtype
    ensures LowBytes(r) == LowBytes(st) && HighBytes(r) == HighBytes(st)
  {
  }

  lemma SpanInBytes(st: ImplState)
    ensures LowBytes(st) == 0 ==> SpanBytes(st) == HighBytes(st)
  {
    hide LowBytes, HighBytes;
    LowBytesNonPositive(st);
  }

  lemma NonPositive(a: int, e: nat)
    requires e > 0
    ensures a <= 0 ==> a * e <= 0
    ensures a * e == 0 <==> a == 0
  {
  }

  lemma ReshapeReturns(t: TensorState, req: seq<int>)
    requires Mirrored(t) && ImplOk(t.impl)
    ensures var op := DoReshape(req);
      (Apply(t, op).ok <==> Returns(t, op)) && (Apply(t, op).ok ==> Leaves(t, op, Apply(t, op).state))
  {
    hide InSizeT, TotalBytes, TotalLength, Accepted, FixedProd, Unfixed, Prod, ReshapeTo, IsIdentity, ContiguousAxes;
    var r := ReshapeTo(t.layout, req);
    if r.Some? {
      ReshapeConverts(t.layout, req);
      ReshapeKeepsBytes(t.layout, req);
      SizeKept(t.layout, req, r.value);
      ContiguousIsIdentity(r.value, 0);
    }
  }

  /** Where its product does not wrap, a reshape keeps the element count itself. */
  lemma SizeKept(l: LiteLayout, req: seq<int>, s: seq<nat>)
    requires Accepted(TotalLength(l), req) && IsReshape(TotalLength(l), req, s)
    ensures Answers(req, s)
    ensures Unfixed(req, |req|) == 1 || FixedProd(req, |req|) < SIZE_LIMIT ==> Prod(s) == TotalLength(l)
  {
    SizeKeptIff(TotalLength(l), req, s);
  }

  lemma CopyReturns(t: TensorState, src: TensorState, copies: bool)
    requires Mirrored(t) && ImplOk(t.impl) && ImplOk(src.impl)
    ensures var op := CopyFrom(src, copies);
      (Apply(t, op).ok <==> Returns(t, op)) && (Apply(t, op).ok ==> Leaves(t, op, Apply(t, op).state))
  {
    hide InSizeT, TotalBytes, OverlapCheck.Spaced, OverlapCheck.Verify, IsIdentity, IsContinueMemory, Stored,
         ContiguousAxes, Positive;
    if IsContinueMemory(t.impl) {
      ContiguousCopyReturns(t.impl, src.impl, copies);
    } else {
      if t.impl.dtype.None? {
        UntypedIsContiguous(t.impl);
      }
      OverlapCheck.AcceptedIffSpaced(t.impl.axes);
    }
  }

  lemma UntypedIsContiguous(st: ImplState)
    requires ImplOk(st) && st.dtype.None?
    ensures IsContinueMemory(st)
  {
  }

  lemma ContiguousCopyReturns(st: ImplState, src: ImplState, copies: bool)
    requires IsContinueMemory(st) && ImplOk(st) && ImplOk(src)
    ensures var r, bytes := ImplCopyFrom(st, src, copies), TotalBytes(ToLite(src));
      && (r.ok <==> (st.dtype.None? || st.dtype == src.dtype) && Room(st, bytes)
                    && (bytes == 0 || (copies && (IsContinueMemory(src) ==> bytes <= src.size))
                        || (!IsContinueMemory(src) && src.size == 0)))
      && (r.ok ==> ToLite(r.state) == ToLite(src) && IsIdentity(r.state.axes) && r.state.size == bytes
                   && r.state.start == st.start && r.state.mayRealloc == st.mayRealloc)
  {
    hide InSizeT, TotalBytes, IsIdentity, IsContinueMemory, ContiguousAxes, Extents;
    ContiguousIsIdentity(Extents(src.axes), 0);
  }

  lemma ContiguousHasElements(st: ImplState)
    ensures IsContinueMemory(st) ==> Positive(st.axes)
  {
  }

  lemma FillZeroReturns(t: TensorState)
    requires Mirrored(t) && ImplOk(t.impl)
    ensures Apply(t, FillZero).ok <==> Returns(t, FillZero)
    ensures Apply(t, FillZero).state == t
  {
    hide InSizeT, TotalBytes, OverlapCheck.Spaced, OverlapCheck.Verify, IsIdentity, Positive, Count, Prod,
         IsContinueMemory;
    OverlapCheck.AcceptedIffSpaced(t.impl.axes);
    ContiguousHasElements(t.impl);
  }

  /** What is in contiguous memory fits in what `reset` is given exactly if the call returns. */
  lemma ResetMemorySuffices(t: TensorState, length: nat)
    requires Mirrored(t) && ImplOk(t.impl) && IsContinueMemory(t.impl) && t.layout.shapes != []
    ensures Returns(t, ResetData(length)) <==> length >= SpanBytes(t.impl)
  {
    SpanOfIdentity(t.impl);
  }

  /** In other memory it need not: the check is on the bytes of the layout, not on how far the elements reach. */
  lemma StridedResetFallsShort()
    ensures var st := ImplState([Axis(2, 3), Axis(2, 1)], Some(Float), 24, 0, false);
      var t := TensorState(LiteLayout([2, 2], Float), st);
      Mirrored(t) && Returns(t, ResetData(16)) && SpanBytes(t.impl) == 20
  {
    var l := [Axis(2, 3), Axis(2, 1)];
    assert Extents(l) == [2, 2] && [2, 2][..1] == [2] && [2][..0] == [];
    assert Outer(l) == [Axis(2, 3)] && Outer([Axis(2, 3)]) == [];
    assert LowElem([Axis(2, 3)]) == 0 && HighElem([Axis(2, 3)]) == 3;
    assert LowElem(l) == 0 && HighElem(l) == 4;
    assert Prod([2]) == 2 && Prod([2, 2]) == 4;
  }

  /** A wrapping reshape of an empty tensor passes its checks and leaves the two apart. */
  lemma WrappedReshapeDesyncs(t: TensorState)
    requires Mirrored(t) && ImplOk(t.impl) && t.layout == LiteLayout([0], Float)
    ensures Desyncs(t, DoReshape([65536, 65536, 65536, 65536]))
  {
    WrapAccepted();
    assert Prod([0]) == Prod([]) * 0;
  }

  /** So does setting a layout whose strides do not fit. */
  lemma HugeLayoutDesyncs(t: TensorState)
    ensures Desyncs(t, SetLayout(LiteLayout([0x2_0000_0000, 0x2_0000_0000], Float)))
  {
    var s := [0x2_0000_0000, 0x2_0000_0000];
    assert s[0..] == s && s[..1] == [0x2_0000_0000] && [0x2_0000_0000][..0] == [];
    assert Prod([0x2_0000_0000]) == 0x2_0000_0000;
    assert SuffixProd(s, 0) == 0x2_0000_0000 * 0x2_0000_0000;
  }

  /** Two of the four elements of a contiguous tensor, to the end of its storage. */
  const LAST_TWO := Sub([Axis(2, 1)], 2)

  /** A slice that holds two elements is in order. */
  lemma LastTwo()
    ensures var four, t := OfLayout(LiteLayout([4], Float)), LiteLayout([2], Float);
      && CanSlice(four, LAST_TWO) && ImplSlice(four, LAST_TWO) == ImplState([Axis(2, 1)], Some(Float), 8, 8, false)
      && Mirrored(TensorState(t, ImplSlice(four, LAST_TWO))) && ImplOk(ImplSlice(four, LAST_TWO))
  {
    var l := [Axis(2, 1)];
    assert Extents(l) == [2] && [4][..0] == [] && [2][..0] == [] && [2][0..] == [2] && [2][1..] == [];
    assert SuffixProd([2], 0) == 2 && SuffixProd([2], 1) == 1;
    assert Outer(l) == [] && TotalBytes(LiteLayout([4], Float)) == 16;
    assert LowElem(l) == 0 && HighElem(l) == 1;
  }

  lemma SmallLayout(n: nat)
    requires 0 < n < 100
    ensures TotalBytes(LiteLayout([n], Float)) == 4 * n && Convertible(LiteLayout([n], Float))
    ensures ContiguousAxes([n]) == [Axis(n, 1)] && Count([Axis(n, 1)]) > 0 && IsIdentity([Axis(n, 1)])
  {
    assert [n][..0] == [] && [n][0..] == [n] && [n][1..] == [];
    assert Prod([n]) == n;
    assert SuffixProd([n], 0) == n && SuffixProd([n], 1) == 1;
    hide Prod, SuffixProd;
    SingleIsIdentity(n);
  }

  lemma SingleIsIdentity(n: nat)
    requires n > 0
    ensures Count([Axis(n, 1)]) > 0 && IsIdentity([Axis(n, 1)])
  {
    CountSingle(Axis(n, 1));
    hide Count, At;
    forall k | 0 <= k < n ensures At([Axis(n, 1)], k) == k {
      AtSingle(Axis(n, 1), k);
    }
  }

  /** And copying three elements into that slice, which has no room for them. */
  lemma SliceCopyDesyncs()
    ensures var t := TensorState(LiteLayout([2], Float), ImplSlice(OfLayout(LiteLayout([4], Float)), LAST_TWO));
      var src := TensorState(LiteLayout([3], Float), OfLayout(LiteLayout([3], Float)));
      Mirrored(t) && ImplOk(t.impl) && Desyncs(t, CopyFrom(src, true))
  {
    LastTwo();
    SmallLayout(2);
    SmallLayout(3);
    assert Extents([Axis(3, 1)]) == [3];
  }

  /** And copying from that slice after it was set to three elements: the call threw, but left it in agreement. */
  lemma ShortSourceDesyncs()
    ensures var slice := TensorState(LiteLayout([2], Float), ImplSlice(OfLayout(LiteLayout([4], Float)), LAST_TWO));
      var src := Apply(slice, SetLayout(LiteLayout([3], Float)));
      var t := TensorState(LiteLayout([5], Float), OfLayout(LiteLayout([5], Float)));
      && !src.ok && Mirrored(src.state) && ImplOk(src.state.impl)
      && Mirrored(t) && HasRoom(t, src.state) && Desyncs(t, CopyFrom(src.state, true))
  {
    LastTwo();
    SmallLayout(3);
    SmallLayout(5);
    var slice := TensorState(LiteLayout([2], Float), ImplSlice(OfLayout(LiteLayout([4], Float)), LAST_TWO));
    var src := Apply(slice, SetLayout(LiteLayout([3], Float)));
    assert Extents([Axis(3, 1)]) == [3] && Extents([Axis(5, 1)]) == [5];
    assert src.state.impl == ImplState([Axis(3, 1)], Some(Float), 8, 8, false);
  }

  /** The states a sequence of calls goes through. */
  ghost function Trace(t: TensorState, ops: seq<Op>): (s: seq<TensorState>)
    ensures |s| == |ops| + 1 && s[0] == t
    decreases |ops|
  {
    if ops == [] then [t] else [t] + Trace(Apply(t, ops[0]).state, ops[1..])
  }

  /** In every run, the agreement holds after each call exactly when no call is one that breaks it. */
  lemma {:induction false} MirrorRun(t: TensorState, ops: seq<Op>)
    requires Mirrored(t) && ImplOk(t.impl) && forall i :: 0 <= i < |ops| ==> OpOk(ops[i])
    ensures (forall i :: 0 <= i <= |ops| ==> Mirrored(Trace(t, ops)[i]))
        <==> (forall i :: 0 <= i < |ops| ==> !Desyncs(Trace(t, ops)[i], ops[i]))
    decreases |ops|
  {
    if ops != [] {
      var s, rest := Trace(t, ops), Trace(Apply(t, ops[0]).state, ops[1..]);
      assert s == [t] + rest;
      MirrorStep(t, ops[0]);
      assert rest[0] == s[1];
      if Mirrored(s[1]) {
        MirrorRun(s[1], ops[1..]);
        assert forall i :: 0 <= i <= |ops[1..]| ==> rest[i] == s[i + 1];
        assert forall i :: 0 <= i < |ops[1..]| ==> ops[1..][i] == ops[i + 1];
        assert (forall i :: 0 <= i <= |ops| ==> Mirrored(s[i]))
            <==> forall i :: 0 <= i <= |ops[1..]| ==> Mirrored(rest[i]);
      }
    }
  }

  // ---- the objects -------------------------------------------------------------------------

  /** `TensorImplDft` over host memory. */
  class Impl {
    var state: ImplState

    constructor (state: ImplState)
      ensures this.state == state
    {
      this.state := state;
    }

    method EnsureSize() returns (ok: bool)
      modifies this
      ensures Result(state, ok) == Stored(old(state))
    {
      var bytes := TotalBytes(ToLite(state));
      if bytes > state.size && !MayGrow(state) {
        return false;
      }
      state := state.(size := bytes);
      return true;
    }

    method Resize(shapes: seq<nat>) returns (ok: bool)
      modifies this
      ensures Result(state, ok) == ImplResize(old(state), shapes)
    {
      if state.dtype.None? {
        return false;
      }
      state := state.(axes := ContiguousAxes(shapes));
      ok := EnsureSize();
    }

    method SetLayout(l: LiteLayout) returns (ok: bool)
      requires SizeTs(l)
      modifies this
      ensures Result(state, ok) == ImplSetLayout(old(state), l)
    {
      var converted := ToImplLayout(l);
      if converted.None? {
        return false;
      }
      if state.dtype != Some(l.dtype) {
        state := state.(axes := [], dtype := Some(l.dtype));
      }
      ok := Resize(l.shapes);
    }

    method Reshape(l: LiteLayout) returns (ok: bool)
      requires SizeTs(l)
      modifies this
      ensures Result(state, ok) == ImplReshape(old(state), l)
    {
      var converted := ToImplLayout(l);
      if converted.None? {
        return false;
      }
      ok := Resize(l.shapes);
    }

    method Reset() returns (ok: bool)
      modifies this
      ensures Result(state, ok) == ImplReset(old(state))
    {
      var reset := state.(size := SpanBytes(state), start := 0, mayRealloc := true);
      ok := SpanFits(reset);
      if ok {
        state := reset;
      }
    }

    method CopyFrom(src: Impl, copies: bool) returns (ok: bool)
      modifies this
      ensures Result(state, ok) == ImplCopyFrom(old(state), old(src.state), copies)
    {
      var from := src.state;
      if !IsContinueMemory(state) {
        if state.dtype != from.dtype || Extents(state.axes) != Extents(from.axes) {
          return false;
        }
        if from.size == 0 {
          return true;
        }
        var verdict := OverlapCheck.IsNonOverlappingStrong(state.axes);
        return verdict == OverlapCheck.Accepted && copies;
      }
      if state.dtype.Some? && state.dtype != from.dtype {
        return false;
      }
      state := state.(axes := ContiguousAxes(Extents(from.axes)), dtype := from.dtype);
      ok := EnsureSize();
      ok := ok && (state.size == 0 || CanRead(from, copies));
    }
  }

  /** The extents are `size_t`. */
  predicate SizeTs(l: LiteLayout) {
    forall i :: 0 <= i < |l.shapes| ==> l.shapes[i] < SIZE_LIMIT
  }

  /** `lite::Tensor`. A failed assertion or a thrown error is `ok == false`, with the state left as it then is. */
  class Tensor {
    var layout: LiteLayout
    const impl: Impl

    ghost function State(): TensorState
      reads this, impl
    {
      TensorState(layout, impl.state)
    }

    constructor ()
      ensures fresh(impl) && State() == TensorState(EMPTY, NO_TENSOR)
      ensures Mirrored(State())
    {
      layout := EMPTY;
      impl := new Impl(NO_TENSOR);
    }

    /** The constructor from a device type and a layout; it throws on a layout it cannot convert. */
    constructor WithLayout(l: LiteLayout)
      requires Convertible(l)
      ensures fresh(impl) && layout == l && impl.state == OfLayout(l) && ImplOk(impl.state)
      ensures Mirrored(State())
    {
      layout := l;
      impl := new Impl(OfLayout(l));
    }

    /** The constructor that also takes a device id: without dimensions the object behind gets no type. */
    constructor OnDevice(l: LiteLayout)
      requires l.shapes == [] || Convertible(l)
      ensures fresh(impl) && layout == l && ImplOk(impl.state)
      ensures Mirrored(State()) <==> l.shapes != [] || l.dtype == Float
    {
      layout := l;
      impl := new Impl(if l.shapes == [] then NO_TENSOR else OfLayout(l));
      EmptyInSizeT();
    }

    /** The constructor that takes a backend does not keep the layout. */
    constructor WithBackend(l: LiteLayout)
      requires l.shapes == [] || Convertible(l)
      ensures fresh(impl) && layout == EMPTY && ImplOk(impl.state)
      ensures Mirrored(State()) <==> l.shapes == []
    {
      layout := EMPTY;
      impl := new Impl(if l.shapes == [] then NO_TENSOR else OfLayout(l));
      EmptyInSizeT();
    }

    /** Copying a tensor object shares the implementation. */
    constructor Copy(other: Tensor)
      ensures layout == other.layout && impl == other.impl
    {
      layout := other.layout;
      impl := other.impl;
    }

    /** `slice`: a tensor of its own over part of the storage, brought into agreement at once. */
    constructor Slice(parent: Tensor, sub: Sub)
      requires CanSlice(parent.impl.state, sub)
      ensures fresh(impl) && impl.state == ImplSlice(parent.impl.state, sub)
      ensures Mirrored(State())
    {
      var s := ImplSlice(parent.impl.state, sub);
      impl := new Impl(s);
      layout := ToLite(s);
    }

    method SetLayout(l: LiteLayout) returns (ok: bool)
      requires SizeTs(l)
      modifies this, impl
      ensures Result(State(), ok) == Apply(old(State()), Op.SetLayout(l))
    {
      layout := l;
      ok := impl.SetLayout(l);
    }

    method ResetWithLayout(l: LiteLayout) returns (ok: bool)
      requires SizeTs(l)
      modifies this, impl
      ensures Result(State(), ok) == Apply(old(State()), Op.ResetWithLayout(l))
    {
      layout := l;
      ok := impl.SetLayout(l);
      if ok {
        ok := impl.Reset();
      }
    }

    method TotalSizeInByte() returns (n: nat)
      ensures n == TotalBytes(layout)
    {
      var total := 0;
      if layout.shapes != [] {
        total := WrappedProduct(layout.shapes);
        ModMul(Prod(layout.shapes), ElemSize(layout.dtype));
      }
      return total * ElemSize(layout.dtype) % SIZE_LIMIT;
    }

    method Reset(length: nat) returns (ok: bool)
      modifies impl
      ensures Result(State(), ok) == Apply(old(State()), ResetData(length))
    {
      if layout.shapes == [] {
        return false;
      }
      var bytes := TotalSizeInByte();
      if length < bytes {
        return false;
      }
      ok := impl.Reset();
    }

    method Reshape(req: seq<int>) returns (ok: bool)
      requires forall i :: 0 <= i < |req| ==> req[i] < SIZE_LIMIT
      modifies this, impl
      ensures Result(State(), ok) == Apply(old(State()), DoReshape(req))
    {
      if layout.shapes == [] || |req| >= MAXDIM {
        return false;
      }
      var bytes := TotalSizeInByte();
      var total := bytes / ElemSize(layout.dtype);
      var shapes := InferShape(total, req);
      if shapes.None? {
        return false;
      }
      IsReshapeUnique(total, req, shapes.value, ReshapeTo(layout, req).value);
      AnswerInSizeT(total, req, shapes.value);
      layout := layout.(shapes := shapes.value);
      ok := impl.Reshape(layout);
    }

    method UpdateFromImplement()
      modifies this
      ensures State() == Apply(old(State()), Op.UpdateFromImplement).state
    {
      layout := ToLite(impl.state);
    }

    method CopyFrom(src: Tensor, copies: bool) returns (ok: bool)
      modifies this, impl
      ensures Result(State(), ok) == Apply(old(State()), Op.CopyFrom(old(src.State()), copies))
    {
      if src.layout.shapes == [] {
        return false;
      }
      ok := impl.CopyFrom(src.impl, copies);
      if ok {
        UpdateFromImplement();
      }
    }

    /** On a tensor without elements the call recurses until the stack ends, which counts as not returning. */
    method FillZero() returns (ok: bool)
      ensures Result(State(), ok) == Apply(State(), Op.FillZero)
    {
      if layout.shapes == [] {
        return false;
      }
      return FillsZero(impl.state);
    }

    method ShareMemoryWith(src: Tensor) returns (ok: bool)
      modifies this, impl
      ensures Result(State(), ok) == Apply(old(State()), Op.ShareMemoryWith(old(src.State())))
    {
      if src.layout.shapes == [] {
        return false;
      }
      impl.state := src.impl.state;
      UpdateFromImplement();
      return true;
    }
  }

  /** What the constructors make of a layout. */
  function OfLayout(l: LiteLayout): ImplState {
    ImplState(ContiguousAxes(l.shapes), Some(l.dtype), TotalBytes(l), 0, true)
  }

  /** A tensor made from a layout has all of it contiguous in storage of its own, which can become any other. */
  lemma MadeFromLayout(l: LiteLayout, other: LiteLayout)
    requires Convertible(l)
    ensures var t := TensorState(l, OfLayout(l));
      && Mirrored(t) && IsIdentity(t.impl.axes) && SpanFits(t.impl)
      && (Apply(t, SetLayout(other)).ok <==> Convertible(other))
  {
    hide InSizeT, TotalBytes, LowBytes, HighBytes, IsIdentity;
    ContiguousIsIdentity(l.shapes, 0);
    ContiguousSpan(OfLayout(l), l);
    SetLayoutReturns(TensorState(l, OfLayout(l)), other);
  }

  lemma EmptyInSizeT()
    ensures InSizeT([])
  {
    assert SuffixProd([], 0) == 1;
  }

  /** An answer to a request has `size_t` extents. */
  lemma AnswerInSizeT(total: nat, req: seq<int>, shape: seq<nat>)
    requires total < SIZE_LIMIT && Accepted(total, req) && IsReshape(total, req, shape)
    requires forall i :: 0 <= i < |req| ==> req[i] < SIZE_LIMIT
    ensures forall i :: 0 <= i < |shape| ==> shape[i] < SIZE_LIMIT
  {
    var u := AnswerProduct(req, shape);
    if Unfixed(req, |req|) == 1 {
      ProductGe(if shape[u] == 0 then 1 else shape[u], FixedProd(req, |req|));
    }
  }
}
