/** `TensorUtils::concat`: tensors are copied into slices of the result, side by side along one axis. */
module LiteConcat {
  import opened Arith
  import opened Layout
  import opened Reshape
  import opened TensorLayouts
  import opened Wrappers
  import opened LiteTensor
  import OverlapCheck
  import opened SubTensor

  /**
    A tensor as its reader sees it: the layout, the elements in row-major order, and whether there is any
    storage. A slice without elements may still have some.
   */
  datatype Source<T> = Source(layout: LiteLayout, data: seq<T>, stored: bool)

  /** The storage holds the elements of the layout. */
  predicate Full<T(!new)>(t: Source<T>) {
    && (|t.data| == if t.layout.shapes == [] then 0 else Prod(t.layout.shapes))
    && (t.data != [] ==> t.stored)
  }

  function Shapes<T>(tensors: seq<Source<T>>): (s: seq<seq<nat>>)
    ensures |s| == |tensors|
  {
    seq(|tensors|, i requires 0 <= i < |tensors| => tensors[i].layout.shapes)
  }

  // ---- where elements belong -----------------------------------------------------------

  /** Both shapes have the axis, and agree along every other one. */
  predicate Matches(first: seq<nat>, s: seq<nat>, dim: nat) {
    |s| == |first| > dim && forall x :: 0 <= x < |s| && x != dim ==> s[x] == first[x]
  }

  predicate Agree(shapes: seq<seq<nat>>, dim: nat) {
    shapes != [] && forall i :: 0 <= i < |shapes| ==> Matches(shapes[0], shapes[i], dim)
  }

  /** Extent along the axis of the first `i` shapes together. */
  function Before(shapes: seq<seq<nat>>, dim: nat, i: nat): (n: nat)
    requires i <= |shapes| && forall j :: 0 <= j < i ==> dim < |shapes[j]|
  {
    if i == 0 then 0 else Before(shapes, dim, i - 1) + shapes[i - 1][dim]
  }

  function Joined(shapes: seq<seq<nat>>, dim: nat): (s: seq<nat>)
    requires Agree(shapes, dim)
  {
    shapes[0][dim := Before(shapes, dim, |shapes|)]
  }

  /** The multi-index in the result of the element of input `i` with multi-index `d`. */
  function Place(shapes: seq<seq<nat>>, dim: nat, i: nat, d: seq<int>): (e: seq<int>)
    requires Agree(shapes, dim) && i < |shapes| && |d| == |shapes[i]|
    ensures |e| == |d|
  {
    d[dim := Before(shapes, dim, i) + d[dim]]
  }

  predicate IsElement(shapes: seq<seq<nat>>, i: int, k: int) {
    0 <= i < |shapes| && 0 <= k < Prod(shapes[i])
  }

  lemma CountIsProd(shape: seq<nat>)
    ensures Count(ContiguousAxes(shape)) == Prod(shape)
    ensures Prod(shape) > 0 ==> Positive(ContiguousAxes(shape))
  {
    ProdIsCount(ContiguousAxes(shape));
  }

  lemma {:induction false} BeforeMonotone(shapes: seq<seq<nat>>, dim: nat, i: nat, j: nat)
    requires Agree(shapes, dim) && i <= j <= |shapes|
    ensures Before(shapes, dim, i) <= Before(shapes, dim, j)
    decreases j
  {
    if i < j {
      BeforeMonotone(shapes, dim, i, j - 1);
    }
  }

  lemma PlaceIsIndex(shapes: seq<seq<nat>>, dim: nat, i: nat, d: seq<int>)
    requires Agree(shapes, dim) && i < |shapes| && IsIndex(ContiguousAxes(shapes[i]), d)
    ensures IsIndex(ContiguousAxes(Joined(shapes, dim)), Place(shapes, dim, i, d))
  {
    BeforeMonotone(shapes, dim, i + 1, |shapes|);
    var e := Place(shapes, dim, i, d);
    forall x | 0 <= x < |e| ensures 0 <= e[x] < ContiguousAxes(Joined(shapes, dim))[x].shape {
      assert Matches(shapes[0], shapes[i], dim);
      assert 0 <= d[x] < ContiguousAxes(shapes[i])[x].shape;
    }
  }

  /** The row-major position in the result of element `k` of input `i`. */
  function Pos(shapes: seq<seq<nat>>, dim: nat, i: int, k: int): (p: int)
    requires Agree(shapes, dim) && IsElement(shapes, i, k)
    ensures 0 <= p < Prod(Joined(shapes, dim))
  {
    var s, l := ContiguousAxes(shapes[i]), ContiguousAxes(Joined(shapes, dim));
    CountIsProd(shapes[i]);
    CountIsProd(Joined(shapes, dim));
    DigitsAreIndex(s, k);
    PlaceIsIndex(shapes, dim, i, Digits(s, k));
    DigitsOfRank(l, Place(shapes, dim, i, Digits(s, k)));
    Rank(l, Place(shapes, dim, i, Digits(s, k)))
  }

  /** The multi-index at that position is the input's own, shifted along the axis by the inputs before it. */
  lemma PosIsPlaced(shapes: seq<seq<nat>>, dim: nat, i: int, k: int)
    requires Agree(shapes, dim) && IsElement(shapes, i, k)
    ensures Positive(ContiguousAxes(shapes[i])) && Positive(ContiguousAxes(Joined(shapes, dim)))
    ensures IsIndex(ContiguousAxes(shapes[i]), Digits(ContiguousAxes(shapes[i]), k))
    ensures Digits(ContiguousAxes(Joined(shapes, dim)), Pos(shapes, dim, i, k))
         == Place(shapes, dim, i, Digits(ContiguousAxes(shapes[i]), k))
  {
    var s := ContiguousAxes(shapes[i]);
    CountIsProd(shapes[i]);
    CountIsProd(Joined(shapes, dim));
    DigitsAreIndex(s, k);
    PlaceIsIndex(shapes, dim, i, Digits(s, k));
    DigitsOfRank(ContiguousAxes(Joined(shapes, dim)), Place(shapes, dim, i, Digits(s, k)));
  }

  lemma PlaceInjective(shapes: seq<seq<nat>>, dim: nat, i: nat, d: seq<int>, i': nat, d': seq<int>)
    requires Agree(shapes, dim) && i < |shapes| && i' < |shapes|
    requires IsIndex(ContiguousAxes(shapes[i]), d) && IsIndex(ContiguousAxes(shapes[i']), d')
    requires Place(shapes, dim, i, d) == Place(shapes, dim, i', d')
    ensures i == i' && d == d'
  {
    assert 0 <= d[dim] < ContiguousAxes(shapes[i])[dim].shape && 0 <= d'[dim] < ContiguousAxes(shapes[i'])[dim].shape;
    assert Place(shapes, dim, i, d)[dim] == Place(shapes, dim, i', d')[dim];
    if i < i' {
      BeforeMonotone(shapes, dim, i + 1, i');
    } else if i' < i {
      BeforeMonotone(shapes, dim, i' + 1, i);
    }
    assert Place(shapes, dim, i, d)[dim := d[dim]] == d && Place(shapes, dim, i, d')[dim := d'[dim]] == d';
  }

  /** No two elements of the inputs go to the same position. */
  lemma PosInjective(shapes: seq<seq<nat>>, dim: nat, i: int, k: int, i': int, k': int)
    requires Agree(shapes, dim) && IsElement(shapes, i, k) && IsElement(shapes, i', k')
    requires Pos(shapes, dim, i, k) == Pos(shapes, dim, i', k')
    ensures i == i' && k == k'
  {
    hide Agree, Pos, Place, Joined, Digits, Rank, Count, Prod, ContiguousAxes, IsIndex;
    PosIsPlaced(shapes, dim, i, k);
    PosIsPlaced(shapes, dim, i', k');
    var s, s' := ContiguousAxes(shapes[i]), ContiguousAxes(shapes[i']);
    PlaceInjective(shapes, dim, i, Digits(s, k), i', Digits(s', k'));
    CountIsProd(shapes[i]);
    RankOfDigits(s, k);
    RankOfDigits(s, k');
  }

  /** Some input covers index `x` along the axis. */
  lemma {:induction false} Covering(shapes: seq<seq<nat>>, dim: nat, x: int, n: nat) returns (i: nat)
    requires Agree(shapes, dim) && n <= |shapes| && 0 <= x < Before(shapes, dim, n)
    ensures i < n && Before(shapes, dim, i) <= x < Before(shapes, dim, i) + shapes[i][dim]
  {
    if x < Before(shapes, dim, n - 1) {
      i := Covering(shapes, dim, x, n - 1);
    } else {
      i := n - 1;
    }
  }

  lemma PlaceCovers(shapes: seq<seq<nat>>, dim: nat, e: seq<int>) returns (i: nat, d: seq<int>)
    requires Agree(shapes, dim) && IsIndex(ContiguousAxes(Joined(shapes, dim)), e)
    ensures i < |shapes| && IsIndex(ContiguousAxes(shapes[i]), d) && Place(shapes, dim, i, d) == e
  {
    var l := ContiguousAxes(Joined(shapes, dim));
    assert 0 <= e[dim] < l[dim].shape;
    i := Covering(shapes, dim, e[dim], |shapes|);
    d := e[dim := e[dim] - Before(shapes, dim, i)];
    forall x | 0 <= x < |d| ensures 0 <= d[x] < ContiguousAxes(shapes[i])[x].shape {
      assert Matches(shapes[0], shapes[i], dim) && 0 <= e[x] < l[x].shape;
    }
  }

  /** Every position of the result receives an element; with `PosInjective`, exactly one. */
  lemma PosCovers(shapes: seq<seq<nat>>, dim: nat, p: int) returns (i: int, k: int)
    requires Agree(shapes, dim) && 0 <= p < Prod(Joined(shapes, dim))
    ensures IsElement(shapes, i, k) && Pos(shapes, dim, i, k) == p
  {
    hide Agree, Place, Joined, Digits, Rank, Count, Prod, ContiguousAxes, IsIndex;
    var l := ContiguousAxes(Joined(shapes, dim));
    CountIsProd(Joined(shapes, dim));
    DigitsAreIndex(l, p);
    var d: seq<int>;
    i, d := PlaceCovers(shapes, dim, Digits(l, p));
    DigitsOfRank(ContiguousAxes(shapes[i]), d);
    CountIsProd(shapes[i]);
    k := Rank(ContiguousAxes(shapes[i]), d);
    RankOfDigits(l, p);
  }

  // ---- conservation ------------------------------------------------------------------------

  function Elements(shapes: seq<seq<nat>>, i: nat): nat
    requires i <= |shapes|
  {
    if i == 0 then 0 else Elements(shapes, i - 1) + Prod(shapes[i - 1])
  }

  lemma {:induction false} ProdAlong(s: seq<nat>, dim: nat, n: nat)
    requires dim < |s|
    ensures Prod(s[dim := n]) == n * Prod(s[dim := 1])
    decreases |s|
  {
    var x := |s| - 1;
    if dim == x {
      assert s[dim := n][..x] == s[..x] == s[dim := 1][..x];
    } else {
      ProdAlong(s[..x], dim, n);
      assert s[dim := n][..x] == s[..x][dim := n] && s[dim := 1][..x] == s[..x][dim := 1];
      MulAssoc(n, Prod(s[..x][dim := 1]), s[x]);
    }
  }

  /** The result has as many elements as the inputs together. */
  lemma {:induction false} Conserved(shapes: seq<seq<nat>>, dim: nat, i: nat)
    requires Agree(shapes, dim) && i <= |shapes|
    ensures Elements(shapes, i) == Prod(shapes[0][dim := Before(shapes, dim, i)])
    ensures i == |shapes| ==> Elements(shapes, i) == Prod(Joined(shapes, dim))
  {
    hide Prod;
    ProdAlong(shapes[0], dim, Before(shapes, dim, i));
    if i > 0 {
      Conserved(shapes, dim, i - 1);
      ProdAlong(shapes[0], dim, Before(shapes, dim, i - 1));
      ProdAlong(shapes[0], dim, shapes[i - 1][dim]);
      SameShape(shapes, dim, i - 1);
    }
  }

  lemma SameShape(shapes: seq<seq<nat>>, dim: nat, i: nat)
    requires Agree(shapes, dim) && i < |shapes|
    ensures shapes[0][dim := shapes[i][dim]] == shapes[i]
  {
  }

  // ---- the code ----------------------------------------------------------------------------

  /** Inputs that `concat` accepts. */
  predicate Joinable<T(!new)>(tensors: seq<Source<T>>, dim: nat) {
    && Agree(Shapes(tensors), dim)
    && (forall i :: 0 <= i < |tensors| ==> tensors[i].layout.dtype == tensors[0].layout.dtype)
    && Convertible(LiteLayout(Joined(Shapes(tensors), dim), tensors[0].layout.dtype))
    && forall i :: 0 <= i < |tensors| ==> !Uncopyable(tensors[i], dim)
  }

  /** An input that is not passed over, and whose copy asserts because it has storage but no elements. */
  predicate Uncopyable<T(!new)>(t: Source<T>, dim: nat) {
    dim < |t.layout.shapes| && t.layout.shapes[dim] > 0 && t.data == [] && t.stored
  }

  /** Two shapes that both have the axis and differ at most along it. */
  predicate Alike(s: seq<nat>, t: seq<nat>, dim: nat) {
    |s| == |t| > dim && forall x :: 0 <= x < |s| && x != dim ==> s[x] == t[x]
  }

  /** Inputs are accepted if they go together pairwise, the result converts, and each can be copied or passed over. */
  lemma JoinableIff<T(!new)>(tensors: seq<Source<T>>, dim: nat)
    ensures Agree(Shapes(tensors), dim) <==>
      && tensors != []
      && forall i, j :: 0 <= i < |tensors| && 0 <= j < |tensors| ==>
        Alike(tensors[i].layout.shapes, tensors[j].layout.shapes, dim)
    ensures Joinable(tensors, dim) <==>
      && Agree(Shapes(tensors), dim)
      && (forall i, j :: 0 <= i < j < |tensors| ==> tensors[i].layout.dtype == tensors[j].layout.dtype)
      && Convertible(LiteLayout(Joined(Shapes(tensors), dim), tensors[|tensors| - 1].layout.dtype))
      && forall i :: 0 <= i < |tensors| ==>
        var t := tensors[i]; t.data != [] || !t.stored || t.layout.shapes[dim] == 0
  {
    var shapes := Shapes(tensors);
    if Agree(shapes, dim) {
      forall i, j | 0 <= i < |tensors| && 0 <= j < |tensors|
        ensures Alike(tensors[i].layout.shapes, tensors[j].layout.shapes, dim)
      {
        assert Matches(shapes[0], shapes[i], dim) && Matches(shapes[0], shapes[j], dim);
      }
      forall i | 0 <= i < |tensors|
        ensures var t := tensors[i];
          dim < |t.layout.shapes| && (Uncopyable(t, dim) <==> t.data == [] && t.stored && t.layout.shapes[dim] > 0)
      {
        assert Matches(shapes[0], shapes[i], dim);
      }
    } else if tensors != [] {
      var i :| 0 <= i < |shapes| && !Matches(shapes[0], shapes[i], dim);
      assert !Alike(tensors[0].layout.shapes, tensors[i].layout.shapes, dim);
    }
    hide Convertible, Joined;
  }

  /** Slices without elements of tensors that have some: joining them along an axis they extend along throws. */
  lemma EmptySlicesThrow<T(!new)>(t: Source<T>)
    requires t == Source(LiteLayout([2, 0], Float), [], true)
    ensures Full(t) && Agree(Shapes([t, t]), 0) && !Joinable([t, t], 0)
  {
    assert Prod([2, 0]) == Prod([2]) * 0;
    assert Shapes([t, t]) == [[2, 0], [2, 0]];
    assert Uncopyable([t, t][0], 0);
  }

  /** The shapes and types are compared with those of the first input, and the extents along the axis added up. */
  method SumInDim<T(!new)>(tensors: seq<Source<T>>, dim: nat) returns (sum: Option<nat>)
    requires tensors != []
    ensures sum.Some? <==>
      && Agree(Shapes(tensors), dim)
      && forall i :: 0 <= i < |tensors| ==> tensors[i].layout.dtype == tensors[0].layout.dtype
    ensures sum.Some? ==> sum.value == Before(Shapes(tensors), dim, |tensors|)
  {
    var layout := tensors[0].layout;
    ghost var shapes := Shapes(tensors);
    if |layout.shapes| <= dim {
      assert !Matches(shapes[0], shapes[0], dim);
      return None;
    }
    var total := layout.shapes[dim];
    for i := 1 to |tensors|
      invariant forall j :: 0 <= j < i ==> Matches(shapes[0], shapes[j], dim) && tensors[j].layout.dtype == layout.dtype
      invariant total == Before(shapes, dim, i)
    {
      var other := tensors[i].layout;
      if |other.shapes| != |layout.shapes| || other.dtype != layout.dtype {
        assert !Matches(shapes[0], shapes[i], dim) || tensors[i].layout.dtype != tensors[0].layout.dtype;
        return None;
      }
      for j := 0 to |other.shapes|
        invariant total == Before(shapes, dim, i) + if j > dim then other.shapes[dim] else 0
        invariant forall x :: 0 <= x < j && x != dim ==> other.shapes[x] == layout.shapes[x]
      {
        if j == dim {
          total := total + other.shapes[j];
        } else if other.shapes[j] != layout.shapes[j] {
          assert !Matches(shapes[0], shapes[i], dim);
          return None;
        }
      }
    }
    return Some(total);
  }

  /** `sub` is `l`, shifted by `begin` along one axis. */
  ghost predicate Shifts(l: seq<Axis>, sub: Sub, dim: nat, begin: int) {
    && |sub.axes| == |l| > dim
    && forall d :: IsIndex(sub.axes, d) ==> sub.offset + Dot(sub.axes, d) == Dot(l, d[dim := begin + d[dim]])
  }

  /** A slice with a begin and an end inside the axis. */
  lemma PlainSlice(l: seq<Axis>, axis: nat, begin: nat, end: nat, sub: Sub)
    requires axis < |l| && begin <= end <= l[axis].shape
    requires IsSlice(l, axis, Slice(Some(begin), Some(end), None), sub)
    ensures Extents(sub.axes) == Extents(l)[axis := end - begin]
    ensures begin < end || begin == 0 ==> Shifts(l, sub, axis, begin)
  {
    var s, n := Slice(Some(begin), Some(end), None), l[axis].shape;
    var m := sub.axes[axis].shape;
    assert PySelects(n, s, m) <==> m < end - begin;
    assert PySelects(n, s, end - begin) <==> false;
    assert 0 <= end - begin < m <==> PySelects(n, s, end - begin);
  }

  /** `slice` with starts and ends for the axes up to `dim`: the full extent before it, `begin` to `end` along it. */
  method SliceAlong(l: seq<Axis>, dim: nat, begin: nat, end: nat) returns (sub: Sub)
    requires dim < |l| && begin < end <= l[dim].shape
    ensures Extents(sub.axes) == Extents(l)[dim := end - begin]
    ensures Shifts(l, sub, dim, begin)
  {
    hide Dot, IsIndex, Shifts, IsSlice;
    sub := Sub(l, 0);
    ShiftsByNothing(l, dim);
    for axis := 0 to dim
      invariant |sub.axes| == |l| && Extents(sub.axes) == Extents(l) && Shifts(l, sub, dim, 0)
    {
      var r := ApplySlice(sub.axes, axis, Slice(Some(0), Some(l[axis].shape), None));
      assert Extents(sub.axes)[axis] == Extents(l)[axis];
      PlainSlice(sub.axes, axis, 0, l[axis].shape, r.value);
      ShiftsCompose(l, sub, r.value, dim, axis, 0);
      sub := Sub(r.value.axes, sub.offset + r.value.offset);
    }
    var r := ApplySlice(sub.axes, dim, Slice(Some(begin), Some(end), None));
    assert Extents(sub.axes)[dim] == Extents(l)[dim];
    PlainSlice(sub.axes, dim, begin, end, r.value);
    ShiftsCompose(l, sub, r.value, dim, dim, begin);
    sub := Sub(r.value.axes, sub.offset + r.value.offset);
  }

  lemma ShiftsByNothing(l: seq<Axis>, dim: nat)
    requires dim < |l|
    ensures Shifts(l, Sub(l, 0), dim, 0)
  {
    hide Dot;
    forall d | IsIndex(l, d) ensures Dot(l, d) == Dot(l, d[dim := 0 + d[dim]]) {
      assert d[dim := 0 + d[dim]] == d;
    }
  }

  lemma ShiftsCompose(l: seq<Axis>, sub: Sub, sub': Sub, dim: nat, axis: nat, begin: nat)
    requires Shifts(l, sub, dim, 0) && Shifts(sub.axes, sub', axis, begin)
    requires axis == dim || begin == 0
    requires sub'.axes[axis].shape + begin <= sub.axes[axis].shape
    requires Extents(sub'.axes) == Extents(sub.axes)[axis := sub'.axes[axis].shape]
    ensures Shifts(l, Sub(sub'.axes, sub.offset + sub'.offset), dim, begin)
  {
    hide Dot, IsIndex, Extents;
    forall d | IsIndex(sub'.axes, d)
      ensures |d| == |l| && sub.offset + sub'.offset + Dot(sub'.axes, d) == Dot(l, d[dim := begin + d[dim]])
    {
      var e := ShiftedIndex(sub.axes, sub'.axes, axis, begin, d);
      assert e[dim := 0 + e[dim]] == e;
      assert e == d[dim := begin + d[dim]];
    }
  }

  lemma ShiftedIndex(l: seq<Axis>, m: seq<Axis>, axis: nat, begin: nat, d: seq<int>) returns (e: seq<int>)
    requires |l| == |m| > axis && m[axis].shape + begin <= l[axis].shape && IsIndex(m, d)
    requires Extents(m) == Extents(l)[axis := m[axis].shape]
    ensures |d| == |l| && e == d[axis := begin + d[axis]] && IsIndex(l, e)
  {
    e := d[axis := begin + d[axis]];
    forall i | 0 <= i < |e| ensures 0 <= e[i] < l[i].shape {
      assert Extents(m)[i] == Extents(l)[axis := m[axis].shape][i];
      assert 0 <= d[i] < m[i].shape;
    }
  }

  /** In a contiguous layout the offset of a multi-index is its rank. */
  lemma DotIsRank(shape: seq<nat>, d: seq<int>)
    requires IsIndex(ContiguousAxes(shape), d)
    ensures Dot(ContiguousAxes(shape), d) == Rank(ContiguousAxes(shape), d)
  {
    var l := ContiguousAxes(shape);
    DigitsOfRank(l, d);
    AtIsDotOfDigits(l, Rank(l, d));
    ContiguousIsIdentity(shape, 0);
  }

  lemma {:induction false} DigitsOfExtents(l: seq<Axis>, m: seq<Axis>, k: int)
    requires Extents(l) == Extents(m) && Positive(l)
    ensures Count(l) == Count(m) && Positive(m) && Digits(l, k) == Digits(m, k)
    decreases |l|
  {
    assert |l| == |m|;
    if l != [] {
      var n := |l| - 1;
      assert Extents(l)[n] == Extents(m)[n];
      assert Extents(Outer(l)) == Extents(l)[..n] == Extents(Outer(m));
      DigitsOfExtents(Outer(l), Outer(m), k / l[n].shape);
    }
  }

  /** Element `k` of the slice for input `i` is where element `k` of that input belongs. */
  lemma SlicePosition(shapes: seq<seq<nat>>, dim: nat, i: int, sub: Sub, k: int)
    requires Agree(shapes, dim) && IsElement(shapes, i, k) && Extents(sub.axes) == shapes[i]
    requires Shifts(ContiguousAxes(Joined(shapes, dim)), sub, dim, Before(shapes, dim, i))
    ensures sub.offset + At(sub.axes, k) == Pos(shapes, dim, i, k)
  {
    hide At, Dot, Rank, Digits, ContiguousAxes, Extents, Count, Prod, Joined;
    var s := ContiguousAxes(shapes[i]);
    CountIsProd(shapes[i]);
    DigitsOfExtents(s, sub.axes, k);
    DigitsAreIndex(sub.axes, k);
    DigitsAreIndex(s, k);
    AtIsDotOfDigits(sub.axes, k);
    PlaceIsIndex(shapes, dim, i, Digits(s, k));
    DotIsRank(Joined(shapes, dim), Place(shapes, dim, i, Digits(s, k)));
  }

  /** The elements of input `i` are in place. */
  ghost predicate Placed<T(!new)>(a: seq<T>, shapes: seq<seq<nat>>, dim: nat, i: int, data: seq<T>)
    requires Agree(shapes, dim) && |a| == Prod(Joined(shapes, dim))
  {
    forall k :: IsElement(shapes, i, k) && k < |data| ==> a[Pos(shapes, dim, i, k)] == data[k]
  }

  /** `copy_from` into a slice: row-major elements go to the slice's elements, in order. */
  method CopyInto<T(!new)>(a: array<T>, shapes: seq<seq<nat>>, dim: nat, i: nat, sub: Sub, data: seq<T>)
    requires Agree(shapes, dim) && i < |shapes| && a.Length == Prod(Joined(shapes, dim))
    requires |data| == Prod(shapes[i]) && Extents(sub.axes) == shapes[i]
    requires Shifts(ContiguousAxes(Joined(shapes, dim)), sub, dim, Before(shapes, dim, i))
    modifies a
    ensures Placed(a[..], shapes, dim, i, data)
    ensures forall i', k' :: i' != i && IsElement(shapes, i', k') ==>
        a[Pos(shapes, dim, i', k')] == old(a[Pos(shapes, dim, i', k')])
  {
    hide Agree, Joined, Prod, Pos, At, Shifts, Extents, ContiguousAxes;
    for k := 0 to |data|
      invariant forall k' :: 0 <= k' < k && IsElement(shapes, i, k') ==> a[Pos(shapes, dim, i, k')] == data[k']
      invariant forall i', k' :: i' != i && IsElement(shapes, i', k') ==>
          a[Pos(shapes, dim, i', k')] == old(a[Pos(shapes, dim, i', k')])
    {
      SlicePosition(shapes, dim, i, sub, k);
      forall i', k' | IsElement(shapes, i', k') && Pos(shapes, dim, i', k') == Pos(shapes, dim, i, k)
        ensures i' == i && k' == k
      {
        PosInjective(shapes, dim, i', k', i, k);
      }
      a[sub.offset + At(sub.axes, k)] := data[k];
    }
  }

  lemma NothingAlong(shape: seq<nat>, dim: nat)
    requires dim < |shape| && shape[dim] == 0
    ensures Prod(shape) == 0
  {
  }

  /** The slice for input `i`: its own extents, after the inputs before it. */
  method SliceFor(shapes: seq<seq<nat>>, dim: nat, i: nat, index: nat) returns (sub: Sub)
    requires Agree(shapes, dim) && i < |shapes| && index == Before(shapes, dim, i) && shapes[i][dim] > 0
    ensures Extents(sub.axes) == shapes[i]
    ensures Shifts(ContiguousAxes(Joined(shapes, dim)), sub, dim, index)
  {
    hide Shifts;
    BeforeMonotone(shapes, dim, i + 1, |shapes|);
    sub := SliceAlong(ContiguousAxes(Joined(shapes, dim)), dim, index, index + shapes[i][dim]);
    SameShape(shapes, dim, i);
  }

  /** A shifted layout has the strides of the one it is part of, along every axis with more than one index. */
  lemma ShiftKeepsStrides(l: seq<Axis>, sub: Sub, dim: nat, begin: int, i: nat)
    requires Shifts(l, sub, dim, begin) && Positive(sub.axes) && i < |l| && sub.axes[i].shape >= 2
    ensures sub.axes[i].stride == l[i].stride
  {
    hide Dot;
    var zero := seq(|l|, k => 0);
    var one := zero[i := 1];
    assert IsIndex(sub.axes, zero) && IsIndex(sub.axes, one);
    OverlapCheck.DotUpdate(sub.axes, zero, i, 1);
    var z := zero[dim := begin + zero[dim]];
    var o := one[dim := begin + one[dim]];
    assert o == z[i := z[i] + 1];
    OverlapCheck.DotUpdate(l, z, i, z[i] + 1);
  }

  /** The slice for an input with elements passes the overlap check of the copy into it. */
  lemma SliceAccepted(shapes: seq<seq<nat>>, dim: nat, i: nat, sub: Sub)
    requires Agree(shapes, dim) && i < |shapes| && Prod(shapes[i]) > 0 && Extents(sub.axes) == shapes[i]
    requires Shifts(ContiguousAxes(Joined(shapes, dim)), sub, dim, Before(shapes, dim, i))
    ensures OverlapCheck.Verify(sub.axes) == OverlapCheck.Accepted
  {
    hide Shifts, Prod, Before, Joined;
    var l, v := ContiguousAxes(Joined(shapes, dim)), sub.axes;
    PosCoversSlice(shapes, dim, i);
    assert Positive(v) by {
      ProdIsCount(v);
    }
    forall x | 0 <= x < |v| && v[x].shape >= 2 ensures v[x].stride == l[x].stride {
      ShiftKeepsStrides(l, sub, dim, Before(shapes, dim, i), x);
    }
    assert OverlapCheck.Forward(v) by {
      forall x | 0 <= x < |v| ensures v[x].shape > 0 && (v[x].shape >= 2 ==> v[x].stride > 0) {
        AxisOf(Joined(shapes, dim), x);
      }
    }
    forall x, y | 0 <= x < y < |v| ensures OverlapCheck.NestedPair(v[x], v[y]) {
      if v[x].shape >= 2 && v[y].shape >= 2 {
        ContiguousNested(Joined(shapes, dim), x, y);
        assert v[y].shape == shapes[i][y] <= Joined(shapes, dim)[y];
        MulLe(v[y].shape, l[y].shape, l[y].stride);
      }
    }
    PairwiseNested(v);
    OverlapCheck.NestedIsAccepted(v);
  }

  /** Where an input has elements so has the result, and it is no shorter along any axis. */
  lemma PosCoversSlice(shapes: seq<seq<nat>>, dim: nat, i: nat)
    requires Agree(shapes, dim) && i < |shapes| && Prod(shapes[i]) > 0
    ensures Prod(Joined(shapes, dim)) > 0 && |Joined(shapes, dim)| == |shapes[i]|
    ensures forall y :: 0 <= y < |shapes[i]| ==> shapes[i][y] <= Joined(shapes, dim)[y]
  {
    PosIsPlaced(shapes, dim, i, 0);
    CountIsProd(Joined(shapes, dim));
    BeforeMonotone(shapes, dim, i + 1, |shapes|);
    assert Matches(shapes[0], shapes[i], dim);
  }

  /** Every input is in place. */
  ghost predicate AllPlaced<T(!new)>(a: seq<T>, tensors: seq<Source<T>>, dim: nat)
    requires Agree(Shapes(tensors), dim) && |a| == Prod(Joined(Shapes(tensors), dim))
  {
    forall i :: 0 <= i < |tensors| ==> Placed(a, Shapes(tensors), dim, i, tensors[i].data)
  }

  /** That determines the result: no position is left over. */
  lemma PlacedDetermines<T(!new)>(a: seq<T>, b: seq<T>, tensors: seq<Source<T>>, dim: nat)
    requires Agree(Shapes(tensors), dim) && |a| == |b| == Prod(Joined(Shapes(tensors), dim))
    requires forall i :: 0 <= i < |tensors| ==> Full(tensors[i])
    requires AllPlaced(a, tensors, dim) && AllPlaced(b, tensors, dim)
    ensures a == b
  {
    hide Pos, Prod, Joined;
    var shapes := Shapes(tensors);
    forall p | 0 <= p < |a| ensures a[p] == b[p] {
      var i, k := PosCovers(shapes, dim, p);
      assert Matches(shapes[0], shapes[i], dim) && Full(tensors[i]);
      assert Placed(a, shapes, dim, i, tensors[i].data) && Placed(b, shapes, dim, i, tensors[i].data);
    }
  }

  /** `None` stands for a failed assertion; no inputs give an empty tensor. */
  method Concat<T(!new, 0)>(tensors: seq<Source<T>>, dim: nat) returns (r: Option<Source<T>>)
    requires forall i :: 0 <= i < |tensors| ==> Full(tensors[i])
    ensures r.Some? <==> tensors == [] || Joinable(tensors, dim)
    ensures r.Some? ==> Full(r.value)
    ensures tensors == [] ==> r == Some(Source(EMPTY, [], false))
    ensures r.Some? && tensors != [] ==>
        r.value.layout == LiteLayout(Joined(Shapes(tensors), dim), tensors[0].layout.dtype)
    ensures r.Some? && tensors != [] ==> AllPlaced(r.value.data, tensors, dim)
  {
    if tensors == [] {
      return Some(Source(EMPTY, [], false));
    }
    var sum := SumInDim(tensors, dim);
    if sum.None? {
      return None;
    }
    var shapes := Shapes(tensors);
    var layout := LiteLayout(tensors[0].layout.shapes[dim := sum.value], tensors[0].layout.dtype);
    assert layout.shapes == Joined(shapes, dim);
    if !Convertible(layout) {
      return None;
    }
    var data := FillResult(tensors, dim);
    if data.None? {
      return None;
    }
    return Some(Source(layout, data.value, data.value != []));
  }

  /** The loop over the inputs. */
  method FillResult<T(!new, 0)>(tensors: seq<Source<T>>, dim: nat) returns (data: Option<seq<T>>)
    requires forall i :: 0 <= i < |tensors| ==> Full(tensors[i])
    requires Agree(Shapes(tensors), dim)
    ensures data.Some? <==> forall i :: 0 <= i < |tensors| ==> !Uncopyable(tensors[i], dim)
    ensures data.Some? ==> |data.value| == Prod(Joined(Shapes(tensors), dim)) && AllPlaced(data.value, tensors, dim)
  {
    hide Prod, Pos, Shifts, Extents, ContiguousAxes, Joined;
    var shapes := Shapes(tensors);
    var a := new T[Prod(Joined(shapes, dim))];
    var index := 0;
    for i := 0 to |tensors|
      invariant index == Before(shapes, dim, i)
      invariant forall j :: 0 <= j < i ==> !Uncopyable(tensors[j], dim)
      invariant forall j :: 0 <= j < i ==> Placed(a[..], shapes, dim, j, tensors[j].data)
    {
      assert Matches(shapes[0], shapes[i], dim) && Full(tensors[i]);
      if shapes[i][dim] == 0 {
        NothingAlong(shapes[i], dim);
        continue;
      }
      var sub := SliceFor(shapes, dim, i, index);
      if tensors[i].data == [] && tensors[i].stored {
        return None;
      }
      if tensors[i].data != [] {
        SliceAccepted(shapes, dim, i, sub);
        assert OverlapCheck.Verify(sub.axes) == OverlapCheck.Accepted;
      }
      CopyInto(a, shapes, dim, i, sub, tensors[i].data);
      index := index + shapes[i][dim];
    }
    return Some(a[..]);
  }
}
