/**
  `TensorLayout` with its fixed buffers: in-place axis edits, contiguity, collapsing and reshaping
  (default format).
 */
module TensorLayouts {
  import opened Arith
  import opened Layout
  import opened Canonical
  import opened Reshape

  const MAX_NDIM: nat := 7

  /** Outcome of `try_reshape`: `Failed` stands for the assertions and thrown reshape errors. */
  datatype ReshapeOutcome = Reshaped | NoStrides | Failed

  /** The parallel buffers `shape[MAX_NDIM]` and `stride[MAX_NDIM]` are kept as one buffer of axes. */
  class TensorLayout {
    var ndim: nat
    const axis: array<Axis>

    ghost predicate Valid()
      reads this
    {
      ndim <= MAX_NDIM && axis.Length == MAX_NDIM
    }

    /** The axes in use. */
    ghost function View(): (l: seq<Axis>)
      requires Valid()
      reads this, axis
    {
      axis[..ndim]
    }

    constructor (l: seq<Axis>)
      requires |l| <= MAX_NDIM
      ensures Valid() && View() == l && fresh(axis)
    {
      ndim := |l|;
      axis := new Axis[MAX_NDIM](i => if 0 <= i < |l| then l[i] else Axis(0, 0));
    }

    constructor Copy(other: TensorLayout)
      requires other.Valid()
      ensures Valid() && View() == other.View() && fresh(axis)
    {
      ndim := other.ndim;
      axis := new Axis[MAX_NDIM](i requires 0 <= i < other.axis.Length reads other.axis => other.axis[i]);
    }

    method RemoveAxisInplace(at: nat) returns (ok: bool)
      requires Valid()
      modifies this`ndim, axis
      ensures Valid() && ok == (old(ndim) >= 2 && at < old(ndim))
      ensures View() == if ok then old(View()[..at] + View()[at + 1..]) else old(View())
    {
      if !(ndim >= 2 && at < ndim) {
        return false;
      }
      ndim := ndim - 1;
      for i := at to ndim
        invariant ndim == old(ndim) - 1
        invariant forall j :: 0 <= j < at || i <= j < MAX_NDIM ==> axis[j] == old(axis[j])
        invariant forall j :: at <= j < i ==> axis[j] == old(axis[j + 1])
      {
        axis[i] := axis[i + 1];
      }
      ok := true;
    }

    method AddAxisInplace(at: nat, extent: nat, step: int) returns (ok: bool)
      requires Valid()
      modifies this`ndim, axis
      ensures Valid() && ok == (old(ndim) + 1 <= MAX_NDIM && at <= old(ndim) && extent != 0)
      ensures View() == if ok then old(View()[..at]) + [Axis(extent, step)] + old(View()[at..]) else old(View())
    {
      if !(ndim + 1 <= MAX_NDIM && at <= ndim && extent != 0) {
        return false;
      }
      ndim := ndim + 1;
      var i := ndim - 1;
      while i > at
        invariant at <= i < ndim == old(ndim) + 1
        invariant forall j :: 0 <= j < i ==> axis[j] == old(axis[j])
        invariant forall j :: i < j < ndim ==> axis[j] == old(axis[j - 1])
      {
        axis[i] := axis[i - 1];
        i := i - 1;
      }
      axis[at] := Axis(extent, step);
      ghost var v := old(View()[..at]) + [Axis(extent, step)] + old(View()[at..]);
      assert |v| == ndim && forall j :: 0 <= j < ndim ==> axis[j] == v[j];
      ok := true;
    }

    /** A new axis of extent one, wherever it goes, leaves the visited offsets as they were. */
    method AddAxisContInplace(at: nat) returns (ok: bool)
      requires Valid()
      modifies this`ndim, axis
      ensures Valid() && ok == (old(ndim) + 1 <= MAX_NDIM && at <= old(ndim))
      ensures View() == if ok then old(View()[..at]) + [Axis(1, ContiguousStep(old(View()),
          at))] + old(View()[at..]) else old(View())
      ensures Offsets(View()) == old(Offsets(View()))
      ensures old(IsIdentity(View())) ==> IsIdentity(View())
    {
      ghost var v := View();
      var step := if at < ndim then axis[at].stride * axis[at].shape else 1;
      ok := AddAxisInplace(at, 1, step);
      if ok {
        UnitAxis(v[..at], step, v[at..]);
        assert v == v[..at] + v[at..];
        SameOffsetsIsEqualSequence(View(), v);
      }
    }

    /** `DefaultTensorFormat::init_contiguous_stride`. */
    method InitContiguousStride() returns (total: nat)
      requires Valid()
      modifies axis
      ensures Valid() && Extents(View()) == old(Extents(View()))
      ensures total == Total(View())
      ensures IsIdentity(View())
    {
      if ndim == 0 {
        return 0;
      }
      total := 1;
      var i := ndim;
      while i > 0
        invariant 0 <= i <= ndim
        invariant Extents(View()) == old(Extents(View()))
        invariant total == SuffixCount(View(), i) && Dense(View(), i)
      {
        i := i - 1;
        DenseStep(View(), i);
        ghost var w := View()[i := Axis(axis[i].shape, total)];
        axis[i] := Axis(axis[i].shape, total);
        assert View() == w;
        total := axis[i].shape * total;
      }
      DenseIsIdentity(View());
    }

    /** `is_physical_contiguous` holds exactly when the tensor is not empty and element `k` is at offset `k`. */
    method IsPhysicalContiguous() returns (r: bool)
      requires Valid()
      ensures r <==> Count(View()) > 0 && IsIdentity(View())
    {
      var expected := 1;
      var i := ndim;
      while i > 0
        invariant 0 <= i <= ndim
        invariant expected == SuffixCount(View(), i) && Dense(View(), i)
      {
        i := i - 1;
        if axis[i].shape != 1 && axis[i].stride != expected {
          NotDense(View(), i);
          DenseIsIdentity(View());
          return false;
        }
        expected := expected * axis[i].shape;
      }
      DenseIsIdentity(View());
      return expected != 0;
    }

    /**
      `DefaultTensorFormat::collapse_contiguous_spec`: the canonical layout with the same
      offsets. It is unique by `CanonicalIffSameOffsets`. Null stands for the failed
      assertion on a layout without axes.
     */
    method CollapseContiguous() returns (res: TensorLayout?)
      requires Valid()
      ensures res == null <==> ndim == 0
      ensures res != null ==> fresh(res) && fresh(res.axis) && res.Valid()
      ensures res != null ==> Offsets(res.View()) == Offsets(View()) && IsCanonical(res.View())
    {
      if ndim == 0 {
        return null;
      }
      var r := new TensorLayout.Copy(this);
      res := r;
      var done := r.DropUnitAxes();
      if done {
        return;
      }
      if r.ndim == 1 {
        if r.axis[0].shape <= 1 {
          ghost var v := r.View();
          r.axis[0] := Axis(r.axis[0].shape, 1);
          SmallSameOffsets(v[0], 1);
          assert r.View() == [Axis(v[0].shape, 1)] && v == [v[0]];
        }
        return;
      }
      r.MergeAdjacentAxes();
    }

    /** First loop: remove axes of extent one while two axes are left; an empty axis makes the whole layout `{0}`. */
    method DropUnitAxes() returns (empty: bool)
      requires Valid() && ndim > 0
      modifies this`ndim, axis
      ensures Valid() && ndim > 0 && Offsets(View()) == old(Offsets(View()))
      ensures empty ==> View() == [Axis(0, 1)]
      ensures !empty && ndim >= 2 ==> Wide(View(), 0)
    {
      var i: int := ndim - 1;
      while i >= 0 && ndim >= 2
        invariant -1 <= i < ndim <= MAX_NDIM && ndim >= 1
        invariant Offsets(View()) == old(Offsets(View()))
        invariant Wide(View(), i + 1)
      {
        ghost var v := View();
        if axis[i].shape == 0 {
          ndim := 1;
          axis[0] := Axis(0, 1);
          EmptySameOffsets(v, i);
          assert View() == [Axis(0, 1)];
          return true;
        }
        if axis[i].shape == 1 {
          var _ := RemoveAxisInplace(i);
          DropUnitAxis(v, i);
        }
        i := i - 1;
      }
      return false;
    }

    method FoldIntoNext(i: nat)
      requires Valid() && i + 1 < ndim
      modifies this`ndim, axis
      ensures Valid() && View() == Merged(old(View()), i)
    {
      axis[i] := Axis(axis[i].shape * axis[i + 1].shape, axis[i + 1].stride);
      var _ := RemoveAxisInplace(i + 1);
    }

    /** Second loop: from the inside out, fold an axis into its neighbour when the strides continue. */
    method MergeAdjacentAxes()
      requires Valid() && ndim >= 1 && Wide(View(), 0)
      modifies this`ndim, axis
      ensures Valid() && View() != [] && Collapsed(View()) && Offsets(View()) == old(Offsets(View()))
    {
      var i: int := ndim - 2;
      while i >= 0
        invariant 1 <= ndim <= MAX_NDIM && -1 <= i <= ndim - 2
        invariant Offsets(View()) == old(Offsets(View()))
        invariant Wide(View(), 0) && Settled(View(), i + 1)
      {
        ghost var v := View();
        if axis[i].stride == axis[i + 1].stride * axis[i + 1].shape {
          FoldIntoNext(i);
          MergedAxis(v, i);
        }
        i := i - 1;
      }
      assert Collapsed(View());
    }

    /** Inner loop of `try_reshape`: contiguous strides, starting from `base`, for the axes in `[lo, hi)`. */
    method FillGroup(lo: nat, hi: nat, base: int)
      requires Valid() && lo <= hi <= ndim
      modifies axis
      ensures Valid() && Extents(View()) == old(Extents(View()))
      ensures View()[..lo] == old(View()[..lo])
      ensures Scans(View(), lo, hi, base)
    {
      var s := base;
      var j := hi;
      while j > lo
        invariant lo <= j <= hi
        invariant Extents(View()) == old(Extents(View()))
        invariant View()[..j] == old(View()[..j])
        invariant s == base * GroupCount(View(), j, hi) && Scans(View(), j, hi, base)
      {
        j := j - 1;
        ghost var w := View()[j := Axis(axis[j].shape, s)];
        ScansStep(View(), j, hi, base);
        axis[j] := Axis(axis[j].shape, s);
        assert View() == w;
        s := s * axis[j].shape;
      }
    }

    /**
      Outer loop of `try_reshape`: group the target axes so that their products meet the
      collapsed axes one by one. The assertions on the collapsed axes never fail.
     */
    method GroupAxes(cont: TensorLayout) returns (ok: bool)
      requires Valid() && cont.Valid() && cont.axis != axis && ndim > 0
      requires IsCanonical(cont.View()) && Count(cont.View()) == Count(View()) > 0
      modifies axis
      ensures Valid() && Extents(View()) == old(Extents(View()))
      ensures ok ==> Offsets(View()) == Offsets(cont.View())
      ensures !ok ==> !CanReshape(cont.View(), old(Extents(View())))
    {
      hide Count, Prod, Offsets, IsCanonical, CanReshape, Scans;
      ghost var m, shape := cont.View(), Extents(View());
      var start, prod, c, i := 0, 1, 0, 0;
      ProdIsCount(View());
      GroupingStarts(shape, m);
      PrefixScanned(View(), m);
      while i < ndim
        invariant 0 <= i <= ndim && 0 <= start && 0 <= c
        invariant cont.View() == m && Extents(View()) == shape
        invariant Grouping(shape, m, c, start, i, prod)
        invariant Offsets(View()[..start]) == Offsets(m[..c])
      {
        assert c < cont.ndim;
        ghost var before := prod;
        prod := prod * axis[i].shape;
        if prod > cont.axis[c].shape {
          GroupingJumps(shape, m, c, start, i, before, prod);
          return false;
        }
        if prod == cont.axis[c].shape && (i + 1 >= ndim || axis[i + 1].shape != 1) {
          ghost var v := View();
          FillGroup(start, i + 1, cont.axis[c].stride);
          GroupScanned(v, View(), m, c, start, i, before);
          GroupingCloses(shape, m, c, start, i, before, prod);
          c, start, prod := c + 1, i + 1, 1;
        } else {
          GroupingGoesOn(shape, m, c, start, i, before, prod);
        }
        i := i + 1;
      }
      assert c == cont.ndim;
      assert View()[..start] == View() && m[..c] == m;
      return true;
    }

    /**
      `try_reshape` for the default format: it succeeds exactly when some strides over the
      target shape visit the same offsets, and then has found such strides.
     */
    method TryReshape(result: TensorLayout, target: seq<nat>) returns (r: ReshapeOutcome)
      requires Valid() && result.Valid() && |target| <= MAX_NDIM
      requires result == this || result.axis != axis
      modifies result, result.axis
      ensures result.Valid()
      ensures r == Failed <==> target == [] || old(ndim) == 0 || old(Total(View())) != Prod(target)
      ensures r == Reshaped ==> Extents(result.View()) == target && Offsets(result.View()) == old(Offsets(View()))
      ensures r != Failed ==> (r == Reshaped <==> CanReshape(old(View()), target))
    {
      hide Count, Prod, Offsets, IsCanonical, CanReshape, IsIdentity;
      if target == [] {
        return Failed;
      }
      ghost var v := View();
      ProdIsCount(v);
      var total := TotalNrElems();
      if total != Prod(target) {
        return Failed;
      }
      var cont := CollapseContiguous();
      if cont == null {
        return Failed;
      }
      result.AssignShape(target);
      ZeroExtent(target);
      if 0 in target {
        var _ := result.InitContiguousStride();
        ProdIsCount(result.View());
        EmptyReshapes(v, result.View());
        return Reshaped;
      }
      ProdIsCount(result.View());
      SameCount(cont.View(), v);
      var ok := result.GroupAxes(cont);
      SameReach(cont.View(), v, target);
      if ok {
        ReachedBy(result.View(), v);
        return Reshaped;
      }
      return NoStrides;
    }

    method TotalNrElems() returns (n: nat)
      requires Valid()
      ensures n == Total(View())
    {
      if ndim == 0 {
        return 0;
      }
      n := 1;
      for i := 0 to ndim
        invariant n == Count(View()[..i])
      {
        CountSnoc(View(), i);
        n := n * axis[i].shape;
      }
      assert View()[..ndim] == View();
    }

    /** `TensorShape::operator=`: take over the extents; the strides are whatever they were. */
    method AssignShape(shape: seq<nat>)
      requires Valid() && |shape| <= MAX_NDIM
      modifies this`ndim, axis
      ensures Valid() && Extents(View()) == shape
    {
      ndim := |shape|;
      for i := 0 to ndim
        invariant ndim == |shape|
        invariant forall j :: 0 <= j < i ==> axis[j].shape == shape[j]
      {
        axis[i] := Axis(shape[i], axis[i].stride);
      }
    }
  }

  lemma ZeroExtent(shape: seq<nat>)
    ensures 0 in shape <==> Prod(shape) == 0
  {
  }

  lemma SameCount(l: seq<Axis>, m: seq<Axis>)
    requires Offsets(l) == Offsets(m)
    ensures Count(l) == Count(m)
  {
  }

  /** Reachability of a shape only depends on the offsets. */
  lemma SameReach(l: seq<Axis>, m: seq<Axis>, shape: seq<nat>)
    requires Offsets(l) == Offsets(m)
    ensures CanReshape(l, shape) <==> CanReshape(m, shape)
  {
  }

  lemma ReachedBy(w: seq<Axis>, v: seq<Axis>)
    requires Offsets(w) == Offsets(v)
    ensures CanReshape(v, Extents(w))
  {
    var stride := seq(|w|, i requires 0 <= i < |w| => w[i].stride);
    assert Zip(Extents(w), stride) == w;
  }

  lemma EmptyReshapes(v: seq<Axis>, w: seq<Axis>)
    requires Count(v) == Count(w) == 0
    ensures Offsets(w) == Offsets(v) && CanReshape(v, Extents(w))
  {
    assert Offsets(w) == Offsets(v);
    ReachedBy(w, v);
  }

  /** Number of elements of the axes in `[j, hi)`. */
  function GroupCount(w: seq<Axis>, j: nat, hi: nat): nat
    requires j <= hi <= |w|
    decreases hi - j
  {
    if j == hi then 1 else w[j].shape * GroupCount(w, j + 1, hi)
  }

  /** The axes in `[j, hi)` have the strides of one axis with stride `base` cut into pieces. */
  predicate Scans(w: seq<Axis>, j: nat, hi: nat, base: int)
    requires j <= hi <= |w|
    decreases hi - j
  {
    j < hi ==> w[j].stride == base * GroupCount(w, j + 1, hi) && Scans(w, j + 1, hi, base)
  }

  lemma {:induction false} ScansIgnoresOuter(v: seq<Axis>, w: seq<Axis>, j: nat, hi: nat, base: int)
    requires |v| == |w| && j <= hi <= |v| && v[j..] == w[j..]
    ensures GroupCount(v, j, hi) == GroupCount(w, j, hi) && Scans(v, j, hi, base) == Scans(w, j, hi, base)
    decreases hi - j
  {
    if j < hi {
      assert v[j] == v[j..][0] && w[j] == w[j..][0];
      assert v[j + 1..] == v[j..][1..] && w[j + 1..] == w[j..][1..];
      ScansIgnoresOuter(v, w, j + 1, hi, base);
    }
  }

  lemma ScansStep(v: seq<Axis>, j: nat, hi: nat, base: int)
    requires j < hi <= |v| && Scans(v, j + 1, hi, base)
    ensures var s := base * GroupCount(v, j + 1, hi);
      var w := v[j := Axis(v[j].shape, s)];
      Scans(w, j, hi, base) && s * v[j].shape == base * GroupCount(w, j, hi) && Extents(w) == Extents(v)
  {
    var s := base * GroupCount(v, j + 1, hi);
    ScansIgnoresOuter(v, v[j := Axis(v[j].shape, s)], j + 1, hi, base);
    ScaleStep(base, GroupCount(v, j + 1, hi), v[j].shape);
  }

  /** So they visit what that axis visits. */
  lemma {:induction false} ScansIsOneAxis(w: seq<Axis>, j: nat, hi: nat, base: int)
    requires j <= hi <= |w| && Scans(w, j, hi, base)
    ensures Offsets(w[j..hi]) == Offsets([Axis(Prod(Extents(w)[j..hi]), base)])
    ensures GroupCount(w, j, hi) == Prod(Extents(w)[j..hi])
    decreases hi - j
  {
    var e := Extents(w);
    if j == hi {
      assert w[j..hi] == [] && e[j..hi] == [];
      UnitOffsets(base);
    } else {
      ScansIsOneAxis(w, j + 1, hi, base);
      ProdCons(e, j, hi);
      assert w[j..hi] == [w[j]] + w[j + 1..hi];
      GroupScansAxis(e[j], base, w[j + 1..hi], Prod(e[j + 1..hi]));
    }
  }

  lemma PrefixScanned(v: seq<Axis>, m: seq<Axis>)
    ensures Offsets(v[..0]) == Offsets(m[..0])
  {
  }

  lemma ProdIsCount(v: seq<Axis>)
    ensures Prod(Extents(v)) == Count(v)
  {
    var stride := seq(|v|, i requires 0 <= i < |v| => v[i].stride);
    CountZip(Extents(v), stride);
    assert Zip(Extents(v), stride) == v;
  }

  /** A filled group extends the part of the result that already visits what the collapsed axes visit. */
  lemma GroupScanned(v: seq<Axis>, w: seq<Axis>, m: seq<Axis>, c: int, start: nat, i: nat, prod: int)
    requires |v| == |w| && start <= i < |w| && 0 <= c < |m|
    requires v[..start] == w[..start] && Offsets(v[..start]) == Offsets(m[..c])
    requires Scans(w, start, i + 1, m[c].stride)
    requires prod == Prod(Extents(w)[start..i]) && prod * w[i].shape == m[c].shape
    ensures Offsets(w[..i + 1]) == Offsets(m[..c + 1])
  {
    ScansIsOneAxis(w, start, i + 1, m[c].stride);
    ProdSnoc(Extents(w), start, i);
    assert w[..i + 1] == w[..start] + w[start..i + 1];
    assert m[..c + 1] == m[..c] + [m[c]];
    OffsetsAppend(w[..start], m[..c], w[start..i + 1], [m[c]]);
  }

  /** `total_nr_elems`: zero, not one, without axes. */
  function Total(l: seq<Axis>): nat {
    if l == [] then 0 else Count(l)
  }

  /** From axis `from` on, every extent is at least two. */
  predicate Wide(l: seq<Axis>, from: int) {
    forall j :: 0 <= from <= j < |l| ==> l[j].shape >= 2
  }

  /** From axis `from` on, no axis continues into the next. */
  predicate Settled(l: seq<Axis>, from: int) {
    forall j {:trigger l[j]} :: 0 <= from <= j < |l| - 1 ==> !Continues(l[j], l[j + 1])
  }

  lemma EmptySameOffsets(v: seq<Axis>, i: int)
    requires 0 <= i < |v| && v[i].shape == 0
    ensures Offsets([Axis(0, 1)]) == Offsets(v)
  {
  }

  lemma DropUnitAxis(v: seq<Axis>, i: int)
    requires 0 <= i < |v| && v[i].shape == 1 && Wide(v, i + 1)
    ensures Offsets(v[..i] + v[i + 1..]) == Offsets(v)
    ensures Wide(v[..i] + v[i + 1..], i)
  {
    assert v == v[..i] + [Axis(1, v[i].stride)] + v[i + 1..];
    UnitAxis(v[..i], v[i].stride, v[i + 1..]);
    SameOffsetsIsEqualSequence(v[..i] + v[i + 1..], v);
  }

  /** Axes `i` and `i + 1` folded into one. */
  function Merged(v: seq<Axis>, i: int): seq<Axis>
    requires 0 <= i < |v| - 1
  {
    v[..i] + [Axis(v[i].shape * v[i + 1].shape, v[i + 1].stride)] + v[i + 2..]
  }

  lemma MergedAxis(v: seq<Axis>, i: int)
    requires 0 <= i < |v| - 1 && Wide(v, 0) && Settled(v, i + 1) && Continues(v[i], v[i + 1])
    ensures Offsets(Merged(v, i)) == Offsets(v)
    ensures Wide(Merged(v, i), 0) && Settled(Merged(v, i), i)
  {
    assert v == v[..i] + [v[i], v[i + 1]] + v[i + 2..];
    MergeAxes(v[..i], v[i], v[i + 1], v[i + 2..]);
    SameOffsetsIsEqualSequence(Merged(v, i), v);
    ProductGe(v[i].shape, v[i + 1].shape);
    var w := Merged(v, i);
    forall j | i <= j < |w| - 1 ensures !Continues(w[j], w[j + 1]) {
      assert !Continues(v[j + 1], v[j + 2]);
    }
  }

  /** The extents of the axes. */
  function Extents(l: seq<Axis>): (s: seq<nat>)
    ensures |s| == |l|
    ensures forall i :: 0 <= i < |l| ==> s[i] == l[i].shape
  {
    seq(|l|, i requires 0 <= i < |l| => l[i].shape)
  }

  lemma SmallSameOffsets(a: Axis, s: int)
    requires a.shape <= 1
    ensures Offsets([Axis(a.shape, s)]) == Offsets([a])
  {
  }

  lemma UnitOffsets(s: int)
    ensures Offsets([]) == Offsets([Axis(1, s)])
  {
  }

  lemma ScaleStep(base: int, n: int, e: int)
    ensures base * n * e == base * (e * n)
  {
  }

  /** Stride that makes a new axis continue into the axis it is put in front of. */
  function ContiguousStep(l: seq<Axis>, axis: nat): int {
    if axis < |l| then l[axis].stride * l[axis].shape else 1
  }

  /** With that stride, an axis of any extent in front of another one walks on where that one ends. */
  lemma StepWalksOn(l: seq<Axis>, at: nat, n: nat, k: nat)
    requires at <= |l| && k < n * if at < |l| then l[at].shape else 1
    ensures
      if at < |l| then At([Axis(n, ContiguousStep(l, at)), l[at]], k) == k * l[at].stride
      else At([Axis(n, ContiguousStep(l, at))], k) == k
  {
    var a := Axis(n, ContiguousStep(l, at));
    if at < |l| {
      MergePair(a, l[at]);
      AtSingle(Axis(n * l[at].shape, l[at].stride), k);
    } else {
      AtSingle(a, k);
    }
  }

  /** Element `k` is stored at offset `k`. */
  predicate IsIdentity(l: seq<Axis>) {
    forall k :: 0 <= k < Count(l) ==> At(l, k) == k
  }

  /** Number of elements of the axes from `i` on. */
  function SuffixCount(v: seq<Axis>, i: nat): nat
    requires i <= |v|
    decreases |v| - i
  {
    if i == |v| then 1 else v[i].shape * SuffixCount(v, i + 1)
  }

  /** From axis `i` on, every axis that moves steps over everything inside it. */
  predicate Dense(v: seq<Axis>, i: nat)
    requires i <= |v|
    decreases |v| - i
  {
    i < |v| ==> (v[i].shape == 1 || v[i].stride == SuffixCount(v, i + 1)) && Dense(v, i + 1)
  }

  lemma {:induction false} NotDense(v: seq<Axis>, i: nat)
    requires i < |v| && v[i].shape != 1 && v[i].stride != SuffixCount(v, i + 1)
    ensures !Dense(v, 0)
  {
    for j := i downto 0
      invariant !Dense(v, j)
    {
    }
  }

  /** Setting an axis to step over the dense axes inside it extends them. */
  lemma DenseStep(v: seq<Axis>, i: nat)
    requires i < |v| && Dense(v, i + 1)
    ensures var w := v[i := Axis(v[i].shape, SuffixCount(v, i + 1))];
      Dense(w, i) && SuffixCount(w, i) == v[i].shape * SuffixCount(v, i + 1) && Extents(w) == Extents(v)
  {
    DenseIgnoresOuter(v, v[i := Axis(v[i].shape, SuffixCount(v, i + 1))], i + 1);
  }

  lemma {:induction false} DenseIgnoresOuter(v: seq<Axis>, w: seq<Axis>, i: nat)
    requires |v| == |w| && i <= |v| && v[i..] == w[i..]
    ensures SuffixCount(v, i) == SuffixCount(w, i) && Dense(v, i) == Dense(w, i)
    decreases |v| - i
  {
    if i < |v| {
      assert v[i] == v[i..][0] && w[i] == w[i..][0];
      assert v[i + 1..] == v[i..][1..] && w[i + 1..] == w[i..][1..];
      DenseIgnoresOuter(v, w, i + 1);
    }
  }

  lemma {:induction false} SuffixCountIsCount(v: seq<Axis>, i: nat)
    requires i <= |v|
    ensures SuffixCount(v, i) == Count(v[i..])
    decreases |v| - i
  {
    if i < |v| {
      SuffixCountIsCount(v, i + 1);
      assert v[i..] == [v[i]] + v[i + 1..];
      CountAppend([v[i]], v[i + 1..]);
      CountSingle(v[i]);
    }
  }

  /** Dense strides put element `k` at offset `k`, and on a non-empty tensor nothing else does. */
  lemma DenseIsIdentity(v: seq<Axis>)
    ensures SuffixCount(v, 0) == Count(v)
    ensures Dense(v, 0) ==> IsIdentity(v)
    ensures Count(v) > 0 && IsIdentity(v) ==> Dense(v, 0)
  {
    SuffixCountIsCount(v, 0);
    assert v[0..] == v;
    if Dense(v, 0) {
      DenseGivesIdentity(v, 0);
    }
    if Count(v) > 0 && IsIdentity(v) {
      IdentityGivesDense(v, 0);
    }
  }

  lemma {:induction false} DenseGivesIdentity(v: seq<Axis>, i: nat)
    requires i <= |v| && Dense(v, i)
    ensures IsIdentity(v[i..])
    decreases |v| - i
  {
    if i < |v| {
      var a, rest := v[i], v[i + 1..];
      DenseGivesIdentity(v, i + 1);
      SuffixCountIsCount(v, i);
      SuffixCountIsCount(v, i + 1);
      assert v[i..] == [a] + rest;
      forall k | 0 <= k < Count(v[i..]) ensures At(v[i..], k) == k {
        IdentityAt(a, rest, k);
      }
    }
  }

  lemma {:induction false} IdentityGivesDense(v: seq<Axis>, i: nat)
    requires i <= |v| && Count(v) > 0 && IsIdentity(v)
    ensures Dense(v, i)
    decreases |v| - i
  {
    if i < |v| {
      IdentityGivesDense(v, i + 1);
      SuffixCountIsCount(v, i + 1);
      if v[i].shape != 1 && v[i].stride != Count(v[i + 1..]) {
        StrideBreaksIdentity(v, i);
      }
    }
  }

  lemma IdentityAt(a: Axis, rest: seq<Axis>, k: int)
    requires IsIdentity(rest) && 0 <= k < a.shape * Count(rest)
    requires a.shape == 1 || a.stride == Count(rest)
    ensures At([a] + rest, k) == k
  {
    DivBound(k, a.shape, Count(rest));
    Append([a], rest, k);
    AtSingle(a, k / Count(rest));
    IdentityStep(a, k, Count(rest));
  }

  lemma IdentityStep(a: Axis, k: int, p: int)
    requires 0 < p && 0 <= k / p < a.shape
    requires a.shape == 1 || a.stride == p
    ensures k / p * a.stride + k % p == k
  {
  }

  lemma StrideBreaksIdentity(v: seq<Axis>, i: int)
    requires 0 <= i < |v| && Count(v) > 0
    requires v[i].shape != 1 && v[i].stride != Count(v[i + 1..])
    ensures !IsIdentity(v)
  {
    CountDrop(v, i);
    AtAxisStep(v, i);
  }
}
