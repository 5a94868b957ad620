/**
  `Slice::apply`: the sub-tensor a slice along one axis selects. Where it does not throw it
  selects what the same slice selects in Python, whatever the strides.
 */
module SubTensor {
  import opened Arith
  import opened Layout
  import opened OverlapCheck
  import opened TensorLayouts
  import opened Wrappers

  datatype Slice = Slice(begin: Option<int>, end: Option<int>, step: Option<int>) {
    function Step(): int {
      Default(step, 1)
    }
  }

  /** `SubTensorSpec`: the axes of the sub-tensor, and where its first element is. */
  datatype Sub = Sub(axes: seq<Axis>, offset: int)

  function Default(v: Option<int>, d: int): int {
    if v.Some? then v.value else d
  }

  // ---- slices as in Python -------------------------------------------------------

  function Clamp(size: nat, v: int, low: int, high: int): int {
    var w := if v < 0 then v + size else v;
    if w < 0 then low else if w >= size then high else w
  }

  function PyStart(size: nat, s: Slice): int {
    var low, high := if s.Step() < 0 then -1 else 0, if s.Step() < 0 then size - 1 else size;
    if s.begin.Some? then Clamp(size, s.begin.value, low, high) else if s.Step() < 0 then high else low
  }

  function PyStop(size: nat, s: Slice): int {
    var low, high := if s.Step() < 0 then -1 else 0, if s.Step() < 0 then size - 1 else size;
    if s.end.Some? then Clamp(size, s.end.value, low, high) else if s.Step() < 0 then low else high
  }

  /** Position `j` of the selection lies between the two ends. */
  predicate PySelects(size: nat, s: Slice, j: int) {
    var p := PyStart(size, s) + j * s.Step();
    j >= 0 && if s.Step() > 0 then p < PyStop(size, s) else p > PyStop(size, s)
  }

  // ---- the code ------------------------------------------------------------------------------

  function Wrap(size: nat, v: int): int {
    if size == 0 then 0 else if v < 0 then v + size else v
  }

  function Min(a: int, b: int): int {
    if a < b then a else b
  }

  /** The slices that pass the bound check; out-of-range ends pass only on the far side. */
  predicate InBounds(size: nat, s: Slice) {
    if s.Step() > 0 then
      size == 0 || (Default(s.begin, 0) + size >= 0 && Default(s.end, 0) + size >= 0)
    else
      s.Step() < 0 && size > 0 && Default(s.begin, 0) + size >= 0 && Default(s.end, 0) + size >= -1
  }

  /** First index, and number of indices, that the slice selects along an axis of the given size. */
  method Window(size: nat, s: Slice) returns (ok: bool, begin: int, n: nat)
    ensures ok <==> InBounds(size, s)
    ensures ok ==> forall j :: 0 <= j < n <==> PySelects(size, s, j)
    ensures ok && n > 0 ==> begin == PyStart(size, s)
  {
    var step, end := s.Step(), 0;
    ok, begin, n := false, 0, 0;
    if step > 0 {
      begin := Wrap(size, Default(s.begin, 0));
      end := Min(Wrap(size, Default(s.end, size)), size);
      begin := Min(begin, end);
      ok := begin >= 0 && end >= begin && end <= size;
      if ok {
        n := Steps(end - begin, step);
        forall j ensures 0 <= j < n <==> PySelects(size, s, j) {
          ForwardSelects(size, s, begin, end, j);
        }
      }
    } else if step < 0 {
      begin := Wrap(size, Default(s.begin, size - 1));
      end := if s.end.Some? then Wrap(size, s.end.value) else -1;
      begin := Min(begin, if size == 0 then 0 else size - 1);
      end := Min(end, begin);
      ok := begin >= 0 && end <= begin && begin < size && end >= -1;
      if ok {
        n := Steps(begin - end, -step);
        forall j ensures 0 <= j < n <==> PySelects(size, s, j) {
          BackwardSelects(size, s, begin, end, j);
        }
      }
    }
  }

  function Steps(distance: nat, step: int): (n: nat)
    requires step > 0
  {
    CeilDivision(distance, step, 0);
    (distance + step - 1) / step
  }

  lemma ForwardSelects(size: nat, s: Slice, begin: int, end: int, j: int)
    requires s.Step() > 0 && 0 <= begin <= end == PyStop(size, s)
    requires if PyStart(size, s) < end then begin == PyStart(size, s) else begin == end
    ensures 0 <= j < Steps(end - begin, s.Step()) <==> PySelects(size, s, j)
  {
    CeilDivision(end - begin, s.Step(), j);
    if j >= 0 {
      MulLe(0, j, s.Step());
    }
  }

  lemma BackwardSelects(size: nat, s: Slice, begin: int, end: int, j: int)
    requires s.Step() < 0 && end <= begin == PyStart(size, s)
    requires if PyStop(size, s) < begin then end == PyStop(size, s) else end == begin
    ensures 0 <= j < Steps(begin - end, -s.Step()) <==> PySelects(size, s, j)
  {
    CeilDivision(begin - end, -s.Step(), j);
    assert j * -s.Step() == -(j * s.Step());
    if j >= 0 {
      MulLe(0, j, -s.Step());
    }
  }

  /** Dividing rounding up counts the multiples of `b` below `a`. */
  lemma CeilDivision(a: int, b: int, j: int)
    requires a >= 0 && b > 0
    ensures (a + b - 1) / b >= 0
    ensures j >= 0 ==> (j < (a + b - 1) / b <==> j * b < a)
  {
    var q := (a + b - 1) / b;
    assert q * b <= a + b - 1 < q * b + b;
    if j >= 0 && j < q {
      MulLe(j, q - 1, b);
    }
    if j >= q {
      MulLe(q, j, b);
    }
  }

  /** What a Python slice selects is inside the axis. */
  lemma SelectedInside(size: nat, s: Slice, j: int)
    requires s.Step() != 0 && PySelects(size, s, j)
    ensures 0 <= PyStart(size, s) + j * s.Step() < size
  {
  }

  /** A negative end of a slice counts from behind the axis. */
  function FromFront(size: nat, v: int): int {
    if v < 0 then v + size else v
  }

  /** The position the steps of a slice start from: the given one, or the nearest one inside the axis. */
  function Anchor(size: nat, s: Slice): int {
    var b := if s.begin.Some? then FromFront(size, s.begin.value) else if s.Step() > 0 then 0 else size - 1;
    if s.Step() > 0 then (if b < 0 then 0 else b) else if b > size - 1 then size - 1 else b
  }

  /** The positions a slice names: not before its begin, before its end, and a number of steps from its anchor. */
  predicate Names(size: nat, s: Slice, p: int)
    requires s.Step() != 0
  {
    && 0 <= p < size
    && (s.begin.Some? ==> var b := FromFront(size, s.begin.value); if s.Step() > 0 then b <= p else p <= b)
    && (s.end.Some? ==> var e := FromFront(size, s.end.value); if s.Step() > 0 then p < e else e < p)
    && (p - Anchor(size, s)) % s.Step() == 0
  }

  /** Position `j` of the selection is the `j`-th step from the anchor, and the selection is what the slice names. */
  lemma SelectsWhatItNames(size: nat, s: Slice, p: int)
    requires s.Step() != 0
    ensures (exists j :: PySelects(size, s, j) && PyStart(size, s) + j * s.Step() == p) <==> Names(size, s, p)
  {
    if j :| PySelects(size, s, j) && PyStart(size, s) + j * s.Step() == p {
      SelectedIsNamed(size, s, j);
    }
    if Names(size, s, p) {
      var j := NamedIsSelected(size, s, p);
    }
  }

  lemma SelectedIsNamed(size: nat, s: Slice, j: int)
    requires s.Step() != 0 && PySelects(size, s, j)
    ensures Names(size, s, PyStart(size, s) + j * s.Step())
  {
    SelectedInside(size, s, j);
    StartIsAnchor(size, s, PyStart(size, s) + j * s.Step());
    SignOfSteps(j, s.Step());
    StepsDivide(j, s.Step());
  }

  lemma NamedIsSelected(size: nat, s: Slice, p: int) returns (j: int)
    requires s.Step() != 0 && Names(size, s, p)
    ensures PySelects(size, s, j) && PyStart(size, s) + j * s.Step() == p
  {
    StartIsAnchor(size, s, p);
    var d, t := p - PyStart(size, s), s.Step();
    j := d / t;
    assert d == j * t;
    if j < 0 {
      assert -j * t == -(j * t);
      SignOfSteps(-j, t);
    }
  }

  lemma StartIsAnchor(size: nat, s: Slice, p: int)
    requires s.Step() != 0 && 0 <= p < size
    requires if s.Step() > 0 then PyStart(size, s) <= p || Anchor(size, s) <= p
             else PyStart(size, s) >= p || Anchor(size, s) >= p
    ensures PyStart(size, s) == Anchor(size, s)
  {
  }

  lemma SignOfSteps(j: int, t: int)
    requires t != 0 && j >= 0
    ensures if t > 0 then j * t >= 0 else j * t <= 0
    ensures j > 0 ==> if t > 0 then j * t > 0 else j * t < 0
  {
  }

  lemma StepsDivide(j: int, t: int)
    requires t != 0
    ensures j * t % t == 0
  {
    if t > 0 {
      DivModUnique(j * t, t, j, 0);
    } else {
      assert j * t == -j * -t;
      DivModUnique(j * t, -t, -j, 0);
      assert j * t % t == j * t % -t;
    }
  }

  /** The bound check passes exactly the slices no given end of which lies before the axis, with a step that fits it. */
  lemma InBoundsIff(size: nat, s: Slice)
    ensures InBounds(size, s) <==>
      if size == 0 then s.Step() > 0
      else
        && s.Step() != 0
        && (s.begin.Some? ==> FromFront(size, s.begin.value) >= 0)
        && (s.end.Some? ==> FromFront(size, s.end.value) >= if s.Step() > 0 then 0 else -1)
  {
  }

  /** `sub` holds the elements of `l` that the slice selects along `axis`, in order. */
  ghost predicate IsSlice(l: seq<Axis>, axis: nat, s: Slice, sub: Sub)
    requires axis < |l|
  {
    && |sub.axes| == |l|
    && (forall i :: 0 <= i < |l| && i != axis ==> sub.axes[i].shape == l[i].shape)
    && (forall j :: 0 <= j < sub.axes[axis].shape <==> PySelects(l[axis].shape, s, j))
    && (forall d :: IsIndex(sub.axes, d) ==>
          sub.offset + Dot(sub.axes, d) == Dot(l, d[axis := PyStart(l[axis].shape, s) + d[axis] * s.Step()]))
  }

  /** `apply`; a negative axis counts from the end. */
  method ApplySlice(l: seq<Axis>, axis: int, s: Slice) returns (r: Option<Sub>)
    ensures r.Some? <==> -|l| <= axis < |l| && InBounds(l[if axis < 0 then axis + |l| else axis].shape, s)
    ensures r.Some? ==> IsSlice(l, if axis < 0 then axis + |l| else axis, s, r.value)
  {
    var x := if axis < 0 then axis + |l| else axis;
    if !(0 <= x < |l|) {
      return None;
    }
    var ok, begin, n := Window(l[x].shape, s);
    if !ok {
      return None;
    }
    var v := l[x := Axis(n, l[x].stride * s.Step())];
    var w := Tighten(v, x);
    var empty := exists i :: 0 <= i < |w| && w[i].shape == 0;
    var sub := Sub(w, if empty then 0 else l[x].stride * begin);
    hide UnitsUpTo, ContiguousStep;
    SliceHolds(l, x, s, begin, n, w, sub.offset);
    return Some(sub);
  }

  lemma SliceHolds(l: seq<Axis>, x: nat, s: Slice, begin: int, n: nat, w: seq<Axis>, offset: int)
    requires x < |l| && SameButUnits(l[x := Axis(n, l[x].stride * s.Step())], w)
    requires forall j :: 0 <= j < n <==> PySelects(l[x].shape, s, j)
    requires n > 0 ==> begin == PyStart(l[x].shape, s)
    requires Positive(w) ==> offset == l[x].stride * begin
    ensures IsSlice(l, x, s, Sub(w, offset))
  {
    hide PySelects, PyStart, Dot;
    forall d | IsIndex(w, d)
      ensures offset + Dot(w, d) == Dot(l, d[x := PyStart(l[x].shape, s) + d[x] * s.Step()])
    {
      IndexIsPositive(w, d);
      UnitStridesDoNotMatter(l[x := Axis(n, l[x].stride * s.Step())], w, d);
      SlicedDot(l, d, x, n, s.Step(), begin);
    }
  }

  lemma IndexIsPositive(w: seq<Axis>, d: seq<int>)
    requires IsIndex(w, d)
    ensures Positive(w)
  {
    forall i | 0 <= i < |w| ensures w[i].shape > 0 {
      assert 0 <= d[i] < w[i].shape;
    }
  }

  /** The axes differ only in strides along axes of extent one. */
  predicate SameButUnits(v: seq<Axis>, w: seq<Axis>) {
    |v| == |w| && forall i :: 0 <= i < |v| ==> v[i].shape == w[i].shape && (v[i] == w[i] || v[i].shape == 1)
  }

  /** The axes from `i` to `x` all have extent one. */
  predicate UnitsUpTo(v: seq<Axis>, i: int, x: int) {
    0 <= i <= x < |v| && forall j :: i <= j <= x ==> v[j].shape == 1
  }

  /** Give extent-one axes around the sliced one the strides of a contiguous layout, where possible. */
  method Tighten(v: seq<Axis>, axis: nat) returns (w: seq<Axis>)
    requires axis < |v|
    ensures SameButUnits(v, w)
    ensures var x := if v[axis].shape != 1 && axis > 0 then axis - 1 else axis;
      forall i :: 0 <= i < |v| ==> w[i] == if UnitsUpTo(v, i, x) then Axis(1, ContiguousStep(v, x + 1)) else v[i]
  {
    w := v;
    var x := if v[axis].shape != 1 && axis > 0 then axis - 1 else axis;
    if w[x].shape == 1 {
      var stride := if x + 1 < |w| then w[x + 1].stride * w[x + 1].shape else 1;
      w := w[x := Axis(1, stride)];
      var i := x;
      while i > 0 && w[i - 1].shape == 1
        invariant 0 <= i <= x && SameButUnits(v, w) && UnitsUpTo(v, i, x)
        invariant forall j :: 0 <= j < |v| ==> w[j] == if i <= j <= x then Axis(1, stride) else v[j]
      {
        w := w[i - 1 := Axis(1, stride)];
        i := i - 1;
      }
    }
  }

  lemma {:induction false} UnitStridesDoNotMatter(v: seq<Axis>, w: seq<Axis>, d: seq<int>)
    requires SameButUnits(v, w) && IsIndex(w, d)
    ensures Dot(v, d) == Dot(w, d)
    decreases |v|
  {
    if v != [] {
      UnitStridesDoNotMatter(Outer(v), Outer(w), d[..|v| - 1]);
    }
  }

  lemma {:induction false} DotRestride(l: seq<Axis>, d: seq<int>, i: nat, a: Axis)
    requires |d| == |l| && i < |l|
    ensures Dot(l[i := a], d) == Dot(l, d) + d[i] * a.stride - d[i] * l[i].stride
    decreases |l|
  {
    var n := |l| - 1;
    if i < n {
      DotRestride(Outer(l), d[..n], i, a);
      assert Outer(l[i := a]) == Outer(l)[i := a];
    } else {
      assert Outer(l[i := a]) == Outer(l);
    }
  }

  lemma SlicedDot(l: seq<Axis>, d: seq<int>, x: nat, n: nat, step: int, begin: int)
    requires |d| == |l| && x < |l|
    ensures l[x].stride * begin + Dot(l[x := Axis(n, l[x].stride * step)], d) == Dot(l, d[x := begin + d[x] * step])
  {
    hide Dot;
    var t := l[x].stride;
    DotRestride(l, d, x, Axis(n, t * step));
    DotUpdate(l, d, x, begin + d[x] * step);
    Expand(begin, d[x], step, t);
  }

  lemma Expand(b: int, i: int, step: int, t: int)
    ensures (b + i * step - i) * t == t * b + i * (t * step) - i * t
  {
  }

  /** The code throws on some slices from which Python selects something. */
  lemma ThrowsWherePythonSelects()
    ensures !InBounds(3, Slice(Some(-4), None, None)) && PySelects(3, Slice(Some(-4), None, None), 0)
  {
  }
}
