/**
  `is_non_overlapping_strong` promises that a layout it accepts puts no two elements into
  one slot. The code keeps that promise when the moving axes all step the same way, and
  breaks it otherwise: the positive and the negative extents are tracked apart.
 */
module OverlapCheck {
  import opened Arith
  import opened Layout
  import opened Reshape
  import opened Overlap

  /** `Failed` is the assertion on an empty axis. */
  datatype Verdict = Accepted | Rejected | Failed

  /** The order `std::sort` puts the tuples (|stride|, stride, shape) in. */
  predicate Before(a: Axis, b: Axis) {
    || Abs(a.stride) < Abs(b.stride)
    || (Abs(a.stride) == Abs(b.stride) && (a.stride < b.stride || (a.stride == b.stride && a.shape <= b.shape)))
  }

  predicate SortedAxes(v: seq<Axis>) {
    forall i, j :: 0 <= i < j < |v| ==> Before(v[i], v[j])
  }

  function Insert(a: Axis, v: seq<Axis>): (w: seq<Axis>)
    ensures multiset(w) == multiset(v) + multiset{a}
  {
    if v == [] || Before(a, v[0]) then [a] + v
    else
      assert v == [v[0]] + v[1..];
      [v[0]] + Insert(a, v[1..])
  }

  function SortAxes(l: seq<Axis>): (v: seq<Axis>)
    ensures multiset(v) == multiset(l)
  {
    if l == [] then [] else
      assert l == [l[0]] + l[1..];
      Insert(l[0], SortAxes(l[1..]))
  }

  lemma {:induction false} InsertSorted(a: Axis, v: seq<Axis>)
    requires SortedAxes(v)
    ensures SortedAxes(Insert(a, v))
  {
    if v != [] && !Before(a, v[0]) {
      var w := Insert(a, v[1..]);
      InsertSorted(a, v[1..]);
      forall i | 0 <= i < |w| ensures Before(v[0], w[i]) {
        assert w[i] in multiset(w);
        assert w[i] == a || w[i] in v[1..];
      }
    }
  }

  lemma {:induction false} SortAxesSorts(l: seq<Axis>)
    ensures SortedAxes(SortAxes(l))
  {
    if l != [] {
      SortAxesSorts(l[1..]);
      InsertSorted(l[0], SortAxes(l[1..]));
    }
  }

  /** What the loop decides about the axes it has not seen, given the extents reached so far. */
  function Scan(v: seq<Axis>, lo: int, hi: int): Verdict {
    if v == [] then Accepted
    else
      var a := v[0];
      if a.shape == 0 then Failed
      else if a.shape == 1 then Scan(v[1..], lo, hi)
      else if a.stride > 0 then
        if a.stride <= hi then Rejected else Scan(v[1..], lo, hi + a.stride * (a.shape - 1))
      else
        if lo <= a.stride then Rejected else Scan(v[1..], lo + a.stride * (a.shape - 1), hi)
  }

  function Verify(l: seq<Axis>): Verdict {
    Scan(SortAxes(l), 0, 0)
  }

  /** The axes that move all step in the same direction. */
  predicate SameDirection(l: seq<Axis>) {
    || (forall i :: 0 <= i < |l| && l[i].shape >= 2 ==> l[i].stride >= 0)
    || (forall i :: 0 <= i < |l| && l[i].shape >= 2 ==> l[i].stride <= 0)
  }

  method IsNonOverlappingStrong(l: seq<Axis>) returns (r: Verdict)
    ensures r == Verify(l)
    ensures r == Accepted <==> Positive(l) && Spaced(l)
    ensures r == Failed ==> !Positive(l)
    ensures Spaced(l) && !Positive(l) ==> r == Failed
    ensures r == Accepted && SameDirection(l) ==> NonOverlapping(l)
  {
    AcceptedIffSpaced(l);
    hide Spaced, Positive;
    var v := SortAxes(l);
    var lo, hi := 0, 0;
    for i := 0 to |v|
      invariant Scan(v[i..], lo, hi) == Verify(l)
    {
      var a := v[i];
      assert v[i..][0] == a && v[i..][1..] == v[i + 1..];
      if a.shape == 0 {
        return Failed;
      }
      if a.shape == 1 {
        continue;
      }
      if a.stride > 0 {
        if a.stride <= hi {
          return Rejected;
        }
        hi := hi + a.stride * (a.shape - 1);
      } else {
        if lo <= a.stride {
          return Rejected;
        }
        lo := lo + a.stride * (a.shape - 1);
      }
    }
    if SameDirection(l) {
      AcceptedIsSound(l);
    }
    return Accepted;
  }

  // ---- soundness for one direction ------------------------------------------------------

  function Reversed(v: seq<Axis>): (w: seq<Axis>)
    ensures multiset(w) == multiset(v)
  {
    if v == [] then [] else
      assert v == [v[0]] + v[1..];
      Reversed(v[1..]) + [v[0]]
  }

  /** Seen from the largest stride inwards, each accepted axis steps over everything accepted before it. */
  lemma {:induction false} ScanSound(done: seq<Axis>, v: seq<Axis>, lo: int, hi: int, up: bool)
    requires Scan(v, lo, hi) == Accepted
    requires Positive(done) && DotInjective(done)
    requires forall i :: 0 <= i < |v| && v[i].shape >= 2 ==> if up then v[i].stride >= 0 else v[i].stride <= 0
    requires if up then hi == Reach(done) && lo == 0 else -lo == Reach(done)
    ensures DotInjective(Reversed(v) + done)
    decreases |v|
  {
    if v == [] {
      assert Reversed(v) + done == done;
    } else {
      hide DotInjective, Reach;
      var a, next := v[0], [v[0]] + done;
      assert next[1..] == done && next[0] == a;
      assert Positive(next);
      WideStepKeepsInjective(next);
      ReachOfNext(a, done);
      if a.shape == 1 {
        ScanSound(next, v[1..], lo, hi, up);
      } else if a.stride > 0 {
        ScanSound(next, v[1..], lo, hi + a.stride * (a.shape - 1), up);
      } else {
        ScanSound(next, v[1..], lo + a.stride * (a.shape - 1), hi, up);
      }
      assert Reversed(v) + done == Reversed(v[1..]) + next;
    }
  }

  lemma ReachOfNext(a: Axis, done: seq<Axis>)
    requires a.shape > 0 && Positive(done) && Positive([a] + done)
    ensures Reach([a] + done) ==
      Reach(done) + if a.stride > 0 then a.stride * (a.shape - 1) else -(a.stride * (a.shape - 1))
  {
    assert ([a] + done)[1..] == done;
    assert a.stride * (a.shape - 1) == (a.shape - 1) * a.stride;
    assert a.stride <= 0 ==> (a.shape - 1) * Abs(a.stride) == -((a.shape - 1) * a.stride);
  }

  lemma AcceptedIsSound(l: seq<Axis>)
    requires Verify(l) == Accepted && SameDirection(l)
    ensures NonOverlapping(l)
  {
    var v := SortAxes(l);
    forall i | 0 <= i < |v| ensures v[i] in l {
      assert v[i] in multiset(v);
    }
    if forall i :: 0 <= i < |l| && l[i].shape >= 2 ==> l[i].stride >= 0 {
      ScanSound([], v, 0, 0, true);
    } else {
      ScanSound([], v, 0, 0, false);
    }
    SortedInjective(l, v);
  }

  lemma SortedInjective(l: seq<Axis>, v: seq<Axis>)
    requires multiset(v) == multiset(l) && DotInjective(Reversed(v) + [])
    ensures NonOverlapping(l)
  {
    assert Reversed(v) + [] == [] + Reversed(v) && [] + l == l;
    ReorderInjective([], Reversed(v), l);
    DotInjectiveIsNonOverlapping(l);
  }

  // ---- the order of the axes does not matter -----------------------------------------------

  /** Swapping two neighbouring axes swaps their indices and keeps the offset. */
  lemma {:induction false} DotSwap(p: seq<Axis>, a: Axis, b: Axis, r: seq<Axis>, d: seq<int>)
    requires |d| == |p| + 2 + |r|
    ensures Dot(p + [a, b] + r, d) == Dot(p + [b, a] + r, Swap(d, |p|))
    decreases |r|
  {
    var l, m, x := p + [a, b] + r, p + [b, a] + r, |p|;
    var n := |l| - 1;
    var e := Swap(d, x);
    if r == [] {
      assert Outer(l) == p + [a] && Outer(m) == p + [b];
      assert Outer(p + [a]) == p && Outer(p + [b]) == p;
      assert d[..n][..x] == d[..x] == e[..n][..x];
    } else {
      var r' := Outer(r);
      assert Outer(l) == p + [a, b] + r' && Outer(m) == p + [b, a] + r';
      DotSwap(p, a, b, r', d[..n]);
      assert Swap(d[..n], x) == e[..n];
    }
  }

  function Swap(d: seq<int>, x: nat): seq<int>
    requires x + 1 < |d|
  {
    d[x := d[x + 1]][x + 1 := d[x]]
  }

  lemma SwapInjective(p: seq<Axis>, a: Axis, b: Axis, r: seq<Axis>)
    requires DotInjective(p + [b, a] + r)
    ensures DotInjective(p + [a, b] + r)
  {
    var l, m, x := p + [a, b] + r, p + [b, a] + r, |p|;
    forall d, e | IsIndex(l, d) && IsIndex(l, e) && Dot(l, d) == Dot(l, e) ensures d == e {
      DotSwap(p, a, b, r, d);
      DotSwap(p, a, b, r, e);
      SwapIndex(p, a, b, r, d);
      SwapIndex(p, a, b, r, e);
      assert Swap(Swap(d, x), x) == d && Swap(Swap(e, x), x) == e;
    }
  }

  lemma SwapIndex(p: seq<Axis>, a: Axis, b: Axis, r: seq<Axis>, d: seq<int>)
    requires IsIndex(p + [a, b] + r, d)
    ensures IsIndex(p + [b, a] + r, Swap(d, |p|))
  {
  }

  lemma {:induction false} AxisToFront(p: seq<Axis>, q: seq<Axis>, a: Axis, r: seq<Axis>)
    requires DotInjective(p + q + [a] + r)
    ensures DotInjective(p + [a] + q + r)
    decreases |q|
  {
    if q == [] {
      assert p + q + [a] + r == p + [a] + q + r;
    } else {
      var n := |q| - 1;
      var b, r' := q[n], [q[n]] + r;
      assert p + q + [a] + r == (p + q[..n]) + [b, a] + r;
      SwapInjective(p + q[..n], a, b, r);
      assert (p + q[..n]) + [a, b] + r == p + q[..n] + [a] + r';
      AxisToFront(p, q[..n], a, r');
      assert p + [a] + q[..n] + r' == p + [a] + q + r;
    }
  }

  /** Reordering the axes after a common prefix makes no overlap. */
  lemma {:induction false} ReorderInjective(p: seq<Axis>, l: seq<Axis>, m: seq<Axis>)
    requires multiset(l) == multiset(m) && DotInjective(p + l)
    ensures DotInjective(p + m)
    decreases |m|
  {
    if m == [] {
      assert |multiset(l)| == 0;
      assert l == m;
    } else {
      var a := m[0];
      assert a in multiset(m);
      var k :| 0 <= k < |l| && l[k] == a;
      var rest := l[..k] + l[k + 1..];
      RemoveOne(l, k, m);
      assert p + l == p + l[..k] + [a] + l[k + 1..];
      AxisToFront(p, l[..k], a, l[k + 1..]);
      assert p + [a] + l[..k] + l[k + 1..] == (p + [a]) + rest;
      ReorderInjective(p + [a], rest, m[1..]);
      assert (p + [a]) + m[1..] == p + m;
    }
  }

  lemma RemoveOne(l: seq<Axis>, k: int, m: seq<Axis>)
    requires multiset(l) == multiset(m) && m != [] && 0 <= k < |l| && l[k] == m[0]
    ensures multiset(l[..k] + l[k + 1..]) == multiset(m[1..])
  {
    assert l == l[..k] + [l[k]] + l[k + 1..] && m == [m[0]] + m[1..];
    var x, y := multiset(l[..k] + l[k + 1..]), multiset(m[1..]);
    assert x == multiset(l[..k]) + multiset(l[k + 1..]);
    assert x + multiset{m[0]} == multiset(l);
    assert y + multiset{m[0]} == multiset(m);
    CancelOne(x, y, m[0]);
  }

  lemma CancelOne(x: multiset<Axis>, y: multiset<Axis>, a: Axis)
    requires x + multiset{a} == y + multiset{a}
    ensures x == y
  {
    assert x == (x + multiset{a}) - multiset{a};
  }

  // ---- and only for one direction -------------------------------------------------------------

  // ---- exactly what it accepts ---------------------------------------------------------------

  /** How far the indices of an axis reach. */
  function Weight(a: Axis): nat {
    if a.shape == 0 then 0 else Extent(a.shape - 1, Abs(a.stride))
  }

  function Extent(n: nat, step: nat): nat {
    n * step
  }

  /** `b` has more than one index, goes the way of `a`, and steps no further; no step counts as backward. */
  predicate IsBelow(b: Axis, a: Axis) {
    b.shape >= 2 && (b.stride > 0 <==> a.stride > 0) && Abs(b.stride) <= Abs(a.stride)
  }

  /** How far the axes below `a` reach together. */
  function Covered(v: seq<Axis>, a: Axis): nat {
    if v == [] then 0 else (if IsBelow(v[0], a) then Weight(v[0]) else 0) + Covered(v[1..], a)
  }

  /** Every axis with more than one index steps over all the others below it together. */
  predicate Spaced(l: seq<Axis>) {
    forall i :: 0 <= i < |l| && l[i].shape >= 2 ==> Abs(l[i].stride) > Covered(l[..i] + l[i + 1..], l[i])
  }

  /** The same, counting the axis itself on both sides, above what has been reached already. */
  predicate SpacedFrom(v: seq<Axis>, lo: int, hi: int) {
    forall i :: 0 <= i < |v| && v[i].shape >= 2 ==> Steps(v[i]) > Base(v[i], lo, hi) + Covered(v, v[i])
  }

  function Steps(a: Axis): nat {
    Weight(a) + Abs(a.stride)
  }

  function Base(a: Axis, lo: int, hi: int): int {
    if a.stride > 0 then hi else -lo
  }

  lemma {:induction false} CoveredAppend(u: seq<Axis>, v: seq<Axis>, a: Axis)
    ensures Covered(u + v, a) == Covered(u, a) + Covered(v, a)
    decreases |u|
  {
    if u == [] {
      assert u + v == v;
    } else {
      assert (u + v)[1..] == u[1..] + v;
      CoveredAppend(u[1..], v, a);
    }
  }

  lemma CoveredWithout(v: seq<Axis>, i: nat)
    requires i < |v| && v[i].shape >= 2
    ensures Covered(v, v[i]) == Covered(v[..i] + v[i + 1..], v[i]) + Weight(v[i])
  {
    var a := v[i];
    assert v == v[..i] + ([a] + v[i + 1..]);
    CoveredAppend(v[..i], [a] + v[i + 1..], a);
    CoveredAppend(v[..i], v[i + 1..], a);
    assert ([a] + v[i + 1..])[1..] == v[i + 1..];
  }

  lemma SpacedIsSpacedFrom(v: seq<Axis>)
    ensures Spaced(v) <==> SpacedFrom(v, 0, 0)
  {
    forall i | 0 <= i < |v| && v[i].shape >= 2
      ensures Abs(v[i].stride) > Covered(v[..i] + v[i + 1..], v[i]) <==>
        Steps(v[i]) > Base(v[i], 0, 0) + Covered(v, v[i])
    {
      CoveredWithout(v, i);
    }
  }

  lemma {:induction false} CoveredInsert(b: Axis, v: seq<Axis>, a: Axis)
    ensures Covered(Insert(b, v), a) == Covered([b] + v, a)
    decreases |v|
  {
    assert ([b] + v)[1..] == v;
    if v != [] && !Before(b, v[0]) {
      CoveredInsert(b, v[1..], a);
      assert ([b] + v[1..])[1..] == v[1..];
      assert Insert(b, v)[1..] == Insert(b, v[1..]);
    }
  }

  lemma {:induction false} CoveredSorted(l: seq<Axis>, a: Axis)
    ensures Covered(SortAxes(l), a) == Covered(l, a)
    decreases |l|
  {
    if l != [] {
      CoveredSorted(l[1..], a);
      CoveredInsert(l[0], SortAxes(l[1..]), a);
      assert ([l[0]] + SortAxes(l[1..]))[1..] == SortAxes(l[1..]);
    }
  }

  lemma SpacedSorted(l: seq<Axis>)
    ensures SpacedFrom(SortAxes(l), 0, 0) <==> SpacedFrom(l, 0, 0)
    ensures Positive(SortAxes(l)) <==> Positive(l)
  {
    var v := SortAxes(l);
    forall a ensures Covered(v, a) == Covered(l, a) {
      CoveredSorted(l, a);
    }
    hide SpacedFrom, SortAxes;
    SameSpaced(l, v);
    SameSpaced(v, l);
  }

  lemma SameSpaced(u: seq<Axis>, v: seq<Axis>)
    requires multiset(u) == multiset(v) && forall a :: Covered(u, a) == Covered(v, a)
    ensures SpacedFrom(u, 0, 0) ==> SpacedFrom(v, 0, 0)
    ensures Positive(u) ==> Positive(v)
  {
    hide Covered;
    forall i | 0 <= i < |v| ensures exists j :: 0 <= j < |u| && u[j] == v[i] {
      assert v[i] in multiset(v) && v[i] in multiset(u);
    }
  }

  lemma {:induction false} CoveredAtLeast(v: seq<Axis>, i: nat)
    requires i < |v| && v[i].shape >= 2
    ensures Covered(v, v[i]) >= Weight(v[i])
  {
    CoveredWithout(v, i);
  }

  lemma {:induction false} NothingCovered(v: seq<Axis>, a: Axis)
    requires forall i :: 0 <= i < |v| ==> !IsBelow(v[i], a)
    ensures Covered(v, a) == 0
    decreases |v|
  {
    if v != [] {
      NothingCovered(v[1..], a);
    }
  }

  lemma WeightIsStride(a: Axis)
    requires a.shape >= 2
    ensures a.stride * (a.shape - 1) == if a.stride > 0 then Weight(a) else 0 - Weight(a)
    ensures Weight(a) >= Abs(a.stride)
  {
    MulLe(1, a.shape - 1, Abs(a.stride));
  }

  /** The extents reached after an axis with more than one index. */
  function Lower(a: Axis, lo: int): int {
    if a.stride > 0 then lo else lo - Weight(a)
  }

  function Upper(a: Axis, hi: int): int {
    if a.stride > 0 then hi + Weight(a) else hi
  }

  /** Taking the first axis of a sorted list off moves what it covers into what has been reached. */
  lemma TailSpaced(v: seq<Axis>, lo: int, hi: int)
    requires v != [] && SortedAxes(v) && v[0].shape >= 2 && lo <= 0 <= hi
    ensures var a, t := v[0], v[1..];
      SpacedFrom(v, lo, hi) <==> Abs(a.stride) > Base(a, lo, hi) && SpacedFrom(t, Lower(a, lo), Upper(a, hi))
  {
    hide Weight;
    var a, t := v[0], v[1..];
    var lo', hi' := Lower(a, lo), Upper(a, hi);
    WeightIsStride(a);
    forall i | 0 <= i < |t| && t[i].shape >= 2
      ensures Steps(t[i]) > Base(t[i], lo', hi') + Covered(t, t[i]) <==>
        Steps(v[i + 1]) > Base(v[i + 1], lo, hi) + Covered(v, v[i + 1])
    {
      assert v[i + 1] == t[i] && Before(a, t[i]);
    }
    assert Covered(v, a) == Weight(a) + Covered(t, a);
    if SpacedFrom(t, lo', hi') {
      forall i | 0 <= i < |t| ensures !IsBelow(t[i], a) {
        if t[i].shape >= 2 && (t[i].stride > 0 <==> a.stride > 0) {
          CoveredAtLeast(t, i);
          assert Steps(t[i]) > Base(t[i], lo', hi') + Covered(t, t[i]);
        }
      }
      NothingCovered(t, a);
    }
    if SpacedFrom(v, lo, hi) {
      assert Steps(v[0]) > Base(v[0], lo, hi) + Covered(v, v[0]);
      forall i | 0 <= i < |t| && t[i].shape >= 2 ensures Steps(t[i]) > Base(t[i], lo', hi') + Covered(t, t[i]) {
        assert Steps(v[i + 1]) > Base(v[i + 1], lo, hi) + Covered(v, v[i + 1]);
      }
    }
  }

  lemma {:induction false} ScanIffSpaced(v: seq<Axis>, lo: int, hi: int)
    requires SortedAxes(v) && lo <= 0 <= hi
    ensures SpacedFrom(v, lo, hi) ==> Scan(v, lo, hi) == if Positive(v) then Accepted else Failed
    ensures Scan(v, lo, hi) == Accepted ==> Positive(v) && SpacedFrom(v, lo, hi)
    ensures Scan(v, lo, hi) == Failed ==> !Positive(v)
    decreases |v|
  {
    if v != [] {
      var a, t := v[0], v[1..];
      assert v == [a] + t;
      if a.shape == 1 {
        ScanIffSpaced(t, lo, hi);
        assert forall b :: Covered(v, b) == Covered(t, b);
        UnitSpaced(v, lo, hi);
      } else if a.shape >= 2 {
        TailSpaced(v, lo, hi);
        WeightIsStride(a);
        ScanIffSpaced(t, Lower(a, lo), Upper(a, hi));
      }
      assert Positive(v) <==> a.shape > 0 && Positive(t);
    }
  }

  lemma UnitSpaced(v: seq<Axis>, lo: int, hi: int)
    requires v != [] && v[0].shape == 1
    ensures SpacedFrom(v, lo, hi) <==> SpacedFrom(v[1..], lo, hi)
  {
    var t := v[1..];
    assert forall i :: 0 <= i < |t| ==> t[i] == v[i + 1];
    if SpacedFrom(v, lo, hi) {
      forall i | 0 <= i < |t| && t[i].shape >= 2 ensures Steps(t[i]) > Base(t[i], lo, hi) + Covered(t, t[i]) {
        assert Steps(v[i + 1]) > Base(v[i + 1], lo, hi) + Covered(v, v[i + 1]);
      }
    }
    if SpacedFrom(t, lo, hi) {
      forall i | 0 <= i < |v| && v[i].shape >= 2 ensures Steps(v[i]) > Base(v[i], lo, hi) + Covered(v, v[i]) {
        assert v[i] == t[i - 1];
      }
    }
  }

  /**
    The check accepts exactly the layouts without empty axes in which every axis with more than one index
    steps over the others of its direction that step no further, all together. It asserts on an empty axis,
    and on nothing else; where only emptiness is wrong it does assert.
   */
  lemma AcceptedIffSpaced(l: seq<Axis>)
    ensures Verify(l) == Accepted <==> Positive(l) && Spaced(l)
    ensures Verify(l) == Failed ==> !Positive(l)
    ensures Spaced(l) && !Positive(l) ==> Verify(l) == Failed
  {
    SortAxesSorts(l);
    SpacedIsSpacedFrom(l);
    SpacedSorted(l);
    ScanIffSpaced(SortAxes(l), 0, 0);
  }

  // ---- layouts it accepts --------------------------------------------------------------------

  /** Of two axes with more than one index, one steps over the other. */
  predicate NestedPair(a: Axis, b: Axis) {
    a.shape >= 2 && b.shape >= 2 ==> a.stride * a.shape <= b.stride || b.stride * b.shape <= a.stride
  }

  predicate NestedWith(a: Axis, v: seq<Axis>) {
    forall i :: 0 <= i < |v| ==> NestedPair(a, v[i])
  }

  predicate Nested(v: seq<Axis>) {
    v != [] ==> NestedWith(v[0], v[1..]) && Nested(v[1..])
  }

  /** Axes are not empty, and those with more than one index step forward. */
  predicate Forward(v: seq<Axis>) {
    forall i :: 0 <= i < |v| ==> v[i].shape > 0 && (v[i].shape >= 2 ==> v[i].stride > 0)
  }

  lemma {:induction false} InsertNestedWith(b: Axis, a: Axis, v: seq<Axis>)
    requires NestedWith(b, v) && NestedPair(b, a)
    ensures NestedWith(b, Insert(a, v))
    decreases |v|
  {
    if v != [] && !Before(a, v[0]) {
      InsertNestedWith(b, a, v[1..]);
    }
  }

  lemma {:induction false} InsertNested(a: Axis, v: seq<Axis>)
    requires NestedWith(a, v) && Nested(v) && Forward([a] + v)
    ensures Nested(Insert(a, v)) && Forward(Insert(a, v))
    decreases |v|
  {
    if v == [] || Before(a, v[0]) {
      assert ([a] + v)[1..] == v;
    } else {
      var t := v[1..];
      assert Forward([a] + t) by {
        forall i | 0 <= i < |[a] + t|
          ensures ([a] + t)[i].shape > 0 && (([a] + t)[i].shape >= 2 ==> ([a] + t)[i].stride > 0)
        {
          assert ([a] + t)[i] == ([a] + v)[if i == 0 then 0 else i + 1];
        }
      }
      InsertNested(a, t);
      InsertNestedWith(v[0], a, t);
      var w := [v[0]] + Insert(a, t);
      assert w[1..] == Insert(a, t) && ([a] + v)[1] == v[0];
    }
  }

  lemma {:induction false} SortNestedWith(b: Axis, l: seq<Axis>)
    requires NestedWith(b, l)
    ensures NestedWith(b, SortAxes(l))
    decreases |l|
  {
    if l != [] {
      SortNestedWith(b, l[1..]);
      InsertNestedWith(b, l[0], SortAxes(l[1..]));
    }
  }

  lemma {:induction false} SortNested(l: seq<Axis>)
    requires Nested(l) && Forward(l)
    ensures Nested(SortAxes(l)) && Forward(SortAxes(l))
    decreases |l|
  {
    if l != [] {
      SortNested(l[1..]);
      SortNestedWith(l[0], l[1..]);
      InsertNested(l[0], SortAxes(l[1..]));
    }
  }

  lemma {:induction false} ScanAcceptsNested(v: seq<Axis>, hi: int)
    requires SortedAxes(v) && Nested(v) && Forward(v)
    requires forall i :: 0 <= i < |v| && v[i].shape >= 2 ==> hi < v[i].stride
    ensures Scan(v, 0, hi) == Accepted
    decreases |v|
  {
    if v != [] {
      var a, t := v[0], v[1..];
      assert a.shape > 0;
      var next := if a.shape == 1 then hi else hi + a.stride * (a.shape - 1);
      forall i | 0 <= i < |t| && t[i].shape >= 2 ensures next < t[i].stride {
        assert NestedPair(a, t[i]) && Before(a, v[i + 1]);
        if a.shape >= 2 {
          SteppedOver(a, t[i]);
        }
      }
      ScanAcceptsNested(t, next);
    }
  }

  lemma SteppedOver(a: Axis, b: Axis)
    requires a.shape >= 2 && b.shape >= 2 && a.stride > 0 && b.stride > 0 && NestedPair(a, b) && Before(a, b)
    ensures a.stride + a.stride * (a.shape - 1) <= b.stride
  {
    assert a.stride * a.shape == a.stride + a.stride * (a.shape - 1);
    if b.stride * b.shape <= a.stride {
      MulLe(2, b.shape, b.stride);
      assert false;
    }
  }

  /** The check accepts every forward layout in which of any two wide axes one steps over the other. */
  lemma NestedIsAccepted(l: seq<Axis>)
    requires Nested(l) && Forward(l)
    ensures Verify(l) == Accepted
  {
    SortNested(l);
    SortAxesSorts(l);
    ScanAcceptsNested(SortAxes(l), 0);
  }

  /** A layout the check accepts although two elements share a slot. */
  lemma AcceptsOverlap()
    ensures Verify([Axis(2, 1), Axis(2, -1)]) == Accepted
    ensures !NonOverlapping([Axis(2, 1), Axis(2, -1)])
  {
    assert [Axis(2, 1), Axis(2, -1)] == Zip(MeetingShape([1, -1], 0, 1), [1, -1]);
    MeetingAccepted([1, -1], 0, 1);
    MeetingOverlaps([1, -1], 0, 1);
  }

  /** With these strides, whatever the extents, an accepted layout has no overlap. */
  ghost predicate KeepsPromise(stride: seq<int>) {
    forall shape: seq<nat> {:trigger Zip(shape, stride)} ::
      |shape| == |stride| && Verify(Zip(shape, stride)) == Accepted ==> NonOverlapping(Zip(shape, stride))
  }

  predicate OppositeSteps(stride: seq<int>, i: int, j: int) {
    0 <= i < |stride| && 0 <= j < |stride| && stride[i] > 0 > stride[j]
  }

  /** The documented promise holds for all extents exactly when no two strides have opposite signs. */
  lemma PromiseIffOneDirection(stride: seq<int>)
    ensures KeepsPromise(stride) <==> forall i, j :: !OppositeSteps(stride, i, j)
  {
    if i, j :| OppositeSteps(stride, i, j) {
      MeetingAccepted(stride, i, j);
      MeetingOverlaps(stride, i, j);
      assert |MeetingShape(stride, i, j)| == |stride|;
    } else {
      forall shape: seq<nat> | |shape| == |stride| && Verify(Zip(shape, stride)) == Accepted
        ensures NonOverlapping(Zip(shape, stride))
      {
        var l := Zip(shape, stride);
        if i :| 0 <= i < |stride| && stride[i] > 0 {
          forall j | 0 <= j < |stride| ensures stride[j] >= 0 {
            assert !OppositeSteps(stride, i, j);
          }
        }
        AcceptedIsSound(l);
      }
    }
  }

  /** Extents under which two opposite strides meet: `a` steps of `-b` undo `b` steps of `a`. */
  function MeetingShape(stride: seq<int>, i: int, j: int): seq<nat>
    requires OppositeSteps(stride, i, j)
  {
    seq(|stride|, k => if k == i then -stride[j] + 1 else if k == j then stride[i] + 1 else 1)
  }

  lemma MeetingAccepted(stride: seq<int>, i: int, j: int)
    requires OppositeSteps(stride, i, j)
    ensures Verify(Zip(MeetingShape(stride, i, j), stride)) == Accepted
  {
    var l := Zip(MeetingShape(stride, i, j), stride);
    var v := SortAxes(l);
    OnlyOnce(l, i);
    OnlyOnce(l, j);
    forall k | 0 <= k < |v| ensures v[k].shape == 1 || v[k] == l[i] || v[k] == l[j] {
      assert v[k] in multiset(v);
      assert v[k] in l;
    }
    OnePerDirection(v, l[i], l[j], 0, 0);
  }

  lemma MeetingOverlaps(stride: seq<int>, i: int, j: int)
    requires OppositeSteps(stride, i, j)
    ensures !NonOverlapping(Zip(MeetingShape(stride, i, j), stride))
  {
    var l := Zip(MeetingShape(stride, i, j), stride);
    var zero := seq(|stride|, k => 0);
    var d := zero[i := -stride[j]];
    var e := d[j := stride[i]];
    DotZero(l, zero);
    DotUpdate(l, zero, i, -stride[j]);
    DotUpdate(l, d, j, stride[i]);
    assert -stride[j] * stride[i] + stride[i] * stride[j] == 0;
    assert IsIndex(l, e) && IsIndex(l, zero) && e[i] != zero[i];
    DotInjectiveIsNonOverlapping(l);
  }

  lemma OnlyOnce(l: seq<Axis>, i: int)
    requires 0 <= i < |l| && forall k :: 0 <= k < |l| && k != i ==> l[k] != l[i]
    ensures multiset(l)[l[i]] == 1
  {
    assert l == l[..i] + [l[i]] + l[i + 1..];
    assert l[i] !in l[..i] && l[i] !in l[i + 1..];
  }

  /** One axis for each direction is always accepted, in whatever order they come. */
  lemma {:induction false} OnePerDirection(v: seq<Axis>, a: Axis, b: Axis, lo: int, hi: int)
    requires a.shape >= 2 && b.shape >= 2 && a.stride > 0 > b.stride
    requires forall k :: 0 <= k < |v| ==> v[k].shape == 1 || v[k] == a || v[k] == b
    requires multiset(v)[a] <= (if hi == 0 then 1 else 0) && multiset(v)[b] <= (if lo == 0 then 1 else 0)
    ensures Scan(v, lo, hi) == Accepted
    decreases |v|
  {
    if v != [] {
      assert v == [v[0]] + v[1..];
      assert multiset(v) == multiset{v[0]} + multiset(v[1..]);
      if v[0].shape == 1 {
        OnePerDirection(v[1..], a, b, lo, hi);
      } else if v[0].stride > 0 {
        assert a.stride * (a.shape - 1) > 0;
        OnePerDirection(v[1..], a, b, lo, hi + a.stride * (a.shape - 1));
      } else {
        assert b.stride * (b.shape - 1) < 0;
        OnePerDirection(v[1..], a, b, lo + b.stride * (b.shape - 1), hi);
      }
    }
  }

  lemma {:induction false} DotZero(l: seq<Axis>, d: seq<int>)
    requires |d| == |l| && forall k :: 0 <= k < |d| ==> d[k] == 0
    ensures Dot(l, d) == 0
    decreases |l|
  {
    if l != [] {
      DotZero(Outer(l), d[..|l| - 1]);
    }
  }

  lemma {:induction false} DotUpdate(l: seq<Axis>, d: seq<int>, i: int, x: int)
    requires |d| == |l| && 0 <= i < |l|
    ensures Dot(l, d[i := x]) == Dot(l, d) + (x - d[i]) * l[i].stride
    decreases |l|
  {
    var n := |l| - 1;
    if i < n {
      DotUpdate(Outer(l), d[..n], i, x);
      assert d[i := x][..n] == d[..n][i := x];
    } else {
      assert d[i := x][..n] == d[..n];
      MulDistrib(x, d[i], l[i].stride);
    }
  }
}
