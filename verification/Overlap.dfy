/** When a layout puts two elements into one memory slot, and how far its elements reach. */
module Overlap {
  import opened Arith
  import opened Layout
  import opened Canonical
  import opened TensorLayouts

  /** No two elements share an offset. */
  predicate NonOverlapping(l: seq<Axis>) {
    forall j, k :: 0 <= j < k < Count(l) ==> At(l, j) != At(l, k)
  }

  /** The same, over multi-indices. */
  ghost predicate DotInjective(l: seq<Axis>) {
    forall d, e :: IsIndex(l, d) && IsIndex(l, e) && Dot(l, d) == Dot(l, e) ==> d == e
  }

  function Abs(x: int): nat {
    if x < 0 then -x else x
  }

  lemma DotInjectiveIsNonOverlapping(l: seq<Axis>)
    ensures DotInjective(l) <==> NonOverlapping(l)
  {
    if DotInjective(l) {
      forall j, k | 0 <= j < k < Count(l) ensures At(l, j) != At(l, k) {
        DistinctIndices(l, j, k);
      }
    }
    if NonOverlapping(l) {
      forall d, e | IsIndex(l, d) && IsIndex(l, e) && Dot(l, d) == Dot(l, e) ensures d == e {
        SameOffsetSameIndex(l, d, e);
      }
    }
  }

  lemma DistinctIndices(l: seq<Axis>, j: int, k: int)
    requires 0 <= j < k < Count(l) && DotInjective(l)
    ensures At(l, j) != At(l, k)
  {
    DigitsAreIndex(l, j);
    DigitsAreIndex(l, k);
    AtIsDotOfDigits(l, j);
    AtIsDotOfDigits(l, k);
    RankOfDigits(l, j);
    RankOfDigits(l, k);
  }

  lemma SameOffsetSameIndex(l: seq<Axis>, d: seq<int>, e: seq<int>)
    requires IsIndex(l, d) && IsIndex(l, e) && Dot(l, d) == Dot(l, e) && NonOverlapping(l)
    ensures d == e
  {
    DigitsOfRank(l, d);
    DigitsOfRank(l, e);
    AtIsDotOfDigits(l, Rank(l, d));
    AtIsDotOfDigits(l, Rank(l, e));
  }

  // ---- adding an outermost axis ------------------------------------------------------

  lemma {:induction false} DotCons(a: Axis, l: seq<Axis>, x: int, d: seq<int>)
    requires |d| == |l|
    ensures Dot([a] + l, [x] + d) == x * a.stride + Dot(l, d)
  {
    if l == [] {
      assert [a] + l == [a] && [x] + d == [x] && Outer([a]) == [];
    } else {
      var n := |l| - 1;
      assert Outer([a] + l) == [a] + Outer(l) && ([x] + d)[..|l|] == [x] + d[..n];
      DotCons(a, Outer(l), x, d[..n]);
    }
  }

  /** Largest distance between two elements. */
  function Reach(l: seq<Axis>): nat
    requires Positive(l)
  {
    if l == [] then 0 else (l[0].shape - 1) * Abs(l[0].stride) + Reach(l[1..])
  }

  lemma IndexTail(l: seq<Axis>, d: seq<int>)
    requires IsIndex(l, d) && l != []
    ensures IsIndex(l[1..], d[1..]) && Dot(l, d) == d[0] * l[0].stride + Dot(l[1..], d[1..])
  {
    assert l == [l[0]] + l[1..] && d == [d[0]] + d[1..];
    DotCons(l[0], l[1..], d[0], d[1..]);
  }

  lemma ScaledDistance(x: int, y: int, n: nat, s: int)
    requires 0 <= x < n && 0 <= y < n
    ensures Abs(x * s - y * s) <= (n - 1) * Abs(s)
    ensures x != y ==> Abs(x * s - y * s) >= Abs(s)
  {
    MulDistrib(x, y, s);
    AbsMul(x - y, s);
    MulLe(Abs(x - y), n - 1, Abs(s));
    if x != y {
      MulLe(1, Abs(x - y), Abs(s));
    }
  }

  lemma AbsMul(x: int, y: int)
    ensures Abs(x * y) == Abs(x) * Abs(y)
  {
  }

  lemma {:induction false} DotWithinReach(l: seq<Axis>, d: seq<int>, e: seq<int>)
    requires Positive(l) && IsIndex(l, d) && IsIndex(l, e)
    ensures Abs(Dot(l, d) - Dot(l, e)) <= Reach(l)
  {
    if l != [] {
      IndexTail(l, d);
      IndexTail(l, e);
      DotWithinReach(l[1..], d[1..], e[1..]);
      ScaledDistance(d[0], e[0], l[0].shape, l[0].stride);
    }
  }

  /** An axis that steps over everything inside it, or does not step, adds no overlap. */
  lemma WideStepKeepsInjective(l: seq<Axis>)
    requires Positive(l) && l != [] && DotInjective(l[1..])
    requires l[0].shape == 1 || Abs(l[0].stride) > Reach(l[1..])
    ensures DotInjective(l)
  {
    forall d, e | IsIndex(l, d) && IsIndex(l, e) && Dot(l, d) == Dot(l, e) ensures d == e {
      IndexTail(l, d);
      IndexTail(l, e);
      DotWithinReach(l[1..], d[1..], e[1..]);
      ScaledDistance(d[0], e[0], l[0].shape, l[0].stride);
      assert d == [d[0]] + d[1..] && e == [e[0]] + e[1..];
    }
  }

  // ---- is_abs_monotonous_allow_brdcst ---------------------------------------------------

  predicate Moves(a: Axis) {
    a.stride != 0 && a.shape != 1
  }

  /** Every moving axis steps at least over the next moving axis, or over the innermost one. */
  predicate AbsMonotonous(l: seq<Axis>) {
    forall i, j :: 0 <= i < j < |l| && Moves(l[i]) && NextMoving(l, i, j) ==>
        Abs(l[i].stride) >= Abs(l[j].stride) * l[j].shape
  }

  /** `j` is the first axis inside `i` that moves, or the innermost one when none does. */
  predicate NextMoving(l: seq<Axis>, i: int, j: int)
    requires 0 <= i < j < |l|
  {
    (Moves(l[j]) || j == |l| - 1) && forall k :: i < k < j ==> !Moves(l[k])
  }

  /** The documented definition: every axis steps at least over the axis inside it. */
  predicate Documented(l: seq<Axis>) {
    forall i :: 0 <= i < |l| - 1 ==> StepsOver(l[i], l[i + 1])
  }

  predicate StepsOver(a: Axis, b: Axis) {
    Abs(a.stride) >= Abs(b.stride) * b.shape
  }

  /** The layout without the axes that do not move, except for the innermost one. */
  function Moving(l: seq<Axis>): (m: seq<Axis>)
    ensures l != [] ==> m != []
  {
    if |l| <= 1 then l else (if Moves(l[0]) then [l[0]] else []) + Moving(l[1..])
  }

  /** `l[p]` is where the moving axes inside the outermost one begin. */
  lemma {:induction false} FirstMoving(l: seq<Axis>) returns (p: int)
    requires l != []
    ensures 0 <= p < |l| && Moving(l)[0] == l[p] && (Moves(l[p]) || p == |l| - 1)
    ensures forall k :: 0 <= k < p ==> !Moves(l[k])
  {
    p := 0;
    if |l| > 1 && !Moves(l[0]) {
      p := FirstMoving(l[1..]);
      p := p + 1;
    }
  }

  /** What the check decides: the documented definition, over the axes that move and the innermost one. */
  lemma {:induction false} MonotonousIsDocumentedOnMoving(l: seq<Axis>)
    ensures AbsMonotonous(l) <==> Documented(Moving(l))
  {
    if |l| > 1 {
      var t := l[1..];
      MonotonousIsDocumentedOnMoving(t);
      var p := FirstMoving(t);
      assert NextMoving(l, 0, p + 1);
      TailMonotonous(l, p + 1);
      if Moves(l[0]) {
        DocumentedCons(l[0], Moving(t));
      } else {
        assert [] + Moving(t) == Moving(t);
      }
    }
  }

  lemma DocumentedCons(a: Axis, m: seq<Axis>)
    requires m != []
    ensures Documented([a] + m) <==> StepsOver(a, m[0]) && Documented(m)
  {
    var l := [a] + m;
    if Documented(l) {
      assert StepsOver(l[0], l[1]);
      forall i | 0 <= i < |m| - 1 ensures StepsOver(m[i], m[i + 1]) {
        assert StepsOver(l[i + 1], l[i + 2]);
      }
    }
  }

  lemma TailMonotonous(l: seq<Axis>, p: int)
    requires 0 < p < |l| && NextMoving(l, 0, p)
    ensures AbsMonotonous(l) <==> AbsMonotonous(l[1..]) && (Moves(l[0]) ==> StepsOver(l[0], l[p]))
  {
    var t := l[1..];
    forall i, j | 0 <= i < j < |t| ensures NextMoving(t, i, j) <==> NextMoving(l, i + 1, j + 1) {
      assert forall k :: i < k < j ==> t[k] == l[k + 1];
      assert (forall k :: i < k < j ==> !Moves(t[k])) <==> (forall k :: i + 1 < k < j + 1 ==> !Moves(l[k])) by {
        if forall k :: i < k < j ==> !Moves(t[k]) {
          forall k | i + 1 < k < j + 1 ensures !Moves(l[k]) {
            assert l[k] == t[k - 1];
          }
        }
      }
    }
    forall j | 0 < j < |l| && NextMoving(l, 0, j) ensures j == p {
    }
    if AbsMonotonous(l) {
      forall i, j | 0 <= i < j < |t| && Moves(t[i]) && NextMoving(t, i, j)
        ensures Abs(t[i].stride) >= Abs(t[j].stride) * t[j].shape
      {
        assert NextMoving(l, i + 1, j + 1);
      }
    }
    if AbsMonotonous(t) && (Moves(l[0]) ==> StepsOver(l[0], l[p])) {
      forall i, j | 0 <= i < j < |l| && Moves(l[i]) && NextMoving(l, i, j)
        ensures Abs(l[i].stride) >= Abs(l[j].stride) * l[j].shape
      {
        if i > 0 {
          assert NextMoving(t, i - 1, j - 1);
        }
      }
    }
  }

  /** The documented definition implies the check. */
  lemma DocumentedIsAccepted(l: seq<Axis>)
    requires Documented(l)
    ensures AbsMonotonous(l)
  {
    forall i, j | 0 <= i < j < |l| && Moves(l[i]) && NextMoving(l, i, j)
      ensures Abs(l[i].stride) >= Abs(l[j].stride) * l[j].shape
    {
      StepsOverAll(l, i, j);
    }
  }

  /** Stepping over the next axis carries over axes that are not empty or do not move. */
  lemma {:induction false} StepsOverAll(l: seq<Axis>, i: int, j: int)
    requires Documented(l) && 0 <= i < j < |l|
    requires forall k :: i < k < j ==> l[k].shape > 0 || !Moves(l[k])
    ensures StepsOver(l[i], l[j])
    decreases j
  {
    assert StepsOver(l[j - 1], l[j]);
    if i < j - 1 {
      StepsOverAll(l, i, j - 1);
      if l[j - 1].shape > 0 {
        MulLe(1, l[j - 1].shape, Abs(l[j - 1].stride));
        assert Abs(l[j - 1].stride) * l[j - 1].shape >= Abs(l[j - 1].stride);
      }
    }
  }

  /** The documented definition, with a stride along the innermost axis, means that no two elements share an offset. */
  lemma DocumentedDoesNotOverlap(l: seq<Axis>)
    requires l != [] && Documented(l) && Inner(l).stride != 0
    ensures NonOverlapping(l)
  {
    if Positive(l) {
      DocumentedIsAccepted(l);
      forall i | 0 <= i < |l| - 1 ensures l[i].stride != 0 {
        StepsOverAll(l, i, |l| - 1);
        MulLe(1, Inner(l).shape, Abs(Inner(l).stride));
      }
      MonotonousOverlap(l);
    }
  }

  /** The check takes more than the definition: a broadcast axis is passed over. */
  lemma AcceptsUndocumented()
    ensures AbsMonotonous([Axis(2, 0), Axis(3, 1)]) && !Documented([Axis(2, 0), Axis(3, 1)])
  {
    var l := [Axis(2, 0), Axis(3, 1)];
    assert !StepsOver(l[0], l[1]);
  }

  /** Axes with more than one index all have a stride. */
  predicate NoBroadcast(l: seq<Axis>) {
    forall i :: 0 <= i < |l| && l[i].shape >= 2 ==> l[i].stride != 0
  }

  /** The check of `is_abs_monotonous_allow_brdcst`; a layout it accepts overlaps exactly when it broadcasts. */
  method IsAbsMonotonousAllowBrdcst(l: seq<Axis>) returns (r: bool)
    ensures r <==> l != [] && AbsMonotonous(l)
    ensures r && Positive(l) ==> (NonOverlapping(l) <==> NoBroadcast(l))
  {
    if l == [] {
      return false;
    }
    if |l| == 1 {
      MonotonousOverlap(l);
      return true;
    }
    ghost var p := |l| - 1;
    var last := Abs(l[|l| - 1].stride) * l[|l| - 1].shape;
    var i: int := |l| - 2;
    while i >= 0
      invariant -1 <= i < p < |l|
      invariant last == Abs(l[p].stride) * l[p].shape
      invariant Moves(l[p]) || p == |l| - 1
      invariant forall k :: i < k < p ==> !Moves(l[k])
      invariant forall a, b :: i < a < b < |l| && Moves(l[a]) && NextMoving(l, a, b) ==>
          Abs(l[a].stride) >= Abs(l[b].stride) * l[b].shape
    {
      if Moves(l[i]) {
        if Abs(l[i].stride) < last {
          assert NextMoving(l, i, p);
          return false;
        }
        last := Abs(l[i].stride) * l[i].shape;
        p := i;
      }
      i := i - 1;
    }
    if Positive(l) {
      MonotonousOverlap(l);
    }
    return true;
  }

  lemma MonotonousOverlap(l: seq<Axis>)
    requires l != [] && AbsMonotonous(l)
    ensures Positive(l) ==> (NonOverlapping(l) <==> NoBroadcast(l))
  {
    if Positive(l) {
      DotInjectiveIsNonOverlapping(l);
      if NoBroadcast(l) {
        var _ := MonotonousInjective(l, 0);
        assert l[0..] == l;
      } else {
        var i :| 0 <= i < |l| && l[i].shape >= 2 && l[i].stride == 0;
        BroadcastOverlaps(l, i);
      }
    }
  }

  lemma BroadcastOverlaps(l: seq<Axis>, i: int)
    requires Positive(l) && 0 <= i < |l| && l[i].shape >= 2 && l[i].stride == 0
    ensures !NonOverlapping(l)
  {
    AtAxisStep(l, i);
    AtZero(l);
  }

  /** From the inside out, the reach of the axes done stays below the step of the next moving axis. */
  lemma {:induction false} MonotonousInjective(l: seq<Axis>, i: nat) returns (p: int)
    requires Positive(l) && AbsMonotonous(l) && NoBroadcast(l) && i < |l|
    ensures i <= p < |l| && (Moves(l[p]) || p == |l| - 1) && (forall k :: i <= k < p ==> !Moves(l[k]))
    ensures DotInjective(l[i..])
    ensures Reach(l[i..]) == 0 || Reach(l[i..]) < Abs(l[p].stride) * l[p].shape
    decreases |l| - i
  {
    assert l[i..][0] == l[i] && l[i..][1..] == l[i + 1..];
    if i == |l| - 1 {
      assert l[i + 1..] == [];
      p := i;
    } else {
      p := MonotonousInjective(l, i + 1);
      if Moves(l[i]) {
        assert NextMoving(l, i, p);
        p := i;
      }
    }
    ReachStep(l[i].shape, Abs(l[i].stride), Reach(l[i + 1..]));
    WideStepKeepsInjective(l[i..]);
  }

  lemma ReachStep(n: nat, s: nat, r: nat)
    requires n > 0
    ensures (n - 1) * s + r < n * s <==> r < s
    ensures n == 1 || s == 0 ==> (n - 1) * s == 0
  {
  }

  // ---- span ---------------------------------------------------------------------------------

  /** Lowest offset of an element, where there are any. */
  function LowElem(l: seq<Axis>): int {
    if l == [] then 0
    else LowElem(Outer(l)) + if Inner(l).stride > 0 then 0 else (Inner(l).shape - 1) * Inner(l).stride
  }

  /** Highest offset of an element, where there are any. */
  function HighElem(l: seq<Axis>): int {
    if l == [] then 0
    else HighElem(Outer(l)) + if Inner(l).stride > 0 then (Inner(l).shape - 1) * Inner(l).stride else 0
  }

  /** `span_spec`: `low` and `high - 1` are the lowest and highest offset of an element. */
  method Span(l: seq<Axis>) returns (low: int, high: int)
    ensures Total(l) == 0 ==> low == high == 0
    ensures forall k :: 0 <= k < Total(l) ==> low <= At(l, k) < high
    ensures Total(l) > 0 ==> low == LowElem(l) && high == HighElem(l) + 1
    ensures Total(l) > 0 ==> exists k :: 0 <= k < Count(l) && At(l, k) == low
    ensures Total(l) > 0 ==> exists k :: 0 <= k < Count(l) && At(l, k) == high - 1
  {
    if l == [] {
      return 0, 0;
    }
    low, high := 0, 0;
    SpanOfNothing(l[..0]);
    hide LowElem, HighElem, Count, At, IsSpan;
    for i := 0 to |l|
      invariant Positive(l[..i])
      invariant IsSpan(l[..i], low, high) && low == LowElem(l[..i]) && high == HighElem(l[..i])
    {
      assert l[..i + 1][..i] == l[..i];
      if l[i].shape == 0 {
        assert !Positive(l);
        return 0, 0;
      }
      SpanSnoc(l[..i], l[i], low, high);
      SpanElemsSnoc(l[..i], l[i]);
      assert l[..i + 1] == l[..i] + [l[i]];
      if l[i].stride > 0 {
        high := high + (l[i].shape - 1) * l[i].stride;
      } else {
        low := low + (l[i].shape - 1) * l[i].stride;
      }
    }
    assert l[..|l|] == l;
    SpanMeans(l, low, high);
    high := high + 1;
  }

  /** They are the lowest and the highest offset of an element. */
  lemma {:induction false} ElemsAreSpan(l: seq<Axis>)
    requires Positive(l)
    ensures IsSpan(l, LowElem(l), HighElem(l)) && LowElem(l) <= 0 <= HighElem(l)
    decreases |l|
  {
    if l == [] {
      SpanOfNothing(l);
    } else {
      var o, a := Outer(l), Inner(l);
      assert l == o + [a];
      ElemsAreSpan(o);
      SpanSnoc(o, a, LowElem(o), HighElem(o));
      SpanElemsSnoc(o, a);
      ScaledRange(a.shape - 1, a.shape, a.stride);
    }
  }

  /** Where element `k` is at offset `k`, they are the first and the last one. */
  lemma IdentityElems(l: seq<Axis>)
    requires Positive(l) && IsIdentity(l)
    ensures LowElem(l) == 0 && HighElem(l) == Count(l) - 1
  {
    ElemsAreSpan(l);
    hide LowElem, HighElem, At;
    var j :| 0 <= j < Count(l) && At(l, j) == LowElem(l);
    var k :| 0 <= k < Count(l) && At(l, k) == HighElem(l);
    assert At(l, Count(l) - 1) == Count(l) - 1;
  }

  lemma SpanOfNothing(l: seq<Axis>)
    requires l == []
    ensures IsSpan(l, 0, 0) && LowElem(l) == HighElem(l) == 0
  {
    assert Count(l) == 1 && At(l, 0) == 0;
  }

  lemma SpanMeans(l: seq<Axis>, low: int, high: int)
    requires IsSpan(l, low, high)
    ensures forall k :: 0 <= k < Count(l) ==> low <= At(l, k) < high + 1
    ensures exists k :: 0 <= k < Count(l) && At(l, k) == low
    ensures exists k :: 0 <= k < Count(l) && At(l, k) == high + 1 - 1
  {
  }

  ghost predicate IsSpan(l: seq<Axis>, low: int, high: int) {
    && (forall k :: 0 <= k < Count(l) ==> low <= At(l, k) <= high)
    && (exists k :: 0 <= k < Count(l) && At(l, k) == low)
    && (exists k :: 0 <= k < Count(l) && At(l, k) == high)
  }

  lemma SpanElemsSnoc(l: seq<Axis>, a: Axis)
    ensures LowElem(l + [a]) == LowElem(l) + if a.stride > 0 then 0 else (a.shape - 1) * a.stride
    ensures HighElem(l + [a]) == HighElem(l) + if a.stride > 0 then (a.shape - 1) * a.stride else 0
  {
    assert Outer(l + [a]) == l;
  }

  lemma SpanSnoc(l: seq<Axis>, a: Axis, low: int, high: int)
    requires IsSpan(l, low, high) && a.shape > 0
    ensures IsSpan(l + [a],
                   if a.stride > 0 then low else low + (a.shape - 1) * a.stride,
                   if a.stride > 0 then high + (a.shape - 1) * a.stride else high)
  {
    var m, r := l + [a], (a.shape - 1) * a.stride;
    assert Outer(m) == l;
    forall k | 0 <= k < Count(m)
      ensures At(m, k) == At(l, k / a.shape) + k % a.shape * a.stride && 0 <= k / a.shape < Count(l)
    {
      DivBound(k, Count(l), a.shape);
    }
    forall k | 0 <= k < Count(m)
      ensures a.stride > 0 ==> low <= At(m, k) <= high + r
      ensures a.stride <= 0 ==> low + r <= At(m, k) <= high
    {
      ScaledRange(k % a.shape, a.shape, a.stride);
    }
    var j :| 0 <= j < Count(l) && At(l, j) == low;
    var h :| 0 <= h < Count(l) && At(l, h) == high;
    SpanAttained(l, a, j);
    SpanAttained(l, a, h);
  }

  lemma ScaledRange(x: int, n: int, s: int)
    requires 0 <= x < n
    ensures s > 0 ==> 0 <= x * s <= (n - 1) * s
    ensures s <= 0 ==> (n - 1) * s <= x * s <= 0
  {
  }

  lemma SpanAttained(l: seq<Axis>, a: Axis, j: int)
    requires 0 <= j < Count(l) && a.shape > 0
    ensures 0 <= j * a.shape && j * a.shape + (a.shape - 1) < Count(l + [a])
    ensures At(l + [a], j * a.shape) == At(l, j)
    ensures At(l + [a], j * a.shape + (a.shape - 1)) == At(l, j) + (a.shape - 1) * a.stride
  {
    assert Outer(l + [a]) == l;
    MixedRadix(j, Count(l), 0, a.shape);
    MixedRadix(j, Count(l), a.shape - 1, a.shape);
  }
}
