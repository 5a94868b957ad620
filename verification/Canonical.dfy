/**
  Collapsed layouts are a normal form: two of them that visit the same offsets in the
  same order are equal. The axis boundaries of any layout with those offsets refine the
  boundaries of the normal form, which is what decides whether a reshape exists.
 */
module Canonical {
  import opened Arith
  import opened Layout

  /** No axis of extent one is left and no axis continues into the next one. */
  predicate Collapsed(l: seq<Axis>) {
    && (forall i :: 0 <= i < |l| ==> l[i].shape >= 2)
    && (forall i {:trigger l[i]} :: 0 <= i < |l| - 1 ==> !Continues(l[i], l[i + 1]))
  }

  /** The outer axis steps exactly over the whole inner axis. */
  predicate Continues(a: Axis, b: Axis) {
    a.stride == b.stride * b.shape
  }

  /** What `collapse_contiguous` documents: a canonized form, with one fixed form for scalars and empty tensors. */
  predicate IsCanonical(l: seq<Axis>) {
    || (|l| == 1 && l[0].shape <= 1 && l[0].stride == 1)
    || (l != [] && Collapsed(l))
  }

  lemma CollapsedOuter(l: seq<Axis>)
    requires Collapsed(l) && l != []
    ensures Collapsed(Outer(l)) && Positive(l)
  {
  }

  /** The second element of a layout is one inner stride away from the first. */
  lemma AtOne(l: seq<Axis>)
    requires l != [] && Inner(l).shape >= 2
    ensures At(l, 1) == Inner(l).stride
  {
    DivModUnique(1, Inner(l).shape, 0, 1);
    AtZero(Outer(l));
  }

  /** While the innermost axis does not wrap, offsets grow by its stride. */
  lemma AtInner(l: seq<Axis>, k: int)
    requires l != [] && 0 <= k < Inner(l).shape
    ensures At(l, k) == k * Inner(l).stride
  {
  }

  /** A wrap of the innermost axis leaves the arithmetic progression. */
  lemma AtWrap(l: seq<Axis>)
    requires Collapsed(l) && |l| >= 2
    ensures At(l, Inner(l).shape) != Inner(l).shape * Inner(l).stride
  {
    var n := |l| - 1;
    DivModUnique(l[n].shape, l[n].shape, 1, 0);
    assert Inner(Outer(l)) == l[n - 1];
    AtOne(Outer(l));
    assert !Continues(l[n - 1], l[n]);
    assert l[n].shape * l[n].stride == l[n].stride * l[n].shape;
  }

  lemma CountOne(l: seq<Axis>)
    requires Collapsed(l)
    ensures Count(l) == 1 <==> l == []
  {
  }

  lemma CountAtLeastInner(l: seq<Axis>)
    requires Positive(l) && l != []
    ensures Count(l) >= Inner(l).shape
    ensures |l| == 1 ==> Count(l) == Inner(l).shape
    ensures |l| >= 2 && Collapsed(l) ==> Count(l) > Inner(l).shape
  {
    assert Positive(Outer(l));
    ProductGe(Count(Outer(l)), Inner(l).shape);
    if Collapsed(l) {
      CollapsedOuter(l);
      CountOne(Outer(l));
    }
  }

  lemma InnerStrideEq(l: seq<Axis>, m: seq<Axis>)
    requires Collapsed(l) && Collapsed(m) && l != [] && m != []
    requires SameOffsets(l, m)
    ensures Inner(l).stride == Inner(m).stride
  {
    CountAtLeastInner(l);
    AtOne(l);
    AtOne(m);
  }

  lemma InnerShapeLe(l: seq<Axis>, m: seq<Axis>)
    requires Collapsed(l) && Collapsed(m) && l != [] && m != []
    requires SameOffsets(l, m)
    ensures Inner(l).shape >= Inner(m).shape
  {
    CountAtLeastInner(l);
    CountAtLeastInner(m);
    InnerStrideEq(l, m);
    if Inner(l).shape < Inner(m).shape {
      AtInner(m, Inner(l).shape);
      if |l| >= 2 {
        AtWrap(l);
      }
    }
  }

  /** Dropping a common innermost axis keeps the offsets equal. */
  lemma SameOffsetsOuter(l: seq<Axis>, m: seq<Axis>)
    requires l != [] && m != [] && Inner(l) == Inner(m) && Inner(l).shape > 0
    requires SameOffsets(l, m)
    ensures SameOffsets(Outer(l), Outer(m))
  {
    var a := [Inner(l)];
    assert l == Outer(l) + a && m == Outer(m) + a;
    SameOffsetsPrefix(Outer(l), Outer(m), a, a);
  }

  /** Equal offsets of the whole and equal counts of the suffixes give equal offsets of the prefixes. */
  lemma SameOffsetsPrefix(l: seq<Axis>, m: seq<Axis>, l': seq<Axis>, m': seq<Axis>)
    requires SameOffsets(l + l', m + m')
    requires Count(l') == Count(m') > 0
    ensures SameOffsets(l, m)
  {
    var c := Count(l');
    CountAppend(l, l');
    CountAppend(m, m');
    MulCancelEq(Count(l), Count(m), c);
    forall k | 0 <= k < Count(l) ensures At(l, k) == At(m, k) {
      AtMultiple(l, l', k);
      AtMultiple(m, m', k);
      MulLe(0, k, c);
      MulLt(k, Count(l), c);
    }
  }

  lemma {:induction false} CollapsedUnique(l: seq<Axis>, m: seq<Axis>)
    requires Collapsed(l) && Collapsed(m) && SameOffsets(l, m)
    ensures l == m
    decreases |l|
  {
    CountOne(l);
    CountOne(m);
    if l != [] && m != [] {
      CollapsedOuter(l);
      CollapsedOuter(m);
      InnerShapeLe(l, m);
      InnerShapeLe(m, l);
      InnerStrideEq(l, m);
      SameOffsetsOuter(l, m);
      CollapsedUnique(Outer(l), Outer(m));
      assert l == Outer(l) + [Inner(l)] && m == Outer(m) + [Inner(m)];
    }
  }

  /** The normal form decides equality of the described element orders. */
  lemma CanonicalIffSameOffsets(l: seq<Axis>, m: seq<Axis>)
    requires IsCanonical(l) && IsCanonical(m)
    ensures l == m <==> Offsets(l) == Offsets(m)
  {
    SameOffsetsIsEqualSequence(l, m);
    if SameOffsets(l, m) {
      SmallCanonical(l);
      SmallCanonical(m);
      if Collapsed(l) && Collapsed(m) {
        CollapsedUnique(l, m);
      }
    }
  }

  lemma SmallCanonical(l: seq<Axis>)
    requires IsCanonical(l)
    ensures Count(l) <= 1 ==> l == [Axis(Count(l), 1)]
    ensures Count(l) > 1 ==> Collapsed(l)
  {
    if l[0].shape <= 1 {
      assert Outer(l) == [];
      assert l == [l[0]];
    } else {
      CountOne(l);
      assert Positive(l);
    }
  }

  // ---- axis boundaries ---------------------------------------------------------------

  /** The prefix with `b` axes of `l` and the prefix with `c` axes of `m` hold equally many indices. */
  predicate SameBoundary(l: seq<Axis>, b: int, m: seq<Axis>, c: int) {
    0 <= b <= |l| && 0 <= c <= |m| && Count(l[..b]) == Count(m[..c])
  }

  /** Counts of suffixes can only shrink by dropping axes. */
  lemma CountDrop(l: seq<Axis>, i: int)
    requires Positive(l) && 0 <= i < |l|
    ensures Count(l[i..]) == l[i].shape * Count(l[i + 1..]) && Count(l[i + 1..]) > 0
  {
    assert l[i..] == [l[i]] + l[i + 1..];
    CountAppend([l[i]], l[i + 1..]);
    CountSingle(l[i]);
  }

  /** Some suffix of `l` holds at least `d` indices while the one after it holds fewer. */
  lemma CrossingSuffix(l: seq<Axis>, d: int) returns (j: int)
    requires Positive(l) && 1 < d <= Count(l)
    ensures 0 <= j < |l|
    ensures Count(l[j + 1..]) < d <= Count(l[j..])
  {
    j := |l|;
    assert l[j..] == [] && l[0..] == l;
    while Count(l[j..]) < d
      invariant 0 <= j <= |l|
      invariant j < |l| ==> Count(l[j + 1..]) < d
      decreases j
    {
      j := j - 1;
    }
  }

  /** The arithmetic progression of the innermost axis of `m` must end on an axis boundary of `l`. */
  lemma InnerBoundary(l: seq<Axis>, m: seq<Axis>) returns (b: int)
    requires Positive(l) && Collapsed(m) && m != [] && SameOffsets(l, m)
    ensures 0 <= b <= |l| && Count(l[b..]) == Inner(m).shape
  {
    var d := Inner(m).shape;
    CountAtLeastInner(m);
    var j := CrossingSuffix(l, d);
    if Count(l[j..]) != d {
      CountSuffixLe(l, j);
      if |m| >= 2 {
        ProgressionContinues(l, m, j);
        AtWrap(m);
      }
    }
    b := j;
  }

  lemma CountSuffixLe(l: seq<Axis>, j: int)
    requires Positive(l) && 0 <= j <= |l|
    ensures Count(l[j..]) <= Count(l)
  {
    assert l == l[..j] + l[j..] && Positive(l[..j]) && Positive(l[j..]);
    CountAppend(l[..j], l[j..]);
    ProductGe(Count(l[..j]), Count(l[j..]));
  }

  /** An element within axis `j` and the axes after it: whole steps along axis `j`, then the remainder. */
  lemma AtWithinAxis(l: seq<Axis>, j: int, k: int)
    requires Positive(l) && 0 <= j < |l| && 0 <= k < Count(l[j..])
    ensures Count(l[j + 1..]) > 0
    ensures At(l, k) == k / Count(l[j + 1..]) * l[j].stride + At(l, k % Count(l[j + 1..]))
  {
    var a, rest := l[j], l[j + 1..];
    CountDrop(l, j);
    assert l == l[..j] + l[j..] && l[j..] == [a] + rest && l == l[..j + 1] + rest;
    DivBound(k, a.shape, Count(rest));
    AtLow(l[..j], l[j..], k);
    Append([a], rest, k);
    AtSingle(a, k / Count(rest));
    AtLow(l[..j + 1], rest, k % Count(rest));
  }

  /** The first element of the second slice along axis `i` is one stride of that axis away. */
  lemma AtAxisStep(l: seq<Axis>, i: int)
    requires Positive(l) && 0 <= i < |l| && l[i].shape >= 2
    ensures 0 < Count(l[i + 1..]) < Count(l)
    ensures At(l, Count(l[i + 1..])) == l[i].stride
  {
    var p := Count(l[i + 1..]);
    CountDrop(l, i);
    CountSuffixLe(l, i);
    MulLt(1, l[i].shape, p);
    AtWithinAxis(l, i, p);
    SelfDiv(p);
    AtZero(l);
  }

  /** If the progression of `m` ran into the middle of axis `j` of `l`, that axis would continue it. */
  lemma AxisJoinsProgression(l: seq<Axis>, m: seq<Axis>, j: int)
    requires Positive(l) && m != [] && SameOffsets(l, m)
    requires 0 <= j < |l| && Count(l[j + 1..]) < Inner(m).shape < Count(l[j..])
    ensures l[j].stride == Count(l[j + 1..]) * Inner(m).stride
  {
    CountDrop(l, j);
    AtAxisStep(l, j);
    AtInner(m, Count(l[j + 1..]));
  }

  /** So it would go on past its end. */
  lemma ProgressionContinues(l: seq<Axis>, m: seq<Axis>, j: int)
    requires Positive(l) && m != [] && SameOffsets(l, m)
    requires 0 <= j < |l| && Count(l[j + 1..]) < Inner(m).shape < Count(l[j..])
    ensures At(m, Inner(m).shape) == Inner(m).shape * Inner(m).stride
  {
    var d, s, p := Inner(m).shape, Inner(m).stride, Count(l[j + 1..]);
    CountDrop(l, j);
    CountSuffixLe(l, j);
    AxisJoinsProgression(l, m, j);
    AtWithinAxis(l, j, d);
    DivBound(d, l[j].shape, p);
    AtInner(m, d % p);
    MergeStep(d, p, s);
    assert l[j].stride == s * p;
  }

  /** Every axis boundary of the normal form is an axis boundary of every layout with the same offsets. */
  lemma {:induction false} BoundaryExists(l: seq<Axis>, m: seq<Axis>, c: int) returns (b: int)
    requires Positive(l) && Collapsed(m) && SameOffsets(l, m) && 0 <= c <= |m|
    ensures SameBoundary(l, b, m, c)
    decreases |m|
  {
    if c == |m| {
      assert l[..|l|] == l && m[..c] == m;
      b := |l|;
    } else {
      var i := InnerBoundary(l, m);
      CollapsedOuter(m);
      assert l == l[..i] + l[i..] && m == Outer(m) + [Inner(m)];
      CountSingle(Inner(m));
      SameOffsetsPrefix(l[..i], Outer(m), l[i..], [Inner(m)]);
      b := BoundaryExists(l[..i], Outer(m), c);
      assert l[..i][..b] == l[..b] && Outer(m)[..c] == m[..c];
    }
  }
}
