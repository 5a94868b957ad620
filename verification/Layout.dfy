/**
  The meaning of a tensor layout: element `k` of the row-major order is stored at
  the sum, over the axes, of stride times index.
 */
module Layout {
  import opened Arith

  /** One axis of a layout: its extent and the signed distance between neighbours. */
  datatype Axis = Axis(shape: nat, stride: int)

  /** Product of the extents; the empty product is one. */
  function Count(l: seq<Axis>): (n: nat)
    ensures n > 0 <==> Positive(l)
  {
    if l == [] then 1
    else
      assert Positive(l) <==> Positive(Outer(l)) && Inner(l).shape > 0;
      Count(Outer(l)) * Inner(l).shape
  }

  /** No axis is empty. */
  predicate Positive(l: seq<Axis>) {
    forall i :: 0 <= i < |l| ==> l[i].shape > 0
  }

  /** All axes but the innermost one. */
  function Outer(l: seq<Axis>): seq<Axis>
    requires l != []
  {
    l[..|l| - 1]
  }

  function Inner(l: seq<Axis>): Axis
    requires l != []
  {
    l[|l| - 1]
  }

  /** Physical offset of element `k` of the row-major order. */
  function At(l: seq<Axis>, k: int): int
  {
    if l == [] || Inner(l).shape == 0 then 0
    else At(Outer(l), k / Inner(l).shape) + k % Inner(l).shape * Inner(l).stride
  }

  /** Row-major multi-index of element `k`, outermost axis first. */
  function Digits(l: seq<Axis>, k: int): (d: seq<int>)
    requires Positive(l)
    ensures |d| == |l|
  {
    if l == [] then []
    else Digits(Outer(l), k / Inner(l).shape) + [k % Inner(l).shape]
  }

  /** The multi-indices a layout has. */
  predicate IsIndex(l: seq<Axis>, d: seq<int>) {
    && |d| == |l|
    && forall i :: 0 <= i < |l| ==> 0 <= d[i] < l[i].shape
  }

  /** Sum over the axes of stride times index. */
  function Dot(l: seq<Axis>, d: seq<int>): int
    requires |d| == |l|
  {
    if l == [] then 0
    else Dot(Outer(l), d[..|l| - 1]) + d[|l| - 1] * Inner(l).stride
  }

  /** Position of a multi-index in the row-major order. */
  function Rank(l: seq<Axis>, d: seq<int>): int
    requires |d| == |l|
  {
    if l == [] then 0
    else Rank(Outer(l), d[..|l| - 1]) * Inner(l).shape + d[|l| - 1]
  }

  /** Physical offsets in the order a traversal visits them. */
  function Offsets(l: seq<Axis>): (s: seq<int>)
    ensures |s| == Count(l)
  {
    seq(Count(l), k => At(l, k))
  }

  /** Two layouts describe the same elements in the same order. */
  predicate SameOffsets(l: seq<Axis>, m: seq<Axis>) {
    && Count(l) == Count(m)
    && forall k :: 0 <= k < Count(l) ==> At(l, k) == At(m, k)
  }

  lemma SameOffsetsIsEqualSequence(l: seq<Axis>, m: seq<Axis>)
    ensures SameOffsets(l, m) <==> Offsets(l) == Offsets(m)
  {
    if Offsets(l) == Offsets(m) {
      forall k | 0 <= k < Count(l) ensures At(l, k) == At(m, k) {
        assert Offsets(l)[k] == Offsets(m)[k];
      }
    }
  }

  // ---- multi-indices -------------------------------------------------------------

  lemma {:induction false} DigitsAreIndex(l: seq<Axis>, k: int)
    requires 0 <= k < Count(l)
    ensures Positive(l) && IsIndex(l, Digits(l, k))
  {
    if l != [] {
      var n := |l| - 1;
      DivBound(k, Count(Outer(l)), l[n].shape);
      var o := Digits(Outer(l), k / l[n].shape);
      DigitsAreIndex(Outer(l), k / l[n].shape);
      forall i | 0 <= i < n ensures 0 <= (o + [k % l[n].shape])[i] < l[i].shape {
        assert l[i] == Outer(l)[i];
      }
    }
  }

  /** The offset of element `k` is the dot product of its multi-index with the strides. */
  lemma {:induction false} AtIsDotOfDigits(l: seq<Axis>, k: int)
    requires Positive(l)
    ensures At(l, k) == Dot(l, Digits(l, k))
  {
    if l != [] {
      AtIsDotOfDigits(Outer(l), k / Inner(l).shape);
      assert Digits(l, k)[..|l| - 1] == Digits(Outer(l), k / Inner(l).shape);
    }
  }

  /** The multi-index of element `k` has rank `k`. */
  lemma {:induction false} RankOfDigits(l: seq<Axis>, k: int)
    requires Positive(l) && 0 <= k < Count(l)
    ensures Rank(l, Digits(l, k)) == k
  {
    if l != [] {
      var n, d := Inner(l).shape, Digits(l, k);
      DivBound(k, Count(Outer(l)), n);
      RankOfDigits(Outer(l), k / n);
      assert d[..|l| - 1] == Digits(Outer(l), k / n) && d[|l| - 1] == k % n;
      assert Rank(l, d) == k / n * n + k % n;
    }
  }

  /** Every multi-index is the digits of exactly its own rank. */
  lemma {:induction false} DigitsOfRank(l: seq<Axis>, d: seq<int>)
    requires IsIndex(l, d)
    ensures Positive(l) && 0 <= Rank(l, d) < Count(l)
    ensures Digits(l, Rank(l, d)) == d
  {
    if l != [] {
      var o := d[..|l| - 1];
      OuterIndex(l, d);
      DigitsOfRank(Outer(l), o);
      MixedRadix(Rank(Outer(l), o), Count(Outer(l)), d[|l| - 1], Inner(l).shape);
      assert d == o + [d[|l| - 1]];
    }
  }

  /** Lexicographic order of two multi-indices. */
  predicate LexLess(d: seq<int>, e: seq<int>) {
    |d| == |e| && exists i :: 0 <= i < |d| && d[..i] == e[..i] && d[i] < e[i]
  }

  /** The row-major order is the lexicographic order of the multi-indices. */
  lemma {:induction false} RankOrderIsLexicographic(l: seq<Axis>, d: seq<int>, e: seq<int>)
    requires IsIndex(l, d) && IsIndex(l, e)
    ensures Rank(l, d) < Rank(l, e) <==> LexLess(d, e)
  {
    if Rank(l, d) < Rank(l, e) {
      LowerRankIsLexLess(l, d, e);
    } else if LexLess(d, e) {
      if Rank(l, e) < Rank(l, d) {
        LowerRankIsLexLess(l, e, d);
        LexAsymmetric(d, e);
      } else {
        DigitsOfRank(l, d);
        DigitsOfRank(l, e);
      }
    }
  }

  lemma LexAsymmetric(d: seq<int>, e: seq<int>)
    ensures !(LexLess(d, e) && LexLess(e, d))
  {
  }

  lemma {:induction false} LowerRankIsLexLess(l: seq<Axis>, d: seq<int>, e: seq<int>)
    requires IsIndex(l, d) && IsIndex(l, e)
    requires Rank(l, d) < Rank(l, e)
    ensures LexLess(d, e)
  {
    var n := |l| - 1;
    var d', e' := d[..n], e[..n];
    OuterIndex(l, d);
    OuterIndex(l, e);
    if Rank(Outer(l), d') < Rank(Outer(l), e') {
      LowerRankIsLexLess(Outer(l), d', e');
      var i :| 0 <= i < n && d'[..i] == e'[..i] && d'[i] < e'[i];
      assert d[..i] == d'[..i] && e[..i] == e'[..i];
    } else {
      RadixOrder(Rank(Outer(l), e'), e[n], Rank(Outer(l), d'), d[n], Inner(l).shape);
      DigitsOfRank(Outer(l), d');
      DigitsOfRank(Outer(l), e');
      assert d[..n] == e[..n];
    }
  }

  lemma OuterIndex(l: seq<Axis>, d: seq<int>)
    requires IsIndex(l, d) && l != []
    ensures IsIndex(Outer(l), d[..|l| - 1])
  {
  }

  // ---- concatenation ---------------------------------------------------------------

  /** Counts multiply and offsets add along a split of the axes. */
  lemma {:induction false} Append(l: seq<Axis>, m: seq<Axis>, k: int)
    requires Positive(m) && 0 <= k
    ensures Count(l + m) == Count(l) * Count(m) && Count(m) > 0
    ensures At(l + m, k) == At(l, k / Count(m)) + At(m, k % Count(m))
    decreases m
  {
    CountAppend(l, m);
    if m == [] {
      assert l + m == l;
    } else {
      var n, c := Inner(m).shape, Count(Outer(m));
      assert Outer(l + m) == l + Outer(m) && Inner(l + m) == Inner(m);
      Append(l, Outer(m), k / n);
      DivDiv(k, c, n);
    }
  }

  lemma {:induction false} CountAppend(l: seq<Axis>, m: seq<Axis>)
    ensures Count(l + m) == Count(l) * Count(m)
    decreases m
  {
    if m == [] {
      assert l + m == l;
    } else {
      assert Outer(l + m) == l + Outer(m);
      CountAppend(l, Outer(m));
      MulAssoc(Count(l), Count(Outer(m)), Inner(m).shape);
    }
  }

  /** Offset zero is element zero. */
  lemma {:induction false} AtZero(l: seq<Axis>)
    ensures At(l, 0) == 0
    decreases |l|
  {
    if l != [] && Inner(l).shape > 0 {
      DivModUnique(0, Inner(l).shape, 0, 0);
      AtZero(Outer(l));
    }
  }

  lemma CountSingle(a: Axis)
    ensures Count([a]) == a.shape
  {
  }

  lemma CountSnoc(l: seq<Axis>, i: int)
    requires 0 <= i < |l|
    ensures Count(l[..i + 1]) == Count(l[..i]) * l[i].shape
  {
    assert Outer(l[..i + 1]) == l[..i];
  }

  /** One axis walks in steps of its stride. */
  lemma AtSingle(a: Axis, k: int)
    requires 0 <= k < a.shape
    ensures At([a], k) == k * a.stride
  {
    DivModUnique(k, a.shape, 0, k);
    assert Outer([a]) == [];
  }

  /** Below the count of a suffix, only the suffix moves. */
  lemma AtLow(l: seq<Axis>, m: seq<Axis>, k: int)
    requires Positive(m) && 0 <= k < Count(m)
    ensures At(l + m, k) == At(m, k)
  {
    Append(l, m, k);
    DivModUnique(k, Count(m), 0, k);
    AtZero(l);
  }

  /** At whole multiples of the count of a suffix, only the prefix moves. */
  lemma AtMultiple(l: seq<Axis>, m: seq<Axis>, q: int)
    requires Positive(m) && 0 <= q
    ensures Count(m) > 0 && At(l + m, q * Count(m)) == At(l, q)
  {
    assert q * Count(m) >= 0;
    Append(l, m, q * Count(m));
    DivModUnique(q * Count(m), Count(m), q, 0);
    AtZero(m);
  }

  /** Replacing parts of a layout by parts with the same offsets changes nothing. */
  lemma SameOffsetsAppend(l: seq<Axis>, l': seq<Axis>, m: seq<Axis>, m': seq<Axis>)
    requires SameOffsets(l, l') && SameOffsets(m, m')
    ensures SameOffsets(l + m, l' + m')
  {
    CountAppend(l, m);
    CountAppend(l', m');
    if Count(m) > 0 {
      forall k | 0 <= k < Count(l + m) ensures At(l + m, k) == At(l' + m', k) {
        Append(l, m, k);
        Append(l', m', k);
        DivBound(k, Count(l), Count(m));
      }
    }
  }

  /** An axis of extent one does not matter, whatever its stride. */
  lemma UnitAxis(l: seq<Axis>, s: int, m: seq<Axis>)
    ensures SameOffsets(l + [Axis(1, s)] + m, l + m)
  {
    var u := [Axis(1, s)];
    assert SameOffsets(u, []) by {
      CountSingle(u[0]);
      AtSingle(u[0], 0);
    }
    SameOffsetsAppend(l, l, u, []);
    assert l + [] == l;
    SameOffsetsAppend(l + u, l, m, m);
  }

  /** Two axes whose strides continue each other are one axis. */
  lemma MergeAxes(l: seq<Axis>, a: Axis, b: Axis, m: seq<Axis>)
    requires a.stride == b.stride * b.shape
    ensures SameOffsets(l + [a, b] + m, l + [Axis(a.shape * b.shape, b.stride)] + m)
  {
    var c := Axis(a.shape * b.shape, b.stride);
    MergePair(a, b);
    SameOffsetsAppend(l, l, [a, b], [c]);
    SameOffsetsAppend(l + [a, b], l + [c], m, m);
  }

  lemma MergePair(a: Axis, b: Axis)
    requires a.stride == b.stride * b.shape
    ensures SameOffsets([a, b], [Axis(a.shape * b.shape, b.stride)])
  {
    var ab, c := [a, b], Axis(a.shape * b.shape, b.stride);
    assert Outer(ab) == [a] && ab == [a] + [b];
    CountAppend([a], [b]);
    CountSingle(a);
    CountSingle(b);
    CountSingle(c);
    forall k | 0 <= k < Count(ab) ensures At(ab, k) == At([c], k) {
      DivBound(k, a.shape, b.shape);
      AtSingle(a, k / b.shape);
      AtSingle(c, k);
      MergeStep(k, b.shape, b.stride);
    }
  }

  lemma MergeStep(k: int, n: int, s: int)
    requires 0 < n
    ensures k / n * (s * n) + k % n * s == k * s
  {
  }
}
