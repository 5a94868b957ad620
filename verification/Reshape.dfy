/**
  Which shapes a layout can be viewed with: a shape is reachable exactly when its axes
  group, in order, into the axes of the collapsed layout.
 */
module Reshape {
  import opened Arith
  import opened Layout
  import opened Canonical

  /** A shape and its strides as axes. */
  function Zip(shape: seq<nat>, stride: seq<int>): (l: seq<Axis>)
    requires |shape| == |stride|
    ensures |l| == |shape|
    ensures forall i :: 0 <= i < |l| ==> l[i] == Axis(shape[i], stride[i])
  {
    seq(|shape|, i requires 0 <= i < |shape| => Axis(shape[i], stride[i]))
  }

  /** Number of elements of a shape; the empty product is one. */
  function Prod(shape: seq<nat>): nat {
    if shape == [] then 1 else Prod(shape[..|shape| - 1]) * shape[|shape| - 1]
  }

  /** Some strides over `shape` visit the offsets of `l` in order: the condition `try_reshape` documents. */
  ghost predicate CanReshape(l: seq<Axis>, shape: seq<nat>) {
    exists stride: seq<int> {:trigger Zip(shape, stride)} :: |stride| == |shape|
        && Offsets(Zip(shape, stride)) == Offsets(l)
  }

  lemma {:induction false} CountZip(shape: seq<nat>, stride: seq<int>)
    requires |shape| == |stride|
    ensures Count(Zip(shape, stride)) == Prod(shape)
  {
    if shape != [] {
      var n := |shape| - 1;
      CountZip(shape[..n], stride[..n]);
      assert Outer(Zip(shape, stride)) == Zip(shape[..n], stride[..n]);
    }
  }

  lemma {:induction false} ProdAppend(a: seq<nat>, b: seq<nat>)
    ensures Prod(a + b) == Prod(a) * Prod(b)
    decreases |b|
  {
    if b == [] {
      assert a + b == a;
    } else {
      var n := |b| - 1;
      assert (a + b)[..|a + b| - 1] == a + b[..n];
      ProdAppend(a, b[..n]);
      MulAssoc(Prod(a), Prod(b[..n]), b[n]);
    }
  }

  lemma ProdSplit(s: seq<nat>, i: int)
    requires 0 <= i <= |s|
    ensures Prod(s) == Prod(s[..i]) * Prod(s[i..])
  {
    assert s == s[..i] + s[i..];
    ProdAppend(s[..i], s[i..]);
  }

  lemma ProdSnoc(s: seq<nat>, b: int, i: int)
    requires 0 <= b <= i < |s|
    ensures Prod(s[b..i + 1]) == Prod(s[b..i]) * s[i]
  {
    assert s[b..i + 1][..i - b] == s[b..i];
  }

  lemma ProdCons(s: seq<nat>, j: int, i: int)
    requires 0 <= j < i <= |s|
    ensures Prod(s[j..i]) == s[j] * Prod(s[j + 1..i])
  {
    assert s[j..i] == [s[j]] + s[j + 1..i];
    ProdAppend([s[j]], s[j + 1..i]);
    assert [s[j]][..0] == [];
    assert Prod([s[j]]) == s[j];
  }

  lemma {:induction false} ProdPositive(s: seq<nat>)
    ensures Prod(s) > 0 <==> forall i :: 0 <= i < |s| ==> s[i] > 0
  {
    if s != [] {
      ProdPositive(s[..|s| - 1]);
    }
  }

  /** Prefix products only grow. */
  lemma ProdPrefixLe(s: seq<nat>, i: int, j: int)
    requires 0 <= i <= j <= |s| && Prod(s) > 0
    ensures 0 < Prod(s[..i]) <= Prod(s[..j])
  {
    ProdPositive(s);
    ProdPositive(s[..j]);
    ProdPositive(s[..i]);
    ProdSplit(s[..j], i);
    assert s[..j][..i] == s[..i];
    ProdPositive(s[..j][i..]);
    ProductGe(Prod(s[..i]), Prod(s[..j][i..]));
  }

  /** Positive extents with product one are all one. */
  lemma ProdOne(s: seq<nat>, i: int)
    requires Prod(s) == 1 && 0 <= i < |s|
    ensures s[i] == 1
  {
  }

  /** Any shape that works has every axis boundary of the collapsed layout. */
  lemma ShapeBoundary(shape: seq<nat>, stride: seq<int>, m: seq<Axis>, c: int) returns (b: int)
    requires |shape| == |stride| && Prod(shape) > 0
    requires Collapsed(m) && 0 <= c <= |m| && SameOffsets(Zip(shape, stride), m)
    ensures 0 <= b <= |shape| && Prod(shape[..b]) == Count(m[..c])
  {
    CountZip(shape, stride);
    b := BoundaryExists(Zip(shape, stride), m, c);
    assert Zip(shape, stride)[..b] == Zip(shape[..b], stride[..b]);
    CountZip(shape[..b], stride[..b]);
  }

  /** Once the running product jumps over the extent of a collapsed axis, no strides can work. */
  lemma JumpExcludesStrides(shape: seq<nat>, m: seq<Axis>, c: int, i: int)
    requires Collapsed(m) && 0 <= c < |m| && 0 <= i < |shape| && Prod(shape) > 0
    requires Prod(shape[..i]) < Count(m[..c + 1]) < Prod(shape[..i + 1])
    ensures !CanReshape(m, shape)
  {
    forall stride: seq<int> | |stride| == |shape| ensures Offsets(Zip(shape, stride)) != Offsets(m) {
      SameOffsetsIsEqualSequence(Zip(shape, stride), m);
      if SameOffsets(Zip(shape, stride), m) {
        var b := ShapeBoundary(shape, stride, m, c + 1);
        if b <= i {
          ProdPrefixLe(shape, b, i);
        } else {
          ProdPrefixLe(shape, i + 1, b);
        }
      }
    }
  }

  // ---- the greedy grouping ---------------------------------------------------------------

  /**
    State of the grouping before axis `i`: the axes before `start` make up the first `c`
    collapsed axes, and those from `start` on multiply to `prod`, which has not gone past
    the next collapsed axis. Axes of extent one join the group before them.
   */
  predicate Grouping(shape: seq<nat>, m: seq<Axis>, c: int, start: int, i: int, prod: int) {
    && 0 <= c <= |m| && 0 <= start <= i <= |shape|
    && Prod(shape[..start]) == Count(m[..c])
    && prod == Prod(shape[start..i])
    && (i == |shape| ==> c == |m| && start == i)
    && (i < |shape| ==> c < |m| && (prod < m[c].shape || (prod == m[c].shape && shape[i] == 1)))
  }

  lemma PrefixProd(shape: seq<nat>, start: int, i: int)
    requires 0 <= start <= i <= |shape|
    ensures Prod(shape[..i]) == Prod(shape[..start]) * Prod(shape[start..i])
  {
    assert shape[..i] == shape[..start] + shape[start..i];
    ProdAppend(shape[..start], shape[start..i]);
  }

  lemma GroupingStarts(shape: seq<nat>, m: seq<Axis>)
    requires shape != [] && IsCanonical(m) && Prod(shape) == Count(m) > 0
    ensures Grouping(shape, m, 0, 0, 0, 1)
  {
  }

  lemma GroupingJumps(shape: seq<nat>, m: seq<Axis>, c: int, start: int, i: int, prod: int, next: int)
    requires IsCanonical(m) && Prod(shape) == Count(m) > 0
    requires Grouping(shape, m, c, start, i, prod) && i < |shape| && next == prod * shape[i]
    requires next > m[c].shape
    ensures !CanReshape(m, shape)
  {
    if Count(m) == 1 {
      ProdOne(shape, i);
    }
    assert shape[i] != 1 && prod < m[c].shape;
    assert Collapsed(m) by {
      SmallCanonical(m);
    }
    hide *;
    PrefixesStraddle(shape, m, c, start, i);
    JumpExcludesStrides(shape, m, c, i);
  }

  lemma PrefixesStraddle(shape: seq<nat>, m: seq<Axis>, c: int, start: int, i: int)
    requires 0 <= c < |m| && 0 <= start <= i < |shape| && Prod(shape) > 0
    requires Prod(shape[..start]) == Count(m[..c])
    requires Prod(shape[start..i]) < m[c].shape < Prod(shape[start..i]) * shape[i]
    ensures Prod(shape[..i]) < Count(m[..c + 1]) < Prod(shape[..i + 1])
  {
    hide *;
    ProdPrefixLe(shape, start, i + 1);
    ProdSnoc(shape, start, i);
    PrefixProd(shape, start, i);
    PrefixProd(shape, start, i + 1);
    CountSnoc(m, c);
    MulLtLeft(Prod(shape[start..i]), m[c].shape, Prod(shape[..start]));
    MulLtLeft(m[c].shape, Prod(shape[start..i + 1]), Prod(shape[..start]));
  }

  /** What is left of the shape and of the collapsed axes holds equally many indices. */
  lemma RemaindersAgree(shape: seq<nat>, m: seq<Axis>, c: int, start: int)
    requires Prod(shape) == Count(m) > 0 && 0 <= c <= |m| && 0 <= start <= |shape|
    requires Prod(shape[..start]) == Count(m[..c])
    ensures Prod(shape[start..]) == Count(m[c..])
  {
    ProdSplit(shape, start);
    CountSplit(m, c);
    MulLtLeft(Prod(shape[start..]), Count(m[c..]), Count(m[..c]));
  }

  lemma GroupingCloses(shape: seq<nat>, m: seq<Axis>, c: int, start: int, i: int, prod: int, next: int)
    requires IsCanonical(m) && Prod(shape) == Count(m) > 0
    requires Grouping(shape, m, c, start, i, prod) && i < |shape| && next == prod * shape[i]
    requires next == m[c].shape && (i + 1 == |shape| || shape[i + 1] != 1)
    ensures Grouping(shape, m, c + 1, i + 1, i + 1, 1)
  {
    assert Prod(shape[i + 1..i + 1]) == 1;
    ClosesBehind(shape, m, c, start, i);
    RestContinues(shape, m, c + 1, i + 1);
    hide Prod, Count, IsCanonical;
  }

  lemma ClosesBehind(shape: seq<nat>, m: seq<Axis>, c: int, start: int, i: int)
    requires 0 <= c < |m| && 0 <= start <= i < |shape|
    requires Prod(shape[..start]) == Count(m[..c]) && Prod(shape[start..i]) * shape[i] == m[c].shape
    ensures Prod(shape[..i + 1]) == Count(m[..c + 1])
  {
    hide *;
    ProdSnoc(shape, start, i);
    PrefixProd(shape, start, i + 1);
    CountSnoc(m, c);
  }

  /** Where a group has closed, either both lists end, or the next collapsed axis is a wide one. */
  lemma RestContinues(shape: seq<nat>, m: seq<Axis>, c: int, i: int)
    requires IsCanonical(m) && Prod(shape) == Count(m) > 0 && 1 <= c <= |m| && 0 <= i <= |shape|
    requires Prod(shape[..i]) == Count(m[..c]) && (i == |shape| || shape[i] != 1)
    ensures if i == |shape| then c == |m| else c < |m| && m[c].shape > 1
  {
    RemaindersAgree(shape, m, c, i);
    if i == |shape| {
      assert shape[i..] == [];
      OneMeansEnd(m, c);
    } else if c == |m| {
      assert m[c..] == [];
      ProdOne(shape[i..], 0);
    } else {
      assert Collapsed(m);
    }
  }

  lemma CountSplit(m: seq<Axis>, c: int)
    requires 0 <= c <= |m| && Count(m) > 0
    ensures Count(m) == Count(m[..c]) * Count(m[c..])
    ensures Count(m[..c]) > 0 && Count(m[c..]) > 0
  {
    assert m == m[..c] + m[c..];
    CountAppend(m[..c], m[c..]);
    assert Positive(m);
    assert Positive(m[..c]);
    assert Positive(m[c..]);
  }

  /** A canonical layout has no axes left when they hold a single index. */
  lemma OneMeansEnd(m: seq<Axis>, c: int)
    requires IsCanonical(m) && 1 <= c <= |m| && Count(m[c..]) == 1
    ensures c == |m|
  {
  }

  lemma GroupingGoesOn(shape: seq<nat>, m: seq<Axis>, c: int, start: int, i: int, prod: int, next: int)
    requires IsCanonical(m) && Prod(shape) == Count(m) > 0
    requires Grouping(shape, m, c, start, i, prod) && i < |shape| && next == prod * shape[i]
    requires next <= m[c].shape
    requires next == m[c].shape ==> i + 1 < |shape| && shape[i + 1] == 1
    ensures Grouping(shape, m, c, start, i + 1, next)
  {
    ProdSnoc(shape, start, i);
    if i + 1 == |shape| {
      RemaindersAgree(shape, m, c, start);
      assert shape[start..] == shape[start..i + 1];
      assert Positive(m);
      CountDrop(m, c);
      ProductGe(m[c].shape, Count(m[c + 1..]));
    }
  }

  /** Contiguous strides inside a group scan the collapsed axis the group stands for. */
  lemma GroupScansAxis(shape: nat, base: int, group: seq<Axis>, n: nat)
    requires Offsets(group) == Offsets([Axis(n, base)])
    ensures Offsets([Axis(shape, base * n)] + group) == Offsets([Axis(shape * n, base)])
  {
    var a, b := Axis(shape, base * n), Axis(n, base);
    SameOffsetsIsEqualSequence(group, [b]);
    SameOffsetsAppend([a], [a], group, [b]);
    MergePair(a, b);
    assert [a] + [b] == [a, b];
    SameOffsetsIsEqualSequence([a] + group, [Axis(shape * n, base)]);
  }

  lemma OffsetsAppend(l: seq<Axis>, l': seq<Axis>, m: seq<Axis>, m': seq<Axis>)
    requires Offsets(l) == Offsets(l') && Offsets(m) == Offsets(m')
    ensures Offsets(l + m) == Offsets(l' + m')
  {
    SameOffsetsIsEqualSequence(l, l');
    SameOffsetsIsEqualSequence(m, m');
    SameOffsetsAppend(l, l', m, m');
    SameOffsetsIsEqualSequence(l + m, l' + m');
  }
}
