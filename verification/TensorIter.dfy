/** `TensorIter::Iter`: an odometer that keeps the physical offset up to date incrementally. */
module TensorIters {
  import opened Arith
  import opened Layout
  import opened TensorLayouts

  class Iter {
    const layout: seq<Axis>
    const axisResetStride: seq<int>
    const axisOffset: array<int>
    const totNrElems: nat
    var offset: int
    var logicalOffset: nat

    /** Before the end, the odometer shows the digits of the logical offset, and the physical offset is theirs. */
    ghost predicate Valid()
      reads this, axisOffset
    {
      && |layout| <= MAX_NDIM == axisOffset.Length
      && totNrElems == Total(layout) && logicalOffset <= totNrElems
      && |axisResetStride| == |layout|
      && (forall i :: 0 <= i < |layout| ==> axisResetStride[i] == layout[i].stride * (layout[i].shape - 1))
      && (logicalOffset < totNrElems ==> AtElement(logicalOffset))
    }

    ghost predicate AtElement(k: int)
      requires |layout| <= MAX_NDIM == axisOffset.Length
      reads this, axisOffset
    {
      Positive(layout) && axisOffset[..|layout|] == Digits(layout, k) && offset == At(layout, k)
    }

    /** The default constructor: what `make` returns for an empty layout. */
    constructor Empty()
      ensures Valid() && fresh(axisOffset)
      ensures layout == [] && logicalOffset == 0 && totNrElems == 0 && offset == 0
    {
      layout, axisResetStride := [], [];
      axisOffset := new int[MAX_NDIM](i => 0);
      offset, logicalOffset, totNrElems := 0, 0, 0;
    }

    /** The loop of `make` on a layout without empty axes. */
    constructor AtLogical(l: seq<Axis>, start: nat)
      requires 0 < |l| <= MAX_NDIM && Positive(l) && start <= Total(l)
      ensures Valid() && fresh(axisOffset)
      ensures layout == l && logicalOffset == start && AtElement(start)
    {
      layout, logicalOffset, totNrElems := l, start, Total(l);
      axisResetStride := seq(|l|, i requires 0 <= i < |l| => l[i].stride * (l[i].shape - 1));
      axisOffset := new int[MAX_NDIM](i => 0);
      offset := 0;
      new;
      var rest: int := start;
      var n := |l|;
      assert l[..n] == l && axisOffset[n..n] == [];
      for i := n downto 0
        invariant logicalOffset == start
        invariant Digits(l, start) == Digits(l[..i], rest) + axisOffset[i..n]
        invariant At(l, start) == At(l[..i], rest) + offset
      {
        assert Outer(l[..i + 1]) == l[..i];
        ghost var later := axisOffset[i + 1..n];
        axisOffset[i] := rest % l[i].shape;
        assert axisOffset[i..n] == [rest % l[i].shape] + later;
        offset := offset + axisOffset[i] * l[i].stride;
        rest := rest / l[i].shape;
      }
      assert l[..0] == [] && axisOffset[0..n] == axisOffset[..n];
    }

    /**
      `Iter::make`. Null stands for the two failed assertions. With `valonly` the iterator
      walks the collapsed layout, whose offsets are the same.
     */
    static method Make(l: TensorLayout, valonly: bool, start: nat) returns (it: Iter?)
      requires l.Valid()
      ensures it == null <==> l.ndim == 0 || start > Total(l.View())
      ensures it != null ==> it.Valid() && fresh(it) && fresh(it.axisOffset)
      ensures it != null ==> it.logicalOffset == start && it.totNrElems == Total(l.View())
      ensures it != null && it.totNrElems > 0 ==> Offsets(it.layout) == Offsets(l.View()) && it.AtElement(start)
      ensures it != null && it.totNrElems > 0 && !valonly ==> it.layout == l.View()
    {
      if l.ndim == 0 {
        return null;
      }
      var walked: TensorLayout := l;
      if valonly {
        var c := l.CollapseContiguous();
        SameCount(c.View(), l.View());
        walked := c;
      }
      var axes := walked.axis[..walked.ndim];
      var total := walked.TotalNrElems();
      if start > total {
        return null;
      }
      if exists i :: 0 <= i < |axes| && axes[i].shape == 0 {
        assert !Positive(axes);
        it := new Iter.Empty();
      } else {
        it := new Iter.AtLogical(axes, start);
      }
    }

    /** `operator++`. Unless the end is reached, the carry stops at an axis of the layout. */
    method Increment()
      requires Valid() && logicalOffset < totNrElems
      modifies this`offset, this`logicalOffset, axisOffset
      ensures Valid() && logicalOffset == old(logicalOffset) + 1
      ensures logicalOffset == totNrElems ==> offset == old(offset) && axisOffset[..] == old(axisOffset[..])
    {
      hide Carrying, Digits, At, Count;
      logicalOffset := logicalOffset + 1;
      if logicalOffset == totNrElems {
        return;
      }
      var memOffset := offset;
      var n := |layout|;
      var axis: int := n - 1;
      ghost var k := logicalOffset - 1;
      CarryStarts(layout, logicalOffset);
      while true
        invariant logicalOffset == old(logicalOffset) + 1 && Positive(layout)
        invariant 0 <= axis < n
        invariant Carrying(layout, logicalOffset, axisOffset[..n], memOffset, axis, k)
        decreases axis
      {
        ghost var before := axisOffset[..n];
        axisOffset[axis] := axisOffset[axis] + 1;
        if axisOffset[axis] < layout[axis].shape {
          CarryStops(layout, logicalOffset, before, memOffset, axis, k);
          assert axisOffset[..n] == before[axis := before[axis] + 1];
          memOffset := memOffset + layout[axis].stride;
          break;
        } else {
          axisOffset[axis] := 0;
          CarryMoves(layout, logicalOffset, before, memOffset, axis, k);
          assert axisOffset[..n] == before[axis := 0];
          memOffset := memOffset - axisResetStride[axis];
          k := k / layout[axis].shape;
          axis := axis - 1;
        }
      }
      offset := memOffset;
    }

    method AtEnd() returns (r: bool)
      requires Valid()
      ensures r <==> logicalOffset == Total(layout)
    {
      return logicalOffset == totNrElems;
    }

    method NotEqual(other: Iter) returns (r: bool)
      ensures r <==> logicalOffset != other.logicalOffset
    {
      return logicalOffset != other.logicalOffset;
    }
  }

  function Zeros(n: nat): (z: seq<int>)
    ensures |z| == n && forall i :: 0 <= i < n ==> z[i] == 0
  {
    seq(n, i => 0)
  }

  /**
    State of the carry before it turns axis `axis`: the axes inside it are back at zero,
    those up to it still show `k`, and `t` is `k + 1` there followed by zeros.
   */
  predicate Carrying(l: seq<Axis>, t: int, digits: seq<int>, mem: int, axis: int, k: int) {
    && Positive(l) && 0 <= axis < |l| && 0 <= k
    && var p := l[..axis + 1];
       var z := Zeros(|l| - 1 - axis);
       && k + 1 < Count(p)
       && digits == Digits(p, k) + z && mem == At(p, k)
       && Digits(l, t) == Digits(p, k + 1) + z && At(l, t) == At(p, k + 1)
  }

  lemma CarryStarts(l: seq<Axis>, t: int)
    requires l != [] && Positive(l) && 0 < t < Count(l)
    ensures Carrying(l, t, Digits(l, t - 1), At(l, t - 1), |l| - 1, t - 1)
  {
    assert l[..|l|] == l;
  }

  lemma CarryStops(l: seq<Axis>, t: int, digits: seq<int>, mem: int, axis: int, k: int)
    requires Carrying(l, t, digits, mem, axis, k) && digits[axis] + 1 < l[axis].shape
    ensures digits[axis := digits[axis] + 1] == Digits(l, t) && mem + l[axis].stride == At(l, t)
  {
    var p, z := l[..axis + 1], Zeros(|l| - 1 - axis);
    assert digits[axis] == Digits(p, k)[axis];
    DigitUp(p, k);
    assert digits[axis := digits[axis] + 1] == Digits(p, k)[axis := digits[axis] + 1] + z;
  }

  lemma CarryMoves(l: seq<Axis>, t: int, digits: seq<int>, mem: int, axis: int, k: int)
    requires Carrying(l, t, digits, mem, axis, k) && digits[axis] + 1 >= l[axis].shape
    ensures axis >= 1
    ensures Carrying(l, t, digits[axis := 0], mem - l[axis].stride * (l[axis].shape - 1), axis - 1, k / l[axis].shape)
  {
    var p, z := l[..axis + 1], Zeros(|l| - 1 - axis);
    var d, o := l[axis].shape, l[..axis];
    assert digits[axis] == Digits(p, k)[axis] && Outer(p) == o;
    DigitWraps(p, k);
    assert [0] + z == Zeros(|l| - axis);
    assert digits[axis := 0] == Digits(o, k / d) + ([0] + z);
    assert Digits(l, t) == Digits(o, k / d + 1) + ([0] + z);
  }

  /** Without a wrap, adding one turns the innermost digit by one. */
  lemma DigitUp(p: seq<Axis>, k: int)
    requires p != [] && Positive(p) && Digits(p, k)[|p| - 1] + 1 < Inner(p).shape
    ensures Digits(p, k + 1) == Digits(p, k)[|p| - 1 := Digits(p, k)[|p| - 1] + 1]
    ensures At(p, k + 1) == At(p, k) + Inner(p).stride
  {
    var d, s := Inner(p).shape, Inner(p).stride;
    DivModUnique(k + 1, d, k / d, k % d + 1);
    MulDistrib(k % d, 1, s);
  }

  /** With a wrap, the innermost digit goes from its last value to zero and the outer digits show one more. */
  lemma DigitWraps(p: seq<Axis>, k: int)
    requires p != [] && Positive(p) && 0 <= k && k + 1 < Count(p)
    requires Digits(p, k)[|p| - 1] + 1 >= Inner(p).shape
    ensures var d := Inner(p).shape;
      && Digits(p, k) == Digits(Outer(p), k / d) + [d - 1]
      && Digits(p, k + 1) == Digits(Outer(p), k / d + 1) + [0]
      && At(p, k + 1) == At(Outer(p), k / d + 1)
      && At(p, k) == At(Outer(p), k / d) + Inner(p).stride * (d - 1)
      && 0 <= k / d && k / d + 1 < Count(Outer(p)) && |p| >= 2
  {
    var d := Inner(p).shape;
    DivBound(k, Count(Outer(p)), d);
    WrapDivision(k, d, Count(Outer(p)));
  }

  lemma WrapDivision(k: int, d: int, c: int)
    requires 0 < d && k % d == d - 1 && k + 1 < c * d
    ensures (k + 1) / d == k / d + 1 && (k + 1) % d == 0 && k / d + 1 < c
  {
    MulDistrib(k / d, 1, d);
    DivModUnique(k + 1, d, k / d + 1, 0);
    MulCancelLt(k / d + 1, c, d);
  }

  /** All multi-indices of a layout, each once, in lexicographic order. */
  ghost predicate EachOnceInOrder(l: seq<Axis>, indices: seq<seq<int>>) {
    && |indices| == Count(l)
    && (forall d :: IsIndex(l, d) <==> d in indices)
    && (forall j, k :: 0 <= j < k < |indices| ==> LexLess(indices[j], indices[k]))
  }

  /** The digits of the positions below the element count are the multi-indices, each once, in order. */
  lemma DigitsEachOnceInOrder(l: seq<Axis>, indices: seq<seq<int>>)
    requires |indices| == Count(l)
    requires Positive(l) ==> forall k :: 0 <= k < |indices| ==> indices[k] == Digits(l, k)
    ensures EachOnceInOrder(l, indices)
  {
    hide Digits, Rank, Count, LexLess;
    forall d ensures IsIndex(l, d) <==> d in indices {
      if IsIndex(l, d) {
        DigitsOfRank(l, d);
        assert indices[Rank(l, d)] == d;
      }
      if d in indices {
        var k :| 0 <= k < |indices| && indices[k] == d;
        DigitsAreIndex(l, k);
      }
    }
    forall j, k | 0 <= j < k < |indices| ensures LexLess(indices[j], indices[k]) {
      DigitsAreIndex(l, j);
      DigitsAreIndex(l, k);
      RankOfDigits(l, j);
      RankOfDigits(l, k);
      RankOrderIsLexicographic(l, indices[j], indices[k]);
    }
  }

  /**
    A loop from `begin` to `end`: it visits the offsets of the layout in order, and where multi-indices may
    be asked for, every one of them once, in lexicographic order. The two iterators it ends with compare
    equal but show different offsets.
   */
  method Traverse(l: TensorLayout, valonly: bool)
      returns (visited: seq<int>, indices: seq<seq<int>>, it: Iter, end: Iter)
    requires l.Valid() && l.ndim > 0
    ensures visited == Offsets(l.View())
    ensures !valonly ==> EachOnceInOrder(l.View(), indices)
    ensures it.logicalOffset == end.logicalOffset == |visited|
    ensures visited != [] ==> it.offset == visited[|visited| - 1] && end.offset == 0
  {
    hide Digits, At, Count;
    it := Iter.Make(l, valonly, 0);
    var total := l.TotalNrElems();
    end := Iter.Make(l, valonly, total);
    visited, indices := [], [];
    ghost var all := Offsets(l.View());
    if total > 0 {
      EndOffset(end, l.View());
    }
    var more := it.NotEqual(end);
    while more
      invariant it.Valid() && it.totNrElems == total == |all| && end.logicalOffset == total
      invariant fresh(it) && fresh(it.axisOffset) && it != end && it.axisOffset != end.axisOffset
      invariant more <==> it.logicalOffset != end.logicalOffset
      invariant total > 0 ==> Offsets(it.layout) == all && end.offset == 0
      invariant total > 0 && !valonly ==> it.layout == l.View()
      invariant visited == all[..it.logicalOffset]
      invariant !valonly ==> |indices| == it.logicalOffset
      invariant !valonly && Positive(l.View()) ==> forall k :: 0 <= k < |indices| ==> indices[k] == Digits(l.View(), k)
      invariant !more && total > 0 ==> it.offset == all[total - 1]
      decreases total - it.logicalOffset
    {
      assert it.offset == Offsets(it.layout)[it.logicalOffset];
      visited := visited + [it.offset];
      if !valonly {
        indices := indices + [it.axisOffset[..|it.layout|]];
      }
      it.Increment();
      more := it.NotEqual(end);
    }
    if !valonly {
      DigitsEachOnceInOrder(l.View(), indices);
    }
  }

  /** An iterator made at the end is at offset zero. */
  lemma EndOffset(end: Iter, l: seq<Axis>)
    requires end.Valid() && Offsets(end.layout) == Offsets(l) && Count(l) > 0
    requires end.AtElement(Count(l))
    ensures end.offset == 0
  {
    SameCount(end.layout, l);
    AtMultiple([], end.layout, 1);
    assert [] + end.layout == end.layout;
  }

  /** Before the end, iterators over one layout that compare equal agree on index and offset. */
  lemma EqualIteratorsAgree(a: Iter, b: Iter)
    requires a.Valid() && b.Valid() && a.layout == b.layout
    requires a.logicalOffset == b.logicalOffset < a.totNrElems
    ensures a.offset == b.offset && a.axisOffset[..|a.layout|] == b.axisOffset[..|b.layout|]
  {
  }

  /** For a contiguous layout, an iterator before the end has equal physical and logical offset. */
  lemma ContiguousOffsetIsLogical(it: Iter)
    requires it.Valid() && it.logicalOffset < it.totNrElems && IsIdentity(it.layout)
    ensures it.offset == it.logicalOffset
  {
  }
}
