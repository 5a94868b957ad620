/** `TensorLayout::broadcast`: which shapes a layout takes, and which element of it each index then is. */
module Broadcast {
  import opened Layout
  import opened TensorLayouts
  import opened Wrappers

  /** Source and target are aligned at the innermost axis; an axis that repeats an element takes any extent. */
  predicate CanBroadcast(l: seq<Axis>, target: seq<nat>) {
    && l != [] && |l| <= |target|
    && forall i :: 0 <= i < |l| ==> target[|target| - |l| + i] == l[i].shape || l[i].shape == 1 || l[i].stride == 0
  }

  /** The source's own axis at target axis `t`, if its extent is kept there. */
  predicate Kept(l: seq<Axis>, r: seq<Axis>, t: int)
    requires |l| <= |r| && 0 <= t < |r|
  {
    var i := t - (|r| - |l|);
    i >= 0 && r[t].shape == l[i].shape
  }

  /** The source index behind an index of the result: what it is along kept axes, zero along the others. */
  function Project(l: seq<Axis>, r: seq<Axis>, d: seq<int>): (e: seq<int>)
    requires |l| <= |r| == |d|
    ensures |e| == |l|
  {
    var o := |r| - |l|;
    seq(|l|, i requires 0 <= i < |l| => if Kept(l, r, o + i) then d[o + i] else 0)
  }

  /** Axis `t` of the result walks as the source does, or stands still. */
  predicate Walks(l: seq<Axis>, r: seq<Axis>, t: int)
    requires |l| <= |r| && 0 <= t < |r|
  {
    r[t].shape == 1 || r[t].stride == if Kept(l, r, t) then l[t - (|r| - |l|)].stride else 0
  }

  method Broadcast(l: seq<Axis>, target: seq<nat>) returns (r: Option<seq<Axis>>)
    ensures r.Some? <==> CanBroadcast(l, target)
    ensures r.Some? ==> Extents(r.value) == target
    ensures r.Some? ==> forall d :: IsIndex(r.value, d) ==> Dot(r.value, d) == Dot(l, Project(l, r.value, d))
    ensures r.Some? ==> forall t :: 0 <= t < |r.value| ==> Walks(l, r.value, t)
  {
    if l == [] || target == [] {
      return None;
    }
    if |l| == 1 && l[0].shape == 1 {
      var v := seq(|target|, i requires 0 <= i < |target| => Axis(target[i], if target[i] == 1 then 1 else 0));
      BroadcastDots(l, v);
      return Some(v);
    }
    if |target| < |l| {
      return None;
    }
    var v: seq<Axis> := seq(|target|, i requires 0 <= i < |target| => Axis(target[i], 0));
    for i := 0 to |target|
      invariant |v| == |target| && forall t :: 0 <= t < |target| ==> v[t].shape == target[t]
      invariant forall t :: |target| - i <= t < |target| ==> Walks(l, v, t)
      invariant forall x :: |l| - i <= x < |l| && 0 <= x ==>
                  target[|target| - |l| + x] == l[x].shape || l[x].shape == 1 || l[x].stride == 0
    {
      var to, cur := |target| - i - 1, |l| - i - 1;
      var shape, stride := if cur >= 0 then l[cur].shape else 1, if cur >= 0 then l[cur].stride else 0;
      ghost var before := v;
      if target[to] != shape {
        if shape != 1 && stride != 0 {
          return None;
        }
        v := v[to := Axis(target[to], 0)];
      } else {
        v := v[to := Axis(shape, stride)];
      }
      forall t | to <= t < |target| ensures Walks(l, v, t) {
        assert t > to ==> Walks(l, before, t) && v[t] == before[t];
      }
    }
    BroadcastDots(l, v);
    return Some(v);
  }

  lemma BroadcastDots(l: seq<Axis>, r: seq<Axis>)
    requires |l| <= |r| && forall t :: 0 <= t < |r| ==> Walks(l, r, t)
    ensures forall d :: IsIndex(r, d) ==> Dot(r, d) == Dot(l, Project(l, r, d))
  {
    forall d | IsIndex(r, d) ensures Dot(r, d) == Dot(l, Project(l, r, d)) {
      BroadcastDot(l, r, d);
    }
  }

  lemma LastAxis(l: seq<Axis>, r: seq<Axis>, d: seq<int>)
    requires r != [] && |l| <= |r| && IsIndex(r, d) && Walks(l, r, |r| - 1)
    ensures d[|r| - 1] * Inner(r).stride == if l == [] then 0 else Project(l, r, d)[|l| - 1] * Inner(l).stride
  {
    assert 0 <= d[|r| - 1] < r[|r| - 1].shape;
  }

  lemma {:induction false} BroadcastDot(l: seq<Axis>, r: seq<Axis>, d: seq<int>)
    requires |l| <= |r| && IsIndex(r, d) && forall t :: 0 <= t < |r| ==> Walks(l, r, t)
    ensures Dot(r, d) == Dot(l, Project(l, r, d))
    decreases |r|
  {
    hide Walks, Kept;
    if r != [] {
      var n := |r| - 1;
      var k := if l == [] then l else Outer(l);
      forall t | 0 <= t < n ensures Walks(k, Outer(r), t) && Kept(k, Outer(r), t) == Kept(l, r, t) {
        assert Walks(l, r, t);
        WalksWithout(l, r, t);
      }
      BroadcastDot(k, Outer(r), d[..n]);
      LastAxis(l, r, d);
      if l != [] {
        assert Project(l, r, d)[..|l| - 1] == Project(k, Outer(r), d[..n]);
      } else {
        assert Project(l, r, d) == [] == Project(k, Outer(r), d[..n]);
      }
    }
  }

  /** Leaving out the innermost axis of both changes nothing further out. */
  lemma WalksWithout(l: seq<Axis>, r: seq<Axis>, t: nat)
    requires |l| <= |r| && t < |r| - 1
    ensures var k := if l == [] then l else Outer(l);
      Walks(k, Outer(r), t) == Walks(l, r, t) && Kept(k, Outer(r), t) == Kept(l, r, t)
  {
  }

  /** The documentation speaks of axes of extent one; a repeating axis of extent three is taken to five as well. */
  lemma TakesRepeatingAxis()
    ensures CanBroadcast([Axis(3, 0), Axis(2, 1)], [5, 2]) && !CanBroadcast([Axis(3, 2), Axis(2, 1)], [5, 2])
  {
    assert [Axis(3, 2), Axis(2, 1)][0].stride == 2;
  }

  /** Every index of the result is an element of a source that has any. */
  lemma ProjectsInside(l: seq<Axis>, r: seq<Axis>, d: seq<int>)
    requires |l| <= |r| && IsIndex(r, d) && Positive(l)
    ensures IsIndex(l, Project(l, r, d))
  {
    var o := |r| - |l|;
    forall i | 0 <= i < |l| ensures 0 <= Project(l, r, d)[i] < l[i].shape {
      assert 0 <= d[o + i] < r[o + i].shape && l[i].shape > 0;
      assert Kept(l, r, o + i) ==> r[o + i].shape == l[i].shape;
      assert Project(l, r, d)[i] == if Kept(l, r, o + i) then d[o + i] else 0;
    }
  }

  // ---- nothing is lost ---------------------------------------------------------------------------

  /** How far index `x` is along an axis. */
  function Along(a: Axis, x: int): int {
    x * a.stride
  }

  /** All indices along the axis are one element. */
  ghost predicate Repeats(a: Axis) {
    forall x, y :: 0 <= x < a.shape && 0 <= y < a.shape ==> Along(a, x) == Along(a, y)
  }

  /** The shapes taken are exactly those in which no axis changes its extent unless all its indices are one element. */
  lemma TakenIffOnlyRepeatsChange(l: seq<Axis>, target: seq<nat>)
    requires Positive(l)
    ensures CanBroadcast(l, target) <==>
      && l != [] && |l| <= |target|
      && forall i :: 0 <= i < |l| ==> target[|target| - |l| + i] == l[i].shape || Repeats(l[i])
  {
    forall i | 0 <= i < |l| ensures l[i].shape == 1 || l[i].stride == 0 <==> Repeats(l[i]) {
      RepeatsIff(l[i]);
    }
  }

  lemma RepeatsIff(a: Axis)
    requires a.shape > 0
    ensures a.shape == 1 || a.stride == 0 <==> Repeats(a)
  {
    if Repeats(a) && a.shape > 1 {
      assert Along(a, 0) == Along(a, 1);
    }
  }

  lemma {:induction false} DotSame(l: seq<Axis>, d: seq<int>, e: seq<int>)
    requires |d| == |e| == |l| && forall i :: 0 <= i < |l| ==> Along(l[i], d[i]) == Along(l[i], e[i])
    ensures Dot(l, d) == Dot(l, e)
  {
    if l != [] {
      DotSame(Outer(l), d[..|l| - 1], e[..|l| - 1]);
      assert Along(Inner(l), d[|l| - 1]) == Along(Inner(l), e[|l| - 1]);
    }
  }

  /** Every element of the source is still an element of the result. */
  lemma SourceStaysVisible(l: seq<Axis>, r: seq<Axis>, e: seq<int>) returns (d: seq<int>)
    requires CanBroadcast(l, Extents(r)) && Positive(r) && forall t :: 0 <= t < |r| ==> Walks(l, r, t)
    requires IsIndex(l, e)
    ensures IsIndex(r, d) && Dot(r, d) == Dot(l, e)
  {
    hide Dot, Walks, Extents, Along;
    var o := |r| - |l|;
    d := seq(|r|, t requires 0 <= t < |r| => if Kept(l, r, t) then e[t - o] else 0);
    forall t | 0 <= t < |r| ensures 0 <= d[t] < r[t].shape {
      if Kept(l, r, t) {
        assert r[t].shape == l[t - o].shape;
      }
    }
    BroadcastDot(l, r, d);
    var p := Project(l, r, d);
    forall i | 0 <= i < |l| ensures Along(l[i], p[i]) == Along(l[i], e[i]) {
      assert p[i] == if Kept(l, r, o + i) then e[i] else 0;
      if !Kept(l, r, o + i) {
        ChangedAxisStandsStill(l, r, e, i);
      }
    }
    DotSame(l, p, e);
  }

  lemma ChangedAxisStandsStill(l: seq<Axis>, r: seq<Axis>, e: seq<int>, i: nat)
    requires CanBroadcast(l, Extents(r)) && IsIndex(l, e) && i < |l| && !Kept(l, r, |r| - |l| + i)
    ensures Along(l[i], e[i]) == 0 == Along(l[i], 0)
  {
    assert Extents(r)[|r| - |l| + i] == r[|r| - |l| + i].shape;
  }

  ghost predicate HasElement(l: seq<Axis>, at: int) {
    exists d :: IsIndex(l, d) && Dot(l, d) == at
  }

  lemma NothingIsAdded(l: seq<Axis>, r: seq<Axis>, at: int)
    requires |l| <= |r| && Positive(l) && (forall t :: 0 <= t < |r| ==> Walks(l, r, t)) && HasElement(r, at)
    ensures HasElement(l, at)
  {
    var d :| IsIndex(r, d) && Dot(r, d) == at;
    BroadcastDot(l, r, d);
    ProjectsInside(l, r, d);
  }

  /** So the elements are the same ones, where there are any. */
  lemma SameElements(l: seq<Axis>, r: seq<Axis>, at: int)
    requires CanBroadcast(l, Extents(r)) && Positive(l) && Positive(r) && forall t :: 0 <= t < |r| ==> Walks(l, r, t)
    ensures HasElement(r, at) <==> HasElement(l, at)
  {
    if HasElement(r, at) {
      NothingIsAdded(l, r, at);
    }
    if e :| IsIndex(l, e) && Dot(l, e) == at {
      var d := SourceStaysVisible(l, r, e);
    }
  }
}
