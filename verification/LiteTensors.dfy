/**
  Any number of lite tensors. Copies of a tensor object share its implementation, so a call on one may leave
  another behind; which calls do is stated exactly, for every run.
 */
module LiteTensors {
  import opened LiteTensor
  import opened SafeMultiply
  import opened SubTensor

  /** A tensor object: its cached layout, and the number of its implementation. */
  datatype Handle = Handle(layout: LiteLayout, impl: nat)

  datatype World = World(tensors: seq<Handle>, impls: seq<ImplState>)

  datatype Call =
    | Make
    | MakeWith(l: LiteLayout)
    | Copy(of: nat)
    | Slice(of: nat, sub: Sub)
    | On(i: nat, op: Op)
    | CopyInto(i: nat, src: nat, copies: bool)
    | Share(i: nat, src: nat)

  predicate WorldOk(w: World) {
    && (forall i :: 0 <= i < |w.tensors| ==> w.tensors[i].impl < |w.impls|)
    && (forall k :: 0 <= k < |w.impls| ==> ImplOk(w.impls[k]))
  }

  function StateOf(w: World, i: nat): TensorState
    requires WorldOk(w) && i < |w.tensors|
  {
    TensorState(w.tensors[i].layout, w.impls[w.tensors[i].impl])
  }

  /** The call is on tensors there are; slices are ones that can be made. */
  predicate CallOk(w: World, c: Call)
    requires WorldOk(w)
  {
    match c
    case Make => true
    case MakeWith(_) => true
    case Copy(i) => i < |w.tensors|
    case Slice(i, sub) => i < |w.tensors| && CanSlice(StateOf(w, i).impl, sub)
    case On(i, op) => i < |w.tensors| && !op.CopyFrom? && !op.ShareMemoryWith?
    case CopyInto(i, src, _) => i < |w.tensors| && src < |w.tensors|
    case Share(i, src) => i < |w.tensors| && src < |w.tensors|
  }

  predicate IsAction(c: Call) {
    c.On? || c.CopyInto? || c.Share?
  }

  function OpOf(w: World, c: Call): (op: Op)
    requires WorldOk(w) && CallOk(w, c) && IsAction(c)
    ensures OpOk(op)
  {
    match c
    case On(_, op) => op
    case CopyInto(_, src, copies) => CopyFrom(StateOf(w, src), copies)
    case Share(_, src) => ShareMemoryWith(StateOf(w, src))
  }

  function Add(w: World, layout: LiteLayout, st: ImplState): World {
    World(w.tensors + [Handle(layout, |w.impls|)], w.impls + [st])
  }

  ghost function Step(w: World, c: Call): World
    requires WorldOk(w) && CallOk(w, c)
  {
    match c
    case Make => Add(w, EMPTY, NO_TENSOR)
    case MakeWith(l) => if Convertible(l) then Add(w, l, OfLayout(l)) else w
    case Copy(i) => w.(tensors := w.tensors + [w.tensors[i]])
    case Slice(i, sub) => var st := ImplSlice(StateOf(w, i).impl, sub); Add(w, ToLite(st), st)
    case _ =>
      var t := Apply(StateOf(w, c.i), OpOf(w, c)).state;
      World(w.tensors[c.i := w.tensors[c.i].(layout := t.layout)], w.impls[w.tensors[c.i].impl := t.impl])
  }

  predicate AllAgree(w: World)
    requires WorldOk(w)
  {
    forall i :: 0 <= i < |w.tensors| ==> Mirrored(StateOf(w, i))
  }

  predicate IsShared(w: World, i: nat)
    requires i < |w.tensors|
  {
    exists j :: 0 <= j < |w.tensors| && j != i && w.tensors[j].impl == w.tensors[i].impl
  }

  /** A call that leaves its own tensor apart, or changes the layout of an implementation others share. */
  ghost predicate Breaks(w: World, c: Call)
    requires WorldOk(w) && CallOk(w, c)
  {
    IsAction(c) &&
    var t, op := StateOf(w, c.i), OpOf(w, c);
    Desyncs(t, op) || (Changes(t, op) && IsShared(w, c.i))
  }

  lemma AddKeeps(w: World, layout: LiteLayout, st: ImplState)
    requires WorldOk(w) && AllAgree(w) && ImplOk(st) && layout == ToLite(st)
    ensures WorldOk(Add(w, layout, st)) && AllAgree(Add(w, layout, st))
  {
    var v := Add(w, layout, st);
    forall i | 0 <= i < |v.tensors| ensures v.tensors[i].impl < |v.impls| && Mirrored(StateOf(v, i)) {
      if i < |w.tensors| {
        assert Mirrored(StateOf(w, i));
      }
    }
  }

  lemma ActionKeeps(w: World, c: Call)
    requires WorldOk(w) && CallOk(w, c) && IsAction(c) && AllAgree(w)
    ensures WorldOk(Step(w, c)) && (AllAgree(Step(w, c)) <==> !Breaks(w, c))
  {
    var i, op := c.i, OpOf(w, c);
    var t := StateOf(w, i);
    assert Mirrored(t);
    MirrorStep(t, op);
    var r := Apply(t, op).state;
    hide Apply, Desyncs, Changes, ImplOk, ToLite;
    var v := Step(w, c);
    assert StateOf(v, i) == r;
    forall j | 0 <= j < |w.tensors| && j != i
      ensures Mirrored(StateOf(v, j)) <==> w.tensors[j].impl != w.tensors[i].impl || !Changes(t, op)
    {
      assert Mirrored(StateOf(w, j));
    }
  }

  lemma StepAgrees(w: World, c: Call)
    requires WorldOk(w) && CallOk(w, c) && AllAgree(w)
    ensures WorldOk(Step(w, c)) && (AllAgree(Step(w, c)) <==> !Breaks(w, c))
  {
    match c
    case Make =>
      EmptyInSizeT();
      AddKeeps(w, EMPTY, NO_TENSOR);
    case MakeWith(l) =>
      if Convertible(l) {
        AddKeeps(w, l, OfLayout(l));
      }
    case Copy(i) =>
      var v := Step(w, c);
      forall j | 0 <= j < |v.tensors| ensures v.tensors[j].impl < |v.impls| && Mirrored(StateOf(v, j)) {
        assert Mirrored(StateOf(w, if j < |w.tensors| then j else i));
      }
    case Slice(i, sub) =>
      SliceOk(StateOf(w, i).impl, sub);
      var st := ImplSlice(StateOf(w, i).impl, sub);
      AddKeeps(w, ToLite(st), st);
    case _ =>
      ActionKeeps(w, c);
  }

  /** After an accepted reshape of a tensor with copies, the copies are stale exactly if the shape is another one. */
  lemma ReshapeBehindCopy(w: World, i: nat, req: seq<int>)
    requires WorldOk(w) && AllAgree(w) && i < |w.tensors| && IsShared(w, i)
    requires !Desyncs(StateOf(w, i), DoReshape(req)) && ReshapeTo(w.tensors[i].layout, req).Some?
    ensures WorldOk(Step(w, On(i, DoReshape(req))))
    ensures AllAgree(Step(w, On(i, DoReshape(req))))
       <==> ReshapeTo(w.tensors[i].layout, req).value == w.tensors[i].layout.shapes
  {
    StepAgrees(w, On(i, DoReshape(req)));
  }

  /** In agreement or not, a call leads to a proper world. */
  lemma StepOk(w: World, c: Call)
    requires WorldOk(w) && CallOk(w, c)
    ensures WorldOk(Step(w, c))
  {
    match c
    case Make =>
      EmptyInSizeT();
    case MakeWith(l) =>
    case Copy(i) =>
    case Slice(i, sub) =>
      SliceOk(StateOf(w, i).impl, sub);
    case _ =>
      ImplStaysOk(StateOf(w, c.i), OpOf(w, c));
  }

  const START := World([], [])

  ghost predicate IsStep(w: World, c: Call, v: World) {
    WorldOk(w) && CallOk(w, c) && v == Step(w, c)
  }

  ghost predicate IsRun(ws: seq<World>, cs: seq<Call>) {
    |ws| == |cs| + 1 && ws[0] == START && forall i :: 0 <= i < |cs| ==> IsStep(ws[i], cs[i], ws[i + 1])
  }

  ghost predicate Agrees(w: World) {
    WorldOk(w) && AllAgree(w)
  }

  ghost predicate BreaksAt(w: World, c: Call) {
    WorldOk(w) && CallOk(w, c) && Breaks(w, c)
  }

  /** In every run, all tensors agree with their implementations throughout exactly when no call breaks that. */
  lemma {:induction false} AgreementRun(ws: seq<World>, cs: seq<Call>, n: nat)
    requires IsRun(ws, cs) && n <= |cs|
    ensures WorldOk(ws[n])
    ensures (forall i :: 0 <= i <= n ==> Agrees(ws[i])) <==> (forall i :: 0 <= i < n ==> !BreaksAt(ws[i], cs[i]))
  {
    hide Step, Breaks, AllAgree, WorldOk, CallOk;
    if n == 0 {
      StartAgrees();
    } else {
      AgreementRun(ws, cs, n - 1);
      assert IsStep(ws[n - 1], cs[n - 1], ws[n]);
      StepOk(ws[n - 1], cs[n - 1]);
      if Agrees(ws[n - 1]) {
        StepAgrees(ws[n - 1], cs[n - 1]);
      }
    }
  }

  lemma StartAgrees()
    ensures WorldOk(START) && AllAgree(START)
  {
  }

  // ---- the objects -------------------------------------------------------------------------

  /** The extents a call mentions are `size_t`. */
  predicate ArgsInSizeT(c: Call) {
    && (c.On? && (c.op.SetLayout? || c.op.ResetWithLayout?) ==> SizeTs(c.op.l))
    && (c.On? && c.op.DoReshape? ==> forall i :: 0 <= i < |c.op.req| ==> c.op.req[i] < SIZE_LIMIT)
  }

  /** Tensor objects on the heap, some of them over the same implementation object. */
  class Tensors {
    var tensors: seq<Tensor>
    ghost var impls: seq<Impl>
    ghost var world: World

    ghost predicate Valid()
      reads this, tensors, impls
    {
      && WorldOk(world) && |tensors| == |world.tensors| && |impls| == |world.impls|
      && (forall i, j :: 0 <= i < j < |tensors| ==> tensors[i] != tensors[j])
      && (forall i, j :: 0 <= i < j < |impls| ==> impls[i] != impls[j])
      && (forall i :: 0 <= i < |tensors| ==>
            tensors[i].layout == world.tensors[i].layout && tensors[i].impl == impls[world.tensors[i].impl])
      && (forall k :: 0 <= k < |impls| ==> impls[k].state == world.impls[k])
    }

    constructor ()
      ensures Valid() && world == START
    {
      tensors, impls, world := [], [], START;
    }

    method Append(t: Tensor)
      requires Valid() && t !in tensors && t.impl !in impls && ImplOk(t.impl.state)
      modifies this
      ensures Valid() && world == Add(old(world), t.layout, t.impl.state)
    {
      world := Add(world, t.layout, t.impl.state);
      tensors, impls := tensors + [t], impls + [t.impl];
    }

    method Act(c: Call)
      requires Valid() && CallOk(world, c) && IsAction(c) && ArgsInSizeT(c)
      modifies this, tensors, impls
      ensures Valid() && world == Step(old(world), c)
    {
      hide Apply, ImplOk;
      StepOk(world, c);
      var t := tensors[c.i];
      ghost var s, op := t.State(), OpOf(world, c);
      assert s == StateOf(world, c.i);
      match c {
        case CopyInto(_, src, copies) =>
          assert tensors[src].State() == StateOf(world, src);
          var _ := t.CopyFrom(tensors[src], copies);
        case Share(_, src) =>
          assert tensors[src].State() == StateOf(world, src);
          var _ := t.ShareMemoryWith(tensors[src]);
        case On(_, o) =>
          Do(t, o);
      }
      assert t.State() == Apply(s, op).state;
      world := Step(world, c);
    }

    static method Do(t: Tensor, op: Op)
      requires !op.CopyFrom? && !op.ShareMemoryWith? && ArgsInSizeT(On(0, op))
      modifies t, t.impl
      ensures t.State() == Apply(old(t.State()), op).state
    {
      match op
      case SetLayout(l) => var _ := t.SetLayout(l);
      case ResetWithLayout(l) => var _ := t.ResetWithLayout(l);
      case ResetData(length) => var _ := t.Reset(length);
      case DoReshape(req) => var _ := t.Reshape(req);
      case FillZero => var _ := t.FillZero();
      case UpdateFromImplement => t.UpdateFromImplement();
    }

    /** A call on the objects is a step of the model, so what is proved of runs holds of the objects. */
    method Perform(c: Call)
      requires Valid() && CallOk(world, c) && ArgsInSizeT(c)
      modifies this, tensors, impls
      ensures Valid() && world == Step(old(world), c)
    {
      hide ImplOk, Apply;
      StepOk(world, c);
      if c.Make? {
        var t := new Tensor();
        assert Step(world, c).impls[|world.impls|] == t.impl.state;
        Append(t);
      } else if c.MakeWith? {
        if Convertible(c.l) {
          var t := new Tensor.WithLayout(c.l);
          Append(t);
        }
      } else if c.Copy? {
        var t := new Tensor.Copy(tensors[c.of]);
        world := Step(world, c);
        tensors := tensors + [t];
      } else if c.Slice? {
        var t := new Tensor.Slice(tensors[c.of], c.sub);
        assert Step(world, c).impls[|world.impls|] == t.impl.state;
        Append(t);
      } else {
        Act(c);
      }
    }
  }
}
