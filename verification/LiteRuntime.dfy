/** Network objects on the heap: calls on them are steps of the model, so what is proved of runs holds of them. */
module LiteRuntime {
  import opened LiteNetwork

  predicate IsOwn(op: Op) {
    !op.Create? && !op.SetAllocator? && !op.ShareMemory?
  }

  /** What such a call does to its network. */
  function OwnOutcome(c: Core, src: Core, op: Op): Outcome
    requires IsOwn(op)
  {
    match op
    case Set(_, x) => SetCore(c, x)
    case ExtraConfigure(_, disable) =>
      if !disable && c.loaded then Outcome(c, false, false) else Outcome(c.(disableInfo := disable), false, true)
    case Use(_) => Outcome(c, false, c.loaded)
    case Load(_, model, info, p, ends) => LoadCore(c, model, info, p, ends)
    case ShareWeights(_, _, ends) => ShareCore(c, src, ends)
  }

  lemma OwnStep(s: State, op: Op)
    requires IsOwn(op) && OpOk(s, op)
    ensures var o := OwnOutcome(s.nets[op.n].core, s.nets[if op.ShareWeights? then op.src else op.n].core, op);
      var t := Apply(s, op);
      && |t.0.nets| == |s.nets| && t.0.allocators == s.allocators
      && t.0.nets[op.n].core == o.core && t.1 == o.ok
      && (forall i :: 0 <= i < |s.nets| ==> t.0.nets[i].manager == s.nets[i].manager)
      && forall i :: 0 <= i < |s.nets| && i != op.n ==> t.0.nets[i] == s.nets[i]
  {
    hide LoadCore, ShareCore, SetCore;
  }

  class Networks {
    var nets: seq<Network>
    ghost var managers: seq<MemoryManager>
    ghost var state: State

    /** The objects hold what the state says, and share memory managers as it says. */
    ghost predicate Valid()
      reads this, nets, managers
    {
      && Inv(state) && |nets| == |state.nets| == |managers| == |state.allocators|
      && (forall i, j :: 0 <= i < j < |nets| ==> nets[i] != nets[j])
      && (forall i, j :: 0 <= i < j < |managers| ==> managers[i] != managers[j])
      && (forall i :: 0 <= i < |nets| ==> Holds(i))
      && (forall k :: 0 <= k < |managers| ==> managers[k].allocator == state.allocators[k])
    }

    ghost predicate Holds(i: nat)
      requires i < |nets| == |state.nets|
      reads this, nets
    {
      && nets[i].Now() == state.nets[i].core
      && state.nets[i].manager < |managers| && nets[i].manager == managers[state.nets[i].manager]
    }

    constructor ()
      ensures Valid() && state == START
    {
      nets, managers, state := [], [], START;
    }

    method Create(cpu: bool, deviceId: int)
      requires Valid()
      modifies this
      ensures Valid() && state == Apply(old(state), Op.Create(cpu, deviceId)).0
    {
      StepKeeps(state, Op.Create(cpu, deviceId));
      hide Inv, NewCore;
      var net := new Network(cpu, deviceId);
      state := Apply(state, Op.Create(cpu, deviceId)).0;
      nets, managers := nets + [net], managers + [net.manager];
      forall i | 0 <= i < |nets| ensures Holds(i) {
        assert i < |old(nets)| ==> old(Holds(i));
      }
    }

    /** A call on one network. */
    method Perform(op: Op) returns (ok: bool)
      requires Valid() && !op.Create? && OpOk(state, op)
      modifies this, nets, managers
      ensures Valid() && state == Apply(old(state), op).0 && ok == Apply(old(state), op).1
      ensures nets == old(nets)
    {
      if op.SetAllocator? {
        ok := SetAllocator(op.n, op.allocator);
      } else if op.ShareMemory? {
        ok := ShareMemory(op.n, op.src, op.compiled);
      } else {
        ok := ChangeOne(op);
      }
    }

    /** The calls that change only the network itself, and not its memory manager. */
    method ChangeOne(op: Op) returns (ok: bool)
      requires Valid() && IsOwn(op) && OpOk(state, op)
      modifies this`state, nets
      ensures Valid() && state == Apply(old(state), op).0 && ok == Apply(old(state), op).1
    {
      StepKeeps(state, op);
      OwnStep(state, op);
      hide Inv, AllKept, OwnOutcome, Apply;
      var net, src := nets[op.n], if op.ShareWeights? then nets[op.src] else nets[op.n];
      assert Holds(op.n) && (op.ShareWeights? ==> Holds(op.src));
      ghost var after := Apply(state, op).0;
      ok := Call(net, src, op);
      state := after;
      forall i | 0 <= i < |nets| ensures Holds(i) {
        assert old(Holds(i));
        assert i != op.n ==> nets[i] != net;
      }
    }

    static method Call(net: Network, src: Network, op: Op) returns (ok: bool)
      requires IsOwn(op)
      modifies net
      ensures var o := OwnOutcome(old(net.Now()), old(src.Now()), op); net.Now() == o.core && ok == o.ok
      ensures net.manager == old(net.manager)
    {
      hide LoadCore, ShareCore, SetCore;
      match op {
        case Set(_, x) => ok := net.Set(x);
        case ExtraConfigure(_, disable) => ok := net.ExtraConfigure(disable);
        case Use(_) => ok := net.loaded;
        case Load(_, model, info, p, ends) => ok := net.Load(model, info, p, ends);
        case ShareWeights(_, _, ends) => ok := net.SharedWeightWith(src, ends);
      }
    }

    method SetAllocator(n: nat, allocator: nat) returns (ok: bool)
      requires Valid() && n < |nets|
      modifies this`state, managers
      ensures Valid() && state == Apply(old(state), Op.SetAllocator(n, allocator)).0
      ensures ok == Apply(old(state), Op.SetAllocator(n, allocator)).1
    {
      StepKeeps(state, Op.SetAllocator(n, allocator));
      hide Inv, AllKept;
      assert Holds(n);
      ok := nets[n].SetAllocator(allocator);
      state := Apply(state, Op.SetAllocator(n, allocator)).0;
      forall i | 0 <= i < |nets| ensures Holds(i) {
        assert old(Holds(i));
      }
    }

    method ShareMemory(n: nat, src: nat, compiled: bool) returns (ok: bool)
      requires Valid() && n < |nets| && src < |nets|
      modifies this`state, nets
      ensures Valid() && state == Apply(old(state), Op.ShareMemory(n, src, compiled)).0
      ensures ok == Apply(old(state), Op.ShareMemory(n, src, compiled)).1
    {
      StepKeeps(state, Op.ShareMemory(n, src, compiled));
      hide Inv, AllKept;
      assert Holds(n) && Holds(src);
      ok := nets[n].ShareRuntimeMemoryWith(nets[src], compiled);
      state := Apply(state, Op.ShareMemory(n, src, compiled)).0;
      forall i | 0 <= i < |nets| ensures Holds(i) {
        assert old(Holds(i));
        assert i != n ==> nets[i] != nets[n];
      }
    }
  }
}
