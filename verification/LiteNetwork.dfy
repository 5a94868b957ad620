/**
  `lite::Network` and `lite::Runtime`: what may be called before and after a model is loaded,
  over every sequence of calls on any number of networks, and where weights come from.
 */
module LiteNetwork {
  import opened Wrappers

  const CPU_DEFAULT: int := -1024
  const MULTITHREAD_DEFAULT: int := -1025

  /** Type of the computing node a network runs on. */
  datatype Kind = Cpu | Multithread | Other

  /** What only calls before loading may change. `stream` is also where the thread count is kept. */
  datatype Settings = Settings(
    cpu: bool, deviceId: int,
    kind: Kind, device: int, stream: int,
    threads: nat, inplace: bool, tensorrt: bool, layoutTransform: bool, onlyConfigured: bool)

  type Model = nat

  /** A network: the loader made from its first model, and the model its graph and weights were built from. */
  datatype Core = Core(loaded: bool, loader: Option<Model>, weights: Option<Model>, disableInfo: bool,
      settings: Settings)

  /** What the JSON that comes with a model may set apart from the network configuration. */
  datatype Separate = Separate(device: Option<int>, threads: nat, inplace: bool, tensorrt: bool)

  /** How far a call that builds the graph gets before it throws. */
  datatype Stage = Parsing | Decrypting | Making | Configuring | Loading | Finishing | Done

  /** State after a call, whether it built the graph, and whether it returned normally. */
  datatype Outcome = Outcome(core: Core, built: bool, ok: bool)

  // ---- one network -----------------------------------------------------------------------------

  function NewCore(cpu: bool, deviceId: int): Core {
    var s := Settings(cpu, 0, Other, -1, 0, 1, false, false, false, false);
    Core(false, None, None, false, Configure(s, cpu, deviceId))
  }

  /** `set_config`: the locator starts afresh, so the stream goes back to zero. */
  function Configure(s: Settings, cpu: bool, deviceId: int): Settings {
    s.(cpu := cpu, deviceId := deviceId, kind := if cpu then Cpu else Other, device := deviceId, stream := 0)
  }

  function ApplicationConfig(s: Settings): Settings {
    s.(kind := if !s.cpu then Other else if s.threads > 1 then Multithread else Cpu,
       device := if s.device == -1 then s.deviceId else s.device)
  }

  function WithDevice(s: Settings, id: int): Settings {
    s.(device := id, deviceId := id)
  }

  /** `set_cpu_threads_number` on a CPU network. */
  function WithThreads(s: Settings, n: nat): Settings {
    if n <= 1 then s
    else
      var t := s.(threads := n, kind := Multithread, stream := n);
      if s.inplace then WithDevice(t, MULTITHREAD_DEFAULT) else t
  }

  /** `set_cpu_inplace_mode` on a CPU network. */
  function WithInplace(s: Settings): Settings {
    WithDevice(s.(inplace := true), if s.kind == Cpu then CPU_DEFAULT else MULTITHREAD_DEFAULT)
  }

  /** The separate settings, in the order they are applied; the second part is false if one throws. */
  function ApplySeparate(s: Settings, p: Separate): (Settings, bool) {
    var a := if p.device.Some? then WithDevice(s, p.device.value) else s;
    if (p.threads > 1 || p.inplace) && !a.cpu then (a, false)
    else
      var b := WithThreads(a, p.threads);
      var c := if p.inplace then WithInplace(b) else b;
      (if p.tensorrt then c.(tensorrt := true) else c, true)
  }

  /** `prase_model`: `info` is the configuration that comes with the model, if any. */
  function LoadCore(c: Core, model: Model, info: Option<(bool, int)>, p: Separate, ends: Stage): Outcome {
    if ends == Parsing then Outcome(c, false, false)
    else
      var d :=
        if info.Some? && !c.disableInfo then c.(settings := Configure(c.settings, info.value.0, info.value.1))
        else c;
      if ends == Decrypting || (ends == Making && d.loader.None?) then Outcome(d, false, false)
      else
        var loader := if d.loader.None? then Some(model) else d.loader;
        var e := d.(loader := loader, settings := ApplicationConfig(d.settings));
        if ends == Configuring then Outcome(e, false, false)
        else
          var (s, fine) := ApplySeparate(e.settings, p);
          Build(e.(settings := s), e.loader, if fine then ends else Loading)
  }

  /** Build the graph with a loader. */
  function Build(c: Core, loader: Option<Model>, ends: Stage): Outcome {
    if ends == Loading || loader.None? then Outcome(c, false, false)
    else if ends == Finishing then Outcome(c.(weights := loader), true, false)
    else Outcome(c.(weights := loader, loaded := true), true, true)
  }

  /** `shared_weight_with_network`: build the graph with the loader of the source. */
  function ShareCore(c: Core, src: Core, ends: Stage): Outcome {
    if !src.loaded then Outcome(c, false, false)
    else
      var d := c.(settings := ApplicationConfig(c.settings));
      if ends == Configuring then Outcome(d, false, false) else Build(d, src.loader, ends)
  }

  datatype Setting =
    | Device(id: int) | Stream(id: int) | Threads(n: nat) | Inplace | Tensorrt
    | LayoutTransform | OnlyConfigured

  /** The calls that must come before loading. */
  function SetCore(c: Core, x: Setting): Outcome {
    if c.loaded || ((x.Threads? || x.Inplace?) && !c.settings.cpu) then Outcome(c, false, false)
    else
      var s := c.settings;
      var t := match x
        case Device(id) => WithDevice(s, id)
        case Stream(id) => s.(stream := id)
        case Threads(n) => WithThreads(s, n)
        case Inplace => WithInplace(s)
        case Tensorrt => s.(tensorrt := true)
        case LayoutTransform => s.(layoutTransform := true)
        case OnlyConfigured => s.(onlyConfigured := true);
      Outcome(c.(settings := t), false, true)
  }

  // ---- all networks -----------------------------------------------------------------------------

  /**
    `source` and `completed` are history: whose loader built the graph, and whether a `load_model` of
    its own returned.
   */
  datatype Net = Net(core: Core, source: nat, completed: bool, manager: nat)

  /** Networks by number; the allocator of each memory manager, one made with each network. */
  datatype State = State(nets: seq<Net>, allocators: seq<nat>)

  datatype Op =
    | Create(cpu: bool, deviceId: int)
    | Set(n: nat, x: Setting)
    | SetAllocator(n: nat, allocator: nat)
    | ShareMemory(n: nat, src: nat, compiled: bool)
    | ExtraConfigure(n: nat, disable: bool)
    | Use(n: nat)
    | Load(n: nat, model: Model, info: Option<(bool, int)>, separate: Separate, ends: Stage)
    | ShareWeights(n: nat, src: nat, ends: Stage)

  predicate OpOk(s: State, op: Op) {
    (!op.Create? ==> op.n < |s.nets|) && (op.ShareMemory? || op.ShareWeights? ==> op.src < |s.nets|)
  }

  function Put(s: State, n: nat, o: Outcome, source: nat, loads: bool): (State, bool)
    requires n < |s.nets|
  {
    var net := s.nets[n];
    (s.(nets := s.nets[n := net.(core := o.core,
                                source := if o.built then source else net.source,
                                completed := net.completed || (loads && o.ok))]),
     o.ok)
  }

  function Apply(s: State, op: Op): (State, bool)
    requires OpOk(s, op)
  {
    match op
    case Create(cpu, deviceId) =>
      (State(s.nets + [Net(NewCore(cpu, deviceId), |s.nets|, false, |s.nets|)], s.allocators + [0]), true)
    case Set(n, x) => Put(s, n, SetCore(s.nets[n].core, x), n, false)
    case SetAllocator(n, a) =>
      if s.nets[n].core.loaded || s.nets[n].manager >= |s.allocators| then (s, false)
      else (s.(allocators := s.allocators[s.nets[n].manager := a]), true)
    case ShareMemory(n, src, compiled) =>
      if s.nets[n].core.loaded || compiled then (s, false)
      else (s.(nets := s.nets[n := s.nets[n].(manager := s.nets[src].manager)]), true)
    case ExtraConfigure(n, disable) =>
      if !disable && s.nets[n].core.loaded then (s, false)
      else (s.(nets := s.nets[n := s.nets[n].(core := s.nets[n].core.(disableInfo := disable))]), true)
    case Use(n) => (s, s.nets[n].core.loaded)
    case Load(n, model, info, p, ends) => Put(s, n, LoadCore(s.nets[n].core, model, info, p, ends), n, true)
    case ShareWeights(n, src, ends) => Put(s, n, ShareCore(s.nets[n].core, s.nets[src].core, ends), src, false)
  }

  // ---- what every call keeps ---------------------------------------------------------------------

  predicate NetOk(s: State, net: Net) {
    && net.source < |s.nets| && net.manager < |s.allocators|
    && (net.core.weights.Some? ==> net.core.weights == s.nets[net.source].core.loader)
    && (net.core.loaded ==> net.core.weights.Some?)
    && (net.completed ==> net.core.loaded && net.core.loader.Some?)
    && (net.core.settings.cpu <==> net.core.settings.kind != Other)
  }

  predicate Inv(s: State) {
    |s.allocators| == |s.nets| && forall n :: 0 <= n < |s.nets| ==> NetOk(s, s.nets[n])
  }

  /** A network never becomes unloaded, and its loader, once made, stays. */
  predicate Keeps(a: Net, b: Net) {
    && (a.core.loaded ==> b.core.loaded)
    && (a.completed ==> b.completed)
    && (a.core.loader.Some? ==> b.core.loader == a.core.loader)
  }

  predicate AllKept(s: State, t: State) {
    |s.nets| <= |t.nets| && forall n :: 0 <= n < |s.nets| ==> Keeps(s.nets[n], t.nets[n])
  }

  predicate CpuOk(s: Settings) {
    s.cpu <==> s.kind != Other
  }

  /** What the calls on one network do to it, when `loader` is the one they would build the graph with. */
  predicate Proper(c: Core, o: Outcome, loader: Option<Model>, loads: bool) {
    && (c.loader.Some? ==> o.core.loader == c.loader)
    && (CpuOk(c.settings) ==> CpuOk(o.core.settings))
    && (if o.built then loader.Some? && o.core.weights == loader else o.core.weights == c.weights)
    && (o.core.loaded <==> c.loaded || (o.built && o.ok))
    && (loads && o.ok ==> o.built && o.core.loader.Some?)
  }

  lemma SeparateKeepsCpu(s: Settings, p: Separate)
    requires CpuOk(s)
    ensures CpuOk(ApplySeparate(s, p).0)
  {
  }

  lemma LoadProper(c: Core, model: Model, info: Option<(bool, int)>, p: Separate, ends: Stage)
    ensures var o := LoadCore(c, model, info, p, ends); Proper(c, o, o.core.loader, true)
  {
    hide ApplySeparate;
    forall s | CpuOk(s) ensures CpuOk(ApplySeparate(s, p).0) {
      SeparateKeepsCpu(s, p);
    }
  }

  lemma ShareProper(c: Core, src: Core, ends: Stage)
    ensures Proper(c, ShareCore(c, src, ends), src.loader, false)
  {
  }

  lemma SetProper(c: Core, x: Setting)
    ensures Proper(c, SetCore(c, x), None, false)
  {
  }

  lemma PutKeeps(s: State, n: nat, o: Outcome, source: nat, loads: bool)
    requires Inv(s) && n < |s.nets| && source < |s.nets|
    requires Proper(s.nets[n].core, o, if source == n then o.core.loader else s.nets[source].core.loader, loads)
    ensures Inv(Put(s, n, o, source, loads).0) && AllKept(s, Put(s, n, o, source, loads).0)
  {
    var t := Put(s, n, o, source, loads).0;
    assert NetOk(s, s.nets[n]);
    forall i | 0 <= i < |s.nets| ensures NetOk(t, t.nets[i]) {
      assert NetOk(s, s.nets[i]);
    }
  }

  lemma StepKeeps(s: State, op: Op)
    requires Inv(s) && OpOk(s, op)
    ensures Inv(Apply(s, op).0) && AllKept(s, Apply(s, op).0)
  {
    hide LoadCore, ShareCore, SetCore;
    match op
    case Set(n, x) =>
      SetProper(s.nets[n].core, x);
      PutKeeps(s, n, SetCore(s.nets[n].core, x), n, false);
    case Load(n, model, info, p, ends) =>
      LoadProper(s.nets[n].core, model, info, p, ends);
      PutKeeps(s, n, LoadCore(s.nets[n].core, model, info, p, ends), n, true);
    case ShareWeights(n, src, ends) =>
      ShareProper(s.nets[n].core, s.nets[src].core, ends);
      PutKeeps(s, n, ShareCore(s.nets[n].core, s.nets[src].core, ends), src, false);
    case _ =>
      SimpleStepKeeps(s, op);
  }

  lemma SimpleStepKeeps(s: State, op: Op)
    requires Inv(s) && OpOk(s, op) && !op.Set? && !op.Load? && !op.ShareWeights?
    ensures Inv(Apply(s, op).0) && AllKept(s, Apply(s, op).0)
  {
    var t := Apply(s, op).0;
    forall i | 0 <= i < |t.nets| ensures NetOk(t, t.nets[i]) {
      if i < |s.nets| {
        assert NetOk(s, s.nets[i]);
      }
      if op.ShareMemory? {
        assert NetOk(s, s.nets[op.src]);
      }
    }
  }

  // ---- whole runs --------------------------------------------------------------------------------

  const START := State([], [])

  predicate IsRun(states: seq<State>, ops: seq<Op>) {
    && |states| == |ops| + 1 && states[0] == START
    && forall i :: 0 <= i < |ops| ==> OpOk(states[i], ops[i]) && states[i + 1] == Apply(states[i], ops[i]).0
  }

  lemma {:induction false} RunInv(states: seq<State>, ops: seq<Op>, i: nat)
    requires IsRun(states, ops) && i <= |ops|
    ensures Inv(states[i])
  {
    if i > 0 {
      RunInv(states, ops, i - 1);
      StepKeeps(states[i - 1], ops[i - 1]);
    }
  }

  /** In every run a loaded network stays loaded, and the model of its loader never changes. */
  lemma {:induction false} RunKeeps(states: seq<State>, ops: seq<Op>, i: nat, j: nat)
    requires IsRun(states, ops) && i <= j <= |ops|
    ensures AllKept(states[i], states[j])
    decreases j
  {
    if i < j {
      RunKeeps(states, ops, i, j - 1);
      RunInv(states, ops, j - 1);
      StepKeeps(states[j - 1], ops[j - 1]);
      forall n | 0 <= n < |states[i].nets| ensures Keeps(states[i].nets[n], states[j].nets[n]) {
        assert Keeps(states[i].nets[n], states[j - 1].nets[n]) && Keeps(states[j - 1].nets[n], states[j].nets[n]);
      }
    }
  }

  /**
    In every run, the weights of a loaded network come from the loader of one network: no chain of
    shares is longer than one.
   */
  lemma WeightsComeFromALoader(states: seq<State>, ops: seq<Op>, i: nat, n: nat)
    requires IsRun(states, ops) && i <= |ops| && n < |states[i].nets| && states[i].nets[n].core.loaded
    ensures var net := states[i].nets[n];
      net.source < |states[i].nets| && net.core.weights.Some?
          && net.core.weights == states[i].nets[net.source].core.loader
  {
    RunInv(states, ops, i);
    assert NetOk(states[i], states[i].nets[n]);
  }

  /**
    Loading into a network that has a loader builds its first model again: in every run, a load that returns
    builds the model it was given exactly if there was no loader yet, or one of that same model.
   */
  lemma LoadKeepsFirstModel(states: seq<State>, ops: seq<Op>, i: nat, j: nat, n: nat)
    requires IsRun(states, ops) && i <= j < |ops| && n < |states[i].nets|
    requires ops[j].Load? && ops[j].n == n && Apply(states[j], ops[j]).1
    ensures n < |states[j].nets| && n < |states[j + 1].nets|
    ensures states[i].nets[n].core.loader.Some? ==> states[j + 1].nets[n].core.weights == states[i].nets[n].core.loader
    ensures states[j + 1].nets[n].core.weights == Some(ops[j].model) <==>
      states[j].nets[n].core.loader.None? || states[j].nets[n].core.loader == Some(ops[j].model)
  {
    RunKeeps(states, ops, i, j);
    assert Keeps(states[i].nets[n], states[j].nets[n]);
    var op := ops[j];
    LoadProper(states[j].nets[n].core, op.model, op.info, op.separate, op.ends);
    FirstLoader(states[j].nets[n].core, op.model, op.info, op.separate, op.ends);
  }

  lemma FirstLoader(c: Core, model: Model, info: Option<(bool, int)>, p: Separate, ends: Stage)
    requires LoadCore(c, model, info, p, ends).ok
    ensures LoadCore(c, model, info, p, ends).core.loader == if c.loader.None? then Some(model) else c.loader
  {
    hide ApplySeparate, ApplicationConfig, Configure;
  }

  /** It does happen: the second load returns, and the network still runs the first model. */
  lemma SecondModelIgnored() returns (states: seq<State>, ops: seq<Op>)
    ensures IsRun(states, ops) && |ops| == 3 && ops[2] == Load(0, 20, None, NONE_SEPARATE, Done)
    ensures Apply(states[2], ops[2]).1 && |states[3].nets| == 1 && states[3].nets[0].core.weights == Some(10)
  {
    hide Configure, ApplicationConfig, WithThreads, WithInplace, WithDevice;
    ops := [Create(true, 0), Load(0, 10, None, NONE_SEPARATE, Done), Load(0, 20, None, NONE_SEPARATE, Done)];
    var s1 := Apply(START, ops[0]).0;
    var s2 := Apply(s1, ops[1]).0;
    states := [START, s1, s2, Apply(s2, ops[2]).0];
  }

  // ---- which calls return, and what they do ------------------------------------------------------

  /** The separate settings of the model apply to the device the network will have. */
  predicate SeparateFits(c: Core, info: Option<(bool, int)>, p: Separate) {
    (p.threads <= 1 && !p.inplace) || CpuAfter(c, info)
  }

  /** The device type after the configuration that comes with the model. */
  predicate CpuAfter(c: Core, info: Option<(bool, int)>) {
    if info.Some? && !c.disableInfo then info.value.0 else c.settings.cpu
  }

  /** A loader is only made where there is none. */
  predicate Builds(c: Core, ends: Stage) {
    ends == Done || ends == Finishing || (ends == Making && c.loader.Some?)
  }

  /** What a load does apart from the settings, however far it gets. */
  lemma LoadEnds(c: Core, model: Model, info: Option<(bool, int)>, p: Separate, ends: Stage)
    ensures var o := LoadCore(c, model, info, p, ends);
      && (o.built <==> Builds(c, ends) && SeparateFits(c, info, p))
      && (o.ok <==> o.built && ends != Finishing)
      && o.core.loader == (if c.loader.None? && ends !in {Parsing, Decrypting, Making} then Some(model) else c.loader)
      && o.core.weights == (if o.built then o.core.loader else c.weights)
      && (o.core.loaded <==> c.loaded || o.ok)
      && o.core.disableInfo == c.disableInfo
  {
  }

  /** What sharing weights does apart from the settings: the loader stays, whether there is one or not. */
  lemma ShareEnds(c: Core, src: Core, ends: Stage)
    ensures var o := ShareCore(c, src, ends);
      && (o.built <==> src.loaded && src.loader.Some? && ends != Configuring && ends != Loading)
      && (o.ok <==> o.built && ends != Finishing)
      && o.core.loader == c.loader
      && o.core.weights == (if o.built then src.loader else c.weights)
      && (o.core.loaded <==> c.loaded || o.ok)
      && o.core.disableInfo == c.disableInfo
  {
  }

  /** A setting takes effect: before loading, and on the CPU where it is about CPU threads. */
  predicate Settable(c: Core, x: Setting) {
    !c.loaded && (x.Threads? || x.Inplace? ==> c.settings.cpu)
  }

  /** The calls that return, by the networks they are about. */
  predicate Returns(s: State, op: Op)
    requires OpOk(s, op)
  {
    match op
    case Create(_, _) => true
    case Set(n, x) => Settable(s.nets[n].core, x)
    case SetAllocator(n, _) => !s.nets[n].core.loaded
    case ShareMemory(n, _, compiled) => !s.nets[n].core.loaded && !compiled
    case ExtraConfigure(n, disable) => disable || !s.nets[n].core.loaded
    case Use(n) => s.nets[n].core.loaded
    case Load(n, _, info, p, ends) =>
      Builds(s.nets[n].core, ends) && ends != Finishing && SeparateFits(s.nets[n].core, info, p)
    case ShareWeights(_, src, ends) =>
      && s.nets[src].core.loaded && s.nets[src].core.loader.Some?
      && ends != Configuring && ends != Loading && ends != Finishing
  }

  /** Exactly these calls return; no call changes any network but its own. */
  lemma ReturnsIff(s: State, op: Op)
    requires Inv(s) && OpOk(s, op)
    ensures Apply(s, op).1 <==> Returns(s, op)
    ensures forall m :: 0 <= m < |s.nets| && (op.Create? || m != op.n) ==> Apply(s, op).0.nets[m] == s.nets[m]
    ensures op.Use? || (!Returns(s, op) && !op.Load? && !op.ShareWeights?) ==> Apply(s, op).0 == s
  {
    hide LoadCore, ShareCore;
    match op
    case SetAllocator(n, _) =>
      assert NetOk(s, s.nets[n]);
    case Load(n, model, info, p, ends) =>
      LoadEnds(s.nets[n].core, model, info, p, ends);
    case ShareWeights(n, src, ends) =>
      ShareEnds(s.nets[n].core, s.nets[src].core, ends);
    case _ =>
  }

  /** Who manages the memory of a network, and whether models configure it, is up to these calls alone. */
  lemma OnlySharingMoves(s: State, op: Op, n: nat)
    requires Inv(s) && OpOk(s, op) && n < |Apply(s, op).0.nets|
    ensures var t, own := Apply(s, op).0.nets[n], !op.Create? && op.n == n && Returns(s, op);
      if n == |s.nets| then op.Create? && t.manager == n && !t.core.disableInfo
      else
        && t.manager == (if own && op.ShareMemory? then s.nets[op.src].manager else s.nets[n].manager)
        && t.core.disableInfo == if own && op.ExtraConfigure? then op.disable else s.nets[n].core.disableInfo
  {
    hide LoadCore, ShareCore;
    match op
    case Load(m, model, info, p, ends) =>
      LoadEnds(s.nets[m].core, model, info, p, ends);
    case ShareWeights(m, src, ends) =>
      ShareEnds(s.nets[m].core, s.nets[src].core, ends);
    case _ =>
  }

  // ---- who wrote a setting last --------------------------------------------------------------------

  /** The settings one by one. */
  datatype Field =
    | UserCpu | UserDevice | NodeKind | NodeDevice | NodeStream
    | ThreadCount | InplaceMode | UsesTensorrt | Transforms | OutputsOnly

  function Bit(b: bool): int {
    if b then 1 else 0
  }

  function KindCode(k: Kind): int {
    match k
    case Cpu => 0
    case Multithread => 1
    case Other => 2
  }

  function Value(s: Settings, f: Field): int {
    match f
    case UserCpu => Bit(s.cpu)
    case UserDevice => s.deviceId
    case NodeKind => KindCode(s.kind)
    case NodeDevice => s.device
    case NodeStream => s.stream
    case ThreadCount => s.threads
    case InplaceMode => Bit(s.inplace)
    case UsesTensorrt => Bit(s.tensorrt)
    case Transforms => Bit(s.layoutTransform)
    case OutputsOnly => Bit(s.onlyConfigured)
  }

  /** There are no other settings. */
  lemma ValuesAreAll(s: Settings, t: Settings)
    requires forall f: Field :: Value(s, f) == Value(t, f)
    ensures s == t
  {
    assert Value(s, UserCpu) == Value(t, UserCpu) && Value(s, UserDevice) == Value(t, UserDevice);
    assert Value(s, NodeKind) == Value(t, NodeKind) && Value(s, NodeDevice) == Value(t, NodeDevice);
    assert Value(s, NodeStream) == Value(t, NodeStream) && Value(s, ThreadCount) == Value(t, ThreadCount);
    assert Value(s, InplaceMode) == Value(t, InplaceMode) && Value(s, UsesTensorrt) == Value(t, UsesTensorrt);
    assert Value(s, Transforms) == Value(t, Transforms) && Value(s, OutputsOnly) == Value(t, OutputsOnly);
  }

  function When(b: bool, v: int): Option<int> {
    if b then Some(v) else None
  }

  function Else(a: Option<int>, b: Option<int>): Option<int> {
    if a.Some? then a else b
  }

  /** What a new network starts with. */
  function Initial(cpu: bool, deviceId: int, f: Field): int {
    match f
    case UserCpu => Bit(cpu)
    case UserDevice => deviceId
    case NodeDevice => deviceId
    case NodeKind => KindCode(if cpu then Cpu else Other)
    case ThreadCount => 1
    case _ => 0
  }

  /** What a setting writes to a field, if anything. */
  function SettingWrites(s: Settings, x: Setting, f: Field): Option<int> {
    match x
    case Device(id) => When(f == UserDevice || f == NodeDevice, id)
    case Stream(id) => When(f == NodeStream, id)
    case Threads(n) =>
      if n <= 1 then None
      else if f == ThreadCount || f == NodeStream then Some(n)
      else if f == NodeKind then Some(KindCode(Multithread))
      else When(s.inplace && (f == UserDevice || f == NodeDevice), MULTITHREAD_DEFAULT)
    case Inplace =>
      if f == InplaceMode then Some(1)
      else When(f == UserDevice || f == NodeDevice, if s.kind == Cpu then CPU_DEFAULT else MULTITHREAD_DEFAULT)
    case Tensorrt => When(f == UsesTensorrt, 1)
    case LayoutTransform => When(f == Transforms, 1)
    case OnlyConfigured => When(f == OutputsOnly, 1)
  }

  /** What a load writes to a field, if anything; a model's separate settings win over its configuration. */
  function LoadWrites(c: Core, info: Option<(bool, int)>, p: Separate, ends: Stage, f: Field): Option<int> {
    var s, cpu := c.settings, CpuAfter(c, info);
    var configured := ends != Parsing && info.Some? && !c.disableInfo;
    var applied := ends != Parsing && ends != Decrypting && (ends == Making ==> c.loader.Some?);
    var separate := applied && ends != Configuring;
    var threaded, inplace := separate && cpu && p.threads > 1, separate && cpu && p.inplace;
    var kind := if !cpu then Other else if s.threads > 1 || threaded then Multithread else Cpu;
    var moved := Else(When(inplace, if kind == Cpu then CPU_DEFAULT else MULTITHREAD_DEFAULT),
                      Else(When(threaded && s.inplace, MULTITHREAD_DEFAULT), if separate then p.device else None));
    match f
    case UserCpu => When(configured, Bit(cpu))
    case UserDevice => Else(moved, if configured then Some(info.value.1) else None)
    case NodeDevice =>
      Else(moved, if configured then Some(info.value.1) else When(applied && s.device == -1, s.deviceId))
    case NodeKind => Else(When(applied, KindCode(kind)), When(configured, KindCode(if cpu then Cpu else Other)))
    case NodeStream => Else(When(threaded, p.threads), When(configured, 0))
    case ThreadCount => When(threaded, p.threads)
    case InplaceMode => When(inplace, 1)
    case UsesTensorrt => When(separate && p.tensorrt && SeparateFits(c, info, p), 1)
    case Transforms => None
    case OutputsOnly => None
  }

  /** What sharing weights writes to a field, if anything. */
  function ShareWrites(s: Settings, src: Core, f: Field): Option<int> {
    match f
    case NodeKind => When(src.loaded, KindCode(if !s.cpu then Other else if s.threads > 1 then Multithread else Cpu))
    case NodeDevice => When(src.loaded && s.device == -1, s.deviceId)
    case _ => None
  }

  /** What a call writes to a field of a network, if anything. */
  function Written(s: State, op: Op, n: nat, f: Field): Option<int>
    requires OpOk(s, op)
  {
    match op
    case Create(cpu, deviceId) => When(n == |s.nets|, Initial(cpu, deviceId, f))
    case Set(m, x) =>
      if m == n && Settable(s.nets[n].core, x) then SettingWrites(s.nets[n].core.settings, x, f) else None
    case Load(m, _, info, p, ends) => if m == n then LoadWrites(s.nets[n].core, info, p, ends, f) else None
    case ShareWeights(m, src, _) =>
      if m == n then ShareWrites(s.nets[n].core.settings, s.nets[src].core, f) else None
    case _ => None
  }

  /** A setting writes exactly that: the other fields of the network stay. */
  lemma SettingSets(c: Core, x: Setting, f: Field)
    requires Settable(c, x)
    ensures var o := SetCore(c, x);
      && o.ok && !o.built && o.core.(settings := c.settings) == c
      && Value(o.core.settings, f) == Else(SettingWrites(c.settings, x, f), Some(Value(c.settings, f))).value
  {
  }

  lemma DeviceSets(s: Settings, id: int, f: Field)
    ensures Value(WithDevice(s, id), f) == if f == UserDevice || f == NodeDevice then id else Value(s, f)
    ensures var t := WithDevice(s, id); t.inplace == s.inplace && t.kind == s.kind && t.cpu == s.cpu
  {
  }

  lemma ThreadsSets(s: Settings, n: nat, f: Field)
    ensures Value(WithThreads(s, n), f) == if n <= 1 then Value(s, f)
      else match f
        case ThreadCount => n
        case NodeStream => n
        case NodeKind => KindCode(Multithread)
        case UserDevice => if s.inplace then MULTITHREAD_DEFAULT else Value(s, f)
        case NodeDevice => if s.inplace then MULTITHREAD_DEFAULT else Value(s, f)
        case _ => Value(s, f)
    ensures WithThreads(s, n).kind == if n <= 1 then s.kind else Multithread
  {
  }

  lemma InplaceSets(s: Settings, f: Field)
    ensures Value(WithInplace(s), f) == match f
      case InplaceMode => 1
      case UserDevice => if s.kind == Cpu then CPU_DEFAULT else MULTITHREAD_DEFAULT
      case NodeDevice => if s.kind == Cpu then CPU_DEFAULT else MULTITHREAD_DEFAULT
      case _ => Value(s, f)
  {
  }

  lemma TensorrtSets(s: Settings, f: Field)
    ensures Value(s.(tensorrt := true), f) == if f == UsesTensorrt then 1 else Value(s, f)
  {
  }

  lemma ApplicationSets(s: Settings, f: Field)
    ensures Value(ApplicationConfig(s), f) == match f
      case NodeKind => KindCode(ApplicationKind(s.cpu, s.threads))
      case NodeDevice => if s.device == -1 then s.deviceId else s.device
      case _ => Value(s, f)
    ensures var t := ApplicationConfig(s);
      t.inplace == s.inplace && t.cpu == s.cpu && t.kind == ApplicationKind(s.cpu, s.threads)
  {
  }

  /** The kind of node an application gets: one that spreads over threads if it asks for more than one. */
  function ApplicationKind(cpu: bool, threads: nat): Kind {
    if !cpu then Other else if threads > 1 then Multithread else Cpu
  }

  /** What the separate settings write to a field, if anything. */
  function SeparateWrites(s: Settings, p: Separate, f: Field): Option<int> {
    var threaded, inplace := s.cpu && p.threads > 1, s.cpu && p.inplace;
    match f
    case UserDevice => SeparateDevice(s, p)
    case NodeDevice => SeparateDevice(s, p)
    case NodeKind => When(threaded, KindCode(Multithread))
    case NodeStream => When(threaded, p.threads)
    case ThreadCount => When(threaded, p.threads)
    case InplaceMode => When(inplace, 1)
    case UsesTensorrt => When(p.tensorrt && (s.cpu || (p.threads <= 1 && !p.inplace)), 1)
    case _ => None
  }

  /** The device a model's separate settings put the network on, if any. */
  function SeparateDevice(s: Settings, p: Separate): Option<int> {
    if s.cpu && p.inplace then Some(if s.kind == Cpu && p.threads <= 1 then CPU_DEFAULT else MULTITHREAD_DEFAULT)
    else if s.cpu && p.threads > 1 && s.inplace then Some(MULTITHREAD_DEFAULT)
    else p.device
  }

  lemma SeparateSets(s: Settings, p: Separate, f: Field)
    ensures Value(ApplySeparate(s, p).0, f) == Else(SeparateWrites(s, p, f), Some(Value(s, f))).value
  {
    hide WithDevice, WithThreads, WithInplace, Value;
    var a := if p.device.Some? then WithDevice(s, p.device.value) else s;
    if p.device.Some? {
      DeviceSets(s, p.device.value, f);
    }
    var b := WithThreads(a, p.threads);
    ThreadsSets(a, p.threads, f);
    InplaceSets(b, f);
    TensorrtSets(b, f);
    TensorrtSets(WithInplace(b), f);
  }

  /** The settings with the configuration that comes with the model. */
  function WithInfo(c: Core, info: Option<(bool, int)>): Settings {
    if info.Some? && !c.disableInfo then Configure(c.settings, info.value.0, info.value.1) else c.settings
  }

  lemma InfoSets(c: Core, info: Option<(bool, int)>, f: Field)
    ensures Value(WithInfo(c, info), f) ==
      if info.None? || c.disableInfo then Value(c.settings, f)
      else match f
        case UserCpu => Bit(info.value.0)
        case NodeKind => KindCode(if info.value.0 then Cpu else Other)
        case UserDevice => info.value.1
        case NodeDevice => info.value.1
        case NodeStream => 0
        case _ => Value(c.settings, f)
    ensures var s := WithInfo(c, info);
      && s.cpu == CpuAfter(c, info) && s.inplace == c.settings.inplace && s.threads == c.settings.threads
      && (if info.None? || c.disableInfo then s == c.settings else s.device == s.deviceId == info.value.1)
  {
  }

  lemma LoadReaches(c: Core, model: Model, info: Option<(bool, int)>, p: Separate, ends: Stage)
    ensures LoadCore(c, model, info, p, ends).core.settings ==
      if ends == Parsing then c.settings
      else if ends == Decrypting || (ends == Making && c.loader.None?) then WithInfo(c, info)
      else if ends == Configuring then ApplicationConfig(WithInfo(c, info))
      else ApplySeparate(ApplicationConfig(WithInfo(c, info)), p).0
  {
    hide ApplySeparate, ApplicationConfig, Configure;
  }

  lemma LoadSets(c: Core, model: Model, info: Option<(bool, int)>, p: Separate, ends: Stage, f: Field)
    ensures Value(LoadCore(c, model, info, p, ends).core.settings, f) ==
            Else(LoadWrites(c, info, p, ends, f), Some(Value(c.settings, f))).value
  {
    hide ApplySeparate, ApplicationConfig, LoadCore, Configure;
    var s := WithInfo(c, info);
    LoadReaches(c, model, info, p, ends);
    InfoSets(c, info, f);
    ApplicationSets(s, f);
    SeparateSets(ApplicationConfig(s), p, f);
  }

  lemma ShareSets(c: Core, src: Core, ends: Stage, f: Field)
    ensures Value(ShareCore(c, src, ends).core.settings, f) ==
            Else(ShareWrites(c.settings, src, f), Some(Value(c.settings, f))).value
  {
  }

  /** Every call writes what it is to write, and leaves everything else as it is. */
  lemma WrittenStep(s: State, op: Op, n: nat, f: Field)
    requires OpOk(s, op)
    ensures var t := Apply(s, op).0;
      && (n < |t.nets| <==> n < |s.nets| || (op.Create? && n == |s.nets|))
      && (Written(s, op, n, f).Some? ==> n < |t.nets|)
      && (n < |t.nets| ==>
            match Written(s, op, n, f)
            case Some(v) => Value(t.nets[n].core.settings, f) == v
            case None => n < |s.nets| && Value(t.nets[n].core.settings, f) == Value(s.nets[n].core.settings, f))
  {
    hide LoadCore, ShareCore, SetCore, Value, SettingWrites, LoadWrites, ShareWrites;
    match op
    case Create(cpu, deviceId) =>
      NewValues(cpu, deviceId, f);
    case Set(m, x) =>
      if Settable(s.nets[m].core, x) {
        SettingSets(s.nets[m].core, x, f);
      } else {
        NotSet(s.nets[m].core, x);
      }
    case Load(m, model, info, p, ends) =>
      LoadSets(s.nets[m].core, model, info, p, ends, f);
    case ShareWeights(m, src, ends) =>
      ShareSets(s.nets[m].core, s.nets[src].core, ends, f);
    case _ =>
  }

  lemma NewValues(cpu: bool, deviceId: int, f: Field)
    ensures Value(NewCore(cpu, deviceId).settings, f) == Initial(cpu, deviceId, f)
  {
  }

  lemma NotSet(c: Core, x: Setting)
    requires !Settable(c, x)
    ensures SetCore(c, x) == Outcome(c, false, false)
  {
  }

  /** In every run, a field of a network holds what the last call that writes it wrote. */
  lemma {:induction false} LastWriter(states: seq<State>, ops: seq<Op>, i: nat, j: nat, n: nat, f: Field)
    requires IsRun(states, ops) && i < j <= |ops| && Written(states[i], ops[i], n, f).Some?
    requires forall k :: i < k < j ==> Written(states[k], ops[k], n, f).None?
    ensures n < |states[j].nets| && Some(Value(states[j].nets[n].core.settings, f)) == Written(states[i], ops[i], n, f)
    decreases j
  {
    hide Apply, Written, Value;
    if i < j - 1 {
      LastWriter(states, ops, i, j - 1, n, f);
    }
    WrittenStep(states[j - 1], ops[j - 1], n, f);
    assert states[j - 1 + 1] == Apply(states[j - 1], ops[j - 1]).0;
  }

  /** And there is one: the call that makes the network writes all fields. */
  lemma {:induction false} SomeWriter(states: seq<State>, ops: seq<Op>, j: nat, n: nat, f: Field) returns (i: nat)
    requires IsRun(states, ops) && j <= |ops| && n < |states[j].nets|
    ensures i < j && Written(states[i], ops[i], n, f) == Some(Value(states[j].nets[n].core.settings, f))
    ensures forall k :: i < k < j ==> Written(states[k], ops[k], n, f).None?
    decreases j
  {
    hide Apply, Written, Value;
    assert j > 0;
    WrittenStep(states[j - 1], ops[j - 1], n, f);
    assert states[j - 1 + 1] == Apply(states[j - 1], ops[j - 1]).0;
    i := j - 1;
    if Written(states[j - 1], ops[j - 1], n, f).None? {
      i := SomeWriter(states, ops, j - 1, n, f);
    }
  }

  /** The calls that may write the stream id of a network: a thread count is kept there too. */
  predicate WritesStream(op: Op, n: nat) {
    match op
    case Set(m, x) => m == n && (x.Stream? || (x.Threads? && x.n > 1))
    case Load(m, _, info, p, _) => m == n && (info.Some? || p.threads > 1)
    case _ => false
  }

  /** In every run, the stream id a network was given stays until one of these calls. */
  lemma StreamStays(states: seq<State>, ops: seq<Op>, i: nat, j: nat, n: nat, id: int)
    requires IsRun(states, ops) && i < j <= |ops| && ops[i] == Set(n, Stream(id)) && Apply(states[i], ops[i]).1
    requires forall k :: i < k < j ==> !WritesStream(ops[k], n)
    ensures n < |states[j].nets| && states[j].nets[n].core.settings.stream == id
  {
    forall k | i < k < j ensures Written(states[k], ops[k], n, NodeStream).None? {
      RunKeeps(states, ops, i, k);
    }
    LastWriter(states, ops, i, j, n, NodeStream);
  }

  // ---- sources that completed a load ---------------------------------------------------------------

  /** Weights in use come from networks one of whose own `load_model` calls returned. */
  predicate RootsCompleted(s: State)
    requires Inv(s)
  {
    forall n :: 0 <= n < |s.nets| && s.nets[n].core.loaded ==> RootCompleted(s, s.nets[n])
  }

  predicate RootCompleted(s: State, net: Net) {
    net.source < |s.nets| && s.nets[net.source].completed
  }

  /**
    The calls that break this: taking weights from a network that got its loader in a failed load and
    was made loaded by sharing, or such a network's own load failing after the graph was built.
   */
  predicate TakesUncompleted(s: State, op: Op)
    requires OpOk(s, op)
  {
    match op
    case ShareWeights(n, src, ends) =>
      && s.nets[src].core.loaded && s.nets[src].core.loader.Some? && !s.nets[src].completed
      && ends != Configuring && ends != Loading && (ends == Finishing ==> s.nets[n].core.loaded)
    case Load(n, model, info, p, ends) =>
      && s.nets[n].core.loaded && !s.nets[n].completed
      && ends == Finishing && SeparateFits(s.nets[n].core, info, p)
    case _ => false
  }

  lemma PutRoots(s: State, n: nat, o: Outcome, source: nat, loads: bool)
    requires Inv(s) && n < |s.nets| && source < |s.nets| && RootsCompleted(s)
    requires Proper(s.nets[n].core, o, if source == n then o.core.loader else s.nets[source].core.loader, loads)
    ensures var t := Put(s, n, o, source, loads).0;
      Inv(t) && (RootsCompleted(t) <==> (t.nets[n].core.loaded ==> RootCompleted(t, t.nets[n])))
  {
    PutKeeps(s, n, o, source, loads);
    hide Inv;
    var t := Put(s, n, o, source, loads).0;
    forall i | 0 <= i < |t.nets| && i != n && t.nets[i].core.loaded ensures RootCompleted(t, t.nets[i]) {
      assert RootCompleted(s, s.nets[i]);
    }
  }

  lemma RootsStep(s: State, op: Op)
    requires Inv(s) && OpOk(s, op) && RootsCompleted(s)
    ensures Inv(Apply(s, op).0)
    ensures RootsCompleted(Apply(s, op).0) <==> !TakesUncompleted(s, op)
  {
    hide LoadCore, SetCore, Inv, RootsCompleted;
    match op
    case Set(n, x) =>
      SetProper(s.nets[n].core, x);
      PutRoots(s, n, SetCore(s.nets[n].core, x), n, false);
      if s.nets[n].core.loaded {
        RootOf(s, n);
      }
    case Load(n, model, info, p, ends) =>
      LoadProper(s.nets[n].core, model, info, p, ends);
      LoadEnds(s.nets[n].core, model, info, p, ends);
      PutRoots(s, n, LoadCore(s.nets[n].core, model, info, p, ends), n, true);
      if s.nets[n].core.loaded {
        RootOf(s, n);
      }
    case ShareWeights(n, src, ends) =>
      ShareProper(s.nets[n].core, s.nets[src].core, ends);
      PutRoots(s, n, ShareCore(s.nets[n].core, s.nets[src].core, ends), src, false);
      if s.nets[n].core.loaded {
        RootOf(s, n);
      }
    case _ =>
      SimpleStepRoots(s, op);
  }

  lemma RootOf(s: State, n: nat)
    requires Inv(s) && RootsCompleted(s) && n < |s.nets| && s.nets[n].core.loaded
    ensures RootCompleted(s, s.nets[n])
  {
  }

  predicate SameHistory(a: Net, b: Net) {
    a.source == b.source && a.completed == b.completed && a.core.loaded == b.core.loaded
  }

  lemma SimpleStepHistory(s: State, op: Op)
    requires OpOk(s, op) && !op.Set? && !op.Load? && !op.ShareWeights?
    ensures var t := Apply(s, op).0;
      |s.nets| <= |t.nets| && (forall i :: 0 <= i < |s.nets| ==> SameHistory(s.nets[i], t.nets[i]))
      && forall i :: |s.nets| <= i < |t.nets| ==> !t.nets[i].core.loaded
  {
  }

  lemma SimpleStepRoots(s: State, op: Op)
    requires Inv(s) && OpOk(s, op) && RootsCompleted(s) && !op.Set? && !op.Load? && !op.ShareWeights?
    ensures Inv(Apply(s, op).0) && RootsCompleted(Apply(s, op).0)
  {
    SimpleStepKeeps(s, op);
    SimpleStepHistory(s, op);
    hide Inv, Apply;
    var t := Apply(s, op).0;
    forall i | 0 <= i < |t.nets| && t.nets[i].core.loaded ensures RootCompleted(t, t.nets[i]) {
      assert SameHistory(s.nets[i], t.nets[i]);
      assert RootCompleted(s, s.nets[i]);
      assert SameHistory(s.nets[t.nets[i].source], t.nets[t.nets[i].source]);
    }
  }

  /** Every run: the weights in use always come from completed loads, exactly if no call takes them from elsewhere. */
  lemma {:induction false} RootsRun(states: seq<State>, ops: seq<Op>, i: nat)
    requires IsRun(states, ops) && i <= |ops|
    ensures (forall j :: 0 <= j <= i ==> Inv(states[j]))
    ensures (forall j :: 0 <= j <= i ==> RootsCompleted(states[j]))
        <==> (forall j :: 0 <= j < i ==> !TakesUncompleted(states[j], ops[j]))
  {
    hide Inv, RootsCompleted, TakesUncompleted, Apply;
    forall j | 0 <= j <= i ensures Inv(states[j]) {
      RunInv(states, ops, j);
    }
    if i == 0 {
      StartRoots();
    } else {
      RootsRun(states, ops, i - 1);
      if forall j :: 0 <= j <= i - 1 ==> RootsCompleted(states[j]) {
        RootsStep(states[i - 1], ops[i - 1]);
        assert states[i] == Apply(states[i - 1], ops[i - 1]).0;
      }
    }
  }

  lemma StartRoots()
    ensures Inv(START) && RootsCompleted(START)
  {
  }

  const NONE_SEPARATE := Separate(None, 0, false, false)

  /**
    It does happen: the third network runs a model that no load completed. The second one asks for an output
    that model 20 does not have and model 10 has, so that loading 20 throws once the graph is built, while
    sharing the weights of 10 does not; the third one asks for no output in particular.
   */
  lemma UncompletedRoot() returns (states: seq<State>, ops: seq<Op>)
    ensures IsRun(states, ops)
    ensures |states[|ops|].nets| == 3 && states[|ops|].nets[2].core.loaded
        && states[|ops|].nets[2].core.weights == Some(20)
    ensures forall i :: 0 <= i < |ops| && ops[i].Load? && ops[i].model == 20 ==> !Apply(states[i], ops[i]).1
  {
    hide Configure, ApplicationConfig, WithThreads, WithInplace, WithDevice;
    ops := [Create(true, 0), Create(true, 0), Create(true, 0),
            Load(0, 10, None, NONE_SEPARATE, Done), Load(1, 20, None, NONE_SEPARATE, Finishing),
            ShareWeights(1, 0, Done), ShareWeights(2, 1, Done)];
    var s1 := Apply(START, ops[0]).0;
    var s2 := Apply(s1, ops[1]).0;
    var s3 := Apply(s2, ops[2]).0;
    var s4 := Apply(s3, ops[3]).0;
    var s5 := Apply(s4, ops[4]).0;
    var s6 := Apply(s5, ops[5]).0;
    states := [START, s1, s2, s3, s4, s5, s6, Apply(s6, ops[6]).0];
  }

  /** A sharer gets the weights its source runs, when the source runs its own loader's. */
  lemma ShareAgrees(s: State, op: Op)
    requires Inv(s) && OpOk(s, op) && op.ShareWeights? && Apply(s, op).1
    ensures Apply(s, op).0.nets[op.n].core.weights == s.nets[op.src].core.loader
    ensures Apply(s, op).0.nets[op.n].core.weights == s.nets[op.src].core.weights
       <==> s.nets[op.src].core.weights == s.nets[op.src].core.loader
    ensures s.nets[op.src].source == op.src ==> s.nets[op.src].core.weights == s.nets[op.src].core.loader
  {
  }

  // ---- settings after loading ------------------------------------------------------------------------

  /** The calls that may still change the settings of a loaded network. */
  predicate Rebuilds(op: Op, n: nat) {
    (op.Load? || op.ShareWeights?) && op.n == n
  }

  lemma FrozenStep(s: State, op: Op, n: nat)
    requires OpOk(s, op) && n < |s.nets| && s.nets[n].core.loaded && !Rebuilds(op, n)
    ensures var t := Apply(s, op).0;
      n < |t.nets| && t.nets[n].core.settings == s.nets[n].core.settings
          && t.nets[n].manager == s.nets[n].manager && t.nets[n].core.loaded
  {
  }

  /**
    In every run, the settings of a loaded network stay as they are until it is itself loaded again or
    given weights.
   */
  lemma {:induction false} Frozen(states: seq<State>, ops: seq<Op>, i: nat, j: nat, n: nat)
    requires IsRun(states, ops) && i <= j <= |ops| && n < |states[i].nets| && states[i].nets[n].core.loaded
    requires forall k :: i <= k < j ==> !Rebuilds(ops[k], n)
    ensures n < |states[j].nets| && states[j].nets[n].core.settings == states[i].nets[n].core.settings
    ensures states[j].nets[n].manager == states[i].nets[n].manager && states[j].nets[n].core.loaded
    decreases j
  {
    if i < j {
      Frozen(states, ops, i, j - 1, n);
      FrozenStep(states[j - 1], ops[j - 1], n);
    }
  }

  function AllocatorOf(s: State, n: nat): nat
    requires Inv(s) && n < |s.nets|
  {
    assert NetOk(s, s.nets[n]);
    s.allocators[s.nets[n].manager]
  }

  /** An unloaded network that shares the memory manager sets another allocator. */
  predicate ReplacesAllocator(s: State, op: Op, n: nat)
    requires Inv(s) && OpOk(s, op) && n < |s.nets|
  {
    && op.SetAllocator? && !s.nets[op.n].core.loaded
    && s.nets[op.n].manager == s.nets[n].manager && op.allocator != AllocatorOf(s, n)
  }

  lemma AllocatorStep(s: State, op: Op, n: nat)
    requires Inv(s) && OpOk(s, op) && n < |s.nets| && s.nets[n].core.loaded && !Rebuilds(op, n)
    ensures Inv(Apply(s, op).0) && n < |Apply(s, op).0.nets|
    ensures AllocatorOf(Apply(s, op).0, n) == AllocatorOf(s, n) <==> !ReplacesAllocator(s, op, n)
  {
    StepKeeps(s, op);
    FrozenStep(s, op, n);
    assert NetOk(s, s.nets[n]);
    AllocatorsStep(s, op);
    hide Apply, Inv;
  }

  lemma AllocatorsStep(s: State, op: Op)
    requires OpOk(s, op)
    ensures var a := Apply(s, op).0.allocators;
      if op.SetAllocator? && !s.nets[op.n].core.loaded && s.nets[op.n].manager < |s.allocators|
      then a == s.allocators[s.nets[op.n].manager := op.allocator]
      else a == s.allocators + if op.Create? then [0] else []
  {
  }

  /** In every run, the allocator a loaded network uses stays the same exactly if no such call is made. */
  lemma {:induction false} AllocatorRun(states: seq<State>, ops: seq<Op>, i: nat, j: nat, n: nat)
    requires IsRun(states, ops) && i <= j <= |ops| && n < |states[i].nets| && states[i].nets[n].core.loaded
    requires forall k :: i <= k < j ==> !Rebuilds(ops[k], n)
    ensures forall k :: i <= k <= j ==> Inv(states[k]) && n < |states[k].nets|
    ensures (forall k :: i <= k <= j ==> AllocatorOf(states[k], n) == AllocatorOf(states[i], n))
       <==> (forall k :: i <= k < j ==> !ReplacesAllocator(states[k], ops[k], n))
    decreases j
  {
    hide Inv, Apply, ReplacesAllocator, AllocatorOf;
    forall k | i <= k <= j ensures Inv(states[k]) && n < |states[k].nets| {
      RunInv(states, ops, k);
      Frozen(states, ops, i, k, n);
    }
    if i < j {
      AllocatorRun(states, ops, i, j - 1, n);
      Frozen(states, ops, i, j - 1, n);
      AllocatorStep(states[j - 1], ops[j - 1], n);
      assert states[j] == Apply(states[j - 1], ops[j - 1]).0;
    }
  }

  /** It does happen: the allocator of a loaded network is replaced. */
  lemma AllocatorReplaced() returns (states: seq<State>, ops: seq<Op>)
    ensures IsRun(states, ops) && |ops| == 5 && |states[4].nets| == 2 && states[4].nets[0].core.loaded
    ensures ops[4] == SetAllocator(1, 7) && Inv(states[4]) && ReplacesAllocator(states[4], ops[4], 0)
  {
    states, ops := SharedManagerRun();
    hide IsRun, Apply;
    RunInv(states, ops, 4);
  }

  lemma SharedManagerRun() returns (states: seq<State>, ops: seq<Op>)
    ensures IsRun(states, ops) && |ops| == 5 && ops[4] == SetAllocator(1, 7)
    ensures |states[4].nets| == 2 && states[4].nets[0].core.loaded && !states[4].nets[1].core.loaded
    ensures states[4].nets[0].manager == states[4].nets[1].manager == 0 && |states[4].allocators| == 2
    ensures states[4].allocators[0] == 0
  {
    hide Configure, ApplicationConfig, WithThreads, WithInplace, WithDevice;
    var s1, s2, s3 := TwoSharing();
    ops := [Create(true, 0), Create(true, 0), ShareMemory(1, 0, false),
            Load(0, 10, None, NONE_SEPARATE, Done), SetAllocator(1, 7)];
    var s4 := Apply(s3, ops[3]).0;
    states := [START, s1, s2, s3, s4, Apply(s4, ops[4]).0];
  }

  lemma TwoSharing() returns (s1: State, s2: State, s3: State)
    ensures s1 == Apply(START, Create(true, 0)).0 && s2 == Apply(s1, Create(true, 0)).0
    ensures OpOk(s2, ShareMemory(1, 0, false)) && s3 == Apply(s2, ShareMemory(1, 0, false)).0
    ensures |s3.nets| == |s3.allocators| == 2 && s3.allocators[0] == 0
    ensures s3.nets[0] == Net(NewCore(true, 0), 0, false, 0) && s3.nets[1] == Net(NewCore(true, 0), 1, false, 0)
  {
    hide Configure;
    s1 := Apply(START, Create(true, 0)).0;
    s2 := Apply(s1, Create(true, 0)).0;
    s3 := Apply(s2, ShareMemory(1, 0, false)).0;
  }

  /** Separate settings that ask for nothing the network does not have. */
  predicate AsksForNothing(s: Settings, p: Separate) {
    && (SeparateDevice(s, p).Some? ==> s.device == s.deviceId == SeparateDevice(s, p).value)
    && (p.threads > 1 ==> s.threads == s.stream == p.threads && s.kind == Multithread)
    && (p.inplace ==> s.inplace)
    && (p.tensorrt ==> s.tensorrt)
  }

  lemma SeparateChangesIff(s: Settings, p: Separate)
    requires ApplySeparate(s, p).1
    ensures ApplySeparate(s, p).0 == s <==> AsksForNothing(s, p)
  {
  }

  /**
    Where configuration by the model is disabled, a load that returns leaves the settings to the network's own
    configuration exactly if the model's separate settings ask for nothing else.
   */
  lemma DisabledInfoStillApplies(c: Core, model: Model, info: Option<(bool, int)>, p: Separate, ends: Stage)
    requires c.disableInfo && LoadCore(c, model, info, p, ends).ok
    ensures LoadCore(c, model, info, p, ends).core.settings == ApplicationConfig(c.settings)
       <==> AsksForNothing(ApplicationConfig(c.settings), p)
  {
    hide ApplicationConfig, AsksForNothing, ApplySeparate;
    SeparateChangesIff(ApplicationConfig(c.settings), p);
  }

  /** A model that comes with a device id moves a network whose configuration by the model is disabled. */
  lemma DisabledInfoMovesDevice(c: Core, model: Model, id: int)
    requires c.disableInfo && id != ApplicationConfig(c.settings).device
    ensures LoadCore(c, model, None, Separate(Some(id), 0, false, false), Done).core.settings.device == id
  {
  }

  /** Setting the number of threads keeps the stream id exactly if it asks for one thread, or for as many as the id. */
  lemma ThreadsReplaceStream(c: Core, n: nat)
    requires SetCore(c, Threads(n)).ok
    ensures SetCore(c, Threads(n)).core.settings.stream == c.settings.stream <==> n <= 1 || n == c.settings.stream
  {
  }

  // ---- the objects -----------------------------------------------------------------------------------

  /** `StaticDeviceMemoryManager`: holds the allocator, and may belong to several networks. */
  class MemoryManager {
    var allocator: nat

    constructor ()
      ensures allocator == 0
    {
      allocator := 0;
    }
  }

  class Network {
    var loaded: bool
    var loader: Option<Model>
    var weights: Option<Model>
    var disableInfo: bool
    var settings: Settings
    var manager: MemoryManager

    ghost function Now(): Core
      reads this
    {
      Core(loaded, loader, weights, disableInfo, settings)
    }

    constructor (cpu: bool, deviceId: int)
      ensures Now() == NewCore(cpu, deviceId) && fresh(manager) && manager.allocator == 0
    {
      loaded, loader, weights, disableInfo := false, None, None, false;
      settings := Configure(Settings(cpu, 0, Other, -1, 0, 1, false, false, false, false), cpu, deviceId);
      manager := new MemoryManager();
    }

    method Set(x: Setting) returns (ok: bool)
      modifies this`settings
      ensures var o := SetCore(old(Now()), x); Now() == o.core && ok == o.ok
    {
      if loaded || ((x.Threads? || x.Inplace?) && !settings.cpu) {
        return false;
      }
      ok := true;
      match x
      case Device(id) => settings := WithDevice(settings, id);
      case Stream(id) => settings := settings.(stream := id);
      case Threads(n) => settings := WithThreads(settings, n);
      case Inplace => settings := WithInplace(settings);
      case Tensorrt => settings := settings.(tensorrt := true);
      case LayoutTransform => settings := settings.(layoutTransform := true);
      case OnlyConfigured => settings := settings.(onlyConfigured := true);
    }

    method SetAllocator(allocator: nat) returns (ok: bool)
      modifies manager
      ensures ok == !loaded && manager.allocator == if ok then allocator else old(manager.allocator)
    {
      ok := !loaded;
      if ok {
        manager.allocator := allocator;
      }
    }

    method ShareRuntimeMemoryWith(src: Network, compiled: bool) returns (ok: bool)
      modifies this`manager
      ensures ok == !(loaded || compiled) && manager == if ok then old(src.manager) else old(manager)
    {
      ok := !loaded && !compiled;
      if ok {
        manager := src.manager;
      }
    }

    method ExtraConfigure(disable: bool) returns (ok: bool)
      modifies this`disableInfo
      ensures ok == (disable || !loaded) && disableInfo == if ok then disable else old(disableInfo)
    {
      ok := disable || !loaded;
      if ok {
        disableInfo := disable;
      }
    }

    /** Build the graph with a loader, and finish: `m_loaded` is set last. */
    method Finish(from: Option<Model>, ends: Stage) returns (ok: bool)
      modifies this`weights, this`loaded
      ensures var o := Build(old(Now()), from, ends); Now() == o.core && ok == o.ok
    {
      if ends == Loading || from.None? {
        return false;
      }
      weights := from;
      if ends == Finishing {
        return false;
      }
      loaded := true;
      ok := true;
    }

    method Load(model: Model, info: Option<(bool, int)>, p: Separate, ends: Stage) returns (ok: bool)
      modifies this`loaded, this`loader, this`weights, this`settings
      ensures var o := LoadCore(old(Now()), model, info, p, ends); Now() == o.core && ok == o.ok
    {
      hide ApplySeparate, Configure, ApplicationConfig, Build;
      if ends == Parsing {
        return false;
      }
      if info.Some? && !disableInfo {
        settings := Configure(settings, info.value.0, info.value.1);
      }
      if ends == Decrypting {
        return false;
      }
      if loader.None? {
        if ends == Making {
          return false;
        }
        loader := Some(model);
      }
      settings := ApplicationConfig(settings);
      if ends == Configuring {
        return false;
      }
      var (s, fine) := ApplySeparate(settings, p);
      settings := s;
      ok := Finish(loader, if fine then ends else Loading);
    }

    method SharedWeightWith(src: Network, ends: Stage) returns (ok: bool)
      modifies this`loaded, this`weights, this`settings
      ensures var o := ShareCore(old(Now()), old(src.Now()), ends); Now() == o.core && ok == o.ok
    {
      if !src.loaded {
        return false;
      }
      settings := ApplicationConfig(settings);
      if ends == Configuring {
        return false;
      }
      ok := Finish(src.loader, ends);
    }
  }
}
