/**
  Lazy binding of a wrapped library: every API entry jumps through a table whose slots start
  as `_init` thunks. A thunk takes a mutex, fills the whole table once and dispatches again;
  the entries read the table without the mutex. Any number of threads, any table length,
  one shared-memory access per step, sequentially consistent.
 */
module LazyBind {
  import opened Wrappers

  type Handle = int
  type Address = int

  /** What a table slot can hold. */
  datatype Target = Init(slot: nat) | Error(slot: nat) | Symbol(address: Address)

  /** The wrapped library: names by slot, the outcome of each handle lookup, and symbol resolution. */
  datatype Library = Library(
    names: seq<string>, lookup: nat -> Option<Handle>, resolve: (Handle, string) -> Option<Address>)

  /** `func` of the loop body: the resolved symbol, or the error stub without a handle or a symbol. */
  function Bind(lib: Library, handle: Option<Handle>, i: nat): Target
    requires i < |lib.names|
  {
    if handle.None? then Error(i)
    else match lib.resolve(handle.value, lib.names[i])
      case None => Error(i)
      case Some(a) => Symbol(a)
  }

  /** Where a thread is. `slot` is the API entry it is calling, `thunks` how many thunks the call has gone through. */
  datatype Pc =
    | Idle
    | Entry(slot: nat, thunks: nat)              // about to read the table
    | Jump(slot: nat, thunks: nat, f: Target)    // about to call what it read
    | Lock(slot: nat, thunks: nat)               // in load_library, before the mutex
    | Check(slot: nat, thunks: nat)              // holds the mutex, reads `done`
    | Lookup(slot: nat, thunks: nat)             // get_library_handle
    | Loop(slot: nat, thunks: nat, handle: Option<Handle>, i: nat)
    | SetDone(slot: nat, thunks: nat)
    | Unlock(slot: nat, thunks: nat)
    | Called(slot: nat, thunks: nat, f: Target)  // ended up in `f`, which is no thunk

  datatype State = State(table: seq<Target>, done: bool, owner: Option<nat>, lookups: nat, threads: seq<Pc>)

  /** A thread starts a call, or takes its next step. */
  datatype Action = Call(t: nat, slot: nat) | Run(t: nat)

  function InitTable(n: nat): (table: seq<Target>)
    ensures |table| == n && forall i :: 0 <= i < n ==> table[i] == Init(i)
  {
    seq(n, i requires 0 <= i < n => Init(i))
  }

  function Start(lib: Library, nrThreads: nat): State {
    State(InitTable(|lib.names|), false, None, 0, seq(nrThreads, t => Idle))
  }

  predicate Enabled(lib: Library, s: State, a: Action) {
    && a.t < |s.threads|
    && match a
       case Call(t, slot) => (s.threads[t].Idle? || s.threads[t].Called?) && slot < |lib.names|
       case Run(t) => var pc := s.threads[t]; !pc.Idle? && !pc.Called? && (pc.Lock? ==> s.owner.None?)
  }

  predicate Shaped(lib: Library, s: State) {
    && |s.table| == |lib.names|
    && forall t :: 0 <= t < |s.threads| && !s.threads[t].Idle? ==> s.threads[t].slot < |lib.names|
  }

  function Goto(s: State, t: nat, pc: Pc): State
    requires t < |s.threads|
  {
    s.(threads := s.threads[t := pc])
  }

  function Next(lib: Library, s: State, a: Action): State
    requires Shaped(lib, s) && Enabled(lib, s, a)
  {
    var t := a.t;
    match a
    case Call(_, slot) => Goto(s, t, Entry(slot, 0))
    case Run(_) =>
      match s.threads[t]
      case Entry(slot, k) => Goto(s, t, Jump(slot, k, s.table[slot]))
      case Jump(slot, k, f) => Goto(s, t, if f.Init? then Lock(f.slot, k + 1) else Called(slot, k, f))
      case Lock(slot, k) => Goto(s, t, Check(slot, k)).(owner := Some(t))
      case Check(slot, k) => Goto(s, t, if s.done then Unlock(slot, k) else Lookup(slot, k))
      case Lookup(slot, k) => Goto(s, t, Loop(slot, k, lib.lookup(s.lookups), 0)).(lookups := s.lookups + 1)
      case Loop(slot, k, handle, i) =>
        if i < |s.table| then
          Goto(s, t, Loop(slot, k, handle, i + 1)).(table := s.table[i := Bind(lib, handle, i)])
        else Goto(s, t, SetDone(slot, k))
      case SetDone(slot, k) => Goto(s, t, Unlock(slot, k)).(done := true)
      case Unlock(slot, k) => Goto(s, t, Entry(slot, k)).(owner := None)
      case Idle => s
      case Called(_, _, _) => s
  }

  // ---- the invariant ---------------------------------------------------------------------

  /** What slot `i` holds once it is bound. */
  function Final(lib: Library, i: nat): Target
    requires i < |lib.names|
  {
    Bind(lib, lib.lookup(0), i)
  }

  predicate Holds(pc: Pc) {
    pc.Check? || pc.Lookup? || pc.Loop? || pc.SetDone? || pc.Unlock?
  }

  /** Slots below `k` are bound, the others still thunks. */
  predicate BoundBelow(lib: Library, table: seq<Target>, k: nat) {
    && |table| == |lib.names|
    && forall i :: 0 <= i < |table| ==> table[i] == if i < k then Final(lib, i) else Init(i)
  }

  /** How far the table is, read off the holder of the mutex. */
  function Filled(lib: Library, s: State): nat
    requires s.owner.Some? ==> s.owner.value < |s.threads|
  {
    if s.done then |lib.names|
    else if s.owner.None? then 0
    else match s.threads[s.owner.value]
      case Loop(_, _, _, i) => i
      case SetDone(_, _) => |lib.names|
      case _ => 0
  }

  predicate ThreadOk(lib: Library, s: State, t: nat)
    requires t < |s.threads|
  {
    var pc := s.threads[t];
    && (!pc.Idle? ==> pc.slot < |lib.names| && pc.thunks <= 1)
    && (Holds(pc) <==> s.owner == Some(t))
    && (match pc
        case Entry(_, k) => k == 1 ==> s.done
        case Jump(slot, k, f) => f == Final(lib, slot) || (f == Init(slot) && k == 0)
        case Called(slot, _, f) => f == Final(lib, slot)
        case Lock(_, k) => k == 1
        case Check(_, k) => k == 1
        case Lookup(_, k) => k == 1 && !s.done && s.lookups == 0
        case Loop(_, k, handle, i) => k == 1 && !s.done && s.lookups == 1 && handle == lib.lookup(0) && i <= |lib.names|
        case SetDone(_, k) => k == 1 && !s.done && s.lookups == 1
        case Unlock(_, k) => k == 1 && s.done
        case Idle => true)
  }

  predicate Inv(lib: Library, s: State) {
    && (s.owner.Some? ==> s.owner.value < |s.threads|)
    && (forall t :: 0 <= t < |s.threads| ==> ThreadOk(lib, s, t))
    && BoundBelow(lib, s.table, Filled(lib, s))
    && (s.done ==> s.lookups == 1)
    && (!s.done && !(s.owner.Some? && (s.threads[s.owner.value].Loop? || s.threads[s.owner.value].SetDone?)) ==>
        s.lookups == 0)
  }

  lemma InvStart(lib: Library, nrThreads: nat)
    ensures Inv(lib, Start(lib, nrThreads))
  {
  }

  lemma InvShaped(lib: Library, s: State)
    requires Inv(lib, s)
    ensures Shaped(lib, s)
  {
    forall t | 0 <= t < |s.threads| && !s.threads[t].Idle? ensures s.threads[t].slot < |lib.names| {
      assert ThreadOk(lib, s, t);
    }
  }

  lemma ActorOk(lib: Library, s: State, a: Action)
    requires Inv(lib, s) && Shaped(lib, s) && Enabled(lib, s, a)
    ensures ThreadOk(lib, Next(lib, s, a), a.t)
  {
    assert ThreadOk(lib, s, a.t);
  }

  lemma OtherOk(lib: Library, s: State, a: Action, t: nat)
    requires Inv(lib, s) && Shaped(lib, s) && Enabled(lib, s, a) && t < |s.threads| && t != a.t
    ensures ThreadOk(lib, Next(lib, s, a), t)
  {
    assert ThreadOk(lib, s, a.t) && ThreadOk(lib, s, t);
    hide Inv;
    assert Next(lib, s, a).threads[t] == s.threads[t];
  }

  lemma InvNext(lib: Library, s: State, a: Action)
    requires Inv(lib, s) && Shaped(lib, s) && Enabled(lib, s, a)
    ensures Inv(lib, Next(lib, s, a))
  {
    var s' := Next(lib, s, a);
    assert ThreadOk(lib, s, a.t);
    ActorOk(lib, s, a);
    forall t | 0 <= t < |s'.threads| ensures ThreadOk(lib, s', t) {
      if t != a.t {
        OtherOk(lib, s, a, t);
      }
    }
  }

  // ---- whole runs --------------------------------------------------------------------------

  /** A run: the states an interleaving goes through from the start. */
  predicate IsRun(lib: Library, states: seq<State>, actions: seq<Action>) {
    && |states| == |actions| + 1
    && states[0] == Start(lib, |states[0].threads|)
    && forall k :: 0 <= k < |actions| ==> IsStep(lib, states[k], actions[k], states[k + 1])
  }

  predicate IsStep(lib: Library, s: State, a: Action, s': State) {
    Shaped(lib, s) && Enabled(lib, s, a) && s' == Next(lib, s, a)
  }

  lemma {:induction false} RunKeepsInv(lib: Library, states: seq<State>, actions: seq<Action>, k: nat)
    requires IsRun(lib, states, actions) && k < |states|
    ensures Inv(lib, states[k])
  {
    if k == 0 {
      InvStart(lib, |states[0].threads|);
    } else {
      RunKeepsInv(lib, states, actions, k - 1);
      assert IsStep(lib, states[k - 1], actions[k - 1], states[k]);
      InvNext(lib, states[k - 1], actions[k - 1]);
    }
  }

  /** A step leaves each slot alone or binds it; a bound slot stays. */
  lemma SlotStep(lib: Library, s: State, a: Action, i: nat)
    requires Inv(lib, s) && Shaped(lib, s) && Enabled(lib, s, a) && i < |lib.names|
    ensures |Next(lib, s, a).table| == |s.table|
    ensures s.table[i] == Init(i) || s.table[i] == Final(lib, i)
    ensures
      || Next(lib, s, a).table[i] == s.table[i]
      || (s.table[i] == Init(i) && Next(lib, s, a).table[i] == Final(lib, i))
  {
    assert ThreadOk(lib, s, a.t);
  }

  /** Over any run, a slot goes at most once from its thunk to its final value, and stays there. */
  lemma {:induction false} SlotChangesOnce(lib: Library, states: seq<State>, actions: seq<Action>, i: nat, j: nat,
      k: nat)
    requires IsRun(lib, states, actions) && j <= k < |states| && i < |lib.names|
    ensures |states[j].table| == |states[k].table| == |lib.names|
    ensures states[j].table[i] == Init(i) || states[j].table[i] == Final(lib, i)
    ensures states[j].table[i] == Final(lib, i) ==> states[k].table[i] == Final(lib, i)
    decreases k - j
  {
    RunKeepsInv(lib, states, actions, j);
    if j < k {
      assert IsStep(lib, states[j], actions[j], states[j + 1]);
      SlotStep(lib, states[j], actions[j], i);
      SlotChangesOnce(lib, states, actions, i, j + 1, k);
    }
  }

  /**
    Over any run: the handle is looked up at most once, a call goes through at most one thunk
    and ends in the final value of its own slot, and a thread back from `load_library` finds
    every slot bound.
   */
  lemma CallsReachTheirTarget(lib: Library, states: seq<State>, actions: seq<Action>, k: nat, t: nat)
    requires IsRun(lib, states, actions) && k < |states| && t < |states[k].threads|
    ensures states[k].lookups <= 1
    ensures var pc := states[k].threads[t];
      && (!pc.Idle? ==> pc.slot < |lib.names| && pc.thunks <= 1)
      && (pc.Called? ==> pc.f == Final(lib, pc.slot))
      && (pc.Entry? && pc.thunks == 1 ==> BoundBelow(lib, states[k].table, |lib.names|))
      && (pc.Loop? ==> BoundBelow(lib, states[k].table, pc.i))
  {
    RunKeepsInv(lib, states, actions, k);
    assert ThreadOk(lib, states[k], t);
    if states[k].owner.Some? {
      assert ThreadOk(lib, states[k], states[k].owner.value);
    }
  }

  /** A thread that is not asked to call again stays with the slot of its call. */
  lemma SlotKept(lib: Library, s: State, a: Action, t: nat)
    requires Inv(lib, s) && Shaped(lib, s) && Enabled(lib, s, a) && t < |s.threads| && !s.threads[t].Idle?
    requires !(a.Call? && a.t == t)
    ensures var pc := Next(lib, s, a).threads[t]; !pc.Idle? && pc.slot == s.threads[t].slot
  {
    assert ThreadOk(lib, s, t);
  }

  /**
    Over any run, from a call to the next call of the same thread, the thread is with the slot it called;
    so where the call ends, it has jumped to the final value of the slot that was called.
   */
  lemma {:induction false} CallsEndWhereTheyStarted(lib: Library, states: seq<State>, actions: seq<Action>,
      j: nat, k: nat, t: nat, slot: nat)
    requires IsRun(lib, states, actions) && j < k < |states| && actions[j] == Call(t, slot)
    requires forall i :: j < i < k ==> !(actions[i].Call? && actions[i].t == t)
    ensures t < |states[k].threads| && slot < |lib.names|
    ensures var pc := states[k].threads[t];
      && !pc.Idle? && pc.slot == slot
      && (pc.Called? ==> pc.f == Final(lib, slot))
      && (pc.Jump? && !pc.f.Init? ==> pc.f == Final(lib, slot))
    decreases k
  {
    assert IsStep(lib, states[k - 1], actions[k - 1], states[k]);
    RunKeepsInv(lib, states, actions, k);
    if j + 1 < k {
      CallsEndWhereTheyStarted(lib, states, actions, j, k - 1, t, slot);
      RunKeepsInv(lib, states, actions, k - 1);
      SlotKept(lib, states[k - 1], actions[k - 1], t);
    }
    assert ThreadOk(lib, states[k], t);
  }

  /** A thread between calls can call any entry. */
  lemma AnyEntryCanBeCalled(lib: Library, s: State, t: nat, slot: nat)
    requires t < |s.threads| && slot < |lib.names| && Shaped(lib, s)
    requires s.threads[t].Idle? || s.threads[t].Called?
    ensures Enabled(lib, s, Call(t, slot)) && Next(lib, s, Call(t, slot)).threads[t] == Entry(slot, 0)
  {
  }

  /** A bound slot is the symbol of its own name, or its own error stub exactly without a handle or symbol. */
  lemma FinalIsOwnSymbol(lib: Library, i: nat)
    requires i < |lib.names|
    ensures Final(lib, i) == Error(i) <==> lib.lookup(0).None? || lib.resolve(lib.lookup(0).value, lib.names[i]).None?
    ensures Final(lib, i) != Error(i) ==> Final(lib, i) == Symbol(lib.resolve(lib.lookup(0).value, lib.names[i]).value)
  {
  }

  // ---- progress ------------------------------------------------------------------------------

  /** Steps a call still has in front of it, at most. */
  function Rank(n: nat, pc: Pc): nat {
    match pc
    case Idle => 0
    case Called(_, _, _) => 0
    case Entry(_, k) => if k == 0 then n + 11 else 2
    case Jump(_, k, f) => if k == 0 then n + 10 else 1
    case Lock(_, _) => n + 9
    case Check(_, _) => n + 8
    case Lookup(_, _) => n + 7
    case Loop(_, _, _, i) => if i <= n then n - i + 5 else 5
    case SetDone(_, _) => 4
    case Unlock(_, _) => 3
  }

  function TotalRank(n: nat, threads: seq<Pc>): nat {
    if threads == [] then 0 else Rank(n, threads[0]) + TotalRank(n, threads[1..])
  }

  lemma {:induction false} RankUpdate(n: nat, threads: seq<Pc>, t: nat, pc: Pc)
    requires t < |threads|
    ensures TotalRank(n, threads[t := pc]) == TotalRank(n, threads) - Rank(n, threads[t]) + Rank(n, pc)
  {
    if t == 0 {
      assert threads[t := pc][1..] == threads[1..];
    } else {
      RankUpdate(n, threads[1..], t - 1, pc);
      assert threads[t := pc][1..] == threads[1..][t - 1 := pc];
    }
  }

  lemma RunDecreases(lib: Library, s: State, t: nat)
    requires Inv(lib, s) && Shaped(lib, s) && Enabled(lib, s, Run(t))
    ensures TotalRank(|lib.names|, Next(lib, s, Run(t)).threads) < TotalRank(|lib.names|, s.threads)
  {
    assert ThreadOk(lib, s, t);
    var pc := Next(lib, s, Run(t)).threads[t];
    assert Next(lib, s, Run(t)).threads == s.threads[t := pc];
    RankUpdate(|lib.names|, s.threads, t, pc);
  }

  /** Unless every call has ended, some thread can step: there is no deadlock on the mutex. */
  lemma SomeThreadCanStep(lib: Library, s: State, t: nat) returns (u: nat)
    requires Inv(lib, s) && t < |s.threads| && !s.threads[t].Idle? && !s.threads[t].Called?
    ensures Enabled(lib, s, Run(u))
  {
    u := if s.threads[t].Lock? && s.owner.Some? then s.owner.value else t;
    assert ThreadOk(lib, s, u);
  }

  /** From any state of a run, however the running threads are scheduled, the calls end within `TotalRank` steps. */
  lemma {:induction false} CallsEnd(lib: Library, states: seq<State>, actions: seq<Action>, j: nat, k: nat)
    requires IsRun(lib, states, actions) && j <= k < |states|
    requires forall i :: j <= i < k ==> actions[i].Run?
    ensures k - j + TotalRank(|lib.names|, states[k].threads) <= TotalRank(|lib.names|, states[j].threads)
    decreases k - j
  {
    if j < k {
      RunKeepsInv(lib, states, actions, j);
      assert IsStep(lib, states[j], actions[j], states[j + 1]);
      RunDecreases(lib, states[j], actions[j].t);
      CallsEnd(lib, states, actions, j + 1, k);
    }
  }

  /** The state a schedule leads to; steps that are not possible when their turn comes are skipped. */
  function Play(lib: Library, s: State, schedule: seq<Action>): State {
    if schedule == [] then s
    else
      var s' := Play(lib, s, schedule[..|schedule| - 1]);
      var a := schedule[|schedule| - 1];
      if Shaped(lib, s') && Enabled(lib, s', a) then Next(lib, s', a) else s'
  }

  // ---- the table in memory ---------------------------------------------------------------------

  /** The static data of one generated wrapper, shared by all threads, and where each thread is. */
  class Wrapper {
    const lib: Library
    const table: array<Target>
    const threads: array<Pc>
    var done: bool
    var owner: Option<nat>
    var lookups: nat

    ghost function View(): State
      reads this, table, threads
    {
      State(table[..], done, owner, lookups, threads[..])
    }

    ghost predicate Valid()
      reads this, table, threads
    {
      table as object != threads && Inv(lib, View())
    }

    constructor (lib: Library, nrThreads: nat)
      ensures Valid() && this.lib == lib && View() == Start(lib, nrThreads)
      ensures fresh(table) && fresh(threads)
    {
      this.lib := lib;
      table := new Target[|lib.names|](i requires 0 <= i => Init(i));
      threads := new Pc[nrThreads](i => Idle);
      done, owner, lookups := false, None, 0;
      new;
      InvStart(lib, nrThreads);
      assert table[..] == InitTable(|lib.names|);
      assert View() == Start(lib, nrThreads);
    }

    /** One step of one thread. Returns whether the step was possible; a thread blocked on the mutex does nothing. */
    method Perform(a: Action) returns (ok: bool)
      requires Valid()
      modifies this, table, threads
      ensures Valid()
      ensures ok == Enabled(lib, old(View()), a)
      ensures ok ==> Shaped(lib, old(View())) && View() == Next(lib, old(View()), a)
      ensures !ok ==> View() == old(View())
    {
      InvShaped(lib, View());
      ghost var s := View();
      if a.t >= threads.Length {
        return false;
      }
      if a.Call? {
        if !(threads[a.t].Idle? || threads[a.t].Called?) || a.slot >= table.Length {
          return false;
        }
        InvNext(lib, s, a);
        threads[a.t] := Entry(a.slot, 0);
      } else {
        var pc := threads[a.t];
        if pc.Idle? || pc.Called? || (pc.Lock? && owner.Some?) {
          return false;
        }
        InvNext(lib, s, a);
        StepThread(a.t);
      }
      assert View() == Next(lib, s, a);
      return true;
    }

    method StepThread(t: nat)
      requires t < threads.Length && Shaped(lib, View()) && Enabled(lib, View(), Run(t)) && table as object != threads
      modifies this, table, threads
      ensures View() == Next(lib, old(View()), Run(t))
    {
      match threads[t]
      case Entry(slot, k) => threads[t] := Jump(slot, k, table[slot]);
      case Jump(slot, k, f) => threads[t] := if f.Init? then Lock(f.slot, k + 1) else Called(slot, k, f);
      case Lock(slot, k) => owner := Some(t); threads[t] := Check(slot, k);
      case Check(slot, k) => threads[t] := if done then Unlock(slot, k) else Lookup(slot, k);
      case Lookup(slot, k) => threads[t] := Loop(slot, k, lib.lookup(lookups), 0); lookups := lookups + 1;
      case Loop(slot, k, handle, i) =>
        if i < table.Length {
          table[i] := Bind(lib, handle, i);
          threads[t] := Loop(slot, k, handle, i + 1);
        } else {
          threads[t] := SetDone(slot, k);
        }
      case SetDone(slot, k) => done := true; threads[t] := Unlock(slot, k);
      case Unlock(slot, k) => owner := None; threads[t] := Entry(slot, k);
      case Idle =>
      case Called(_, _, _) =>
    }

    /** Any interleaving: steps that are not possible when their turn comes are skipped. */
    method Execute(schedule: seq<Action>)
      requires Valid()
      modifies this, table, threads
      ensures Valid() && View() == Play(lib, old(View()), schedule)
      ensures forall i :: 0 <= i < table.Length && old(table[i]) == Final(lib, i) ==> table[i] == Final(lib, i)
    {
      for n := 0 to |schedule|
        invariant Valid() && View() == Play(lib, old(View()), schedule[..n])
        invariant forall i :: 0 <= i < table.Length && old(table[i]) == Final(lib, i) ==> table[i] == Final(lib, i)
      {
        ghost var s := View();
        var ok := Perform(schedule[n]);
        if ok {
          forall i | 0 <= i < table.Length && s.table[i] == Final(lib, i) ensures View().table[i] == Final(lib, i) {
            SlotStep(lib, s, schedule[n], i);
          }
        }
        InvShaped(lib, s);
        assert schedule[..n + 1][..n] == schedule[..n];
      }
      assert schedule[..|schedule|] == schedule;
    }
  }
}
