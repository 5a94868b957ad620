/** Bit-combined enums of the operator parameters: integers, tuples of member indexes and tuples of member names. */
module ParamEnum {
  import opened Arith
  import opened Wrappers

  /** `compose_combined_enum` on indexes: the sum of one bit per index. */
  function Compose(t: seq<nat>): nat {
    if t == [] then 0 else Compose(t[..|t| - 1]) + Pow2(t[|t| - 1])
  }

  function Shifted(v: int, i: nat): (s: int)
    ensures v == 0 ==> s == 0
    ensures i == 0 ==> s == v
  {
    v * Pow2(i)
  }

  predicate Increasing(t: seq<nat>) {
    forall i, j :: 0 <= i < j < |t| ==> t[i] < t[j]
  }

  /** `decompose_combined_enum`: a negative integer has no members. */
  method Decompose(v: int) returns (members: seq<nat>)
    ensures Increasing(members)
    ensures Compose(members) == if v < 0 then 0 else v
  {
    var rest, idx := v, 0;
    members := [];
    assert Compose([]) == 0;
    hide Compose, Pow2, Shifted;
    while rest > 0
      invariant v >= 0 ==> rest >= 0 && Compose(members) + Shifted(rest, idx) == v
      invariant v < 0 ==> rest == v && members == []
      invariant Increasing(members) && forall i :: 0 <= i < |members| ==> members[i] < idx
    {
      BitStep(members, rest, idx);
      if rest % 2 == 1 {
        members := members + [idx];
      }
      idx := idx + 1;
      rest := rest / 2;
    }
  }

  /** Taking the lowest bit off `rest` keeps what is composed. */
  lemma BitStep(members: seq<nat>, rest: int, idx: nat)
    requires rest >= 0
    ensures Compose(if rest % 2 == 1 then members + [idx] else members) + Shifted(rest / 2, idx + 1)
         == Compose(members) + Shifted(rest, idx)
  {
    assert (members + [idx])[..|members|] == members;
    Halve(rest, Pow2(idx));
  }

  lemma Halve(v: int, p: int)
    requires v >= 0
    ensures v * p == v / 2 * (2 * p) + if v % 2 == 1 then p else 0
  {
  }

  /** Increasing indexes compose to something below the next power of two. */
  lemma {:induction false} ComposeBound(t: seq<nat>, n: nat)
    requires Increasing(t) && forall i :: 0 <= i < |t| ==> t[i] < n
    ensures Compose(t) < Pow2(n)
  {
    if t != [] {
      var last := t[|t| - 1];
      ComposeBound(t[..|t| - 1], last);
      Pow2Monotone(last + 1, n);
    }
  }

  /** Different increasing tuples compose to different integers. */
  lemma {:induction false} ComposeInjective(s: seq<nat>, t: seq<nat>)
    requires Increasing(s) && Increasing(t) && Compose(s) == Compose(t)
    ensures s == t
    decreases |s|
  {
    if s == [] || t == [] {
      assert s == t;
    } else {
      var x, y := s[|s| - 1], t[|t| - 1];
      ComposeBound(s, x + 1);
      ComposeBound(t, y + 1);
      if x < y {
        Pow2Monotone(x + 1, y);
      } else if y < x {
        Pow2Monotone(y + 1, x);
      }
      ComposeInjective(s[..|s| - 1], t[..|t| - 1]);
      assert s == s[..|s| - 1] + [x] && t == t[..|t| - 1] + [y];
    }
  }

  /** Composing and decomposing gives a tuple back exactly when it is strictly increasing. */
  method DecomposeCompose(t: seq<nat>) returns (members: seq<nat>)
    ensures members == t <==> Increasing(t)
  {
    members := Decompose(Compose(t));
    if Increasing(t) {
      ComposeInjective(members, t);
    }
  }

  // ---- defaults given as names, indexes or an integer ------------------------------------------

  /** A member as declared: its name, and the value its declaration gives it. */
  datatype Member = Member(name: string, value: nat)

  datatype Item = Name(name: string) | Index(index: nat)

  datatype Value = Whole(v: int) | Tuple(items: seq<Item>)

  predicate IsFirst(members: seq<Member>, name: string, i: nat) {
    i < |members| && members[i].name == name && forall j :: 0 <= j < i ==> members[j].name != name
  }

  /** The index an item stands for; `None` is the error about a member that does not exist. */
  method NormalizeItem(members: seq<Member>, item: Item) returns (r: Option<nat>)
    ensures item.Index? ==> r == Some(item.index)
    ensures item.Name? && r.Some? ==> IsFirst(members, item.name, r.value)
    ensures item.Name? && r.None? ==> forall j :: 0 <= j < |members| ==> members[j].name != item.name
  {
    if item.Index? {
      return Some(item.index);
    }
    for i := 0 to |members|
      invariant forall j :: 0 <= j < i ==> members[j].name != item.name
    {
      if members[i].name == item.name {
        return Some(i);
      }
    }
    return None;
  }

  predicate Stands(members: seq<Member>, item: Item, i: nat) {
    if item.Index? then i == item.index else IsFirst(members, item.name, i)
  }

  /** `normalize_enum_value` of a combined enum. */
  method Normalize(members: seq<Member>, value: Value) returns (r: Option<seq<nat>>)
    ensures value.Whole? ==> r.Some? && Increasing(r.value) && Compose(r.value) == if value.v < 0 then 0 else value.v
    ensures value.Tuple? && r.Some? ==>
      |r.value| == |value.items| && forall i :: 0 <= i < |r.value| ==> Stands(members, value.items[i], r.value[i])
    ensures value.Tuple? && r.None? ==>
      exists i :: 0 <= i < |value.items| && value.items[i].Name?
        && forall j :: 0 <= j < |members| ==> members[j].name != value.items[i].name
  {
    if value.Whole? {
      var m := Decompose(value.v);
      return Some(m);
    }
    var t: seq<nat> := [];
    for i := 0 to |value.items|
      invariant |t| == i && forall j :: 0 <= j < i ==> Stands(members, value.items[j], t[j])
    {
      var x := NormalizeItem(members, value.items[i]);
      if x.None? {
        return None;
      }
      t := t + [x.value];
    }
    return Some(t);
  }

  /** The items name members `t`, one way or the other. */
  predicate Denotes(members: seq<Member>, items: seq<Item>, t: seq<nat>) {
    && |items| == |t|
    && forall i :: 0 <= i < |t| ==>
         t[i] < |members| && (items[i] == Index(t[i]) || items[i] == Name(members[t[i]].name))
  }

  predicate DistinctNames(members: seq<Member>) {
    forall i, j :: 0 <= i < j < |members| ==> members[i].name != members[j].name
  }

  /**
    The same members given as names, as indexes, or as the integer of their bits, in increasing order,
    normalise alike.
   */
  method NormalizeAgrees(members: seq<Member>, items: seq<Item>, t: seq<nat>)
      returns (a: Option<seq<nat>>, b: Option<seq<nat>>)
    requires DistinctNames(members) && Denotes(members, items, t)
    ensures a == Some(t)
    ensures b == Some(t) <==> Increasing(t)
  {
    a := Normalize(members, Tuple(items));
    forall i | 0 <= i < |t| ensures a.value[i] == t[i] {
      assert Stands(members, items[i], a.value[i]);
    }
    assert a.value == t;
    b := Normalize(members, Whole(Compose(t)));
    if Increasing(t) {
      ComposeInjective(b.value, t);
    }
  }

  /** Sum of the declared values of the members. */
  function Declared(members: seq<Member>, t: seq<nat>): nat
    requires forall i :: 0 <= i < |t| ==> t[i] < |members|
  {
    if t == [] then 0 else Declared(members, t[..|t| - 1]) + members[t[|t| - 1]].value
  }

  predicate Within(members: seq<Member>, t: seq<nat>) {
    forall i :: 0 <= i < |t| ==> t[i] < |members|
  }

  /**
    The composed default is what the declared members add up to, for all tuples, exactly when member
    `i` is declared as bit `i`.
   */
  lemma ComposedIsDeclaredIff(members: seq<Member>)
    ensures (forall t :: Within(members, t) ==> Compose(t) == Declared(members, t))
        <==> (forall i :: 0 <= i < |members| ==> members[i].value == Pow2(i))
  {
    if forall i :: 0 <= i < |members| ==> members[i].value == Pow2(i) {
      forall t | Within(members, t) ensures Compose(t) == Declared(members, t) {
        ComposedIsDeclared(members, t);
      }
    }
    if forall t :: Within(members, t) ==> Compose(t) == Declared(members, t) {
      forall i | 0 <= i < |members| ensures members[i].value == Pow2(i) {
        assert Within(members, [i]) && [i][..0] == [];
        assert Compose([i]) == Compose([]) + Pow2(i)
            && Declared(members, [i]) == Declared(members, []) + members[i].value;
      }
    }
  }

  lemma {:induction false} ComposedIsDeclared(members: seq<Member>, t: seq<nat>)
    requires Within(members, t) && forall i :: 0 <= i < |members| ==> members[i].value == Pow2(i)
    ensures Compose(t) == Declared(members, t)
  {
    if t != [] {
      ComposedIsDeclared(members, t[..|t| - 1]);
    }
  }
}
