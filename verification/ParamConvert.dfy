/**
  The generated converters between an operator parameter and its flatbuffers table. Generated
  code is a list of terms with a meaning: arguments are passed by position, fields read by name.
 */
module ParamConvert {
  import ParamEnum
  import opened ParamPack
  import opened Wrappers

  type Value = int

  /** An enum: its members as declared, and the member or the combination of members that is the default. */
  datatype EnumDef =
    | Normal(members: seq<ParamEnum.Member>, index: nat)
    | Combined(members: seq<ParamEnum.Member>, indexes: seq<nat>)

  /** One declaration of a parameter; the default of a field is C++ text. */
  datatype Member =
    | Enum(name: string, def: EnumDef)
    | EnumAlias(name: string, src: EnumDef, own: Option<nat>)
    | Field(name: string, dtype: DType, text: string)
    | Const(name: string, text: string)

  /** Terms of the generated code: a field read as it is, cast to an enum, or converted as a data type. */
  datatype Term = Builder | Plain(name: string) | Cast(name: string) | Convert(name: string)

  /** A field of the flatbuffers table, and the default its schema gives it. */
  datatype TableField = TableField(name: string, value: Value)

  /** What the text of a literal means, and how data types are renumbered for flatbuffers. */
  datatype Meaning = Meaning(lit: string -> Value, toFbs: Value -> Value, toDnn: Value -> Value)

  ghost predicate Inverse(m: Meaning) {
    forall v :: m.toDnn(m.toFbs(v)) == v
  }

  // ---- defaults of enums ----------------------------------------------------------------------------

  /** The enum of a member, with the default it has there: `get_default` falls back to that of the source. */
  function EnumOf(f: Member): EnumDef
    requires f.Enum? || f.EnumAlias?
  {
    if f.Enum? then f.def else if f.own.Some? && f.src.Normal? then f.src.(index := f.own.value) else f.src
  }

  /** `scramble_enum_member_name` on a plain name. */
  function Scramble(name: string): string {
    if name == "MIN" || name == "MAX" then name + "_" else name
  }

  function Declared(members: seq<ParamEnum.Member>): (names: seq<string>)
    ensures |names| == |members|
  {
    seq(|members|, i requires 0 <= i < |members| => members[i].name)
  }

  function Scrambled(members: seq<ParamEnum.Member>): (names: seq<string>)
    ensures |names| == |members|
  {
    seq(|members|, i requires 0 <= i < |members| => Scramble(members[i].name))
  }

  /** The value a name stands for in an enum whose members are so called. */
  function ValueNamed(names: seq<string>, members: seq<ParamEnum.Member>, name: string, i: nat): Value
    requires i <= |names| == |members|
    decreases |names| - i
  {
    if i == |names| then 0 else if names[i] == name then members[i].value else ValueNamed(names, members, name, i + 1)
  }

  /** In C++: the enumerator of that name, or the composed number. */
  function CppEnumDefault(d: EnumDef): Value {
    if d.Combined? then ParamEnum.Compose(d.indexes)
    else if d.index >= |d.members| then 0
    else ValueNamed(Declared(d.members), d.members, d.members[d.index].name, 0)
  }

  /** In the schema: the member of the scrambled name among members with scrambled names, or the composed number. */
  function FbEnumDefault(d: EnumDef): Value {
    if d.Combined? then ParamEnum.Compose(d.indexes)
    else if d.index >= |d.members| then 0
    else ValueNamed(Scrambled(d.members), d.members, Scramble(d.members[d.index].name), 0)
  }

  lemma {:induction false} ValueOfOwnName(names: seq<string>, members: seq<ParamEnum.Member>, k: nat, i: nat)
    requires i <= k < |names| == |members| && Distinct(names)
    ensures ValueNamed(names, members, names[k], i) == members[k].value
    decreases k - i
  {
    if i < k {
      ValueOfOwnName(names, members, k, i + 1);
    }
  }

  /** Names are different, in C++ and in the schema, as both compilers demand. */
  predicate ProperNames(d: EnumDef) {
    Distinct(Declared(d.members)) && Distinct(Scrambled(d.members))
  }

  /** Then both defaults are the declared value of the default member. */
  lemma EnumDefaultsAgree(d: EnumDef)
    requires ProperNames(d)
    ensures FbEnumDefault(d) == CppEnumDefault(d)
    ensures d.Normal? && d.index < |d.members| ==> CppEnumDefault(d) == d.members[d.index].value
  {
    if d.Normal? && d.index < |d.members| {
      ValueOfOwnName(Declared(d.members), d.members, d.index, 0);
      ValueOfOwnName(Scrambled(d.members), d.members, d.index, 0);
    }
  }

  /** Scrambling makes two different names one exactly where an enum has `MIN` and `MIN_`, or `MAX` and `MAX_`. */
  lemma ScrambledDistinctIff(members: seq<ParamEnum.Member>)
    requires Distinct(Declared(members))
    ensures Distinct(Scrambled(members)) <==>
      && !("MIN" in Declared(members) && "MIN_" in Declared(members))
      && !("MAX" in Declared(members) && "MAX_" in Declared(members))
  {
    var a, b := Declared(members), Scrambled(members);
    assert "MIN" + "_" == "MIN_" && "MAX" + "_" == "MAX_";
    if "MIN" in a && "MIN_" in a {
      BothCollide(members, "MIN");
    } else if "MAX" in a && "MAX_" in a {
      BothCollide(members, "MAX");
    } else if !Distinct(b) {
      var i, j :| 0 <= i < j < |b| && b[i] == b[j];
      assert a[i] != a[j];
      assert a[i] in a && a[j] in a;
      ScrambleCollides(a[i], a[j]);
    }
  }

  lemma BothCollide(members: seq<ParamEnum.Member>, name: string)
    requires (name == "MIN" || name == "MAX") && name in Declared(members) && name + "_" in Declared(members)
    ensures !Distinct(Scrambled(members))
  {
    var a, b := Declared(members), Scrambled(members);
    var i :| 0 <= i < |a| && a[i] == name;
    var j :| 0 <= j < |a| && a[j] == name + "_";
    assert b[i] == name + "_" && b[j] == name + "_" by {
      assert |name + "_"| == 4;
    }
    assert i != j;
  }

  lemma ScrambleCollides(x: string, y: string)
    requires x != y && Scramble(x) == Scramble(y)
    ensures
      || (x == "MIN" && y == "MIN_") || (y == "MIN" && x == "MIN_")
      || (x == "MAX" && y == "MAX_") || (y == "MAX" && x == "MAX_")
  {
    assert "MIN" + "_" == "MIN_" && "MAX" + "_" == "MAX_";
    assert "MIN_"[1] != "MAX_"[1];
  }

  // ---- constants ----------------------------------------------------------------------------------

  /** `v` after following `n` definitions, or as many as there are. */
  function Follow(d: map<string, string>, v: string, n: nat): string {
    if n == 0 then v
    else
      var w := Follow(d, v, n - 1);
      if w in d then d[w] else w
  }

  /** Following definitions from `v` comes to an end. */
  ghost predicate Ends(d: map<string, string>, v: string) {
    exists n: nat :: Follow(d, v, n) !in d
  }

  /** `_resolve_const`, which returns exactly where following definitions ends. */
  method ResolveConst(d: map<string, string>, v: string) returns (r: string)
    requires Ends(d, v)
    ensures r !in d && exists n: nat :: r == Follow(d, v, n)
  {
    r := v;
    ghost var n: nat :| Follow(d, v, n) !in d;
    ghost var i := 0;
    while r in d
      invariant r == Follow(d, v, i) && i <= n
      decreases n - i
    {
      r := d[r];
      i := i + 1;
    }
  }

  /** The end does not depend on how far one follows. */
  lemma {:induction false} FollowSettles(d: map<string, string>, v: string, i: nat, j: nat)
    requires i <= j && Follow(d, v, i) !in d
    ensures Follow(d, v, j) == Follow(d, v, i)
    decreases j
  {
    if i < j {
      FollowSettles(d, v, i, j - 1);
    }
  }

  /** A constant defined as itself is never resolved. */
  lemma {:induction false} SelfNeverEnds(d: map<string, string>, v: string, n: nat)
    requires v in d && d[v] == v
    ensures Follow(d, v, n) == v
  {
    if n > 0 {
      SelfNeverEnds(d, v, n - 1);
    }
  }

  datatype Definition = Definition(name: string, text: string)

  /** Every constant has its own name, and refers to a literal or an earlier one. */
  predicate Ordered(cs: seq<Definition>) {
    && (forall i, j :: 0 <= i < j < |cs| ==> cs[i].name != cs[j].name)
    && (forall i, j :: 0 <= i < |cs| && 0 <= j < |cs| && cs[i].text == cs[j].name ==> j < i)
  }

  /** What `_cur_const_val` holds after the definitions. */
  function Dict(cs: seq<Definition>): (d: map<string, string>)
  {
    if cs == [] then map[] else Dict(cs[..|cs| - 1])[cs[|cs| - 1].name := cs[|cs| - 1].text]
  }

  /** The literal that C++ finds behind a name or literal, looking it up among the first `n` constants. */
  function Lookup(cs: seq<Definition>, n: nat, v: string): string
    requires n <= |cs|
  {
    if n == 0 then v
    else if cs[n - 1].name == v then Lookup(cs, n - 1, cs[n - 1].text)
    else Lookup(cs, n - 1, v)
  }

  lemma {:induction false} DictHas(cs: seq<Definition>, v: string)
    requires Ordered(cs)
    ensures v in Dict(cs) <==> exists i :: 0 <= i < |cs| && cs[i].name == v
    ensures forall i :: 0 <= i < |cs| ==> cs[i].name in Dict(cs) && Dict(cs)[cs[i].name] == cs[i].text
  {
    if cs != [] {
      DictHas(cs[..|cs| - 1], v);
      assert forall i :: 0 <= i < |cs| - 1 ==> cs[..|cs| - 1][i] == cs[i];
    }
  }

  /** Well-ordered constants resolve, to the literal C++ finds: each step goes to an earlier definition. */
  lemma {:induction false} OrderedEnds(cs: seq<Definition>, n: nat, v: string) returns (k: nat)
    requires Ordered(cs) && n <= |cs|
    requires forall i :: n <= i < |cs| ==> cs[i].name != v
    ensures Follow(Dict(cs), v, k) == Lookup(cs, n, v) && Lookup(cs, n, v) !in Dict(cs)
    decreases n
  {
    DictHas(cs, v);
    if n == 0 {
      k := 0;
    } else if cs[n - 1].name == v {
      var w := cs[n - 1].text;
      k := OrderedEnds(cs, n - 1, w);
      FollowFirst(Dict(cs), v, k);
      k := k + 1;
    } else {
      k := OrderedEnds(cs, n - 1, v);
    }
  }

  lemma {:induction false} FollowFirst(d: map<string, string>, v: string, k: nat)
    requires v in d
    ensures Follow(d, v, k + 1) == Follow(d, d[v], k)
  {
    if k > 0 {
      FollowFirst(d, v, k - 1);
    }
  }

  /** Where following well-ordered definitions ends is the literal C++ finds. */
  lemma ResolvedAsInCpp(cs: seq<Definition>, v: string, r: string)
    requires Ordered(cs) && r !in Dict(cs) && exists n: nat :: r == Follow(Dict(cs), v, n)
    ensures r == Lookup(cs, |cs|, v)
  {
    var k := OrderedEnds(cs, |cs|, v);
    var n: nat :| r == Follow(Dict(cs), v, n);
    FollowSettles(Dict(cs), v, if k <= n then k else n, if k <= n then n else k);
  }

  // ---- the writers ------------------------------------------------------------------------------------

  /** The members that become fields. */
  function Fields(ms: seq<Member>): seq<Member> {
    if ms == [] then []
    else if ms[|ms| - 1].Const? then Fields(ms[..|ms| - 1])
    else Fields(ms[..|ms| - 1]) + [ms[|ms| - 1]]
  }

  function Consts(ms: seq<Member>): seq<Definition> {
    if ms == [] then []
    else if ms[|ms| - 1].Const? then Consts(ms[..|ms| - 1]) + [Definition(ms[|ms| - 1].name, ms[|ms| - 1].text)]
    else Consts(ms[..|ms| - 1])
  }

  /** The term reads that field, converting exactly data types. */
  predicate Reads(t: Term, f: Member) {
    !t.Builder? && t.name == f.name && (t.Convert? <==> f.Field? && f.dtype == DTypeEnum)
  }

  predicate AllRead(ts: seq<Term>, fs: seq<Member>) {
    |ts| == |fs| && forall i :: 0 <= i < |fs| ==> Reads(ts[i], fs[i])
  }

  /** Size of a field in C++; enums are `uint32_t`. */
  function FieldSize(f: Member): nat {
    if f.Field? then SizeOf(f.dtype) else 4
  }

  predicate AreSizes(sizes: seq<nat>, fs: seq<Member>) {
    |sizes| == |fs| && forall i :: 0 <= i < |fs| ==> sizes[i] == FieldSize(fs[i])
  }

  predicate AreNames(names: seq<string>, fs: seq<Member>) {
    |names| == |fs| && forall i :: 0 <= i < |fs| ==> names[i] == fs[i].name
  }

  /** `CPPWriter`: constructor parameters, each assigned to the field of its name, and the members declared. */
  class CppWriter {
    var ctorArgs: seq<string>
    var nonStaticMembers: seq<nat>

    constructor () {
      ctorArgs, nonStaticMembers := [], [];
    }

    method Process(ms: seq<Member>)
      modifies this
      ensures AreNames(ctorArgs, Fields(ms)) && AreSizes(nonStaticMembers, Fields(ms))
    {
      ctorArgs, nonStaticMembers := [], [];
      for i := 0 to |ms|
        invariant AreNames(ctorArgs, Fields(ms[..i])) && AreSizes(nonStaticMembers, Fields(ms[..i]))
      {
        assert ms[..i + 1][..i] == ms[..i];
        match ms[i]
        case Const(_, _) =>
        case Enum(name, _) =>
          ctorArgs, nonStaticMembers := ctorArgs + [name], nonStaticMembers + [4];
        case EnumAlias(name, _, _) =>
          ctorArgs, nonStaticMembers := ctorArgs + [name], nonStaticMembers + [4];
        case Field(name, dtype, _) =>
          ctorArgs, nonStaticMembers := ctorArgs + [name], nonStaticMembers + [SizeOf(dtype)];
      }
      assert ms[..|ms|] == ms;
    }
  }

  /** `PyWriter`: the slots, and the format string of the packer. */
  class PyWriter {
    var slots: seq<string>
    var formats: string

    constructor () {
      slots, formats := [], "";
    }

    method Process(ms: seq<Member>)
      modifies this
      ensures AreNames(slots, Fields(ms)) && AreSizes(CalcSizes(formats), Fields(ms))
    {
      slots, formats := [], "";
      for i := 0 to |ms|
        invariant AreNames(slots, Fields(ms[..i])) && AreSizes(CalcSizes(formats), Fields(ms[..i]))
      {
        assert ms[..i + 1][..i] == ms[..i];
        match ms[i]
        case Const(_, _) =>
        case Enum(name, _) =>
          slots, formats := slots + [name], formats + "I";
        case EnumAlias(name, _, _) =>
          slots, formats := slots + [name], formats + "I";
        case Field(name, dtype, _) =>
          slots, formats := slots + [name], formats + [PyFormat(dtype)];
      }
      assert ms[..|ms|] == ms;
    }
  }

  /**
    For every parameter definition, what the generated Python packs is the generated C++ object of the
    same field values byte for byte, at the one layout C++ gives it, and of no other field values; except
    that without fields the byte of the object is whatever memory held.
   */
  method PackedIsObject(ms: seq<Member>, v: seq<seq<Byte>>, w: seq<seq<Byte>>, memory: nat -> Byte)
      returns (bytes: seq<Byte>, obj: array<Byte>, sizes: seq<nat>, offs: seq<nat>)
    requires AreValues(Fields(ms), v) && AreValues(Fields(ms), w)
    ensures AreSizes(sizes, Fields(ms)) && IsStruct(sizes, offs, |bytes|)
    ensures bytes == obj[..] <==> v == w && (Fields(ms) != [] || memory(0) == 0)
  {
    var python := new PyWriter();
    python.Process(ms);
    var cpp := new CppWriter();
    cpp.Process(ms);
    sizes := cpp.nonStaticMembers;
    assert CalcSizes(python.formats) == sizes;
    bytes, offs := Pack(python.formats, v);
    obj := Construct(sizes, w, offs, |bytes|, memory);
    if sizes == [] {
      assert bytes == [0];
    } else {
      SameBytesIffSameFields(sizes, offs, bytes, v, obj[..], w);
    }
  }

  /** A definition without fields, over memory that is not zero: the object differs from what Python packs. */
  method EmptyDefinitionDiffers() returns (bytes: seq<Byte>, obj: array<Byte>)
    ensures bytes != obj[..]
  {
    var sizes, offs;
    bytes, obj, sizes, offs := PackedIsObject([], [], [], i => 1);
  }

  predicate AreValues(fs: seq<Member>, v: seq<seq<Byte>>) {
    |v| == |fs| && forall i :: 0 <= i < |fs| ==> |v[i]| == FieldSize(fs[i])
  }

  /** `ConverterWriter`: the terms of the two generated functions. */
  class ConverterWriter {
    var paramFields: seq<Term>
    var fbFields: seq<Term>

    constructor () {
      paramFields, fbFields := [], [];
    }

    method Process(ms: seq<Member>)
      modifies this
      ensures AllRead(paramFields, Fields(ms))
      ensures |fbFields| > 0 && fbFields[0] == Builder && AllRead(fbFields[1..], Fields(ms))
    {
      paramFields, fbFields := [], [Builder];
      for i := 0 to |ms|
        invariant AllRead(paramFields, Fields(ms[..i]))
        invariant |fbFields| > 0 && fbFields[0] == Builder && AllRead(fbFields[1..], Fields(ms[..i]))
      {
        assert ms[..i + 1][..i] == ms[..i];
        match ms[i]
        case Const(_, _) =>
        case Enum(name, _) =>
          paramFields, fbFields := paramFields + [Cast(name)], fbFields + [Cast(name)];
        case EnumAlias(name, _, _) =>
          paramFields, fbFields := paramFields + [Cast(name)], fbFields + [Cast(name)];
        case Field(name, dtype, _) =>
          var t := if dtype == DTypeEnum then Convert(name) else Plain(name);
          paramFields, fbFields := paramFields + [t], fbFields + [t];
      }
      assert ms[..|ms|] == ms;
    }
  }

  /** The default in C++, where a constructor's default argument sees all constants. */
  function CppDefault(m: Meaning, cs: seq<Definition>, f: Member): Value
    requires !f.Const?
  {
    if f.Field? then m.lit(Lookup(cs, |cs|, f.text)) else CppEnumDefault(EnumOf(f))
  }

  /** The default the schema gives, as a flatbuffers value. */
  function FbDefault(m: Meaning, cs: seq<Definition>, f: Member): Value
    requires !f.Const?
  {
    if f.Field? && f.dtype == DTypeEnum then m.toFbs(CppDefault(m, cs, f)) else CppDefault(m, cs, f)
  }

  /** The default of an alias is the value of the source's member it names, or the source's default member. */
  lemma AliasDefault(m: Meaning, cs: seq<Definition>, f: Member)
    requires f.EnumAlias? && f.src.Normal? && ProperNames(f.src) && HasDefault(EnumOf(f))
    ensures var k := if f.own.Some? then f.own.value else f.src.index;
      && k < |f.src.members|
      && CppDefault(m, cs, f) == FbDefault(m, cs, f) == FbEnumDefault(EnumOf(f)) == f.src.members[k].value
  {
    EnumDefaultsAgree(EnumOf(f));
  }

  /** A field's default is not the name of a constant declared after it. */
  predicate DefaultsSeen(ms: seq<Member>) {
    forall i, j :: 0 <= i < j < |ms| && ms[i].Field? && ms[j].Const? ==> ms[i].text != ms[j].name
  }

  predicate IsTable(m: Meaning, table: seq<TableField>, cs: seq<Definition>, fs: seq<Member>) {
    && |table| == |fs|
    && forall i :: 0 <= i < |fs| ==> !fs[i].Const? && table[i] == TableField(fs[i].name, FbDefault(m, cs, fs[i]))
  }

  /** `FlatBuffersWriter`: the table, with constants resolved as they come. */
  class FlatBuffersWriter {
    var table: seq<TableField>
    var curConstVal: map<string, string>

    constructor () {
      table, curConstVal := [], map[];
    }

    method Process(m: Meaning, ms: seq<Member>)
      requires Resolvable(ms)
      modifies this
      ensures AreNames(Names(table), Fields(ms))
      ensures Agreeable(ms) ==> IsTable(m, table, Consts(ms), Fields(ms))
    {
      hide Fields, Consts, Ordered, IsTable, Dict, Names, AreNames, FbEnumDefault, CppEnumDefault, Ends;
      table, curConstVal := [], map[];
      EmptyTable(m, ms);
      for i := 0 to |ms|
        invariant curConstVal == Dict(Consts(ms[..i]))
        invariant AreNames(Names(table), Fields(ms[..i]))
        invariant Agreeable(ms) ==> IsTable(m, table, Consts(ms[..i]), Fields(ms[..i]))
      {
        DictStep(ms, i);
        if Agreeable(ms) {
          TableStep(m, table, ms, i);
        }
        if ms[i].Const? {
          curConstVal := curConstVal[ms[i].name := ms[i].text];
        } else {
          var v := Default(m, ms, i);
          NamesStep(table, TableField(ms[i].name, v), ms, i);
          table := table + [TableField(ms[i].name, v)];
        }
      }
      assert ms[..|ms|] == ms;
    }

    /** The default written for a field; constants are resolved among those that came before it. */
    method Default(m: Meaning, ms: seq<Member>, i: nat) returns (v: Value)
      requires Resolvable(ms) && i < |ms| && !ms[i].Const? && curConstVal == Dict(Consts(ms[..i]))
      ensures Agreeable(ms) ==> v == FbDefault(m, Consts(ms[..i]), ms[i])
    {
      hide Consts, Ordered, Dict, FbEnumDefault, CppEnumDefault, ProperNames;
      var f := ms[i];
      if !f.Field? {
        if Agreeable(ms) {
          EnumDefaultsAgree(EnumOf(f));
        }
        return FbEnumDefault(EnumOf(f));
      }
      var r := ResolveConst(curConstVal, f.text);
      if Agreeable(ms) {
        OrderedPrefix(ms, i);
        ResolvedAsInCpp(Consts(ms[..i]), f.text, r);
      }
      v := m.lit(r);
      if f.dtype == DTypeEnum {
        v := m.toFbs(v);
      }
    }
  }

  /** Every default can be written: enums have their default member, and following constants ends. */
  ghost predicate Resolvable(ms: seq<Member>) {
    forall i :: 0 <= i < |ms| ==>
      && (ms[i].Field? ==> Ends(Dict(Consts(ms[..i])), ms[i].text))
      && (ms[i].Enum? || ms[i].EnumAlias? ==> HasDefault(EnumOf(ms[i])))
  }

  predicate HasDefault(d: EnumDef) {
    d.Normal? ==> d.index < |d.members|
  }

  /** C++ and the schema compiler read the same: constants in order, none named by an earlier field, proper names. */
  ghost predicate Agreeable(ms: seq<Member>) {
    && Ordered(Consts(ms)) && DefaultsSeen(ms)
    && forall i :: 0 <= i < |ms| && (ms[i].Enum? || ms[i].EnumAlias?) ==> ProperNames(EnumOf(ms[i]))
  }

  /** Well-ordered constants can always be resolved. */
  lemma OrderedIsResolvable(ms: seq<Member>)
    requires Ordered(Consts(ms))
    requires forall i :: 0 <= i < |ms| && (ms[i].Enum? || ms[i].EnumAlias?) ==> HasDefault(EnumOf(ms[i]))
    ensures Resolvable(ms)
  {
    hide Ends, Ordered;
    forall i | 0 <= i < |ms| ensures ms[i].Field? ==> Ends(Dict(Consts(ms[..i])), ms[i].text) {
      OrderedPrefix(ms, i);
    }
  }

  lemma DictStep(ms: seq<Member>, i: nat)
    requires i < |ms|
    ensures var cs, ds := Consts(ms[..i]), Consts(ms[..i + 1]);
      if ms[i].Const? then Dict(ds) == Dict(cs)[ms[i].name := ms[i].text] && Fields(ms[..i + 1]) == Fields(ms[..i])
      else ds == cs
  {
    assert ms[..i + 1][..i] == ms[..i];
    var cs := Consts(ms[..i]);
    if ms[i].Const? {
      assert (cs + [Definition(ms[i].name, ms[i].text)])[..|cs|] == cs;
    }
  }

  lemma NamesStep(table: seq<TableField>, f: TableField, ms: seq<Member>, i: nat)
    requires i < |ms| && !ms[i].Const? && f.name == ms[i].name && AreNames(Names(table), Fields(ms[..i]))
    ensures AreNames(Names(table + [f]), Fields(ms[..i + 1]))
  {
    assert ms[..i + 1][..i] == ms[..i];
  }

  lemma EmptyTable(m: Meaning, ms: seq<Member>)
    ensures Consts(ms[..0]) == [] && Fields(ms[..0]) == [] && Dict([]) == map[] && IsTable(m, [], [], [])
      && AreNames(Names([]), [])
  {
  }

  lemma {:induction false} ConstsPrefix(ms: seq<Member>, i: nat)
    requires i <= |ms|
    ensures Consts(ms[..i]) <= Consts(ms)
    decreases |ms|
  {
    if i < |ms| {
      ConstsPrefix(ms[..|ms| - 1], i);
      assert ms[..|ms| - 1][..i] == ms[..i];
    } else {
      assert ms[..i] == ms;
    }
  }

  /** The constants before a member are well ordered, and following them ends. */
  lemma OrderedPrefix(ms: seq<Member>, i: nat)
    requires Ordered(Consts(ms)) && i <= |ms|
    ensures Ordered(Consts(ms[..i])) && forall v :: Ends(Dict(Consts(ms[..i])), v)
  {
    ConstsPrefix(ms, i);
    var cs := Consts(ms[..i]);
    assert Ordered(cs) by {
      assert forall j :: 0 <= j < |cs| ==> cs[j] == Consts(ms)[j];
    }
    forall v ensures Ends(Dict(cs), v) {
      var k := OrderedEnds(cs, |cs|, v);
    }
  }

  lemma {:induction false} FieldsFrom(ms: seq<Member>, x: nat) returns (i: nat)
    requires x < |Fields(ms)|
    ensures i < |ms| && Fields(ms)[x] == ms[i] && !ms[i].Const?
    decreases |ms|
  {
    var n := |ms| - 1;
    if x < |Fields(ms[..n])| {
      i := FieldsFrom(ms[..n], x);
    } else {
      i := n;
    }
  }

  /** A constant that a default does not name does not change what the default means. */
  lemma TableStep(m: Meaning, table: seq<TableField>, ms: seq<Member>, i: nat)
    requires i < |ms| && DefaultsSeen(ms) && IsTable(m, table, Consts(ms[..i]), Fields(ms[..i]))
    ensures var cs, ds := Consts(ms[..i]), Consts(ms[..i + 1]);
      if ms[i].Const? then
        Dict(ds) == Dict(cs)[ms[i].name := ms[i].text] && IsTable(m, table, ds, Fields(ms[..i + 1]))
      else
        ds == cs && IsTable(m, table + [TableField(ms[i].name, FbDefault(m, cs, ms[i]))], ds, Fields(ms[..i + 1]))
  {
    hide Lookup, CppDefault, FbDefault;
    assert ms[..i + 1][..i] == ms[..i];
    var cs, fs := Consts(ms[..i]), Fields(ms[..i]);
    if ms[i].Const? {
      var c := Definition(ms[i].name, ms[i].text);
      assert (cs + [c])[..|cs|] == cs;
      forall x | 0 <= x < |fs| ensures FbDefault(m, cs + [c], fs[x]) == FbDefault(m, cs, fs[x]) {
        var j := FieldsFrom(ms[..i], x);
        DefaultKept(m, cs, c, fs[x]);
      }
    }
  }

  lemma DefaultKept(m: Meaning, cs: seq<Definition>, c: Definition, f: Member)
    requires !f.Const? && (f.Field? ==> f.text != c.name)
    ensures FbDefault(m, cs + [c], f) == FbDefault(m, cs, f)
  {
    if f.Field? {
      LookupPrefix(cs, cs + [c], |cs|, f.text);
    }
  }

  lemma {:induction false} LookupPrefix(cs: seq<Definition>, ds: seq<Definition>, n: nat, v: string)
    requires cs <= ds && n <= |cs|
    ensures Lookup(cs, n, v) == Lookup(ds, n, v)
    decreases n
  {
    if n > 0 {
      LookupPrefix(cs, ds, n - 1, if cs[n - 1].name == v then cs[n - 1].text else v);
    }
  }

  // ---- what the generated code means ---------------------------------------------------------------

  /** A parameter as its fields by name, or the entries a flatbuffers table stores. */
  type Record = map<string, Value>

  predicate Distinct(names: seq<string>) {
    forall i, j :: 0 <= i < j < |names| ==> names[i] != names[j]
  }

  function Names(table: seq<TableField>): (names: seq<string>)
    ensures |names| == |table|
  {
    seq(|table|, i requires 0 <= i < |table| => table[i].name)
  }

  /** A call of the constructor: each argument goes to the field named by its position. */
  function CallCtor(ctorArgs: seq<string>, args: seq<Value>): Record
    requires Distinct(ctorArgs) && |args| == |ctorArgs|
  {
    map i | 0 <= i < |args| :: ctorArgs[i] := args[i]
  }

  /** A call of the table's create function: entries equal to the default are not stored. */
  function CallCreate(table: seq<TableField>, args: seq<Value>): Record
    requires Distinct(Names(table)) && |args| == |table|
  {
    map i | 0 <= i < |args| && args[i] != table[i].value :: Names(table)[i] := args[i]
  }

  /** An accessor of the table. */
  ghost function Access(table: seq<TableField>, stored: Record, name: string): Value
    requires exists i :: 0 <= i < |table| && table[i].name == name
  {
    if name in stored then stored[name]
    else
      var i :| 0 <= i < |table| && table[i].name == name;
      table[i].value
  }

  predicate Known(ts: seq<Term>, names: seq<string>) {
    forall i :: 0 <= i < |ts| ==> !ts[i].Builder? && ts[i].name in names
  }

  /** What a create call stores for a field, and what the accessor then returns. */
  lemma CreateEntry(table: seq<TableField>, args: seq<Value>, i: nat)
    requires Distinct(Names(table)) && |args| == |table| && i < |table|
    ensures table[i].name in CallCreate(table, args) <==> args[i] != table[i].value
    ensures Access(table, CallCreate(table, args), table[i].name) == args[i]
  {
    var stored := CallCreate(table, args);
    assert Names(table)[i] == table[i].name;
    if args[i] == table[i].value {
      assert table[i].name !in stored;
      var j :| 0 <= j < |table| && table[j].name == table[i].name
          && Access(table, stored, table[i].name) == table[j].value;
      assert Names(table)[j] == Names(table)[i];
    }
  }

  lemma CtorRebuilds(ctorArgs: seq<string>, args: seq<Value>, p: Record)
    requires Distinct(ctorArgs) && |args| == |ctorArgs| && p.Keys == set n | n in ctorArgs
    requires forall i :: 0 <= i < |args| ==> args[i] == p[ctorArgs[i]]
    ensures CallCtor(ctorArgs, args) == p
  {
  }

  function FbArgs(m: Meaning, ts: seq<Term>, p: Record): (args: seq<Value>)
    requires forall i :: 0 <= i < |ts| ==> !ts[i].Builder? && ts[i].name in p
    ensures |args| == |ts|
  {
    seq(|ts|, i requires 0 <= i < |ts| => if ts[i].Convert? then m.toFbs(p[ts[i].name]) else p[ts[i].name])
  }

  ghost function ParamArgs(m: Meaning, ts: seq<Term>, table: seq<TableField>, stored: Record): (args: seq<Value>)
    requires Known(ts, Names(table))
    ensures |args| == |ts|
  {
    seq(|ts|, i requires 0 <= i < |ts| =>
      AccessorOf(table, ts[i].name);
      if ts[i].Convert? then m.toDnn(Access(table, stored, ts[i].name)) else Access(table, stored, ts[i].name))
  }

  /** `to_flatbuffer`: the terms after the builder, over the fields of the parameter. */
  function ToFlatbuffer(m: Meaning, fbFields: seq<Term>, table: seq<TableField>, p: Record): Record
    requires |fbFields| == |table| + 1 && Distinct(Names(table)) && p.Keys == set n | n in Names(table)
    requires Known(fbFields[1..], Names(table))
  {
    CallCreate(table, FbArgs(m, fbFields[1..], p))
  }

  /** `to_param`: the terms over the accessors of the table. */
  ghost function ToParam(m: Meaning, paramFields: seq<Term>, ctorArgs: seq<string>, table: seq<TableField>,
      stored: Record): Record
    requires |paramFields| == |ctorArgs| && Distinct(ctorArgs) && Known(paramFields, Names(table))
  {
    CallCtor(ctorArgs, ParamArgs(m, paramFields, table, stored))
  }

  lemma AccessorOf(table: seq<TableField>, name: string)
    requires name in Names(table)
    ensures exists i :: 0 <= i < |table| && table[i].name == name
  {
  }

  /** The generated lists: constructor parameters, table fields, and the terms of the two converters. */
  datatype Code = Code(ctorArgs: seq<string>, table: seq<TableField>, paramFields: seq<Term>, fbFields: seq<Term>)

  /** The generated lists enumerate the same fields in the same order. */
  predicate SameOrder(fs: seq<Member>, g: Code) {
    && |g.ctorArgs| == |g.table| == |fs|
    && (forall i :: 0 <= i < |fs| ==> g.ctorArgs[i] == g.table[i].name == fs[i].name)
    && AllRead(g.paramFields, fs)
    && |g.fbFields| == |fs| + 1 && g.fbFields[0] == Builder && AllRead(g.fbFields[1..], fs)
  }

  /** All three writers, over any member list whose defaults can be written at all. */
  method Generate(m: Meaning, ms: seq<Member>) returns (g: Code)
    requires Resolvable(ms)
    ensures SameOrder(Fields(ms), g)
    ensures Agreeable(ms) ==> IsTable(m, g.table, Consts(ms), Fields(ms))
  {
    hide Agreeable, IsTable, Resolvable, Fields;
    var cpp := new CppWriter();
    var schema := new FlatBuffersWriter();
    var converter := new ConverterWriter();
    cpp.Process(ms);
    schema.Process(m, ms);
    converter.Process(ms);
    g := Code(cpp.ctorArgs, schema.table, converter.paramFields, converter.fbFields);
  }

  predicate DistinctNames(fs: seq<Member>) {
    forall i, j :: 0 <= i < j < |fs| ==> fs[i].name != fs[j].name
  }

  /** A value for every field. */
  predicate IsParam(fs: seq<Member>, p: Record) {
    p.Keys == set i | 0 <= i < |fs| :: fs[i].name
  }

  lemma ListsFit(fs: seq<Member>, g: Code, p: Record)
    requires DistinctNames(fs) && SameOrder(fs, g) && IsParam(fs, p)
    ensures Distinct(Names(g.table)) && Distinct(g.ctorArgs) && p.Keys == set n | n in Names(g.table)
    ensures Known(g.paramFields, Names(g.table)) && Known(g.fbFields[1..], Names(g.table))
  {
    assert forall i :: 0 <= i < |fs| ==> Names(g.table)[i] == fs[i].name;
    forall i | 0 <= i < |fs|
      ensures g.paramFields[i].name in Names(g.table) && g.fbFields[1..][i].name in Names(g.table)
    {
      assert Reads(g.paramFields[i], fs[i]) && Reads(g.fbFields[1..][i], fs[i]);
    }
    forall n ensures n in p.Keys <==> n in Names(g.table) {
      if n in Names(g.table) {
        var i :| 0 <= i < |fs| && Names(g.table)[i] == n;
        assert fs[i].name in p.Keys;
      }
    }
  }

  /** The value `to_flatbuffer` passes for field `i`. */
  function Passed(m: Meaning, f: Member, p: Record): Value
    requires f.name in p
  {
    if f.Field? && f.dtype == DTypeEnum then m.toFbs(p[f.name]) else p[f.name]
  }

  /** Reading back a field gives what was passed for it, stored or not. */
  lemma AccessStored(m: Meaning, fs: seq<Member>, g: Code, p: Record, i: nat)
    requires DistinctNames(fs) && SameOrder(fs, g) && IsParam(fs, p) && i < |fs|
    ensures Distinct(Names(g.table)) && p.Keys == (set n | n in Names(g.table))
        && Known(g.fbFields[1..], Names(g.table))
    ensures fs[i].name in p && g.table[i].name == fs[i].name
    ensures var stored := ToFlatbuffer(m, g.fbFields, g.table, p);
      (fs[i].name in stored <==> Passed(m, fs[i], p) != g.table[i].value)
      && Access(g.table, stored, fs[i].name) == Passed(m, fs[i], p)
  {
    ListsFit(fs, g, p);
    hide CallCreate, Access, Known, IsParam, Distinct, DistinctNames;
    var ts := g.fbFields[1..];
    assert Reads(ts[i], fs[i]);
    assert Names(g.table)[i] == fs[i].name;
    CreateEntry(g.table, FbArgs(m, ts, p), i);
  }

  /** Converting a parameter to its table and back gives it back. */
  lemma ConvertRoundTrip(m: Meaning, fs: seq<Member>, g: Code, p: Record)
    requires Inverse(m) && DistinctNames(fs) && SameOrder(fs, g) && IsParam(fs, p)
    ensures Distinct(Names(g.table)) && Distinct(g.ctorArgs) && p.Keys == (set n | n in Names(g.table))
    ensures Known(g.fbFields[1..], Names(g.table)) && Known(g.paramFields, Names(g.table))
    ensures ToParam(m, g.paramFields, g.ctorArgs, g.table, ToFlatbuffer(m, g.fbFields, g.table, p)) == p
  {
    ListsFit(fs, g, p);
    var stored := ToFlatbuffer(m, g.fbFields, g.table, p);
    var args := ParamArgs(m, g.paramFields, g.table, stored);
    assert g.ctorArgs == Names(g.table);
    hide ToFlatbuffer, Known, Distinct, DistinctNames, IsParam, Access, CallCtor;
    forall i | 0 <= i < |fs| ensures args[i] == p[g.ctorArgs[i]] {
      AccessStored(m, fs, g, p, i);
      assert Reads(g.paramFields[i], fs[i]);
    }
    CtorRebuilds(g.ctorArgs, args, p);
  }

  /** So for what is generated from any member list: every parameter survives its table. */
  method GeneratedRoundTrip(m: Meaning, ms: seq<Member>, p: Record) returns (g: Code)
    requires Inverse(m) && Resolvable(ms) && DistinctNames(Fields(ms)) && IsParam(Fields(ms), p)
    ensures SameOrder(Fields(ms), g)
    ensures Distinct(Names(g.table)) && Distinct(g.ctorArgs) && p.Keys == (set n | n in Names(g.table))
    ensures Known(g.fbFields[1..], Names(g.table)) && Known(g.paramFields, Names(g.table))
    ensures ToParam(m, g.paramFields, g.ctorArgs, g.table, ToFlatbuffer(m, g.fbFields, g.table, p)) == p
  {
    g := Generate(m, ms);
    ConvertRoundTrip(m, Fields(ms), g, p);
  }

  /** A table stores nothing exactly when every field has its C++ default. */
  lemma DefaultStoresNothing(m: Meaning, cs: seq<Definition>, fs: seq<Member>, g: Code, p: Record)
    requires Inverse(m) && DistinctNames(fs) && SameOrder(fs, g) && IsParam(fs, p) && IsTable(m, g.table, cs, fs)
    ensures Distinct(Names(g.table)) && p.Keys == (set n | n in Names(g.table))
        && Known(g.fbFields[1..], Names(g.table))
    ensures ToFlatbuffer(m, g.fbFields, g.table, p) == map[]
        <==> forall i :: 0 <= i < |fs| ==> fs[i].name in p && p[fs[i].name] == CppDefault(m, cs, fs[i])
  {
    ListsFit(fs, g, p);
    var stored := ToFlatbuffer(m, g.fbFields, g.table, p);
    forall i | 0 <= i < |fs|
      ensures fs[i].name in p && (fs[i].name in stored <==> p[fs[i].name] != CppDefault(m, cs, fs[i]))
    {
      AccessStored(m, fs, g, p, i);
    }
  }
}
