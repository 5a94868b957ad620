/**
  The generated Python packer and the generated C++ structure of an operator parameter give
  every field the same offset, and the same bytes to the whole.
 */
module ParamPack {
  import opened Arith
  import opened Wrappers

  type Byte = x: nat | x < 256

  /** The data types of fields. */
  datatype DType = UInt32 | UInt64 | Int32 | Float32 | Float64 | DTypeEnum | Bool

  /** The `struct` format character Python packs a type with. */
  function PyFormat(d: DType): char {
    match d
    case UInt32 => 'I'
    case UInt64 => 'Q'
    case Int32 => 'i'
    case Float32 => 'f'
    case Float64 => 'd'
    case DTypeEnum => 'I'
    case Bool => '?'
  }

  /** `struct.calcsize` of a character, native; also its alignment. */
  function CalcSize(c: char): nat {
    match c
    case 'I' => 4
    case 'i' => 4
    case 'f' => 4
    case 'Q' => 8
    case 'd' => 8
    case _ => 1
  }

  /** `sizeof` of the C++ type, on a 64-bit platform; also its alignment. */
  function SizeOf(d: DType): nat {
    if d == UInt64 || d == Float64 then 8 else if d == Bool then 1 else 4
  }

  /** How bytes are read: as a whole number, as a floating-point number, or as a truth value. */
  datatype Reading = Whole(signed: bool, size: nat) | Floating(size: nat) | Truth

  /** The reading of a `struct` format character. */
  function FormatReading(c: char): Option<Reading> {
    match c
    case 'I' => Some(Whole(false, 4))
    case 'Q' => Some(Whole(false, 8))
    case 'i' => Some(Whole(true, 4))
    case 'f' => Some(Floating(4))
    case 'd' => Some(Floating(8))
    case '?' => Some(Truth)
    case _ => None
  }

  /** The reading of a C++ type; data types are an unsigned enumeration. */
  function TypeReading(d: DType): Reading {
    if d == Bool then Truth
    else if d == Float32 || d == Float64 then Floating(SizeOf(d))
    else Whole(d == Int32, SizeOf(d))
  }

  /** Python packs what C++ reads: two types share a format exactly if C++ reads them alike. */
  lemma FormatIsType(d: DType, e: DType)
    ensures FormatReading(PyFormat(d)) == Some(TypeReading(d)) && CalcSize(PyFormat(d)) == SizeOf(d)
    ensures PyFormat(d) == PyFormat(e) <==> TypeReading(d) == TypeReading(e)
  {
  }

  function CalcSizes(formats: string): (sizes: seq<nat>)
    ensures |sizes| == |formats|
  {
    seq(|formats|, i requires 0 <= i < |formats| => CalcSize(formats[i]))
  }

  /** The bytes of the fields, each of its own size. */
  predicate Fits(sizes: seq<nat>, values: seq<seq<Byte>>) {
    |values| == |sizes| && forall i :: 0 <= i < |sizes| ==> |values[i]| == sizes[i] > 0
  }

  // ---- C++ structures -------------------------------------------------------------------------

  /** First byte after field `i - 1`. */
  function End(sizes: seq<nat>, offs: seq<nat>, i: nat): nat
    requires i <= |sizes| == |offs|
  {
    if i == 0 then 0 else offs[i - 1] + sizes[i - 1]
  }

  predicate IsMultiple(n: nat, align: nat) {
    align > 0 && n % align == 0
  }

  /** `n` is the least multiple of `align` from `low` on. */
  predicate IsAligned(n: nat, low: nat, align: nat) {
    IsMultiple(n, align) && low <= n < low + align
  }

  /** Field `i` is at the next aligned offset. */
  predicate IsNext(sizes: seq<nat>, offs: seq<nat>, i: nat)
    requires i < |sizes| == |offs|
  {
    IsAligned(offs[i], End(sizes, offs, i), sizes[i])
  }

  /** Some field has the alignment of the structure, and none has a larger one. */
  predicate IsAlignment(sizes: seq<nat>, align: nat) {
    && (exists i :: 0 <= i < |sizes| && align == sizes[i])
    && forall i :: 0 <= i < |sizes| ==> sizes[i] <= align
  }

  /** A structure's layout: fields in order, each at the next aligned offset; an empty one takes a byte. */
  ghost predicate IsStruct(sizes: seq<nat>, offs: seq<nat>, size: nat) {
    && |offs| == |sizes|
    && (forall i :: 0 <= i < |sizes| ==> IsNext(sizes, offs, i))
    && if sizes == [] then size == 1
       else exists align :: IsAlignment(sizes, align) && IsAligned(size, End(sizes, offs, |sizes|), align)
  }

  /** The first field is at the start, fields follow each other without overlap, and all lie in the structure. */
  lemma StructHoldsFields(sizes: seq<nat>, offs: seq<nat>, size: nat)
    requires IsStruct(sizes, offs, size)
    ensures if sizes == [] then size == 1 else offs[0] == 0 && offs[|sizes| - 1] + sizes[|sizes| - 1] <= size
    ensures forall i :: 0 <= i < |sizes| - 1 ==> offs[i] + sizes[i] <= offs[i + 1] < offs[i] + sizes[i] + sizes[i + 1]
    ensures forall i :: 0 <= i < |sizes| ==> sizes[i] > 0 && offs[i] % sizes[i] == 0
  {
    forall i | 0 <= i < |sizes| - 1 ensures offs[i] + sizes[i] <= offs[i + 1] < offs[i] + sizes[i] + sizes[i + 1] {
      assert IsNext(sizes, offs, i + 1);
    }
    forall i | 0 <= i < |sizes| ensures sizes[i] > 0 && offs[i] % sizes[i] == 0 {
      assert IsNext(sizes, offs, i);
    }
    if sizes != [] {
      assert IsNext(sizes, offs, 0);
      MultipleBelow(offs[0], sizes[0]);
    }
  }

  lemma MultipleBelow(n: nat, align: nat)
    requires IsMultiple(n, align) && n < align
    ensures n == 0
  {
  }

  lemma AlignedUnique(n: nat, m: nat, low: nat, align: nat)
    requires IsAligned(n, low, align) && IsAligned(m, low, align)
    ensures n == m
  {
    var q, r := n / align, m / align;
    assert n == q * align && m == r * align;
    if q < r {
      MulLe(q + 1, r, align);
    } else if r < q {
      MulLe(r + 1, q, align);
    }
  }

  /** The rules leave one layout. */
  lemma StructUnique(sizes: seq<nat>, offs: seq<nat>, size: nat, offs': seq<nat>, size': nat)
    requires IsStruct(sizes, offs, size) && IsStruct(sizes, offs', size')
    ensures offs == offs' && size == size'
  {
    hide IsAligned;
    PrefixUnique(sizes, offs, size, offs', size', |sizes|);
    if sizes != [] {
      var a :| IsAlignment(sizes, a) && IsAligned(size, End(sizes, offs, |sizes|), a);
      var b :| IsAlignment(sizes, b) && IsAligned(size', End(sizes, offs', |sizes|), b);
      AlignedUnique(size, size', End(sizes, offs, |sizes|), a);
    }
  }

  lemma {:induction false} PrefixUnique(sizes: seq<nat>, offs: seq<nat>, size: nat, offs': seq<nat>, size': nat, i: nat)
    requires IsStruct(sizes, offs, size) && IsStruct(sizes, offs', size') && i <= |sizes|
    ensures forall j :: 0 <= j < i ==> offs[j] == offs'[j]
  {
    hide IsMultiple, IsAlignment;
    if i > 0 {
      PrefixUnique(sizes, offs, size, offs', size', i - 1);
      assert IsNext(sizes, offs, i - 1) && IsNext(sizes, offs', i - 1);
      AlignedUnique(offs[i - 1], offs'[i - 1], End(sizes, offs, i - 1), sizes[i - 1]);
    }
  }

  // ---- contents ---------------------------------------------------------------------------------

  predicate Inside(sizes: seq<nat>, offs: seq<nat>, i: int, p: int)
    requires |offs| == |sizes|
  {
    0 <= i < |sizes| && offs[i] <= p < offs[i] + sizes[i]
  }

  /** The first `n` fields hold the values, and every byte outside them is zero. */
  ghost predicate Holds(bytes: seq<Byte>, sizes: seq<nat>, offs: seq<nat>, values: seq<seq<Byte>>, n: nat)
    requires |offs| == |sizes| && Fits(sizes, values) && n <= |sizes|
  {
    && (forall i, p :: i < n && Inside(sizes, offs, i, p) ==> p < |bytes| && bytes[p] == values[i][p - offs[i]])
    && (forall p :: 0 <= p < |bytes| && (forall i :: i < n ==> !Inside(sizes, offs, i, p)) ==> bytes[p] == 0)
  }

  /** Two parameters of one type have the same bytes exactly when all their fields have the same bytes. */
  lemma SameBytesIffSameFields(sizes: seq<nat>, offs: seq<nat>, a: seq<Byte>, v: seq<seq<Byte>>, b: seq<Byte>,
      w: seq<seq<Byte>>)
    requires IsStruct(sizes, offs, |a|) && IsStruct(sizes, offs, |b|) && Fits(sizes, v) && Fits(sizes, w)
    requires Holds(a, sizes, offs, v, |sizes|) && Holds(b, sizes, offs, w, |sizes|)
    ensures a == b <==> v == w
  {
    StructUnique(sizes, offs, |a|, offs, |b|);
    if a == b {
      forall i | 0 <= i < |sizes| ensures v[i] == w[i] {
        forall k | 0 <= k < sizes[i] ensures v[i][k] == w[i][k] {
          assert Inside(sizes, offs, i, offs[i] + k);
        }
      }
    }
    if v == w {
      forall p | 0 <= p < |a| ensures a[p] == b[p] {
        if i :| Inside(sizes, offs, i, p) {
          assert a[p] == v[i][p - offs[i]] == b[p];
        }
      }
    }
  }

  // ---- the packer and the constructor ---------------------------------------------------------

  function Zeros(n: nat): (z: seq<Byte>)
    ensures |z| == n
  {
    seq(n, i => 0)
  }

  /** Bytes to the next multiple of `align`. */
  function Padding(n: nat, align: nat): (p: nat)
    requires align > 0
    ensures IsAligned(n + p, n, align)
  {
    var r := n % align;
    if r == 0 then 0
    else
      DivModUnique(n + (align - r), align, n / align + 1, 0);
      align - r
  }

  lemma HoldsPadded(bytes: seq<Byte>, sizes: seq<nat>, offs: seq<nat>, values: seq<seq<Byte>>, n: nat, pad: nat)
    requires |offs| == |sizes| && Fits(sizes, values) && n <= |sizes| && Holds(bytes, sizes, offs, values, n)
    ensures Holds(bytes + Zeros(pad), sizes, offs, values, n)
  {
  }

  lemma HoldsField(bytes: seq<Byte>, sizes: seq<nat>, offs: seq<nat>, values: seq<seq<Byte>>, n: nat)
    requires |offs| == |sizes| && Fits(sizes, values) && n < |sizes| && Holds(bytes, sizes, offs, values, n)
    ensures Holds(bytes + values[n], sizes, offs[n := |bytes|], values, n + 1)
  {
    var b, o := bytes + values[n], offs[n := |bytes|];
    forall i, p | i < n + 1 && Inside(sizes, o, i, p) ensures p < |b| && b[p] == values[i][p - o[i]] {
      if i < n {
        assert Inside(sizes, offs, i, p);
      }
    }
    forall p | 0 <= p < |b| && (forall i :: i < n + 1 ==> !Inside(sizes, o, i, p)) ensures b[p] == 0 {
      assert !Inside(sizes, o, n, p);
      forall i | i < n ensures !Inside(sizes, offs, i, p) {
        assert !Inside(sizes, o, i, p);
      }
    }
  }

  /** The size of the first format character of the largest size. */
  method Widest(formats: string) returns (align: nat)
    requires formats != ""
    ensures IsAlignment(CalcSizes(formats), align)
  {
    var best := 0;
    for i := 1 to |formats|
      invariant 0 <= best < |formats| && forall j :: 0 <= j < i ==> CalcSize(formats[j]) <= CalcSize(formats[best])
    {
      if CalcSize(formats[i]) > CalcSize(formats[best]) {
        best := i;
      }
    }
    align := CalcSize(formats[best]);
    assert CalcSizes(formats)[best] == align;
  }

  /** The generated packer: native alignment, and a closing zero-length item of the widest format. */
  method Pack(formats: string, values: seq<seq<Byte>>) returns (bytes: seq<Byte>, offs: seq<nat>)
    requires Fits(CalcSizes(formats), values)
    ensures IsStruct(CalcSizes(formats), offs, |bytes|)
    ensures Holds(bytes, CalcSizes(formats), offs, values, |formats|)
  {
    if formats == "" {
      return [0], [];
    }
    ghost var sizes := CalcSizes(formats);
    hide Holds, IsMultiple, IsAlignment, Fits;
    bytes, offs := [], seq(|formats|, i => 0);
    HoldsNothing(sizes, offs, values, 0);
    for i := 0 to |formats|
      invariant |offs| == |sizes| && |bytes| == End(sizes, offs, i)
      invariant forall j :: 0 <= j < i ==> IsNext(sizes, offs, j)
      invariant Holds(bytes, sizes, offs, values, i)
    {
      var pad := Padding(|bytes|, CalcSize(formats[i]));
      HoldsPadded(bytes, sizes, offs, values, i, pad);
      bytes := bytes + Zeros(pad);
      HoldsField(bytes, sizes, offs, values, i);
      ghost var before := offs;
      offs := offs[i := |bytes|];
      bytes := bytes + values[i];
      assert IsNext(sizes, offs, i);
      assert forall j :: 0 <= j < i ==> IsNext(sizes, before, j) ==> IsNext(sizes, offs, j);
    }
    var widest := Widest(formats);
    assert widest > 0 by {
      WidestPositive(sizes, widest);
    }
    var pad := Padding(|bytes|, widest);
    HoldsPadded(bytes, sizes, offs, values, |sizes|, pad);
    bytes := bytes + Zeros(pad);
  }

  lemma WidestPositive(sizes: seq<nat>, align: nat)
    requires IsAlignment(sizes, align) && forall i :: 0 <= i < |sizes| ==> sizes[i] > 0
    ensures align > 0
  {
  }

  lemma HoldsNothing(sizes: seq<nat>, offs: seq<nat>, values: seq<seq<Byte>>, n: nat)
    requires |offs| == |sizes| && Fits(sizes, values)
    ensures Holds(Zeros(n), sizes, offs, values, 0)
  {
  }

  /**
    The generated constructor: clear the whole object, then store field by field at its offset. Without
    fields none is generated, and the one byte of the object stays what memory held.
   */
  method Construct(sizes: seq<nat>, values: seq<seq<Byte>>, offs: seq<nat>, size: nat, memory: nat -> Byte)
      returns (obj: array<Byte>)
    requires Fits(sizes, values) && IsStruct(sizes, offs, size)
    ensures fresh(obj) && obj.Length == size
    ensures sizes != [] ==> Holds(obj[..], sizes, offs, values, |sizes|)
    ensures sizes == [] ==> obj[..] == [memory(0)]
  {
    obj := new Byte[size](i => memory(i));
    if sizes == [] {
      assert obj[0] == memory(0);
      return;
    }
    for i := 0 to size
      invariant forall j :: 0 <= j < i ==> obj[j] == 0
    {
      obj[i] := 0;
    }
    assert obj[..] == Zeros(size);
    hide IsMultiple, IsAlignment, Holds;
    HoldsNothing(sizes, offs, values, size);
    for i := 0 to |sizes|
      invariant Holds(obj[..], sizes, offs, values, i)
    {
      FieldInside(sizes, offs, size, i, |sizes|);
      ghost var before := obj[..];
      for k := 0 to sizes[i]
        invariant forall j :: 0 <= j < k ==> obj[offs[i] + j] == values[i][j]
        invariant forall p :: 0 <= p < size && !(offs[i] <= p < offs[i] + k) ==> obj[p] == before[p]
      {
        obj[offs[i] + k] := values[i][k];
      }
      HoldsStored(before, obj[..], sizes, offs, values, size, i);
    }
  }

  /** Fields come one after the other, inside the object. */
  lemma {:induction false} FieldInside(sizes: seq<nat>, offs: seq<nat>, size: nat, i: nat, j: nat)
    requires IsStruct(sizes, offs, size) && i < j <= |sizes|
    ensures offs[i] + sizes[i] <= End(sizes, offs, j) <= size
    decreases j
  {
    hide IsMultiple;
    if i + 1 < j {
      FieldInside(sizes, offs, size, i, j - 1);
      assert IsNext(sizes, offs, j - 1);
    }
    if j < |sizes| {
      EndsInside(sizes, offs, size, j);
    }
  }

  lemma {:induction false} EndsInside(sizes: seq<nat>, offs: seq<nat>, size: nat, i: nat)
    requires IsStruct(sizes, offs, size) && sizes != [] && i <= |sizes|
    ensures End(sizes, offs, i) <= size
    decreases |sizes| - i
  {
    hide IsMultiple;
    if i < |sizes| {
      EndsInside(sizes, offs, size, i + 1);
      assert IsNext(sizes, offs, i);
    }
  }

  lemma HoldsStored(a: seq<Byte>, b: seq<Byte>, sizes: seq<nat>, offs: seq<nat>, values: seq<seq<Byte>>, size: nat,
      n: nat)
    requires IsStruct(sizes, offs, size) && Fits(sizes, values) && n < |sizes| && |a| == |b| == size
    requires offs[n] + sizes[n] <= size && Holds(a, sizes, offs, values, n)
    requires forall j :: 0 <= j < sizes[n] ==> b[offs[n] + j] == values[n][j]
    requires forall p :: 0 <= p < size && !(offs[n] <= p < offs[n] + sizes[n]) ==> b[p] == a[p]
    ensures Holds(b, sizes, offs, values, n + 1)
  {
    hide IsMultiple, IsAlignment;
    forall i, p | i < n + 1 && Inside(sizes, offs, i, p) ensures p < |b| && b[p] == values[i][p - offs[i]] {
      if i < n {
        FieldInside(sizes, offs, size, i, n);
        assert IsNext(sizes, offs, n);
      } else {
        assert b[offs[n] + (p - offs[n])] == values[n][p - offs[n]];
      }
    }
    forall p | 0 <= p < |b| && (forall i :: i < n + 1 ==> !Inside(sizes, offs, i, p)) ensures b[p] == 0 {
      assert !Inside(sizes, offs, n, p);
    }
  }
}
