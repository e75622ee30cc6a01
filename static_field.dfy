/**
 * The static field component (section 6.10 of the Java Card 2.1 VM specification):
 * the reference count, the array initializers, the sizes of the default and
 * non-default value segments, and the static field image, the table giving each
 * static field of the package its byte offset.
 */
module StaticField {
  import opened Wrappers
  import opened Bytes
  import opened Jca
  import opened Table

  const BOOLEAN_TYPE := 2
  const BYTE_TYPE := 3
  const SHORT_TYPE := 4
  const INT_TYPE := 5

  // ---------------------------------------------------------------- field classes

  predicate IsPrimitive(k: Kind)
  {
    k == BOOLEAN || k == BYTE || k == SHORT || k == INT
  }

  /** A static field holding a reference: of a reference type or an array of any type. */
  predicate IsReferenceField(f: Field)
  {
    f.isStatic && (f.ftype.kind == REFERENCE || f.ftype.isArray)
  }

  /** A static final field of a primitive type: a constant, which the image leaves out. */
  predicate IsConstant(f: Field)
  {
    f.isStatic && f.isFinal && !f.ftype.isArray && f.ftype.kind != REFERENCE
  }

  predicate IsInitializedArray(f: Field)
  {
    f.isStatic && f.ftype.isArray && f.initValues != []
  }

  /** A static primitive field that keeps its default value. */
  predicate IsDefaultValue(f: Field)
  {
    f.isStatic && !f.ftype.isArray && f.ftype.kind != REFERENCE && !f.isFinal && f.initValues == []
  }

  /** A static primitive field with an initializer. */
  predicate IsNonDefaultValue(f: Field)
  {
    f.isStatic && !f.ftype.isArray && f.ftype.kind != REFERENCE && !f.isFinal && f.initValues != []
  }

  // ---------------------------------------------------------------- value encoding

  /** The bytes a primitive value takes: 1 for boolean and byte, 2 for short, 4 for int. */
  function ScalarSize(k: Kind): (r: int)
    ensures IsPrimitive(k) <==> r > 0
    ensures 0 <= r <= 4
  {
    match k
    case BOOLEAN => 1
    case BYTE => 1
    case SHORT => 2
    case INT => 4
    case _ => 0
  }

  /** One value in big-endian order: its byte value, a short or an int. */
  function ValueBytes(k: Kind, v: int): (r: seq<int>)
    ensures |r| == ScalarSize(k) && AllBytes(r)
  {
    match k
    case BOOLEAN => [ToByte(v)]
    case BYTE => [ToByte(v)]
    case SHORT => BigEndian16(v)
    case INT => BigEndian32(v)
    case _ => []
  }

  /** `n * s`, spelled out as repeated addition. */
  function Stride(n: nat, s: nat): (r: nat)
  {
    if n == 0 then 0 else Stride(n - 1, s) + s
  }

  lemma {:induction false} StrideProduct(n: nat, s: nat)
    ensures Stride(n, s) == n * s
  {
    if n > 0 {
      StrideProduct(n - 1, s);
    }
  }

  lemma {:induction false} StrideMonotone(a: nat, b: nat, s: nat)
    requires a <= b
    ensures Stride(a, s) <= Stride(b, s)
    decreases b
  {
    if a < b {
      StrideMonotone(a, b - 1, s);
    }
  }

  /** The values of an initializer, one after the other. */
  function InitBytes(k: Kind, vs: seq<int>): (r: seq<int>)
    ensures |r| == Stride(|vs|, ScalarSize(k)) && AllBytes(r)
  {
    if vs == [] then [] else InitBytes(k, vs[..|vs| - 1]) + ValueBytes(k, vs[|vs| - 1])
  }

  /** Whether `v` is a value of the Java type `k`. */
  predicate Fits(k: Kind, v: int)
  {
    match k
    case BOOLEAN => -0x80 <= v < 0x80
    case BYTE => -0x80 <= v < 0x80
    case SHORT => -0x8000 <= v < 0x8000
    case INT => -0x8000_0000 <= v < 0x8000_0000
    case _ => false
  }

  /** Reading a value of type `k` back from its bytes. */
  function DecodeValue(k: Kind, b: seq<int>): int
    requires IsPrimitive(k) && |b| == ScalarSize(k) && AllBytes(b)
  {
    match k
    case SHORT => SignedShort(b[0] * 256 + b[1])
    case INT =>
      var u := (b[0] * 256 + b[1]) * 0x1_0000 + b[2] * 256 + b[3];
      if u < 0x8000_0000 then u else u - 0x1_0000_0000
    case _ => SignedByte(b[0])
  }

  /** A 32-bit value is read back from its four bytes. */
  lemma IntBytesDecode(v: int)
    requires Fits(INT, v)
    ensures DecodeValue(INT, ValueBytes(INT, v)) == v
  {
    var b := BigEndian32(v);
    assert ValueBytes(INT, v) == b;
    assert (b[0] * 256 + b[1]) * 0x1_0000 + b[2] * 256 + b[3] == v % 0x1_0000_0000;
  }

  /** Every value of its type is read back from its bytes. */
  lemma ValueBytesDecode(k: Kind, v: int)
    requires IsPrimitive(k) && Fits(k, v)
    ensures DecodeValue(k, ValueBytes(k, v)) == v
  {
    if k == INT {
      IntBytesDecode(v);
    } else if k == SHORT {
      var b := BigEndian16(v);
      assert ValueBytes(k, v) == b && b[0] * 256 + b[1] == ToShort(v);
    }
  }

  /** `c` sits in `t` from index `x` on. */
  predicate ChunkAt(t: seq<int>, x: int, c: seq<int>)
  {
    0 <= x && x + |c| <= |t| && t[x..x + |c|] == c
  }

  /** A chunk of the first part is a chunk of the concatenation. */
  lemma ChunkAtConcat(a: seq<int>, b: seq<int>, x: int, c: seq<int>)
    requires ChunkAt(a, x, c)
    ensures ChunkAt(a + b, x, c)
  {
    SliceOfConcat(a, b, x, x + |c|);
  }

  /** Value `i` of an initializer sits at bytes `i*size .. i*size+size`. */
  lemma {:induction false} InitBytesAt(k: Kind, vs: seq<int>, i: int)
    requires 0 <= i < |vs|
    ensures ChunkAt(InitBytes(k, vs), Stride(i, ScalarSize(k)), ValueBytes(k, vs[i]))
    decreases |vs|
  {
    var n := |vs| - 1;
    var init := vs[..n];
    var a, b := InitBytes(k, init), ValueBytes(k, vs[n]);
    assert InitBytes(k, vs) == a + b;
    if i < n {
      InitBytesAt(k, init, i);
      assert init[i] == vs[i];
      ChunkAtConcat(a, b, Stride(i, ScalarSize(k)), ValueBytes(k, vs[i]));
    } else {
      ChunkAtEnd(a, b);
    }
  }

  /** The second part of a concatenation is a chunk of it. */
  lemma ChunkAtEnd(a: seq<int>, b: seq<int>)
    ensures ChunkAt(a + b, |a|, b)
  {
    SliceOfConcat(a, b, |a|, |a| + |b|);
  }

  /** A slice of a concatenation that lies within its first part, or exactly covers its second. */
  lemma SliceOfConcat(a: seq<int>, b: seq<int>, x: int, y: int)
    requires 0 <= x <= y <= |a| || (x == |a| && y == |a| + |b|)
    ensures y <= |a| ==> (a + b)[x..y] == a[x..y]
    ensures x == |a| && y == |a| + |b| ==> (a + b)[x..y] == b
  {
  }

  /** Slot `i` of `values`, of the width of kind `k`, holds the bytes of a value that decodes to `v`. */
  predicate SliceHolds(values: seq<int>, k: Kind, i: nat, v: int)
  {
    var w := ScalarSize(k);
    IsPrimitive(k) && Stride(i, w) + w <= |values| && AllBytes(values[Stride(i, w)..Stride(i, w) + w]) &&
    DecodeValue(k, values[Stride(i, w)..Stride(i, w) + w]) == v
  }

  /** An initializer is read back value by value from its bytes. */
  lemma InitBytesDecode(k: Kind, vs: seq<int>, i: int)
    requires IsPrimitive(k) && 0 <= i < |vs| && Fits(k, vs[i])
    ensures |InitBytes(k, vs)| == |vs| * ScalarSize(k)
    ensures SliceHolds(InitBytes(k, vs), k, i, vs[i])
  {
    var w := ScalarSize(k);
    StrideProduct(|vs|, w);
    InitBytesAt(k, vs, i);
    ValueBytesDecode(k, vs[i]);
    assert InitBytes(k, vs)[Stride(i, w)..Stride(i, w) + w] == ValueBytes(k, vs[i]);
  }

  /** `EncodeValues`: the loop over the values of an initializer. */
  method EncodeValues(k: Kind, vs: seq<int>) returns (bytes: seq<int>)
    ensures bytes == InitBytes(k, vs)
  {
    bytes := [];
    var k' := 0;
    while k' < |vs|
      invariant 0 <= k' <= |vs| && bytes == InitBytes(k, vs[..k'])
    {
      assert vs[..k' + 1][..k'] == vs[..k'];
      bytes := bytes + ValueBytes(k, vs[k']);
      k' := k' + 1;
    }
    assert vs[..k'] == vs;
  }

  // ---------------------------------------------------------------- counts

  /** `reference_count`: the static fields of a reference or array type. */
  function ReferenceCount(fs: seq<Field>): (r: nat)
    ensures r <= |fs|
  {
    if fs == [] then 0 else ReferenceCount(fs[..|fs| - 1]) + (if IsReferenceField(fs[|fs| - 1]) then 1 else 0)
  }

  /** `computeReferenceCount`. */
  method ComputeReferenceCount(fs: seq<Field>) returns (count: int)
    ensures count == ReferenceCount(fs)
  {
    count := 0;
    var k := 0;
    while k < |fs|
      invariant 0 <= k <= |fs| && count == ReferenceCount(fs[..k])
    {
      assert fs[..k + 1][..k] == fs[..k];
      if IsReferenceField(fs[k]) {
        count := count + 1;
      }
      k := k + 1;
    }
    assert fs[..k] == fs;
  }

  /** `default_value_count`: the bytes of the static primitive fields left at their default value. */
  function DefaultValueCount(fs: seq<Field>): (r: nat)
  {
    if fs == [] then 0
    else
      var f := fs[|fs| - 1];
      DefaultValueCount(fs[..|fs| - 1]) + (if IsDefaultValue(f) then ScalarSize(f.ftype.kind) else 0)
  }

  /** `computeDefaultValue`. */
  method ComputeDefaultValue(fs: seq<Field>) returns (count: int)
    ensures count == DefaultValueCount(fs)
  {
    count := 0;
    var k := 0;
    while k < |fs|
      invariant 0 <= k <= |fs| && count == DefaultValueCount(fs[..k])
    {
      assert fs[..k + 1][..k] == fs[..k];
      var f := fs[k];
      if f.isStatic && !f.ftype.isArray && f.ftype.kind != REFERENCE && !f.isFinal && f.initValues == [] {
        count := count + ScalarSize(f.ftype.kind);
      }
      k := k + 1;
    }
    assert fs[..k] == fs;
  }

  /**
   * `non_default_values` as the source computes them: the loop skips every field that
   * has an initializer and then copies the (empty) initializers of the others.
   */
  function NonDefaultValuesAsWritten(fs: seq<Field>): (r: seq<int>)
  {
    if fs == [] then []
    else
      var f := fs[|fs| - 1];
      NonDefaultValuesAsWritten(fs[..|fs| - 1]) + (if IsDefaultValue(f) then InitBytes(f.ftype.kind, f.initValues) else [])
  }

  /** As written, `non_default_values` is empty for every package. */
  lemma {:induction false} NonDefaultValuesAsWrittenEmpty(fs: seq<Field>)
    ensures NonDefaultValuesAsWritten(fs) == []
    decreases |fs|
  {
    if fs != [] {
      NonDefaultValuesAsWrittenEmpty(fs[..|fs| - 1]);
    }
  }

  /** `non_default_values`: the initial values of the initialized static primitive fields, in order. */
  function NonDefaultValues(fs: seq<Field>): (r: seq<int>)
    ensures AllBytes(r)
  {
    if fs == [] then []
    else
      var f := fs[|fs| - 1];
      NonDefaultValues(fs[..|fs| - 1]) + (if IsNonDefaultValue(f) then InitBytes(f.ftype.kind, f.initValues) else [])
  }

  /** `computeNonDefaultValue`, with the initialized fields kept. */
  method ComputeNonDefaultValues(fs: seq<Field>) returns (values: seq<int>)
    ensures values == NonDefaultValues(fs)
  {
    values := [];
    var k := 0;
    while k < |fs|
      invariant 0 <= k <= |fs| && values == NonDefaultValues(fs[..k])
    {
      NonDefaultValuesStep(fs, k);
      var f := fs[k];
      if f.isStatic && !f.ftype.isArray && f.ftype.kind != REFERENCE && !f.isFinal && f.initValues != [] {
        var bytes := EncodeValues(f.ftype.kind, f.initValues);
        values := values + bytes;
      }
      k := k + 1;
    }
    assert fs[..k] == fs;
  }

  lemma NonDefaultValuesStep(fs: seq<Field>, k: int)
    requires 0 <= k < |fs|
    ensures NonDefaultValues(fs[..k + 1]) ==
              NonDefaultValues(fs[..k]) + if IsNonDefaultValue(fs[k]) then InitBytes(fs[k].ftype.kind, fs[k].initValues) else []
  {
    assert fs[..k + 1][..k] == fs[..k];
  }

  // ---------------------------------------------------------------- array_init

  /** An `array_init` entry: the element type code, the byte count and the bytes. */
  datatype ArrayInitInfo = ArrayInitInfo(atype: int, count: int, values: seq<int>)

  function ArrayTypeCode(k: Kind): int
  {
    match k
    case BOOLEAN => BOOLEAN_TYPE
    case BYTE => BYTE_TYPE
    case SHORT => SHORT_TYPE
    case INT => INT_TYPE
    case _ => 0
  }

  /**
   * The `array_init` entry of an initialized static array; an array of references
   * falls through the type switch and gets an empty entry of type 0.
   */
  function ArrayInitOf(f: Field): (r: ArrayInitInfo)
    ensures r.count == |r.values| == |f.initValues| * ScalarSize(f.ftype.kind)
    ensures IsPrimitive(f.ftype.kind) ==> 2 <= r.atype <= 5
  {
    var k := f.ftype.kind;
    StrideProduct(|f.initValues|, ScalarSize(k));
    if IsPrimitive(k) then ArrayInitInfo(ArrayTypeCode(k), |f.initValues| * ScalarSize(k), InitBytes(k, f.initValues))
    else ArrayInitInfo(0, 0, [])
  }

  /** The initialized static arrays, in declaration order. */
  function InitializedArrays(fs: seq<Field>): (r: seq<Field>)
    ensures forall i :: 0 <= i < |r| ==> IsInitializedArray(r[i]) && r[i] in fs
  {
    if fs == [] then []
    else
      var init := InitializedArrays(fs[..|fs| - 1]);
      var f := fs[|fs| - 1];
      assert forall g :: g in fs[..|fs| - 1] ==> g in fs;
      init + (if IsInitializedArray(f) then [f] else [])
  }

  /** `array_init`: one entry per initialized static array. */
  function ArrayInits(fs: seq<Field>): (r: seq<ArrayInitInfo>)
  {
    var arrays := InitializedArrays(fs);
    seq(|arrays|, i requires 0 <= i < |arrays| => ArrayInitOf(arrays[i]))
  }

  /** `array_init_count`: the initialized static arrays of a primitive type. */
  function ArrayInitCount(fs: seq<Field>): (r: nat)
  {
    if fs == [] then 0
    else
      var f := fs[|fs| - 1];
      ArrayInitCount(fs[..|fs| - 1]) + (if IsInitializedArray(f) && IsPrimitive(f.ftype.kind) then 1 else 0)
  }

  /** The bytes of an `array_init` entry read back as the array's initial values. */
  lemma ArrayInitDecodes(fs: seq<Field>, a: int, i: int)
    requires 0 <= a < |InitializedArrays(fs)|
    requires var f := InitializedArrays(fs)[a];
             IsPrimitive(f.ftype.kind) && 0 <= i < |f.initValues| && Fits(f.ftype.kind, f.initValues[i])
    ensures ArrayInits(fs)[a].atype == ArrayTypeCode(InitializedArrays(fs)[a].ftype.kind)
    ensures SliceHolds(ArrayInits(fs)[a].values, InitializedArrays(fs)[a].ftype.kind, i, InitializedArrays(fs)[a].initValues[i])
  {
    var f := InitializedArrays(fs)[a];
    assert ArrayInits(fs)[a].values == InitBytes(f.ftype.kind, f.initValues);
    InitBytesDecode(f.ftype.kind, f.initValues, i);
  }

  /** `generateArrayInit`. */
  method GenerateArrayInit(fs: seq<Field>) returns (infos: seq<ArrayInitInfo>, count: int)
    ensures infos == ArrayInits(fs) && count == ArrayInitCount(fs)
  {
    infos, count := [], 0;
    var k := 0;
    while k < |fs|
      invariant 0 <= k <= |fs| && infos == ArrayInits(fs[..k]) && count == ArrayInitCount(fs[..k])
    {
      assert fs[..k + 1][..k] == fs[..k];
      var f := fs[k];
      if f.isStatic && f.ftype.isArray && f.initValues != [] {
        var kind := f.ftype.kind;
        var info := ArrayInitInfo(0, 0, []);
        if IsPrimitive(kind) {
          var values := EncodeValues(kind, f.initValues);
          info := ArrayInitInfo(ArrayTypeCode(kind), |f.initValues| * ScalarSize(kind), values);
          count := count + 1;
        }
        infos := infos + [info];
      }
      k := k + 1;
    }
    assert fs[..k] == fs;
  }

  // ---------------------------------------------------------------- image layout

  /** The four segments of the image, in order. */
  datatype Segment = ArrayInitSegment | ReferenceSegment | DefaultSegment | NonDefaultSegment

  /**
   * The segment a field goes to: initialized primitive arrays, then references and
   * uninitialized arrays, then primitives at their default value, then initialized
   * primitives. Instance fields, constants, and initialized fields of a reference
   * type go nowhere.
   */
  function SegmentOf(f: Field): (r: Option<Segment>)
    ensures r.Some? ==> f.isStatic && !IsConstant(f)
  {
    var k := f.ftype.kind;
    if !f.isStatic || IsConstant(f) then None
    else if f.ftype.isArray && f.initValues != [] then
      if IsPrimitive(k) then Some(ArrayInitSegment) else None
    else if f.initValues == [] then
      if f.ftype.isArray || k == REFERENCE then Some(ReferenceSegment)
      else if IsPrimitive(k) then Some(DefaultSegment)
      else None
    else if IsPrimitive(k) then Some(NonDefaultSegment)
    else None
  }

  /**
   * The bytes a placed field's slot takes. A reference takes 2 bytes and a primitive
   * its own size; as written, an int or an int array takes 4 bytes outside the
   * reference segment and every other placed field 2.
   */
  function SlotWidth(f: Field, asWritten: bool): (r: int)
    ensures SegmentOf(f).Some? ==> r > 0
  {
    match SegmentOf(f)
    case None => 0
    case Some(s) =>
      if asWritten then (if f.ftype.kind == INT && s != ReferenceSegment then 4 else 2)
      else if s == ArrayInitSegment || s == ReferenceSegment then 2
      else ScalarSize(f.ftype.kind)
  }

  /** The four segments as cell lists in insertion order, with their next free offsets. */
  datatype Layout = Layout(s1: seq<Cell<Field>>, s2: seq<Cell<Field>>, s3: seq<Cell<Field>>, s4: seq<Cell<Field>>,
                           o1: int, o2: int, o3: int, o4: int)

  /** Placing one field: it takes the next free offset of its segment. */
  function Place(l: Layout, f: Field, asWritten: bool): Layout
  {
    var w := SlotWidth(f, asWritten);
    match SegmentOf(f)
    case None => l
    case Some(ArrayInitSegment) => l.(s1 := l.s1 + [Cell(f.name, l.o1, f)], o1 := l.o1 + w)
    case Some(ReferenceSegment) => l.(s2 := l.s2 + [Cell(f.name, l.o2, f)], o2 := l.o2 + w)
    case Some(DefaultSegment) => l.(s3 := l.s3 + [Cell(f.name, l.o3, f)], o3 := l.o3 + w)
    case Some(NonDefaultSegment) => l.(s4 := l.s4 + [Cell(f.name, l.o4, f)], o4 := l.o4 + w)
  }

  /** The fields placed one after the other from the given segment bases. */
  function LayoutFrom(b1: int, b2: int, b3: int, b4: int, fs: seq<Field>, asWritten: bool): Layout
  {
    if fs == [] then Layout([], [], [], [], b1, b2, b3, b4)
    else Place(LayoutFrom(b1, b2, b3, b4, fs[..|fs| - 1], asWritten), fs[|fs| - 1], asWritten)
  }

  lemma LayoutFromSnoc(b1: int, b2: int, b3: int, b4: int, fs: seq<Field>, f: Field, asWritten: bool)
    ensures LayoutFrom(b1, b2, b3, b4, fs + [f], asWritten) == Place(LayoutFrom(b1, b2, b3, b4, fs, asWritten), f, asWritten)
  {
    assert (fs + [f])[..|fs|] == fs;
  }

  /** `image_size`: two bytes per reference, then the default and non-default values. */
  function ImageSize(fs: seq<Field>): int
  {
    2 * ReferenceCount(fs) + DefaultValueCount(fs) + |NonDefaultValues(fs)|
  }

  /**
   * The layout of the image: the segments start at 0, after the initialized arrays,
   * after all references, and after the default values.
   */
  function ImageLayout(fs: seq<Field>): Layout
  {
    LayoutFrom(0, 2 * ArrayInitCount(fs), 2 * ReferenceCount(fs), 2 * ReferenceCount(fs) + DefaultValueCount(fs),
               fs, false)
  }

  /** The layout as written: 4-byte int slots, 2-byte byte slots, and the last segment after twice the default values. */
  function ImageLayoutAsWritten(fs: seq<Field>): Layout
  {
    LayoutFrom(0, 2 * ArrayInitCount(fs), 2 * ReferenceCount(fs), 2 * (ReferenceCount(fs) + DefaultValueCount(fs)),
               fs, true)
  }

  /** The image size as written, with the empty non-default values. */
  function ImageSizeAsWritten(fs: seq<Field>): int
  {
    2 * ReferenceCount(fs) + DefaultValueCount(fs) + |NonDefaultValuesAsWritten(fs)|
  }

  /** A segment's slots lie in `[lo, hi)`, each after the previous one, all of one segment. */
  predicate Packed(s: seq<Cell<Field>>, lo: int, hi: int, seg: Segment)
  {
    (forall i :: 0 <= i < |s| ==>
      SegmentOf(s[i].value) == Some(seg) && s[i].row == s[i].value.name &&
      lo <= s[i].column && s[i].column + SlotWidth(s[i].value, false) <= hi) &&
    (forall i, j :: 0 <= i < j < |s| ==> s[i].column + SlotWidth(s[i].value, false) <= s[j].column)
  }

  lemma PackedWiden(s: seq<Cell<Field>>, lo: int, hi: int, hi': int, seg: Segment)
    requires Packed(s, lo, hi, seg) && hi <= hi'
    ensures Packed(s, lo, hi', seg)
  {
  }

  lemma PackedSnoc(s: seq<Cell<Field>>, lo: int, hi: int, seg: Segment, f: Field)
    requires Packed(s, lo, hi, seg) && lo <= hi && SegmentOf(f) == Some(seg)
    ensures Packed(s + [Cell(f.name, hi, f)], lo, hi + SlotWidth(f, false), seg)
  {
    var s' := s + [Cell(f.name, hi, f)];
    forall i, j | 0 <= i < j < |s'| ensures s'[i].column + SlotWidth(s'[i].value, false) <= s'[j].column {
      if j == |s| {
        assert s'[i] == s[i];
      }
    }
  }

  /** The invariant of `LayoutInvariant`, for the layout `l` of the fields `fs`. */
  predicate LayoutKept(b1: int, b2: int, b3: int, b4: int, fs: seq<Field>, l: Layout)
  {
    l.o1 == b1 + 2 * |l.s1| && l.o2 == b2 + 2 * |l.s2| &&
    l.o3 == b3 + DefaultValueCount(fs) && b4 <= l.o4 <= b4 + |NonDefaultValues(fs)| &&
    |l.s1| == ArrayInitCount(fs) && |l.s1| + |l.s2| <= ReferenceCount(fs) &&
    Packed(l.s1, b1, l.o1, ArrayInitSegment) && Packed(l.s2, b2, l.o2, ReferenceSegment) &&
    Packed(l.s3, b3, l.o3, DefaultSegment) && Packed(l.s4, b4, l.o4, NonDefaultSegment)
  }

  /**
   * What placing the fields one by one keeps: each segment is packed from its base,
   * the array segment takes 2 bytes per initialized array, the reference segments
   * never outgrow the reference count, and the value segments never outgrow the
   * default and non-default byte counts.
   */
  lemma {:induction false} LayoutInvariant(b1: int, b2: int, b3: int, b4: int, fs: seq<Field>)
    ensures LayoutKept(b1, b2, b3, b4, fs, LayoutFrom(b1, b2, b3, b4, fs, false))
    decreases |fs|
  {
    if fs != [] {
      var init := fs[..|fs| - 1];
      var f := fs[|fs| - 1];
      LayoutInvariant(b1, b2, b3, b4, init);
      var l := LayoutFrom(b1, b2, b3, b4, init, false);
      assert init + [f] == fs;
      match SegmentOf(f)
      case None => KeptSkip(b1, b2, b3, b4, init, l, f);
      case Some(ArrayInitSegment) => KeptArrayInit(b1, b2, b3, b4, init, l, f);
      case Some(ReferenceSegment) => KeptReference(b1, b2, b3, b4, init, l, f);
      case Some(DefaultSegment) => KeptDefault(b1, b2, b3, b4, init, l, f);
      case Some(NonDefaultSegment) => KeptNonDefault(b1, b2, b3, b4, init, l, f);
    }
  }

  /** The counts of the fields after one more field. */
  lemma CountsSnoc(fs: seq<Field>, f: Field)
    ensures ArrayInitCount(fs + [f]) == ArrayInitCount(fs) + (if IsInitializedArray(f) && IsPrimitive(f.ftype.kind) then 1 else 0)
    ensures ReferenceCount(fs + [f]) == ReferenceCount(fs) + (if IsReferenceField(f) then 1 else 0)
    ensures DefaultValueCount(fs + [f]) == DefaultValueCount(fs) + (if IsDefaultValue(f) then ScalarSize(f.ftype.kind) else 0)
    ensures NonDefaultValues(fs + [f]) ==
              NonDefaultValues(fs) + (if IsNonDefaultValue(f) then InitBytes(f.ftype.kind, f.initValues) else [])
  {
    assert (fs + [f])[..|fs|] == fs;
  }

  /** A field of no segment keeps the invariant. */
  lemma KeptSkip(b1: int, b2: int, b3: int, b4: int, fs: seq<Field>, l: Layout, f: Field)
    requires LayoutKept(b1, b2, b3, b4, fs, l) && SegmentOf(f).None?
    ensures LayoutKept(b1, b2, b3, b4, fs + [f], Place(l, f, false))
  {
    CountsSnoc(fs, f);
  }

  /** An initialized array keeps the invariant. */
  lemma KeptArrayInit(b1: int, b2: int, b3: int, b4: int, fs: seq<Field>, l: Layout, f: Field)
    requires LayoutKept(b1, b2, b3, b4, fs, l) && SegmentOf(f) == Some(ArrayInitSegment)
    ensures LayoutKept(b1, b2, b3, b4, fs + [f], Place(l, f, false))
  {
    CountsSnoc(fs, f);
    PackedSnoc(l.s1, b1, l.o1, ArrayInitSegment, f);
  }

  /** A reference keeps the invariant. */
  lemma KeptReference(b1: int, b2: int, b3: int, b4: int, fs: seq<Field>, l: Layout, f: Field)
    requires LayoutKept(b1, b2, b3, b4, fs, l) && SegmentOf(f) == Some(ReferenceSegment)
    ensures LayoutKept(b1, b2, b3, b4, fs + [f], Place(l, f, false))
  {
    CountsSnoc(fs, f);
    PackedSnoc(l.s2, b2, l.o2, ReferenceSegment, f);
  }

  /** A default-valued primitive keeps the invariant. */
  lemma KeptDefault(b1: int, b2: int, b3: int, b4: int, fs: seq<Field>, l: Layout, f: Field)
    requires LayoutKept(b1, b2, b3, b4, fs, l) && SegmentOf(f) == Some(DefaultSegment)
    ensures LayoutKept(b1, b2, b3, b4, fs + [f], Place(l, f, false))
  {
    CountsSnoc(fs, f);
    PackedSnoc(l.s3, b3, l.o3, DefaultSegment, f);
  }

  /** An initialized primitive keeps the invariant. */
  lemma KeptNonDefault(b1: int, b2: int, b3: int, b4: int, fs: seq<Field>, l: Layout, f: Field)
    requires LayoutKept(b1, b2, b3, b4, fs, l) && SegmentOf(f) == Some(NonDefaultSegment)
    ensures LayoutKept(b1, b2, b3, b4, fs + [f], Place(l, f, false))
  {
    CountsSnoc(fs, f);
    PackedSnoc(l.s4, b4, l.o4, NonDefaultSegment, f);
    assert |InitBytes(f.ftype.kind, f.initValues)| >= ScalarSize(f.ftype.kind);
  }

  /**
   * The image layout is sound: the four segments follow each other without overlap,
   * every slot of every segment is disjoint from the others of its segment, and the
   * last slot ends within `image_size`.
   */
  lemma ImageLayoutSound(fs: seq<Field>)
    ensures var l := ImageLayout(fs);
            var aic, rc, dvc := ArrayInitCount(fs), ReferenceCount(fs), DefaultValueCount(fs);
            Packed(l.s1, 0, 2 * aic, ArrayInitSegment) &&
            Packed(l.s2, 2 * aic, 2 * rc, ReferenceSegment) &&
            Packed(l.s3, 2 * rc, 2 * rc + dvc, DefaultSegment) &&
            Packed(l.s4, 2 * rc + dvc, ImageSize(fs), NonDefaultSegment)
  {
    var aic, rc, dvc := ArrayInitCount(fs), ReferenceCount(fs), DefaultValueCount(fs);
    LayoutInvariant(0, 2 * aic, 2 * rc, 2 * rc + dvc, fs);
    var l := ImageLayout(fs);
    PackedWiden(l.s2, 2 * aic, l.o2, 2 * rc, ReferenceSegment);
    PackedWiden(l.s4, 2 * rc + dvc, l.o4, ImageSize(fs), NonDefaultSegment);
  }

  // ---------------------------------------------------------------- the image table

  /** The segments as sorted tables, merged in segment order with `putAll`. */
  function ImageOf(l: Layout): seq<Cell<Field>>
  {
    var t1, t2, t3, t4 := PutAll([], l.s1), PutAll([], l.s2), PutAll([], l.s3), PutAll([], l.s4);
    PutAll(PutAll(PutAll(PutAll([], t1), t2), t3), t4)
  }

  /** The static field image: field name and offset to field. */
  function Image(fs: seq<Field>): seq<Cell<Field>>
  {
    ImageOf(ImageLayout(fs))
  }

  /** The table of a packed segment holds each of its cells, and only cells of the segment. */
  lemma SegmentTable(s: seq<Cell<Field>>, lo: int, hi: int, seg: Segment)
    requires Packed(s, lo, hi, seg)
    ensures forall c :: c in s ==> c in PutAll([], s)
    ensures forall c :: c in PutAll([], s) ==> c in s
  {
    forall c | c in s ensures c in PutAll([], s) {
      var i :| 0 <= i < |s| && s[i] == c;
      PutAllGet([], s, c.row, c.column);
      var r := LastWith(s, c.row, c.column);
      assert SlotWidth(s[i].value, false) > 0 && SlotWidth(s[r].value, false) > 0;
      assert r == i;
      GetIn(PutAll([], s), c.row, c.column);
    }
    forall c | c in PutAll([], s) ensures c in s {
      PutAllFrom([], s, c);
    }
  }

  /** Every cell of the table `t` has its column in `[lo, hi)`. */
  predicate ColumnsIn(t: seq<Cell<Field>>, lo: int, hi: int)
  {
    forall c :: c in t ==> lo <= c.column < hi
  }

  /** The table of a packed segment keeps its columns inside the segment. */
  lemma PackedColumns(s: seq<Cell<Field>>, lo: int, hi: int, seg: Segment)
    requires Packed(s, lo, hi, seg)
    ensures ColumnsIn(PutAll([], s), lo, hi)
    ensures forall c :: c in s ==> c in PutAll([], s)
  {
    SegmentTable(s, lo, hi, seg);
    forall c | c in PutAll([], s) ensures lo <= c.column < hi {
      var i :| 0 <= i < |s| && s[i] == c;
      assert SlotWidth(s[i].value, false) > 0;
    }
  }

  /** A cell of one of four tables over disjoint column ranges is found in their merge. */
  lemma MergeFinds(t1: seq<Cell<Field>>, t2: seq<Cell<Field>>, t3: seq<Cell<Field>>, t4: seq<Cell<Field>>,
                   b1: int, b2: int, b3: int, b4: int, b5: int, c: Cell<Field>)
    requires Ascending(t1) && Ascending(t2) && Ascending(t3) && Ascending(t4)
    requires b2 <= b3 <= b4
    requires ColumnsIn(t1, b1, b2) && ColumnsIn(t2, b2, b3) && ColumnsIn(t3, b3, b4) && ColumnsIn(t4, b4, b5)
    requires c in t1 || c in t2 || c in t3 || c in t4
    ensures Get(MergeSegments(t1, t2, t3, t4), c.row, c.column) == Some(c.value)
  {
    var m1 := PutAll([], t1);
    var m2 := PutAll(m1, t2);
    var m3 := PutAll(m2, t3);
    if c in t1 {
      assert b1 <= c.column < b2;
      PutAllTake([], t1, c);
      ColumnsAvoid(t2, b2, b3, c.column);
      ColumnsAvoid(t3, b3, b4, c.column);
      ColumnsAvoid(t4, b4, b5, c.column);
      PutAllKeep(m1, t2, c.row, c.column);
      PutAllKeep(m2, t3, c.row, c.column);
      PutAllKeep(m3, t4, c.row, c.column);
    } else if c in t2 {
      assert b2 <= c.column < b3;
      PutAllTake(m1, t2, c);
      ColumnsAvoid(t3, b3, b4, c.column);
      ColumnsAvoid(t4, b4, b5, c.column);
      PutAllKeep(m2, t3, c.row, c.column);
      PutAllKeep(m3, t4, c.row, c.column);
    } else if c in t3 {
      assert b3 <= c.column < b4;
      PutAllTake(m2, t3, c);
      ColumnsAvoid(t4, b4, b5, c.column);
      PutAllKeep(m3, t4, c.row, c.column);
    } else {
      PutAllTake(m3, t4, c);
    }
  }

  /** No cell of a table over `[lo, hi)` sits at a column outside that range. */
  lemma ColumnsAvoid(t: seq<Cell<Field>>, lo: int, hi: int, column: int)
    requires ColumnsIn(t, lo, hi) && !(lo <= column < hi)
    ensures forall c :: c in t ==> c.column != column
  {
  }

  /** Every placed field is found in the image under its name and offset. */
  lemma ImageFindsField(fs: seq<Field>, c: Cell<Field>)
    requires var l := ImageLayout(fs); c in l.s1 || c in l.s2 || c in l.s3 || c in l.s4
    ensures Get(Image(fs), c.row, c.column) == Some(c.value)
  {
    var l := ImageLayout(fs);
    var aic, rc, dvc := ArrayInitCount(fs), ReferenceCount(fs), DefaultValueCount(fs);
    ImageLayoutSound(fs);
    PackedColumns(l.s1, 0, 2 * aic, ArrayInitSegment);
    PackedColumns(l.s2, 2 * aic, 2 * rc, ReferenceSegment);
    PackedColumns(l.s3, 2 * rc, 2 * rc + dvc, DefaultSegment);
    PackedColumns(l.s4, 2 * rc + dvc, ImageSize(fs), NonDefaultSegment);
    LayoutInvariant(0, 2 * aic, 2 * rc, 2 * rc + dvc, fs);
    assert Image(fs) == MergeSegments(PutAll([], l.s1), PutAll([], l.s2), PutAll([], l.s3), PutAll([], l.s4));
    MergeFinds(PutAll([], l.s1), PutAll([], l.s2), PutAll([], l.s3), PutAll([], l.s4),
               0, 2 * aic, 2 * rc, 2 * rc + dvc, ImageSize(fs), c);
  }

  /**
   * Every cell of the image is a placed static field that is not a constant, under
   * its own name, with its slot inside `image_size`.
   */
  lemma ImageCellsPlaced(fs: seq<Field>, c: Cell<Field>)
    requires c in Image(fs)
    ensures var l := ImageLayout(fs); c in l.s1 || c in l.s2 || c in l.s3 || c in l.s4
    ensures SegmentOf(c.value).Some? && c.value.isStatic && !IsConstant(c.value) && c.row == c.value.name
    ensures 0 <= c.column && c.column + SlotWidth(c.value, false) <= ImageSize(fs)
  {
    var l := ImageLayout(fs);
    var aic, rc, dvc := ArrayInitCount(fs), ReferenceCount(fs), DefaultValueCount(fs);
    LayoutInvariant(0, 2 * aic, 2 * rc, 2 * rc + dvc, fs);
    ImageLayoutSound(fs);
    SegmentTable(l.s1, 0, 2 * aic, ArrayInitSegment);
    SegmentTable(l.s2, 2 * aic, 2 * rc, ReferenceSegment);
    SegmentTable(l.s3, 2 * rc, 2 * rc + dvc, DefaultSegment);
    SegmentTable(l.s4, 2 * rc + dvc, ImageSize(fs), NonDefaultSegment);
    var t1, t2, t3, t4 := PutAll([], l.s1), PutAll([], l.s2), PutAll([], l.s3), PutAll([], l.s4);
    var m1 := PutAll([], t1);
    var m2 := PutAll(m1, t2);
    var m3 := PutAll(m2, t3);
    PutAllFrom(m3, t4, c);
    if c in m3 {
      PutAllFrom(m2, t3, c);
      if c in m2 {
        PutAllFrom(m1, t2, c);
        if c in m1 {
          PutAllFrom([], t1, c);
        }
      }
    }
  }

  lemma LayoutStep(b1: int, b2: int, b3: int, b4: int, fs: seq<Field>, k: int)
    requires 0 <= k < |fs|
    ensures LayoutFrom(b1, b2, b3, b4, fs[..k + 1], false) == Place(LayoutFrom(b1, b2, b3, b4, fs[..k], false), fs[k], false)
  {
    assert fs[..k + 1][..k] == fs[..k];
  }

  lemma ImageFromCounts(fs: seq<Field>, aic: int, rc: int, dvc: int)
    requires aic == ArrayInitCount(fs) && rc == ReferenceCount(fs) && dvc == DefaultValueCount(fs)
    ensures ImageOf(LayoutFrom(0, 2 * aic, 2 * rc, 2 * rc + dvc, fs, false)) == Image(fs)
  {
    assert LayoutFrom(0, 2 * aic, 2 * rc, 2 * rc + dvc, fs, false) == ImageLayout(fs);
  }

  /** `Table.put` of one cell into a segment table built from `cells`. */
  method PutCell(table: seq<Cell<Field>>, ghost cells: seq<Cell<Field>>, c: Cell<Field>) returns (r: seq<Cell<Field>>)
    requires table == PutAll([], cells)
    ensures r == PutAll([], cells + [c])
  {
    PutAllSnoc([], cells, c);
    r := Put(table, c.row, c.column, c.value);
  }

  /** The four segment tables and their next free offsets, as the image generation keeps them. */
  predicate Tracks(l: Layout, t1: seq<Cell<Field>>, t2: seq<Cell<Field>>, t3: seq<Cell<Field>>, t4: seq<Cell<Field>>,
                   o1: int, o2: int, o3: int, o4: int)
  {
    t1 == PutAll([], l.s1) && t2 == PutAll([], l.s2) && t3 == PutAll([], l.s3) && t4 == PutAll([], l.s4) &&
    o1 == l.o1 && o2 == l.o2 && o3 == l.o3 && o4 == l.o4
  }

  /** One iteration of the image loop: the field goes into the table of its segment at that segment's next offset. */
  method PlaceField(ghost l: Layout, t1: seq<Cell<Field>>, t2: seq<Cell<Field>>, t3: seq<Cell<Field>>, t4: seq<Cell<Field>>,
                    o1: int, o2: int, o3: int, o4: int, f: Field)
    returns (t1': seq<Cell<Field>>, t2': seq<Cell<Field>>, t3': seq<Cell<Field>>, t4': seq<Cell<Field>>,
             o1': int, o2': int, o3': int, o4': int)
    requires Tracks(l, t1, t2, t3, t4, o1, o2, o3, o4)
    ensures Tracks(Place(l, f, false), t1', t2', t3', t4', o1', o2', o3', o4')
  {
    t1', t2', t3', t4', o1', o2', o3', o4' := t1, t2, t3, t4, o1, o2, o3, o4;
    var w := SlotWidth(f, false);
    match SegmentOf(f) {
      case None =>
      case Some(ArrayInitSegment) =>
        t1' := PutCell(t1, l.s1, Cell(f.name, o1, f));
        o1' := o1 + w;
      case Some(ReferenceSegment) =>
        t2' := PutCell(t2, l.s2, Cell(f.name, o2, f));
        o2' := o2 + w;
      case Some(DefaultSegment) =>
        t3' := PutCell(t3, l.s3, Cell(f.name, o3, f));
        o3' := o3 + w;
      case Some(NonDefaultSegment) =>
        t4' := PutCell(t4, l.s4, Cell(f.name, o4, f));
        o4' := o4 + w;
    }
  }

  /** `generateStaticFieldImage`: place each field in its segment table, then merge the four tables. */
  method GenerateStaticFieldImage(fs: seq<Field>, arrayInitCount: int, referenceCount: int, defaultValueCount: int)
    returns (image: seq<Cell<Field>>)
    ensures image == ImageOf(LayoutFrom(0, 2 * arrayInitCount, 2 * referenceCount,
                                        2 * referenceCount + defaultValueCount, fs, false))
  {
    var b2, b3, b4 := 2 * arrayInitCount, 2 * referenceCount, 2 * referenceCount + defaultValueCount;
    var segment1, segment2, segment3, segment4 := PlaceFields(fs, b2, b3, b4);
    image := MergeSegments(segment1, segment2, segment3, segment4);
  }

  /** Merging the segment tables of a layout gives its image. */
  lemma SegmentsMerge(l: Layout, t1: seq<Cell<Field>>, t2: seq<Cell<Field>>, t3: seq<Cell<Field>>, t4: seq<Cell<Field>>)
    requires Segments(l, t1, t2, t3, t4)
    ensures MergeSegments(t1, t2, t3, t4) == ImageOf(l)
  {
  }

  /** The segment tables of a layout. */
  predicate Segments(l: Layout, t1: seq<Cell<Field>>, t2: seq<Cell<Field>>, t3: seq<Cell<Field>>, t4: seq<Cell<Field>>)
  {
    t1 == PutAll([], l.s1) && t2 == PutAll([], l.s2) && t3 == PutAll([], l.s3) && t4 == PutAll([], l.s4)
  }

  /** The four segment tables merged in order. */
  function MergeSegments(t1: seq<Cell<Field>>, t2: seq<Cell<Field>>, t3: seq<Cell<Field>>, t4: seq<Cell<Field>>)
    : (r: seq<Cell<Field>>)
  {
    PutAll(PutAll(PutAll(PutAll([], t1), t2), t3), t4)
  }

  /** The loop of `generateStaticFieldImage`: the four segment tables after every field is placed. */
  method PlaceFields(fs: seq<Field>, b2: int, b3: int, b4: int)
    returns (segment1: seq<Cell<Field>>, segment2: seq<Cell<Field>>, segment3: seq<Cell<Field>>, segment4: seq<Cell<Field>>)
    ensures Segments(LayoutFrom(0, b2, b3, b4, fs, false), segment1, segment2, segment3, segment4)
    ensures MergeSegments(segment1, segment2, segment3, segment4) == ImageOf(LayoutFrom(0, b2, b3, b4, fs, false))
  {
    segment1, segment2, segment3, segment4 := [], [], [], [];
    var offset1, offset2, offset3, offset4 := 0, b2, b3, b4;
    ghost var l := LayoutFrom(0, b2, b3, b4, [], false);
    var k := 0;
    while k < |fs|
      invariant 0 <= k <= |fs| && l == LayoutFrom(0, b2, b3, b4, fs[..k], false)
      invariant Tracks(l, segment1, segment2, segment3, segment4, offset1, offset2, offset3, offset4)
    {
      LayoutStep(0, b2, b3, b4, fs, k);
      segment1, segment2, segment3, segment4, offset1, offset2, offset3, offset4 :=
        PlaceField(l, segment1, segment2, segment3, segment4, offset1, offset2, offset3, offset4, fs[k]);
      l := Place(l, fs[k], false);
      k := k + 1;
    }
    assert fs[..k] == fs;
    SegmentsMerge(l, segment1, segment2, segment3, segment4);
  }

  // ---------------------------------------------------------------- findings about the layout as written

  function StaticOf(k: Kind, isArray: bool, name: string, init: seq<int>): Field
  {
    Field(PUBLIC, false, true, JType(k, isArray, ClassRef(None, false, 0, 0)), name, init, false, 0)
  }

  /**
   * As written, two initialized `int[]` statics and an uninitialized reference: the
   * second array's slot at offset 4 is also the reference's slot.
   */
  lemma IntArraySlotOverlapsAsWritten()
    ensures var fs := [StaticOf(INT, true, "a", [1]), StaticOf(INT, true, "b", [2]), StaticOf(REFERENCE, false, "r", [])];
            var l := ImageLayoutAsWritten(fs);
            |l.s1| == 2 && |l.s2| == 1 && l.s1[1].column == 4 && l.s2[0].column == 4
  {
    var a, b, r := StaticOf(INT, true, "a", [1]), StaticOf(INT, true, "b", [2]), StaticOf(REFERENCE, false, "r", []);
    var fs := [a, b, r];
    assert [] + [a] == [a] && [a] + [b] == [a, b] && [a, b] + [r] == fs;
    assert fs[..2] == [a, b] && [a, b][..1] == [a] && [a][..0] == [];
    assert IsInitializedArray(a) && IsInitializedArray(b) && !IsInitializedArray(r);
    assert ArrayInitCount([a]) == 1;
    assert ArrayInitCount([a, b]) == 2;
    assert ArrayInitCount(fs) == 2;
    var b3, b4 := 2 * ReferenceCount(fs), 2 * (ReferenceCount(fs) + DefaultValueCount(fs));
    assert SegmentOf(a) == Some(ArrayInitSegment) && SegmentOf(b) == Some(ArrayInitSegment);
    assert SegmentOf(r) == Some(ReferenceSegment);
    var l0 := LayoutFrom(0, 4, b3, b4, [], true);
    LayoutFromSnoc(0, 4, b3, b4, [], a, true);
    var l1 := Place(l0, a, true);
    assert l1.s1 == [Cell("a", 0, a)] && l1.o1 == 4 && l1.s2 == [] && l1.o2 == 4;
    LayoutFromSnoc(0, 4, b3, b4, [a], b, true);
    var l2 := Place(l1, b, true);
    assert l2.s1 == [Cell("a", 0, a), Cell("b", 4, b)] && l2.s2 == [] && l2.o2 == 4;
    LayoutFromSnoc(0, 4, b3, b4, [a, b], r, true);
    var l3 := Place(l2, r, true);
    assert l3.s1 == l2.s1 && l3.s2 == [Cell("r", 4, r)];
  }

  /**
   * As written, two uninitialized `byte` statics: the second sits at offset 2 while
   * the image is 2 bytes long.
   */
  lemma ByteSlotOutsideImageAsWritten()
    ensures var fs := [StaticOf(BYTE, false, "x", []), StaticOf(BYTE, false, "y", [])];
            var l := ImageLayoutAsWritten(fs);
            ImageSizeAsWritten(fs) == 2 && |l.s3| == 2 && l.s3[1].column == 2
  {
    var x, y := StaticOf(BYTE, false, "x", []), StaticOf(BYTE, false, "y", []);
    var fs := [x, y];
    assert fs[..1] == [x] && [x][..0] == [];
    assert ReferenceCount([x]) == 0 && ReferenceCount(fs) == 0;
    assert DefaultValueCount([x]) == 1 && DefaultValueCount(fs) == 2;
    assert ArrayInitCount([x]) == 0 && ArrayInitCount(fs) == 0;
    NonDefaultValuesAsWrittenEmpty(fs);
    assert SegmentOf(x) == Some(DefaultSegment) && SlotWidth(x, true) == 2;
    LayoutFromSnoc(0, 0, 0, 4, [], x, true);
    assert [] + [x] == [x];
    var l1 := Place(LayoutFrom(0, 0, 0, 4, [], true), x, true);
    assert l1.s3 == [Cell("x", 0, x)] && l1.o3 == 2;
    LayoutFromSnoc(0, 0, 0, 4, [x], y, true);
    assert [x] + [y] == fs;
    var l2 := Place(l1, y, true);
    assert l2.s3 == [Cell("x", 0, x), Cell("y", 2, y)];
  }

  /**
   * As written, a `short` static initialized to 5: it is placed at offset 0 of an
   * image of size 0, with no non-default value.
   */
  lemma InitializedShortOutsideImageAsWritten()
    ensures var fs := [StaticOf(SHORT, false, "s", [5])];
            var l := ImageLayoutAsWritten(fs);
            NonDefaultValuesAsWritten(fs) == [] && ImageSizeAsWritten(fs) == 0 && |l.s4| == 1 && l.s4[0].column == 0
  {
    var f := StaticOf(SHORT, false, "s", [5]);
    var fs := [f];
    assert fs[..0] == [];
    assert ReferenceCount(fs) == 0 && DefaultValueCount(fs) == 0 && ArrayInitCount(fs) == 0;
    assert NonDefaultValuesAsWritten(fs) == [];
    assert SegmentOf(f) == Some(NonDefaultSegment);
    LayoutFromSnoc(0, 0, 0, 0, [], f, true);
    assert [] + [f] == fs;
    var l := Place(LayoutFrom(0, 0, 0, 0, [], true), f, true);
    assert l.s4 == [Cell("s", 0, f)];
  }

  /**
   * As written, an uninitialized `short` static `a` and a `short` static `b = 5`: the
   * last segment starts at twice the default-value byte count, so `b` sits at offset 4
   * of a 2-byte image, where the intended layout puts it at 2 of a 4-byte image.
   */
  lemma SegmentFourBaseAsWritten()
    ensures var fs := [StaticOf(SHORT, false, "a", []), StaticOf(SHORT, false, "b", [5])];
            var l := ImageLayoutAsWritten(fs);
            var c := ImageLayout(fs);
            && ImageSizeAsWritten(fs) == 2 && |l.s4| == 1 && l.s4[0].column == 4
            && ImageSize(fs) == 4 && |c.s4| == 1 && c.s4[0].column == 2
  {
    var a, b := StaticOf(SHORT, false, "a", []), StaticOf(SHORT, false, "b", [5]);
    var fs := [a, b];
    assert fs[..1] == [a] && [a][..0] == [];
    assert ReferenceCount([a]) == 0 && ReferenceCount(fs) == 0;
    assert DefaultValueCount([a]) == 2 && DefaultValueCount(fs) == 2;
    assert ArrayInitCount([a]) == 0 && ArrayInitCount(fs) == 0;
    NonDefaultValuesAsWrittenEmpty(fs);
    assert InitBytes(SHORT, [5]) == BigEndian16(5) by {
      assert [5][..0] == [];
    }
    assert NonDefaultValues([a]) == [];
    assert |NonDefaultValues(fs)| == 2;
    assert SegmentOf(a) == Some(DefaultSegment) && SegmentOf(b) == Some(NonDefaultSegment);
    assert [] + [a] == [a] && [a] + [b] == fs;
    LayoutFromSnoc(0, 0, 0, 4, [], a, true);
    LayoutFromSnoc(0, 0, 0, 4, [a], b, true);
    var l := Place(Place(LayoutFrom(0, 0, 0, 4, [], true), a, true), b, true);
    assert l.s4 == [Cell("b", 4, b)];
    LayoutFromSnoc(0, 0, 0, 2, [], a, false);
    LayoutFromSnoc(0, 0, 0, 2, [a], b, false);
    var c := Place(Place(LayoutFrom(0, 0, 0, 2, [], false), a, false), b, false);
    assert c.s4 == [Cell("b", 2, b)];
  }

  // ---------------------------------------------------------------- the component

  datatype StaticFieldComponent = StaticFieldComponent(
    imageSize: int, referenceCount: int, arrayInitCount: int, arrayInit: seq<ArrayInitInfo>,
    defaultValueCount: int, nonDefaultValueCount: int, nonDefaultValues: seq<int>,
    staticFieldImage: seq<Cell<Field>>, size: int)

  /** The bytes of the `array_init` entries: type, 16-bit count, values. */
  function ArrayInitBytes(infos: seq<ArrayInitInfo>): (r: seq<int>)
  {
    if infos == [] then []
    else
      var a := infos[|infos| - 1];
      ArrayInitBytes(infos[..|infos| - 1]) + [ToByte(a.atype)] + BigEndian16(a.count) + a.values
  }

  /** The component's body in the order of section 6.10 of the Java Card 2.1 VM specification. */
  function ComponentBytes(c: StaticFieldComponent): seq<int>
  {
    BigEndian16(c.imageSize) + BigEndian16(c.referenceCount) + BigEndian16(c.arrayInitCount) +
    ArrayInitBytes(c.arrayInit) + BigEndian16(c.defaultValueCount) + BigEndian16(c.nonDefaultValueCount) +
    c.nonDefaultValues
  }

  /** `computeComponentSize`: ten bytes of counts, the non-default values, and each entry's type, count and values. */
  method ComputeComponentSize(nonDefaultValueCount: int, arrayInit: seq<ArrayInitInfo>) returns (size: int)
    ensures size == 10 + nonDefaultValueCount + |ArrayInitBytes(arrayInit)|
  {
    size := 10 + nonDefaultValueCount;
    var k := 0;
    while k < |arrayInit|
      invariant 0 <= k <= |arrayInit| && size == 10 + nonDefaultValueCount + |ArrayInitBytes(arrayInit[..k])|
    {
      assert arrayInit[..k + 1][..k] == arrayInit[..k];
      size := size + 1 + 2 + |arrayInit[k].values|;
      k := k + 1;
    }
    assert arrayInit[..k] == arrayInit;
  }

  /** The recorded size is the length of the component's body. */
  lemma SizeIsLength(c: StaticFieldComponent)
    requires c.nonDefaultValueCount == |c.nonDefaultValues|
    requires c.size == 10 + c.nonDefaultValueCount + |ArrayInitBytes(c.arrayInit)|
    ensures |ComponentBytes(c)| == c.size
  {
  }

  /** The static field component of a package, built in the source's order. */
  method Build(objs: seq<Object>) returns (c: StaticFieldComponent)
    ensures var fs := AllFields(objs);
            c.referenceCount == ReferenceCount(fs) && c.arrayInit == ArrayInits(fs) &&
            c.arrayInitCount == ArrayInitCount(fs) && c.defaultValueCount == DefaultValueCount(fs) &&
            c.nonDefaultValues == NonDefaultValues(fs) && c.nonDefaultValueCount == |c.nonDefaultValues| &&
            c.imageSize == ImageSize(fs) && c.staticFieldImage == Image(fs) &&
            |ComponentBytes(c)| == c.size
  {
    var fs := AllFields(objs);
    var referenceCount := ComputeReferenceCount(fs);
    var arrayInit, arrayInitCount := GenerateArrayInit(fs);
    var defaultValueCount := ComputeDefaultValue(fs);
    var nonDefaultValues := ComputeNonDefaultValues(fs);
    var imageSize := 2 * referenceCount + defaultValueCount + |nonDefaultValues|;
    var image := GenerateStaticFieldImage(fs, arrayInitCount, referenceCount, defaultValueCount);
    ImageFromCounts(fs, arrayInitCount, referenceCount, defaultValueCount);
    var size := ComputeComponentSize(|nonDefaultValues|, arrayInit);
    c := StaticFieldComponent(imageSize, referenceCount, arrayInitCount, arrayInit, defaultValueCount,
                              |nonDefaultValues|, nonDefaultValues, image, size);
    SizeIsLength(c);
  }
}
